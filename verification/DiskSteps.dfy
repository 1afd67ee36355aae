/** Each elementary change of the shard in full: it keeps the invariant, and this is what it does to the
    buckets the cache knows and to what a restart will find. */
module DiskSteps {
  import opened Records
  import opened Store
  import opened DiskState
  import opened DiskOps
  import opened DiskFolder

  lemma UnrefAll(s: Shard, n: string, removed: bool) returns (gone: set<string>)
    requires InvHot(s, Some(n)) && n in s.files && Chained(s)
    ensures var t := Unref(s, n, removed);
            && Inv(t) && Chained(t) && View(t) == View(s)
            && FolderOf(t.disk) == Swept(FolderOf(s.disk), gone) && Idle(View(t), gone)
            && gone == Gone(s, n, removed) && t.disk.Keys == s.disk.Keys - gone
            && (Exact(s) ==> Exact(t))
  {
    hide Names, Distinct, Bounds, Disjoint, RefCounts, Totals, Packed, Chained, FolderOf, TailEntries, KnownEntries;
    hide Idle, Exact;
    gone := Gone(s, n, removed);
    UnrefKeys(s, n, removed);
    UnrefInv(s, n, removed);
    UnrefView(s, n, removed);
    UnrefChained(s, n, removed);
    UnrefFolder(s, n, removed);
    GoneIsIdle(s, n, removed);
    if Exact(s) { UnrefExact(s, n, removed); }
    hide Unref, Gone, View, Swept;
  }

  lemma UnrefKeys(s: Shard, n: string, removed: bool)
    requires n in s.files
    ensures Unref(s, n, removed).disk.Keys == s.disk.Keys - Gone(s, n, removed) && Gone(s, n, removed) <= {n}
  {}

  lemma ClearWritingAll(s: Shard)
    requires Inv(s) && Chained(s) && s.writing.Some?
    ensures var t := s.(writing := None);
            InvHot(t, s.writing) && Chained(t) && View(t) == View(s) && (Exact(s) ==> Exact(t))
  {
    var t := s.(writing := None);
    ClearWritingInv(s);
    hide Distinct, Bounds, Disjoint, RefCounts, Totals, Packed, FolderOf;
    TailSame(s, t);
    SameChained(s, t);
  }

  lemma ClearTailAll(s: Shard) returns (skipped: nat)
    requires Inv(s) && Chained(s) && s.tail.Some?
    ensures skipped == |Unread(s, s.tail.value)| <= |View(s).tail|
    ensures var t := s.(tail := None);
            && InvHot(t, s.tail) && Chained(t) && View(t) == Skip(View(s), skipped)
            && (forall i | 0 <= i < skipped :: View(s).tail[i].file == s.tail.value)
            && (Exact(s) && skipped == 0 ==> Exact(t))
  {
    var t := s.(tail := None);
    ClearTailInv(s);
    hide Distinct, Bounds, Disjoint, RefCounts, Totals, Packed, FolderOf;
    GivenUp(s);
    SameChained(s, t);
    skipped := |Unread(s, s.tail.value)|;
    hide Names, Chained, View;
  }

  lemma CreateAll(s: Shard, name: string)
    requires Inv(s) && Chained(s) && s.writing.None? && name !in s.disk
    ensures var t := Create(s, name);
            && Inv(t) && Chained(t) && View(t) == View(s) && FolderOf(t.disk) == FolderOf(s.disk)
            && (Exact(s) ==> Exact(t))
  {
    CreateFolder(s, name);
    NotInFolder(s.disk, name);
    hide Names, Distinct, Bounds, Disjoint, RefCounts, Totals, Packed, Chained, FolderOf, TailEntries, KnownEntries;
    CreateInv(s, name);
    CreateView(s, name);
    CreateChained(s, name);
  }

  lemma NotInFolder(disk: map<string, seq<byte>>, name: string)
    requires name !in disk
    ensures name !in FolderOf(disk).broken
  {}

  /** A failed write, whose bytes may be a whole record after all. */
  lemma TearAll(s: Shard, e: seq<byte>, whole: Option<KnownBucket>)
    requires Inv(s) && Chained(s) && s.writing.Some? && s.writing.value in s.disk
    requires match whole
             case None => !WellSized(s.disk[s.writing.value] + e, |s.disk[s.writing.value]|)
             case Some(k) => Completes(s.disk[s.writing.value], e, k)
    ensures var t, w := Tear(s, e), s.writing.value;
            && InvHot(t, s.writing) && Chained(t) && View(t) == View(s)
            && FolderOf(t.disk) == (match whole
                                    case None => FolderOf(s.disk)
                                    case Some(k) => Added(FolderOf(s.disk), Entry(w, KnownRecord(s.disk[w] + e, k))))
            && (Exact(s) && whole.None? ==> Exact(t))
  {
    var w := s.writing.value;
    match whole {
      case None => TornFolder(s.disk, w, e);
      case Some(k) => WrittenFolder(s.disk, w, e, k);
    }
    hide Names, Distinct, Bounds, Disjoint, RefCounts, Totals, Packed, Chained, FolderOf, TailEntries, KnownEntries;
    hide Completes, WellSized;
    TearInv(s, e);
    TearChained(s, e);
  }

  lemma AppendAll(s: Shard, e: seq<byte>, time: uint32, body: seq<byte>, crc: uint32)
    requires Inv(s) && Chained(s) && s.writing.Some? && s.last >= 0 && e == Encode(time, body, crc)
    requires |body| <= MAX_CHUNK_SIZE && |s.disk[s.writing.value]| + HEADER_SIZE + |body| <= FILE_ROTATE_SIZE
    ensures var t := Append(s, e, time, body, crc);
            var x := Entry(s.writing.value, Record(|s.disk[s.writing.value]|, time, crc, body));
            && Inv(t) && Chained(t) && View(t) == Save(View(s), x) && FolderOf(t.disk) == Added(FolderOf(s.disk), x)
            && x !in OnDisk(View(s)) && (Exact(s) ==> Exact(t))
  {
    hide Distinct, Disjoint, RefCounts, Totals, Packed, Exact, FolderOf, TailEntries, KnownEntries, Chained;
    hide Encode, Completes, View, Save, Added;
    var w, t := s.writing.value, Append(s, e, time, body, crc);
    WritingSize(s);
    EncodeCompletes(s.disk[w], time, body, crc, t.known[s.last + 1]);
    Appended(s, e, time, body, crc);
    hide OnDisk;
    FreshPlace(s, Entry(w, Record(|s.disk[w]|, time, crc, body)));
    hide Names, Bounds;
    AppendInv(s, e, time, body, crc);
    AppendView(s, e, time, body, crc);
    AppendChained(s, e, time, body, crc);
    if Exact(s) { AppendExact(s, t, Entry(w, Record(|s.disk[w]|, time, crc, body))); }
  }

  /** A restart will find the record that is appended. */
  lemma Appended(s: Shard, e: seq<byte>, time: uint32, body: seq<byte>, crc: uint32)
    requires Names(s) && Bounds(s) && Chained(s) && s.writing.Some?
    requires var w, k := s.writing.value, Append(s, e, time, body, crc).known[s.last + 1];
             && Completes(s.disk[w], e, k)
             && KnownRecord(s.disk[w] + e, k) == Record(|s.disk[w]|, time, crc, body)
    ensures var w := s.writing.value;
            FolderOf(s.disk[w := s.disk[w] + e]) ==
            Added(FolderOf(s.disk), Entry(w, Record(|s.disk[w]|, time, crc, body)))
    ensures |e| == HEADER_SIZE + |body| && forall id | id in s.known :: id <= s.last
  {
    WritingSize(s);
    assert Chain(s.disk[s.writing.value], 0, |s.disk[s.writing.value]|);
    hide FolderOf, Added, Chain, Chained, Names, Good, Records.Next, RecordAt, KnownRecord;
    WrittenFolder(s.disk, s.writing.value, e, Append(s, e, time, body, crc).known[s.last + 1]);
  }

  lemma ForgetAll(s: Shard, id: int, written: nat)
    requires Inv(s) && Chained(s) && id in s.known && written <= 4
    ensures var t := Forget(s, id, written);
            && InvHot(t, Some(s.known[id].file)) && Chained(t) && View(t) == Drop(View(s), id)
            && FolderOf(t.disk) == Marked(FolderOf(s.disk), EntryOf(s.disk, s.known[id]), written)
            && (Exact(s) && written == 4 ==> Exact(t))
  {
    hide Names, Distinct, Bounds, Disjoint, RefCounts, Totals, Packed, Chained, FolderOf, TailEntries, KnownEntries;
    ForgetInv(s, id, written);
    ForgetKnown(s, id, written);
    ForgetTail(s, id, written);
    ForgetChained(s, id, written);
    ForgetFolder(s, id, written);
    hide Exact, EntryOf, Marked;
    if Exact(s) && written == 4 { ForgetExact(s, id); }
  }

  lemma SkipAll(s: Shard) returns (skipped: nat)
    requires Inv(s) && Chained(s) && s.tail.None? && s.waiting != []
    ensures skipped <= |View(s).tail|
    ensures var t := SkipWaiting(s);
            && Inv(t) && Chained(t) && View(t) == Skip(View(s), skipped)
            && (forall i | 0 <= i < skipped :: View(s).tail[i].file == s.waiting[0].name)
            && (Exact(s) && skipped == 0 ==> Exact(t))
  {
    var t := SkipWaiting(s);
    hide Distinct, Disjoint, RefCounts, Totals, Packed, FolderOf, TailEntries, KnownEntries;
    SkipWaitingInv(s);
    hide Names, Bounds;
    SkippedOver(s);
    SameChained(s, t);
    skipped := |Scan(s.disk[s.waiting[0].name], 0)|;
    hide Chained, View;
  }

  lemma OpenTailAll(s: Shard)
    requires Inv(s) && Chained(s) && s.tail.None? && s.waiting != []
    ensures var t := OpenTail(s);
            Inv(t) && Chained(t) && View(t) == View(s) && (Exact(s) ==> Exact(t))
  {
    hide Names, Distinct, Bounds, Disjoint, RefCounts, Totals, Packed, Chained, FolderOf, TailEntries, KnownEntries;
    OpenTailInv(s);
    OpenTailView(s);
    OpenTailChained(s);
  }

  lemma AdvanceAll(s: Shard)
    requires Inv(s) && Chained(s) && OnChunk(s)
    requires Passable(s.disk[s.tail.value], s.files[s.tail.value].nextPos)
    requires !Good(s.disk[s.tail.value], s.files[s.tail.value].nextPos)
    ensures Inv(Advance(s)) && Chained(Advance(s)) && View(Advance(s)) == View(s) && (Exact(s) ==> Exact(Advance(s)))
  {
    hide Names, Distinct, Bounds, Disjoint, RefCounts, Totals, Packed, Chained, FolderOf, TailEntries, KnownEntries;
    AdvanceInv(s);
    AdvanceView(s);
    AdvanceChained(s);
  }

  lemma TakeAll(s: Shard)
    requires Inv(s) && Chained(s) && OnChunk(s) && s.last >= 0
    requires Good(s.disk[s.tail.value], s.files[s.tail.value].nextPos)
    ensures s.last + 1 !in s.known && View(s).tail != []
    ensures var t := Take(s);
            Inv(t) && Chained(t) && View(t) == TakeTail(View(s)) && (Exact(s) ==> Exact(t))
    ensures View(s).tail[0].record.time == Uint32At(s.disk[s.tail.value], s.files[s.tail.value].nextPos + 4)
  {
    TakeBounds(s);
    TakeKnown(s);
    assert forall id | id in s.known :: id <= s.last;
    hide Names, Distinct, Bounds, Disjoint, RefCounts, Totals, Packed, Chained, FolderOf, TailEntries, KnownEntries;
    hide Exact;
    TakeInv(s);
    TakeView(s);
    TakeChained(s);
    if Exact(s) { TakeExact(s, Take(s)); }
  }
}
