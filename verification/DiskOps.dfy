/** The elementary changes the disk cache makes to its state, and that each keeps the invariant. */
module DiskOps {
  import opened Records
  import opened MapSums
  import opened Store
  import opened DiskState

  // ---------- states that mean the same ----------

  lemma KnownSame(d: map<string, seq<byte>>, e: map<string, seq<byte>>, known: map<int, KnownBucket>)
    requires forall id | id in known :: EntryOf(d, known[id]) == EntryOf(e, known[id])
    ensures KnownEntries(d, known) == KnownEntries(e, known)
  {
    forall id | id in known ensures KnownEntries(d, known)[id] == KnownEntries(e, known)[id] {
      assert EntryOf(d, known[id]) == EntryOf(e, known[id]);
    }
  }

  lemma KnownMore(d: map<string, seq<byte>>, known: map<int, KnownBucket>, id: int, k: KnownBucket)
    ensures KnownEntries(d, known[id := k]) == KnownEntries(d, known)[id := EntryOf(d, k)]
  {
    hide EntryOf;
  }

  /** Bytes added behind a record do not change it. */
  lemma EntryGrown(d: map<string, seq<byte>>, w: string, more: seq<byte>, k: KnownBucket)
    requires w in d && (k.file == w ==> End(k) <= |d[w]|)
    ensures EntryOf(d[w := d[w] + more], k) == EntryOf(d, k)
  {
    if k.file == w {
      assert (d[w] + more)[k.pos + HEADER_SIZE..End(k)] == d[w][k.pos + HEADER_SIZE..End(k)];
    }
  }

  lemma KnownGrown(s: Shard, w: string, more: seq<byte>)
    requires Names(s) && Bounds(s) && w in s.files
    ensures KnownEntries(s.disk[w := s.disk[w] + more], s.known) == KnownEntries(s.disk, s.known)
  {
    forall id | id in s.known
      ensures EntryOf(s.disk[w := s.disk[w] + more], s.known[id]) == EntryOf(s.disk, s.known[id])
    {
      EntryGrown(s.disk, w, more, s.known[id]);
    }
    KnownSame(s.disk, s.disk[w := s.disk[w] + more], s.known);
  }

  lemma {:induction false} WaitingSame(d: map<string, seq<byte>>, e: map<string, seq<byte>>, waiting: seq<WaitingFile>)
    requires forall i | 0 <= i < |waiting| :: waiting[i].name in d && waiting[i].name in e
    requires forall i | 0 <= i < |waiting| :: d[waiting[i].name] == e[waiting[i].name]
    ensures WaitingEntries(d, waiting) == WaitingEntries(e, waiting)
  {
    if waiting != [] { WaitingSame(d, e, waiting[1..]); }
  }

  lemma TailSame(s: Shard, t: Shard)
    requires Names(s) && Names(t) && s.tail == t.tail && s.waiting == t.waiting
    requires s.tail.Some? ==> Unread(s, s.tail.value) == Unread(t, s.tail.value)
    requires forall i | 0 <= i < |s.waiting| :: s.disk[s.waiting[i].name] == t.disk[s.waiting[i].name]
    ensures TailEntries(s) == TailEntries(t)
  {
    WaitingSame(s.disk, t.disk, s.waiting);
  }

  lemma SizesOf(files: map<string, OpenFile>, n: string, f: OpenFile)
    ensures Sizes(files - {n}) == Sizes(files) - {n}
    ensures Sizes(files[n := f]) == Sizes(files)[n := f.size]
  {}

  lemma Unused(known: map<int, KnownBucket>, n: string)
    requires forall id | id in known :: known[id].file != n
    ensures IdsIn(known, n) == {} && CostsIn(known, n) == map[]
  {
    forall id ensures id !in IdsIn(known, n) && id !in CostsIn(known, n) {
      if id in known { assert known[id].file != n; }
    }
  }

  // ---------- giving up a reference ----------

  /** Counts one reference down; the last one closes the file and, when the removal works, deletes it. */
  function Unref(s: Shard, n: string, removed: bool): Shard
    requires n in s.files
  {
    if s.files[n].refCount == 1 then
      s.(files := s.files - {n}, total := s.total - s.files[n].size,
         disk := if removed then s.disk - {n} else s.disk)
    else
      s.(files := s.files[n := s.files[n].(refCount := s.files[n].refCount - 1)])
  }

  lemma LastRefUnused(s: Shard, n: string)
    requires RefCounts(s, Some(n)) && n in s.files && s.files[n].refCount == 1
    ensures s.tail != Some(n) && s.writing != Some(n)
    ensures forall id | id in s.known :: s.known[id].file != n
  {
    assert IdsIn(s.known, n) == {};
    forall id | id in s.known ensures s.known[id].file != n {
      assert id !in IdsIn(s.known, n);
    }
  }

  lemma UnrefNames(s: Shard, n: string, removed: bool)
    requires Names(s) && RefCounts(s, Some(n)) && n in s.files
    ensures Names(Unref(s, n, removed))
  {
    if s.files[n].refCount == 1 { LastRefUnused(s, n); }
  }

  lemma UnrefBounds(s: Shard, n: string, removed: bool)
    requires Names(s) && Bounds(s) && RefCounts(s, Some(n)) && n in s.files
    ensures Names(Unref(s, n, removed)) && Bounds(Unref(s, n, removed))
  {
    hide RefCounts, Names;
    UnrefNames(s, n, removed);
    NamedFiles(s);
    if s.files[n].refCount == 1 { LastRefUnused(s, n); }
  }

  lemma NamedFiles(s: Shard)
    requires Names(s)
    ensures forall m | m in s.files :: m in s.disk
    ensures forall id | id in s.known :: s.known[id].file in s.files
    ensures (s.tail.Some? ==> s.tail.value in s.files) && (s.writing.Some? ==> s.writing.value in s.files)
  {}

  lemma UnrefRefs(s: Shard, n: string, removed: bool)
    requires RefCounts(s, Some(n)) && n in s.files
    ensures RefCounts(Unref(s, n, removed), None)
  {
    var t := Unref(s, n, removed);
    assert forall m :: Refs(t, m) == Refs(s, m);
  }

  lemma UnrefTotals(s: Shard, n: string, removed: bool)
    requires Totals(s) && n in s.files
    ensures Totals(Unref(s, n, removed))
  {
    SizesOf(s.files, n, s.files[n].(refCount := s.files[n].refCount - 1));
    if s.files[n].refCount == 1 {
      SumRemove(Sizes(s.files), n);
    } else {
      SumUpdate(Sizes(s.files), n, s.files[n].size);
    }
  }

  lemma UnrefPacked(s: Shard, n: string, removed: bool)
    requires Packed(s) && n in s.files
    ensures Packed(Unref(s, n, removed))
  {}

  lemma UnrefInv(s: Shard, n: string, removed: bool)
    requires InvHot(s, Some(n)) && n in s.files
    ensures Inv(Unref(s, n, removed))
  {
    UnrefBounds(s, n, removed);
    UnrefRefs(s, n, removed);
    UnrefTotals(s, n, removed);
    UnrefPacked(s, n, removed);
  }

  lemma UnrefView(s: Shard, n: string, removed: bool)
    requires Names(s) && Bounds(s) && RefCounts(s, Some(n)) && n in s.files
    ensures Names(Unref(s, n, removed)) && Bounds(Unref(s, n, removed))
    ensures View(Unref(s, n, removed)) == View(s)
  {
    UnrefBounds(s, n, removed);
    if s.files[n].refCount == 1 { LastRefUnused(s, n); }
    KnownSame(s.disk, Unref(s, n, removed).disk, s.known);
    TailSame(s, Unref(s, n, removed));
  }

  // ---------- erasing a known bucket ----------

  /** The deletion mark reaches the disk, wholly or in part, and the bucket is forgotten. */
  function Forget(s: Shard, id: int, written: nat): Shard
    requires Names(s) && Bounds(s) && id in s.known && written <= 4
  {
    var k := s.known[id];
    s.(disk := s.disk[k.file := Stamp(s.disk[k.file], k.pos, written)],
       known := s.known - {id},
       knownSize := s.knownSize - Cost(k))
  }

  lemma ForgetBounds(s: Shard, id: int, written: nat)
    requires Names(s) && Bounds(s) && id in s.known && written <= 4
    ensures Names(Forget(s, id, written)) && Bounds(Forget(s, id, written))
  {}

  lemma ForgetRefs(s: Shard, id: int, written: nat)
    requires Names(s) && Bounds(s) && RefCounts(s, None) && id in s.known && written <= 4
    ensures RefCounts(Forget(s, id, written), Some(s.known[id].file))
  {
    var t := Forget(s, id, written);
    forall n | n in s.files ensures Refs(s, n) == Refs(t, n) + Bit(n == s.known[id].file) {
      if n == s.known[id].file {
        assert IdsIn(t.known, n) == IdsIn(s.known, n) - {id};
        assert id in IdsIn(s.known, n);
      } else {
        assert IdsIn(t.known, n) == IdsIn(s.known, n);
      }
    }
  }

  lemma LessCosts(known: map<int, KnownBucket>, id: int)
    requires id in known
    ensures Sum(Costs(known - {id})) == Sum(Costs(known)) - Cost(known[id])
  {
    SumRemove(Costs(known), id);
    assert Costs(known) - {id} == Costs(known - {id});
  }

  lemma LessCostsIn(known: map<int, KnownBucket>, id: int, n: string)
    requires id in known
    ensures Sum(CostsIn(known - {id}, n)) ==
            Sum(CostsIn(known, n)) - (if n == known[id].file then Cost(known[id]) else 0)
  {
    if n == known[id].file {
      SumRemove(CostsIn(known, n), id);
      assert CostsIn(known, n) - {id} == CostsIn(known - {id}, n);
    } else {
      assert CostsIn(known, n) == CostsIn(known - {id}, n);
    }
  }

  lemma ForgetPacked(s: Shard, id: int, written: nat)
    requires Names(s) && Bounds(s) && Packed(s) && id in s.known && written <= 4
    ensures Packed(Forget(s, id, written))
  {
    forall n | n in s.files ensures Sum(CostsIn(s.known - {id}, n)) <= Limit(s, n) {
      LessCostsIn(s.known, id, n);
    }
  }

  lemma ForgetInv(s: Shard, id: int, written: nat)
    requires Inv(s) && id in s.known && written <= 4
    ensures InvHot(Forget(s, id, written), Some(s.known[id].file))
  {
    ForgetBounds(s, id, written);
    ForgetRefs(s, id, written);
    LessCosts(s.known, id);
    ForgetPacked(s, id, written);
  }

  /** An erase touches no byte of any other bucket's body. */
  lemma ForgetKnown(s: Shard, id: int, written: nat)
    requires Names(s) && Bounds(s) && Disjoint(s.known) && id in s.known && written <= 4
    ensures KnownEntries(Forget(s, id, written).disk, s.known - {id}) == KnownEntries(s.disk, s.known) - {id}
  {
    var k := s.known[id];
    var e := Forget(s, id, written).disk;
    forall j | j in s.known && j != id ensures EntryOf(e, s.known[j]) == EntryOf(s.disk, s.known[j]) {
      BodyUntouched(s.disk[k.file], k, s.known[j], written);
    }
    hide Names, Bounds, Disjoint, EntryOf;
    KnownSame(s.disk, e, s.known - {id});
    KnownLess(s.disk, s.known, id);
  }

  lemma KnownLess(d: map<string, seq<byte>>, known: map<int, KnownBucket>, id: int)
    ensures KnownEntries(d, known - {id}) == KnownEntries(d, known) - {id}
  {
    hide EntryOf;
  }

  lemma BodyUntouched(b: seq<byte>, k: KnownBucket, m: KnownBucket, written: nat)
    requires End(k) <= |b| && written <= 4
    requires m.file == k.file ==> End(m) <= |b| && (End(k) <= m.pos || End(m) <= k.pos)
    ensures m.file == k.file ==> KnownRecord(Stamp(b, k.pos, written), m) == KnownRecord(b, m)
  {
    if m.file == k.file {
      assert b[m.pos + HEADER_SIZE..End(m)] == Stamp(b, k.pos, written)[m.pos + HEADER_SIZE..End(m)];
    }
  }

  lemma ForgetTail(s: Shard, id: int, written: nat)
    requires Names(s) && Bounds(s) && id in s.known && written <= 4
    ensures Names(Forget(s, id, written)) && TailEntries(Forget(s, id, written)) == TailEntries(s)
  {
    var t := Forget(s, id, written);
    var k := s.known[id];
    if s.tail == Some(k.file) {
      var p := s.files[k.file].nextPos;
      assert s.disk[k.file][p..] == t.disk[k.file][p..];
      ScanLocal(s.disk[k.file], t.disk[k.file], p);
    }
    TailSame(s, t);
  }

  // ---------- the two roles ----------

  lemma ClearTailInv(s: Shard)
    requires Inv(s) && s.tail.Some?
    ensures InvHot(s.(tail := None), s.tail)
  {
    var t := s.(tail := None);
    hide Distinct, Disjoint, Sum, Costs, CostsIn, Sizes;
    RefsCleared(s, t, s.tail);
    hide RefCounts;
  }

  lemma RefsCleared(s: Shard, t: Shard, hot: Option<string>)
    requires RefCounts(s, None) && t.files == s.files && t.known == s.known
    requires || (t.writing == s.writing && t.tail.None? && hot == s.tail)
             || (t.tail == s.tail && t.writing.None? && hot == s.writing)
    ensures RefCounts(t, hot)
  {
    assert forall n :: Refs(s, n) == Refs(t, n) + Bit(hot == Some(n));
  }

  lemma ClearWritingInv(s: Shard)
    requires Inv(s) && s.writing.Some?
    ensures InvHot(s.(writing := None), s.writing)
  {
    var t := s.(writing := None);
    hide Distinct, Disjoint, Sum, Costs, CostsIn, Sizes;
    RefsCleared(s, t, s.writing);
    hide RefCounts;
  }

  // ---------- writing ----------

  function Create(s: Shard, name: string): Shard {
    s.(disk := s.disk[name := []], files := s.files[name := OpenFile(0, 0, 1)], writing := Some(name))
  }

  lemma CreateBounds(s: Shard, name: string)
    requires Names(s) && Bounds(s) && s.writing.None? && name !in s.disk
    ensures Names(Create(s, name)) && Bounds(Create(s, name)) && name !in s.files
    ensures forall id | id in s.known :: s.known[id].file != name
  {}

  lemma CreateRefs(s: Shard, name: string)
    requires RefCounts(s, None) && s.writing.None? && s.tail != Some(name)
    requires forall id | id in s.known :: s.known[id].file != name
    ensures RefCounts(Create(s, name), None)
  {
    var t := Create(s, name);
    Unused(s.known, name);
    assert forall n | n != name :: Refs(t, n) == Refs(s, n);
  }

  lemma CreateTotals(s: Shard, name: string)
    requires Totals(s) && Packed(s) && name !in s.files && s.tail != Some(name)
    requires forall id | id in s.known :: s.known[id].file != name
    ensures Totals(Create(s, name)) && Packed(Create(s, name))
  {
    SizesOf(s.files, name, OpenFile(0, 0, 1));
    SumInsert(Sizes(s.files), name, 0);
    Unused(s.known, name);
  }

  lemma CreateInv(s: Shard, name: string)
    requires Inv(s) && s.writing.None? && name !in s.disk
    ensures Inv(Create(s, name))
  {
    CreateBounds(s, name);
    CreateRefs(s, name);
    CreateTotals(s, name);
  }

  lemma CreateView(s: Shard, name: string)
    requires Names(s) && Bounds(s) && s.writing.None? && name !in s.disk
    ensures Names(Create(s, name)) && Bounds(Create(s, name)) && View(Create(s, name)) == View(s)
  {
    CreateBounds(s, name);
    KnownSame(s.disk, Create(s, name).disk, s.known);
    TailSame(s, Create(s, name));
  }

  /** Bytes of a failed write stay at the end of the file being written. */
  function Tear(s: Shard, junk: seq<byte>): Shard
    requires s.writing.Some? && s.writing.value in s.disk
  {
    s.(disk := s.disk[s.writing.value := s.disk[s.writing.value] + junk], writing := None)
  }

  lemma TearBounds(s: Shard, junk: seq<byte>)
    requires Names(s) && Bounds(s) && s.writing.Some?
    ensures Names(Tear(s, junk)) && Bounds(Tear(s, junk)) && View(Tear(s, junk)) == View(s)
  {
    KnownGrown(s, s.writing.value, junk);
    TailSame(s, Tear(s, junk));
  }

  lemma TearInv(s: Shard, junk: seq<byte>)
    requires Inv(s) && s.writing.Some?
    ensures InvHot(Tear(s, junk), s.writing) && View(Tear(s, junk)) == View(s)
  {
    TearBounds(s, junk);
    hide Names, Bounds, View, Distinct, Disjoint, RefCounts, Totals, Packed;
    RefsCleared(s, Tear(s, junk), s.writing);
    TearSums(s, junk);
  }

  lemma TearSums(s: Shard, junk: seq<byte>)
    requires Names(s) && Totals(s) && Packed(s) && s.writing.Some?
    ensures Totals(Tear(s, junk)) && Packed(Tear(s, junk))
  {
    hide Names, Sum, Costs, CostsIn, Sizes, WaitingTotal;
  }

  /** A record, encoded as `e`, is appended to the file being written and becomes known under a fresh id. */
  function Append(s: Shard, e: seq<byte>, time: uint32, body: seq<byte>, crc: uint32): Shard
    requires s.writing.Some? && s.writing.value in s.disk && s.writing.value in s.files
  {
    var w := s.writing.value;
    var f := s.files[w];
    s.(disk := s.disk[w := s.disk[w] + e],
       files := s.files[w := f.(size := f.size + HEADER_SIZE + |body|, refCount := f.refCount + 1)],
       known := s.known[s.last + 1 := KnownBucket(w, f.size, time, |body|, crc)],
       knownSize := s.knownSize + |body| + HEADER_SIZE,
       last := s.last + 1,
       total := s.total + HEADER_SIZE + |body|)
  }

  lemma MoreCosts(known: map<int, KnownBucket>, id: int, k: KnownBucket)
    requires id !in known
    ensures Sum(Costs(known[id := k])) == Sum(Costs(known)) + Cost(k)
  {
    SumInsert(Costs(known), id, Cost(k));
    assert Costs(known[id := k]) == Costs(known)[id := Cost(k)];
  }

  lemma MoreCostsIn(known: map<int, KnownBucket>, id: int, k: KnownBucket, n: string)
    requires id !in known
    ensures Sum(CostsIn(known[id := k], n)) == Sum(CostsIn(known, n)) + (if n == k.file then Cost(k) else 0)
  {
    if n == k.file {
      SumInsert(CostsIn(known, n), id, Cost(k));
      assert CostsIn(known[id := k], n) == CostsIn(known, n)[id := Cost(k)];
    } else {
      assert CostsIn(known[id := k], n) == CostsIn(known, n);
    }
  }

  lemma MoreIds(known: map<int, KnownBucket>, id: int, k: KnownBucket, n: string)
    requires id !in known
    ensures |IdsIn(known[id := k], n)| == |IdsIn(known, n)| + Bit(n == k.file)
  {
    if n == k.file {
      assert IdsIn(known[id := k], n) == IdsIn(known, n) + {id};
    } else {
      assert IdsIn(known[id := k], n) == IdsIn(known, n);
    }
  }

  lemma MoreDisjoint(known: map<int, KnownBucket>, id: int, k: KnownBucket)
    requires Disjoint(known)
    requires forall j | j in known && known[j].file == k.file :: End(known[j]) <= k.pos
    ensures Disjoint(known[id := k])
  {}

  lemma AppendBounds(s: Shard, e: seq<byte>, time: uint32, body: seq<byte>, crc: uint32)
    requires Names(s) && Bounds(s) && s.writing.Some? && s.last >= 0 && |e| == HEADER_SIZE + |body|
    requires |s.disk[s.writing.value]| + |e| <= FILE_ROTATE_SIZE
    ensures Names(Append(s, e, time, body, crc)) && Bounds(Append(s, e, time, body, crc))
  {}

  lemma AppendRefs(s: Shard, e: seq<byte>, time: uint32, body: seq<byte>, crc: uint32)
    requires Names(s) && RefCounts(s, None) && s.writing.Some? && s.last + 1 !in s.known
    ensures RefCounts(Append(s, e, time, body, crc), None)
  {
    var t := Append(s, e, time, body, crc);
    forall n | n in s.files ensures Refs(t, n) == Refs(s, n) + Bit(n == s.writing.value) {
      MoreIds(s.known, s.last + 1, t.known[s.last + 1], n);
    }
  }

  lemma AppendTotals(s: Shard, e: seq<byte>, time: uint32, body: seq<byte>, crc: uint32)
    requires Names(s) && Totals(s) && s.writing.Some? && s.last + 1 !in s.known
    ensures Totals(Append(s, e, time, body, crc))
  {
    var t := Append(s, e, time, body, crc);
    MoreCosts(s.known, s.last + 1, t.known[s.last + 1]);
    SizesOf(s.files, s.writing.value, t.files[s.writing.value]);
    SumUpdate(Sizes(s.files), s.writing.value, t.files[s.writing.value].size);
  }

  lemma AppendPacked(s: Shard, e: seq<byte>, time: uint32, body: seq<byte>, crc: uint32)
    requires Names(s) && Packed(s) && s.writing.Some? && s.last + 1 !in s.known
    ensures Packed(Append(s, e, time, body, crc))
  {
    var t := Append(s, e, time, body, crc);
    forall n | n in t.files ensures Sum(CostsIn(t.known, n)) <= Limit(t, n) {
      MoreCostsIn(s.known, s.last + 1, t.known[s.last + 1], n);
    }
  }

  lemma AppendInv(s: Shard, e: seq<byte>, time: uint32, body: seq<byte>, crc: uint32)
    requires Inv(s) && s.writing.Some? && s.last >= 0 && |e| == HEADER_SIZE + |body|
    requires |s.disk[s.writing.value]| + |e| <= FILE_ROTATE_SIZE
    ensures Inv(Append(s, e, time, body, crc))
  {
    AppendBounds(s, e, time, body, crc);
    AppendDisjoint(s, e, time, body, crc);
    hide Bounds, Distinct, Disjoint, RefCounts, Totals, Packed;
    AppendRefs(s, e, time, body, crc);
    AppendTotals(s, e, time, body, crc);
    AppendPacked(s, e, time, body, crc);
  }

  lemma AppendDisjoint(s: Shard, e: seq<byte>, time: uint32, body: seq<byte>, crc: uint32)
    requires Names(s) && Bounds(s) && Disjoint(s.known) && s.writing.Some?
    ensures Disjoint(Append(s, e, time, body, crc).known)
  {
    MoreDisjoint(s.known, s.last + 1, Append(s, e, time, body, crc).known[s.last + 1]);
    hide Disjoint;
  }

  lemma AppendKnown(s: Shard, e: seq<byte>, time: uint32, body: seq<byte>, crc: uint32)
    requires Names(s) && Bounds(s) && s.writing.Some?
    requires |e| == HEADER_SIZE + |body| && e[HEADER_SIZE..] == body
    ensures var t := Append(s, e, time, body, crc);
            KnownEntries(t.disk, t.known) == KnownEntries(s.disk, s.known)[s.last + 1 :=
              Entry(s.writing.value, Record(|s.disk[s.writing.value]|, time, crc, body))]
  {
    var t := Append(s, e, time, body, crc);
    var w := s.writing.value;
    KnownGrown(s, w, e);
    var k := t.known[s.last + 1];
    KnownMore(t.disk, s.known, s.last + 1, k);
    assert t.disk[w][k.pos + HEADER_SIZE..End(k)] == body;
  }

  lemma AppendView(s: Shard, e: seq<byte>, time: uint32, body: seq<byte>, crc: uint32)
    requires Names(s) && Bounds(s) && s.writing.Some? && s.last >= 0
    requires |e| == HEADER_SIZE + |body| && e[HEADER_SIZE..] == body
    requires |s.disk[s.writing.value]| + |e| <= FILE_ROTATE_SIZE
    ensures Names(Append(s, e, time, body, crc)) && Bounds(Append(s, e, time, body, crc))
    ensures View(Append(s, e, time, body, crc))
            == Save(View(s), Entry(s.writing.value, Record(|s.disk[s.writing.value]|, time, crc, body)))
  {
    AppendBounds(s, e, time, body, crc);
    AppendKnown(s, e, time, body, crc);
    TailSame(s, Append(s, e, time, body, crc));
  }

  // ---------- reading the tail after a restart ----------

  /** The next waiting file is opened and becomes the tail. */
  function OpenTail(s: Shard): Shard
    requires s.waiting != []
  {
    var w := s.waiting[0];
    s.(waiting := s.waiting[1..], waitingSize := s.waitingSize - w.size,
       files := s.files[w.name := OpenFile(0, w.size, 1)], tail := Some(w.name))
  }

  /** A waiting file that cannot be opened is skipped. */
  function SkipWaiting(s: Shard): Shard
    requires s.waiting != []
  {
    var size := s.waiting[0].size;
    s.(waiting := s.waiting[1..], waitingSize := s.waitingSize - size, total := s.total - size)
  }

  lemma SkipWaitingInv(s: Shard)
    requires Inv(s) && s.waiting != []
    ensures Inv(SkipWaiting(s))
  {
    SkipWaitingBounds(s);
    SkipWaitingTotals(s);
    SameRefs(s, SkipWaiting(s));
    hide Names, Distinct, Bounds, Disjoint, RefCounts, Totals, CostsIn;
  }

  lemma SkipWaitingBounds(s: Shard)
    requires Names(s) && Distinct(s.waiting) && Bounds(s) && s.waiting != []
    ensures Names(SkipWaiting(s)) && Distinct(SkipWaiting(s).waiting) && Bounds(SkipWaiting(s))
  {}

  lemma SkipWaitingTotals(s: Shard)
    requires Totals(s) && s.waiting != []
    ensures Totals(SkipWaiting(s))
  {
    hide Sum, Costs, Sizes;
  }

  lemma SameRefs(s: Shard, t: Shard)
    requires RefCounts(s, None)
    requires t.files == s.files && t.known == s.known && t.tail == s.tail && t.writing == s.writing
    ensures RefCounts(t, None)
  {
    assert forall n :: Refs(t, n) == Refs(s, n);
  }

  lemma OpenTailBounds(s: Shard)
    requires Names(s) && Distinct(s.waiting) && Bounds(s) && s.tail.None? && s.waiting != []
    ensures Names(OpenTail(s)) && Bounds(OpenTail(s)) && s.waiting[0].name !in s.files
    ensures forall id | id in s.known :: s.known[id].file != s.waiting[0].name
  {
    assert forall id | id in s.known :: s.known[id].file in s.files;
  }

  lemma OpenTailRefs(s: Shard)
    requires RefCounts(s, None) && s.tail.None? && s.waiting != [] && s.writing != Some(s.waiting[0].name)
    requires forall id | id in s.known :: s.known[id].file != s.waiting[0].name
    ensures RefCounts(OpenTail(s), None)
  {
    var t := OpenTail(s);
    Unused(s.known, s.waiting[0].name);
    assert forall n | n != s.waiting[0].name :: Refs(t, n) == Refs(s, n);
  }

  lemma OpenTailTotals(s: Shard)
    requires Totals(s) && s.waiting != [] && s.waiting[0].name !in s.files
    ensures Totals(OpenTail(s))
  {
    var w := s.waiting[0];
    SizesOf(s.files, w.name, OpenFile(0, w.size, 1));
    SumInsert(Sizes(s.files), w.name, w.size);
  }

  lemma OpenTailPacked(s: Shard)
    requires Packed(s) && s.tail.None? && s.waiting != []
    requires forall id | id in s.known :: s.known[id].file != s.waiting[0].name
    ensures Packed(OpenTail(s))
  {
    Unused(s.known, s.waiting[0].name);
  }

  lemma OpenTailInv(s: Shard)
    requires Inv(s) && s.tail.None? && s.waiting != []
    ensures Inv(OpenTail(s))
  {
    OpenTailBounds(s);
    OpenTailRefs(s);
    OpenTailTotals(s);
    OpenTailPacked(s);
  }

  lemma OpenTailView(s: Shard)
    requires Names(s) && Distinct(s.waiting) && Bounds(s) && s.tail.None? && s.waiting != []
    ensures Names(OpenTail(s)) && Bounds(OpenTail(s)) && View(OpenTail(s)) == View(s)
  {
    OpenTailBounds(s);
  }

  /** The reading position moves behind the chunk it stands on. */
  function Advance(s: Shard): Shard
    requires s.tail.Some? && s.tail.value in s.files && s.tail.value in s.disk
    requires WellSized(s.disk[s.tail.value], s.files[s.tail.value].nextPos)
  {
    var n := s.tail.value;
    s.(files := s.files[n := s.files[n].(nextPos := Next(s.disk[n], s.files[n].nextPos))])
  }

  predicate OnChunk(s: Shard)
    requires Names(s)
  {
    s.tail.Some? && WellSized(s.disk[s.tail.value], s.files[s.tail.value].nextPos)
  }

  lemma AdvanceBounds(s: Shard)
    requires Names(s) && Bounds(s) && OnChunk(s)
    ensures Names(Advance(s)) && Bounds(Advance(s))
  {}

  lemma AdvanceTotals(s: Shard)
    requires Names(s) && Totals(s) && OnChunk(s)
    ensures Totals(Advance(s))
  {
    var t := Advance(s);
    SizesOf(s.files, s.tail.value, t.files[s.tail.value]);
    SumUpdate(Sizes(s.files), s.tail.value, t.files[s.tail.value].size);
  }

  lemma AdvanceInv(s: Shard)
    requires Inv(s) && OnChunk(s)
    ensures Inv(Advance(s))
  {
    AdvanceBounds(s);
    AdvanceTotals(s);
    AdvanceRefs(s);
    AdvancePacked(s);
    hide Names, Distinct, Bounds, Disjoint, RefCounts, Totals, Packed;
  }

  lemma AdvanceRefs(s: Shard)
    requires Names(s) && RefCounts(s, None) && OnChunk(s)
    ensures RefCounts(Advance(s), None)
  {
    assert forall n :: Refs(Advance(s), n) == Refs(s, n);
  }

  lemma AdvancePacked(s: Shard)
    requires Names(s) && Packed(s) && OnChunk(s)
    ensures Packed(Advance(s))
  {
    hide Sum, CostsIn;
  }

  lemma AdvanceView(s: Shard)
    requires Names(s) && Bounds(s) && OnChunk(s)
    requires Passable(s.disk[s.tail.value], s.files[s.tail.value].nextPos)
    requires !Good(s.disk[s.tail.value], s.files[s.tail.value].nextPos)
    ensures Names(Advance(s)) && Bounds(Advance(s)) && View(Advance(s)) == View(s)
  {
    AdvanceBounds(s);
    TailSame(s, Advance(s));
  }

  /** The live record at the reading position becomes known under a fresh id. */
  function Take(s: Shard): Shard
    requires Names(s) && OnChunk(s)
  {
    var n := s.tail.value;
    var f := s.files[n];
    var r := RecordAt(s.disk[n], f.nextPos);
    s.(last := s.last + 1,
       known := s.known[s.last + 1 := KnownBucket(n, f.nextPos, r.time, |r.body|, r.crc)],
       knownSize := s.knownSize + |r.body| + HEADER_SIZE,
       files := s.files[n := f.(refCount := f.refCount + 1, nextPos := Next(s.disk[n], f.nextPos))])
  }

  lemma TakeBounds(s: Shard)
    requires Names(s) && Bounds(s) && OnChunk(s) && s.last >= 0
    ensures Names(Take(s)) && Bounds(Take(s)) && s.last + 1 !in s.known
  {}

  lemma TakeRefs(s: Shard)
    requires Names(s) && RefCounts(s, None) && OnChunk(s) && s.last + 1 !in s.known
    ensures RefCounts(Take(s), None)
  {
    var t := Take(s);
    forall n | n in s.files ensures Refs(t, n) == Refs(s, n) + Bit(n == s.tail.value) {
      MoreIds(s.known, s.last + 1, t.known[s.last + 1], n);
    }
  }

  lemma TakeTotals(s: Shard)
    requires Names(s) && Totals(s) && OnChunk(s) && s.last + 1 !in s.known
    ensures Totals(Take(s))
  {
    var t := Take(s);
    MoreCosts(s.known, s.last + 1, t.known[s.last + 1]);
    SizesOf(s.files, s.tail.value, t.files[s.tail.value]);
    SumUpdate(Sizes(s.files), s.tail.value, t.files[s.tail.value].size);
  }

  lemma TakePacked(s: Shard)
    requires Names(s) && Packed(s) && OnChunk(s) && s.last + 1 !in s.known
    ensures Packed(Take(s))
  {
    var t := Take(s);
    forall n | n in t.files ensures Sum(CostsIn(t.known, n)) <= Limit(t, n) {
      MoreCostsIn(s.known, s.last + 1, t.known[s.last + 1], n);
    }
  }

  lemma TakeInv(s: Shard)
    requires Inv(s) && OnChunk(s) && s.last >= 0
    ensures Inv(Take(s))
  {
    TakeBounds(s);
    TakeDisjoint(s);
    hide Bounds, Distinct, Disjoint, RefCounts, Totals, Packed;
    TakeRefs(s);
    TakeTotals(s);
    TakePacked(s);
  }

  lemma TakeDisjoint(s: Shard)
    requires Names(s) && Bounds(s) && Disjoint(s.known) && OnChunk(s)
    ensures Disjoint(Take(s).known)
  {
    MoreDisjoint(s.known, s.last + 1, Take(s).known[s.last + 1]);
    hide Disjoint;
  }

  lemma TakeKnown(s: Shard)
    requires Names(s) && OnChunk(s)
    ensures var t := Take(s);
            KnownEntries(t.disk, t.known) == KnownEntries(s.disk, s.known)[s.last + 1 :=
              Entry(s.tail.value, RecordAt(s.disk[s.tail.value], s.files[s.tail.value].nextPos))]
  {
    var k := Take(s).known[s.last + 1];
    assert EntryOf(s.disk, k) == Entry(s.tail.value, RecordAt(s.disk[s.tail.value], s.files[s.tail.value].nextPos));
    hide Names, EntryOf, KnownEntries, RecordAt;
    KnownMore(s.disk, s.known, s.last + 1, k);
  }

  lemma LabelSplit(n: string, r: Record, rest: seq<Record>, more: seq<Entry>)
    ensures (Label(n, [r] + rest) + more)[0] == Entry(n, r)
    ensures (Label(n, [r] + rest) + more)[1..] == Label(n, rest) + more
  {}

  lemma TakeEntries(s: Shard)
    requires Names(s) && OnChunk(s) && s.last >= 0 && Names(Take(s))
    requires Good(s.disk[s.tail.value], s.files[s.tail.value].nextPos)
    ensures TailEntries(s) != [] && TailEntries(Take(s)) == TailEntries(s)[1..]
    ensures TailEntries(s)[0] ==
            Entry(s.tail.value, RecordAt(s.disk[s.tail.value], s.files[s.tail.value].nextPos))
  {
    hide RecordAt;
    var n := s.tail.value;
    var p := s.files[n].nextPos;
    LabelSplit(n, RecordAt(s.disk[n], p), Scan(s.disk[n], Next(s.disk[n], p)), WaitingEntries(s.disk, s.waiting));
  }

  /** The bucket under the reading position is the first unread one. */
  lemma TakeFirst(s: Shard)
    requires Names(s) && Bounds(s) && OnChunk(s) && s.last >= 0
    requires Good(s.disk[s.tail.value], s.files[s.tail.value].nextPos)
    ensures View(s).tail != [] && View(s).tail[0].file == s.tail.value
    ensures View(s).tail[0].record.pos == s.files[s.tail.value].nextPos
  {
    hide Bounds, KnownEntries, TailEntries, Good;
    TakeBounds(s);
    TakeEntries(s);
  }

  lemma TakeView(s: Shard)
    requires Names(s) && Bounds(s) && OnChunk(s) && s.last >= 0
    requires Good(s.disk[s.tail.value], s.files[s.tail.value].nextPos)
    ensures Names(Take(s)) && Bounds(Take(s))
    ensures View(s).tail != [] && View(Take(s)) == TakeTail(View(s))
  {
    hide Names, Bounds, OnChunk, Good, RecordAt, KnownEntries, TailEntries;
    TakeBounds(s);
    TakeKnown(s);
    TakeEntries(s);
  }
}
