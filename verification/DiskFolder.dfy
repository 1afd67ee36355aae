/** What a restart, which keeps only the files, will find, and how every change of the shard changes
    that: exactly, also after marks that were torn or lost and after files that could not be read. */
module DiskFolder {
  import opened Records
  import opened MapSums
  import opened Store
  import opened DiskState
  import opened DiskOps

  // ---------- the folder ----------

  function FolderOf(disk: map<string, seq<byte>>): Folder {
    Folder((set n, r | n in disk && r in Scan(disk[n], 0) :: Entry(n, r)),
           (set n | n in disk && Broken(disk[n])))
  }

  lemma InFolder(disk: map<string, seq<byte>>, e: Entry)
    ensures e in FolderOf(disk).live <==> e.file in disk && e.record in Scan(disk[e.file], 0)
  {
    if e.file in disk && e.record in Scan(disk[e.file], 0) { assert Entry(e.file, e.record) == e; }
  }

  /** The folder after one file got other bytes. */
  lemma FileReplaced(disk: map<string, seq<byte>>, n: string, c: seq<byte>, f: Folder)
    requires forall e: Entry ::
               e in f.live <==> if e.file == n then e.record in Scan(c, 0) else e in FolderOf(disk).live
    requires forall m :: m in f.broken <==> if m == n then Broken(c) else m in FolderOf(disk).broken
    ensures FolderOf(disk[n := c]) == f
  {
    var d := disk[n := c];
    forall e: Entry ensures e in FolderOf(d).live <==> e in f.live {
      InFolder(d, e);
      InFolder(disk, e);
    }
    hide Scan, Broken;
    assert FolderOf(d).live == f.live;
  }

  lemma SameScan(disk: map<string, seq<byte>>, n: string, c: seq<byte>)
    requires n in disk && Scan(c, 0) == Scan(disk[n], 0) && Broken(c) == Broken(disk[n])
    ensures FolderOf(disk[n := c]) == FolderOf(disk)
  {
    forall e: Entry
      ensures e in FolderOf(disk).live <==> if e.file == n then e.record in Scan(c, 0) else e in FolderOf(disk).live
    {
      InFolder(disk, e);
    }
    hide Scan, Broken;
    FileReplaced(disk, n, c, FolderOf(disk));
  }

  lemma UnrefFolder(s: Shard, n: string, removed: bool)
    requires n in s.files
    ensures FolderOf(Unref(s, n, removed).disk) == Swept(FolderOf(s.disk), Gone(s, n, removed))
  {
    var t, gone := Unref(s, n, removed), Gone(s, n, removed);
    forall e: Entry ensures e in FolderOf(t.disk).live <==> e in FolderOf(s.disk).live && e.file !in gone {
      InFolder(s.disk, e);
      InFolder(t.disk, e);
    }
    hide Scan, Broken;
    assert FolderOf(t.disk).live == Swept(FolderOf(s.disk), gone).live;
    assert FolderOf(t.disk).broken == Swept(FolderOf(s.disk), gone).broken;
  }

  function Gone(s: Shard, n: string, removed: bool): set<string>
    requires n in s.files
  {
    if s.files[n].refCount == 1 && removed then {n} else {}
  }

  /** A deleted file held no bucket that is known or unread. */
  lemma GoneIsIdle(s: Shard, n: string, removed: bool)
    requires Names(s) && RefCounts(s, Some(n)) && n in s.files
    ensures Idle(View(s), Gone(s, n, removed))
  {
    if s.files[n].refCount == 1 {
      LastRefUnused(s, n);
      hide RefCounts;
      TailFiles(s);
    }
  }

  lemma {:induction false} WaitingFiles(disk: map<string, seq<byte>>, waiting: seq<WaitingFile>, e: Entry)
    requires forall i | 0 <= i < |waiting| :: waiting[i].name in disk
    requires e in WaitingEntries(disk, waiting)
    ensures exists i :: 0 <= i < |waiting| && waiting[i].name == e.file
  {
    var first := Label(waiting[0].name, Scan(disk[waiting[0].name], 0));
    if e in first {
      assert waiting[0].name == e.file;
    } else {
      WaitingFiles(disk, waiting[1..], e);
      var i :| 0 <= i < |waiting[1..]| && waiting[1..][i].name == e.file;
      assert waiting[i + 1].name == e.file;
    }
  }

  lemma TailFiles(s: Shard)
    requires Names(s)
    ensures forall e | e in TailEntries(s) :: s.tail == Some(e.file) || (e.file in s.disk && e.file !in s.files)
  {
    forall e | e in TailEntries(s) ensures s.tail == Some(e.file) || (e.file in s.disk && e.file !in s.files) {
      if e in WaitingEntries(s.disk, s.waiting) { WaitingFiles(s.disk, s.waiting, e); }
    }
  }

  lemma CreateFolder(s: Shard, name: string)
    requires name !in s.disk
    ensures FolderOf(Create(s, name).disk) == FolderOf(s.disk)
  {
    forall e: Entry ensures e in FolderOf(s.disk).live ==> e.file != name { InFolder(s.disk, e); }
    FileReplaced(s.disk, name, [], FolderOf(s.disk));
  }

  // ---------- every known bucket lies on the chain of its file ----------

  predicate OnRecord(b: seq<byte>, k: KnownBucket) {
    && End(k) <= |b|
    && Chain(b, 0, k.pos) && Good(b, k.pos) && RecordAt(b, k.pos) == KnownRecord(b, k)
  }

  predicate Chained(s: Shard)
    requires Names(s)
  {
    && (s.tail.Some? ==> Chain(s.disk[s.tail.value], 0, s.files[s.tail.value].nextPos))
    && (s.writing.Some? ==> Chain(s.disk[s.writing.value], 0, |s.disk[s.writing.value]|))
    && (forall id | id in s.known :: OnRecord(s.disk[s.known[id].file], s.known[id]))
  }

  /** A record that is still on the chain and has the same bytes is the same record. */
  lemma SameRecord(b: seq<byte>, c: seq<byte>, k: KnownBucket)
    requires OnRecord(b, k) && Chain(c, 0, k.pos) && End(k) <= |c| && b[k.pos..End(k)] == c[k.pos..End(k)]
    ensures OnRecord(c, k) && KnownRecord(c, k) == KnownRecord(b, k)
  {
    RecordEnds(b, k);
    hide Chain, Uint32At, LengthAt;
    SameChunk(b, c, k.pos);
  }

  lemma RecordEnds(b: seq<byte>, k: KnownBucket)
    requires OnRecord(b, k)
    ensures Next(b, k.pos) == End(k) && WellSized(b, k.pos)
  {
    assert |RecordAt(b, k.pos).body| == |KnownRecord(b, k).body|;
  }

  /** Closing or deleting files nobody uses changes nothing for the others. */
  lemma SameChained(s: Shard, t: Shard)
    requires Names(s) && Names(t) && Chained(s)
    requires t.known == s.known && (t.tail.Some? ==> t.tail == s.tail) && (t.writing.Some? ==> t.writing == s.writing)
    requires forall m | m in t.disk :: m in s.disk && t.disk[m] == s.disk[m]
    requires t.tail.Some? ==> t.files[t.tail.value].nextPos == s.files[t.tail.value].nextPos
    ensures Chained(t)
  {
    hide Chain, OnRecord;
  }

  lemma UnrefChained(s: Shard, n: string, removed: bool)
    requires Names(s) && RefCounts(s, Some(n)) && n in s.files && Chained(s)
    ensures Names(Unref(s, n, removed)) && Chained(Unref(s, n, removed))
  {
    UnrefNames(s, n, removed);
    hide Chained;
    SameChained(s, Unref(s, n, removed));
  }

  lemma CreateChained(s: Shard, name: string)
    requires Names(s) && Bounds(s) && s.writing.None? && name !in s.disk && Chained(s)
    ensures Names(Create(s, name)) && Chained(Create(s, name))
  {
    CreateBounds(s, name);
    hide OnRecord;
  }

  lemma PrefixSlice(b: seq<byte>, more: seq<byte>, i: nat, j: nat)
    requires i <= j <= |b|
    ensures (b + more)[i..j] == b[i..j]
  {}

  lemma OnRecordGrown(b: seq<byte>, more: seq<byte>, k: KnownBucket)
    requires OnRecord(b, k)
    ensures OnRecord(b + more, k) && KnownRecord(b + more, k) == KnownRecord(b, k)
  {
    var f := b + more;
    RecordEnds(b, k);
    hide Uint32At, LengthAt, RecordAt, Scan, ScanTo;
    PrefixSlice(b, more, 0, k.pos);
    PrefixSlice(b, more, k.pos, End(k));
    ChainLocal(b, f, 0, k.pos);
    SameRecord(b, f, k);
  }

  lemma ChainedGrown(s: Shard, t: Shard, w: string, more: seq<byte>)
    requires Names(s) && Chained(s) && w in s.disk && s.tail != Some(w)
    requires Names(t) && t.disk == s.disk[w := s.disk[w] + more] && t.known == s.known && t.tail == s.tail
    requires t.tail.Some? ==> t.files[t.tail.value].nextPos == s.files[s.tail.value].nextPos
    requires t.writing.Some? ==> Chain(t.disk[t.writing.value], 0, |t.disk[t.writing.value]|)
    ensures Chained(t)
  {
    forall id | id in s.known ensures OnRecord(t.disk[s.known[id].file], s.known[id]) {
      if s.known[id].file == w { OnRecordGrown(s.disk[w], more, s.known[id]); }
    }
    hide OnRecord, Chain;
  }

  lemma TearChained(s: Shard, junk: seq<byte>)
    requires Names(s) && Bounds(s) && s.writing.Some? && Chained(s)
    ensures Names(Tear(s, junk)) && Chained(Tear(s, junk))
  {
    hide Chained;
    ChainedGrown(s, Tear(s, junk), s.writing.value, junk);
  }

  /** `e` is a complete record when it is written at the end of `b`. */
  predicate Completes(b: seq<byte>, e: seq<byte>, k: KnownBucket) {
    && k.pos == |b| && End(k) == |b| + |e|
    && Good(b + e, |b|) && Next(b + e, |b|) == |b| + |e| && RecordAt(b + e, |b|) == KnownRecord(b + e, k)
  }

  lemma EncodeCompletes(b: seq<byte>, time: uint32, body: seq<byte>, crc: uint32, k: KnownBucket)
    requires |body| <= MAX_CHUNK_SIZE
    requires k.pos == |b| && k.time == time && k.size == |body| && k.crc == crc
    ensures Completes(b, Encode(time, body, crc), k)
    ensures KnownRecord(b + Encode(time, body, crc), k) == Record(|b|, time, crc, body)
    ensures Encode(time, body, crc)[HEADER_SIZE..] == body
  {
    EncodedFields(b, time, body, crc);
    var e := Encode(time, body, crc);
    assert e[HEADER_SIZE..] == body;
    assert (b + e)[k.pos + HEADER_SIZE..End(k)] == body;
  }

  lemma AppendedChain(b: seq<byte>, e: seq<byte>, k: KnownBucket)
    requires Chain(b, 0, |b|) && Completes(b, e, k)
    ensures Chain(b + e, 0, |b + e|) && OnRecord(b + e, k)
  {
    PrefixSlice(b, e, 0, |b|);
    ChainLocal(b, b + e, 0, |b|);
    hide Uint32At, LengthAt, RecordAt;
    ChainStep(b + e, 0, |b|);
  }

  lemma AppendChained(s: Shard, e: seq<byte>, time: uint32, body: seq<byte>, crc: uint32)
    requires Names(s) && Chained(s) && s.writing.Some? && s.last >= 0
    requires Names(Append(s, e, time, body, crc))
    requires Completes(s.disk[s.writing.value], e, Append(s, e, time, body, crc).known[s.last + 1])
    ensures Chained(Append(s, e, time, body, crc))
  {
    var t := Append(s, e, time, body, crc);
    var w := s.writing.value;
    AppendedChain(s.disk[w], e, t.known[s.last + 1]);
    hide Chain, OnRecord, Completes;
    ChainedGrown(s, t.(known := s.known), w, e);
    forall id | id in t.known ensures OnRecord(t.disk[t.known[id].file], t.known[id]) {
      if id != s.last + 1 { assert t.known[id] == s.known[id]; }
    }
  }

  // ---------- writing ----------

  /** A complete record is found again, unless a broken mark is before it. */
  lemma AppendedScan(b: seq<byte>, e: seq<byte>, k: KnownBucket)
    requires Chain(b, 0, |b|) && Completes(b, e, k)
    ensures Broken(b + e) == Broken(b)
    ensures Scan(b + e, 0) == if Broken(b) then Scan(b, 0) else Scan(b, 0) + [KnownRecord(b + e, k)]
  {
    ReachedUnlessBroken(b, |b|);
    if Broken(b) {
      BrokenGrown(b, e);
    } else {
      AppendChunk(b, e);
      hide Uint32At, LengthAt;
      StopThere(b + e, 0, |b + e|);
    }
  }

  lemma BrokenGrown(b: seq<byte>, e: seq<byte>)
    requires Broken(b)
    ensures Broken(b + e) && Scan(b + e, 0) == Scan(b, 0)
  {
    var n := Next(b, Stop(b, 0));
    assert (b + e)[..n] == b[..n];
    hide Broken, Scan;
    BrokenScan(b, b + e);
  }

  /** What is left of a cut write changes nothing. */
  lemma TornScan(b: seq<byte>, junk: seq<byte>)
    requires Chain(b, 0, |b|) && !WellSized(b + junk, |b|)
    ensures Broken(b + junk) == Broken(b) && Scan(b + junk, 0) == Scan(b, 0)
  {
    ReachedUnlessBroken(b, |b|);
    if Broken(b) {
      BrokenGrown(b, junk);
    } else {
      TornAppend(b, junk);
      PrefixSlice(b, junk, 0, |b|);
      ScanToLocal(b, b + junk, 0, |b|);
      StopThere(b + junk, 0, |b|);
    }
  }

  /** The folder after a complete record was written at the end of file `w`. */
  lemma WrittenFolder(disk: map<string, seq<byte>>, w: string, e: seq<byte>, k: KnownBucket)
    requires w in disk && Chain(disk[w], 0, |disk[w]|) && Completes(disk[w], e, k)
    ensures FolderOf(disk[w := disk[w] + e]) == Added(FolderOf(disk), Entry(w, KnownRecord(disk[w] + e, k)))
  {
    var x := Entry(w, KnownRecord(disk[w] + e, k));
    AppendedScan(disk[w], e, k);
    hide Chain, Completes, KnownRecord, Broken, Scan;
    forall y: Entry ensures y in Added(FolderOf(disk), x).live <==>
      if y.file == w then y.record in Scan(disk[w] + e, 0) else y in FolderOf(disk).live
    {
      InFolder(disk, y);
    }
    FileReplaced(disk, w, disk[w] + e, Added(FolderOf(disk), x));
  }

  lemma TornFolder(disk: map<string, seq<byte>>, w: string, junk: seq<byte>)
    requires w in disk && Chain(disk[w], 0, |disk[w]|) && !WellSized(disk[w] + junk, |disk[w]|)
    ensures FolderOf(disk[w := disk[w] + junk]) == FolderOf(disk)
  {
    TornScan(disk[w], junk);
    SameScan(disk, w, disk[w] + junk);
  }

  // ---------- erasing ----------

  /** What a scan finds after any part of a deletion mark was written. */
  lemma MarkedScan(b: seq<byte>, p: nat, written: nat, r: Record)
    requires Chain(b, 0, p) && Good(b, p) && written <= 4
    ensures r in Scan(Stamp(b, p, written), 0) <==>
              && r in Scan(b, 0) && (written == 4 ==> r != RecordAt(b, p)) && (written == 3 ==> r.pos < p)
    ensures Broken(Stamp(b, p, written)) <==> written == 3 || Broken(b)
  {
    if Reaches(b, 0, p) {
      MarkedReached(b, p, written, r);
    } else {
      MarkedHidden(b, p, written);
    }
  }

  lemma MarkedHidden(b: seq<byte>, p: nat, written: nat)
    requires Chain(b, 0, p) && Good(b, p) && !Reaches(b, 0, p) && written <= 4
    ensures Scan(Stamp(b, p, written), 0) == Scan(b, 0) && Broken(b) && Broken(Stamp(b, p, written))
    ensures forall r | r in Scan(b, 0) :: r.pos < p
  {
    HiddenBehind(b, 0, p);
    var c, n := Stamp(b, p, written), Next(b, Stop(b, 0));
    StampElsewhere(b, p, written, 0, n);
    assert |c| == |b| && c[..n] == c[0..n] && b[..n] == b[0..n];
    hide Stamp, Scan, Uint32At, LengthAt;
    BrokenScan(b, c);
  }

  lemma MarkedReached(b: seq<byte>, p: nat, written: nat, r: Record)
    requires Reaches(b, 0, p) && Good(b, p) && written <= 4
    ensures r in Scan(Stamp(b, p, written), 0) <==>
              && r in Scan(b, 0) && (written == 4 ==> r != RecordAt(b, p)) && (written == 3 ==> r.pos < p)
    ensures Broken(Stamp(b, p, written)) <==> written == 3 || Broken(b)
  {
    MarkedStop(b, p, written);
    hide Broken, Uint32At, LengthAt, Stamp;
    if written == 4 {
      EraseRecord(b, p);
      Parts(b, p);
    } else if written == 3 {
      TornErase(b, p, 3);
      ScanSplit(b, 0, p);
      ScanToBefore(b, 0, p);
      ScanInOrder(b, p);
    } else {
      TornErase(b, p, written);
    }
  }

  /** The record at `p` is one of its kind among the records of a scan. */
  lemma Parts(b: seq<byte>, p: nat)
    requires Reaches(b, 0, p) && Good(b, p)
    ensures RecordAt(b, p) !in ScanTo(b, 0, p) && RecordAt(b, p) !in Scan(b, Next(b, p))
  {
    ScanToBefore(b, 0, p);
    ScanInOrder(b, Next(b, p));
  }

  lemma MarkedStop(b: seq<byte>, p: nat, written: nat)
    requires Reaches(b, 0, p) && Good(b, p) && written <= 4
    ensures Broken(Stamp(b, p, written)) <==> written == 3 || Broken(b)
  {
    var c := Stamp(b, p, written);
    StampedMagic(b, p, written);
    if written >= 3 {
      StampElsewhere(b, p, written, 0, p);
      hide Stamp, Uint32At, LengthAt;
      ScanToLocal(b, c, 0, p);
      if written == 3 {
        StopThere(c, 0, p);
      } else {
        StopBehind(b, c, p);
      }
    }
  }

  /** A whole mark leaves the place where the scan stops. */
  lemma StopBehind(b: seq<byte>, c: seq<byte>, p: nat)
    requires Reaches(b, 0, p) && Good(b, p) && c == Stamp(b, p, 4)
    requires Reaches(c, 0, p) && Passable(c, p) && Next(c, p) == Next(b, p)
    ensures Broken(c) == Broken(b)
  {
    var n := Next(b, p);
    StampElsewhere(b, p, 4, n, |b|);
    assert |c| == |b|;
    hide Stamp;
    SameTail(b, c, n);
    StopLocal(b, c, n);
    hide Uint32At, LengthAt;
    ReachesStep(b, 0, p);
    ReachesStep(c, 0, p);
    StopFrom(b, 0, n);
    StopFrom(c, 0, n);
  }

  lemma {:induction false} StopFrom(b: seq<byte>, q: nat, p: nat)
    requires Reaches(b, q, p)
    ensures Stop(b, q) == Stop(b, p)
    decreases p - q
  {
    if q < p { StopFrom(b, Next(b, q), p); }
  }

  lemma {:induction false} StopLocal(b: seq<byte>, c: seq<byte>, p: nat)
    requires |b| == |c| && p <= |b| && b[p..] == c[p..]
    ensures Stop(b, p) == Stop(c, p) && WellSized(b, Stop(b, p)) == WellSized(c, Stop(c, p))
    decreases |b| - p
  {
    if WellSized(b, p) {
      var n := Next(b, p);
      assert b[p..n] == b[p..][..n - p] && c[p..n] == c[p..][..n - p];
      SameChunk(b, c, p);
      assert b[n..] == b[p..][n - p..] && c[n..] == c[p..][n - p..];
      StopLocal(b, c, n);
    } else if WellSized(c, p) {
      var n := Next(c, p);
      assert b[p..n] == b[p..][..n - p] && c[p..n] == c[p..][..n - p];
      SameChunk(c, b, p);
    }
  }

  /** An erase, whole, torn or lost, changes what a restart finds exactly as stated by `Marked`. */
  lemma ForgetFolder(s: Shard, id: int, written: nat)
    requires Names(s) && Bounds(s) && Chained(s) && id in s.known && written <= 4
    ensures FolderOf(Forget(s, id, written).disk) == Marked(FolderOf(s.disk), EntryOf(s.disk, s.known[id]), written)
  {
    var k := s.known[id];
    var b := s.disk[k.file];
    var x, c := Entry(k.file, RecordAt(b, k.pos)), Stamp(b, k.pos, written);
    assert OnRecord(b, k);
    hide Bounds, Chained, Names;
    MarkedScan(b, k.pos, written, RecordAt(b, k.pos));
    forall e: Entry ensures e in Marked(FolderOf(s.disk), x, written).live <==>
      if e.file == k.file then e.record in Scan(c, 0) else e in FolderOf(s.disk).live
    {
      InFolder(s.disk, e);
      MarkedScan(b, k.pos, written, e.record);
      hide Stamp, Scan, Broken, Good, RecordAt, Chain;
    }
    hide Stamp, Scan, Broken, Good, Chain;
    FileReplaced(s.disk, k.file, c, Marked(FolderOf(s.disk), x, written));
  }

  lemma OnRecordMarked(b: seq<byte>, k: KnownBucket, m: KnownBucket, written: nat)
    requires OnRecord(b, k) && OnRecord(b, m) && (End(k) <= m.pos || End(m) <= k.pos) && written <= 4
    ensures OnRecord(Stamp(b, k.pos, written), m)
  {
    RecordEnds(b, k);
    RecordEnds(b, m);
    hide Uint32At, LengthAt, Scan, ScanTo, RecordAt;
    ChainStamped(b, 0, m.pos, k.pos, written);
    StampElsewhere(b, k.pos, written, m.pos, End(m));
    assert |Stamp(b, k.pos, written)| == |b|;
    hide Stamp;
    SameRecord(b, Stamp(b, k.pos, written), m);
  }

  lemma ForgetChained(s: Shard, id: int, written: nat)
    requires Names(s) && Bounds(s) && Disjoint(s.known) && Chained(s) && id in s.known && written <= 4
    ensures Names(Forget(s, id, written)) && Chained(Forget(s, id, written))
  {
    var t := Forget(s, id, written);
    var k := s.known[id];
    var b := s.disk[k.file];
    ForgetBounds(s, id, written);
    assert OnRecord(b, k);
    forall j | j in t.known ensures OnRecord(t.disk[t.known[j].file], t.known[j]) {
      assert OnRecord(s.disk[s.known[j].file], s.known[j]);
      hide OnRecord;
      if s.known[j].file == k.file { OnRecordMarked(b, k, s.known[j], written); }
    }
    if s.tail == Some(k.file) { ChainStamped(b, 0, s.files[k.file].nextPos, k.pos, written); }
    if s.writing == Some(k.file) { ChainStamped(b, 0, |b|, k.pos, written); }
  }

  // ---------- reading the tail ----------

  lemma OpenTailChained(s: Shard)
    requires Names(s) && Distinct(s.waiting) && Bounds(s) && Chained(s) && s.tail.None? && s.waiting != []
    ensures Names(OpenTail(s)) && Chained(OpenTail(s))
  {
    OpenTailBounds(s);
    hide OnRecord;
  }

  lemma AdvanceChained(s: Shard)
    requires Names(s) && Bounds(s) && Chained(s) && OnChunk(s)
    ensures Names(Advance(s)) && Chained(Advance(s))
  {
    AdvanceBounds(s);
    ChainStep(s.disk[s.tail.value], 0, s.files[s.tail.value].nextPos);
    hide OnRecord;
  }

  lemma TakeChained(s: Shard)
    requires Names(s) && Bounds(s) && Chained(s) && OnChunk(s) && s.last >= 0
    requires Good(s.disk[s.tail.value], s.files[s.tail.value].nextPos)
    ensures Names(Take(s)) && Chained(Take(s))
  {
    TakeBounds(s);
    var n, p := s.tail.value, s.files[s.tail.value].nextPos;
    ChainStep(s.disk[n], 0, p);
    assert OnRecord(s.disk[n], Take(s).known[s.last + 1]);
    hide OnRecord;
  }

  /** A tail file that is given up takes its unread buckets, the first ones of the tail, with it. */
  lemma GivenUp(s: Shard)
    requires Names(s) && s.tail.Some? && Names(s.(tail := None))
    ensures var k := |Unread(s, s.tail.value)|;
            && k <= |View(s).tail| && View(s.(tail := None)) == Skip(View(s), k)
            && forall i | 0 <= i < k :: View(s).tail[i].file == s.tail.value
  {
    var first := Label(s.tail.value, Unread(s, s.tail.value));
    var rest := WaitingEntries(s.disk, s.waiting);
    assert (first + rest)[|first|..] == rest;
    assert [] + rest == rest;
  }

  /** So does a waiting file that cannot be opened. */
  lemma SkippedOver(s: Shard)
    requires Names(s) && s.tail.None? && s.waiting != [] && Names(SkipWaiting(s))
    ensures var k := |Scan(s.disk[s.waiting[0].name], 0)|;
            && k <= |View(s).tail| && View(SkipWaiting(s)) == Skip(View(s), k)
            && forall i | 0 <= i < k :: View(s).tail[i].file == s.waiting[0].name
  {
    var first := Label(s.waiting[0].name, Scan(s.disk[s.waiting[0].name], 0));
    var rest := WaitingEntries(s.disk, s.waiting[1..]);
    assert [] + (first + rest) == first + rest;
    assert (first + rest)[|first|..] == rest;
    assert [] + rest == rest;
  }

  // ---------- no two buckets share a place ----------

  lemma {:induction false} TailApart(s: Shard, id: int)
    requires Names(s) && Bounds(s) && id in s.known
    ensures EntryOf(s.disk, s.known[id]) !in TailEntries(s)
  {
    var e := EntryOf(s.disk, s.known[id]);
    TailFiles(s);
    if e in TailEntries(s) {
      assert s.tail == Some(e.file);
      ScanInOrder(s.disk[e.file], s.files[e.file].nextPos);
      assert e !in WaitingEntries(s.disk, s.waiting) by {
        if e in WaitingEntries(s.disk, s.waiting) { WaitingFiles(s.disk, s.waiting, e); }
      }
    }
  }

  /** The end of the file being written is no bucket's place. */
  lemma FreshPlace(s: Shard, e: Entry)
    requires Names(s) && Bounds(s) && s.writing == Some(e.file) && e.record.pos == |s.disk[e.file]|
    ensures e !in OnDisk(View(s))
  {
    TailFiles(s);
    hide TailEntries;
    forall id | id in s.known ensures EntryOf(s.disk, s.known[id]) != e {
      assert s.known[id].file == e.file ==> s.known[id].pos < End(s.known[id]) <= |s.disk[e.file]|;
    }
  }

  /** Erasing a bucket takes it, and only it, out of what the cache knows. */
  lemma DropExact(s: Shard, id: int)
    requires Names(s) && Bounds(s) && Disjoint(s.known) && id in s.known
    ensures OnDisk(Drop(View(s), id)) == OnDisk(View(s)) - {EntryOf(s.disk, s.known[id])}
  {
    TailApart(s, id);
    forall j | j in s.known && j != id ensures EntryOf(s.disk, s.known[j]) != EntryOf(s.disk, s.known[id]) {
      assert s.known[j].file == s.known[id].file ==> s.known[j].pos != s.known[id].pos;
    }
    hide EntryOf, TailEntries, Disjoint, Bounds, OnDisk;
    DropExactly(View(s), id);
  }

  // ---------- when nothing was torn ----------

  /** A restart would find exactly what the cache knows, and so it would after another write. */
  ghost predicate Exact(s: Shard)
    requires Names(s)
  {
    FolderOf(s.disk).live == OnDisk(View(s)) && (s.writing.Some? ==> s.writing.value !in FolderOf(s.disk).broken)
  }

  lemma SweptExact(f: Folder, s: Store, gone: set<string>)
    requires f.live == OnDisk(s) && Idle(s, gone)
    ensures Swept(f, gone).live == OnDisk(s)
  {
    forall e | e in OnDisk(s) ensures e.file !in gone { IdleMeans(s, gone, e); }
  }

  lemma UnrefExact(s: Shard, n: string, removed: bool)
    requires Names(s) && Bounds(s) && RefCounts(s, Some(n)) && n in s.files && Exact(s)
    ensures Names(Unref(s, n, removed)) && Exact(Unref(s, n, removed))
  {
    UnrefView(s, n, removed);
    UnrefFolder(s, n, removed);
    GoneIsIdle(s, n, removed);
    hide Names, Bounds, RefCounts, OnDisk, View, FolderOf, Idle;
    SweptExact(FolderOf(s.disk), View(s), Gone(s, n, removed));
  }

  lemma AppendExact(s: Shard, t: Shard, e: Entry)
    requires Names(s) && Names(t) && Exact(s) && s.writing == Some(e.file) && t.writing == s.writing
    requires View(t) == Save(View(s), e) && FolderOf(t.disk) == Added(FolderOf(s.disk), e)
    requires forall id | id in s.known :: id <= s.last
    ensures Exact(t)
  {
    hide FolderOf, OnDisk, Names;
    SaveKeeps(View(s), e);
  }

  lemma ForgetExact(s: Shard, id: int)
    requires Inv(s) && Chained(s) && id in s.known && Exact(s)
    ensures Names(Forget(s, id, 4)) && Exact(Forget(s, id, 4))
  {
    ForgetFolder(s, id, 4);
    DropExact(s, id);
    ForgetBounds(s, id, 4);
    ForgetKnown(s, id, 4);
    ForgetTail(s, id, 4);
    hide Names, Bounds, FolderOf, OnDisk, KnownEntries, TailEntries, EntryOf;
  }

  lemma TakeExact(s: Shard, t: Shard)
    requires Names(s) && Names(t) && Exact(s) && View(s).tail != [] && View(t) == TakeTail(View(s))
    requires t.disk == s.disk && t.writing == s.writing && forall id | id in s.known :: id <= s.last
    ensures Exact(t)
  {
    hide FolderOf, OnDisk, Names;
    TakeKeeps(View(s));
  }
}
