/** The state of one shard of the disk cache as a value, its invariant, and what each elementary
    change does to it. Open files are keyed by name: a name is created at most once (O_EXCL), so a
    name stands for the one file object that the buckets and the two roles share. */
module DiskState {
  import opened Records
  import opened MapSums
  import opened Store

  datatype Option<+T> = None | Some(value: T)

  datatype OpenFile = OpenFile(nextPos: nat, size: nat, refCount: int)
  datatype WaitingFile = WaitingFile(name: string, size: nat)
  datatype KnownBucket = KnownBucket(file: string, pos: nat, time: uint32, size: nat, crc: uint32)

  datatype Shard = Shard(
    disk: map<string, seq<byte>>,
    files: map<string, OpenFile>,
    known: map<int, KnownBucket>,
    knownSize: int,
    last: int,
    tail: Option<string>,
    waiting: seq<WaitingFile>,
    waitingSize: int,
    writing: Option<string>,
    total: int)

  // ---------- the invariant ----------

  predicate Names(s: Shard) {
    && (forall n | n in s.files :: n in s.disk)
    && (forall id | id in s.known :: s.known[id].file in s.files)
    && (s.tail.Some? ==> s.tail.value in s.files)
    && (s.writing.Some? ==> s.writing.value in s.files && s.writing != s.tail)
    && (forall i | 0 <= i < |s.waiting| ::
          && s.waiting[i].name in s.disk && s.waiting[i].name !in s.files
          && s.waiting[i].size == |s.disk[s.waiting[i].name]|)
  }

  lemma RolesNamed(s: Shard)
    requires Names(s)
    ensures s.tail.Some? ==> s.tail.value in s.files && s.tail.value in s.disk
    ensures s.writing.Some? ==> s.writing.value in s.files && s.writing.value in s.disk
  {}

  predicate Distinct(waiting: seq<WaitingFile>) {
    forall i, j | 0 <= i < j < |waiting| :: waiting[i].name != waiting[j].name
  }

  /** Known records of a file lie below this position. */
  function Limit(s: Shard, n: string): nat
    requires n in s.files
  {
    if s.tail == Some(n) then s.files[n].nextPos else s.files[n].size
  }

  function End(k: KnownBucket): nat { k.pos + HEADER_SIZE + k.size }

  predicate Bounds(s: Shard)
    requires Names(s)
  {
    && (forall n | n in s.files :: s.files[n].nextPos <= s.files[n].size <= |s.disk[n]|)
    && (s.tail.Some? ==> s.files[s.tail.value].size == |s.disk[s.tail.value]|)
    && (s.writing.Some? ==> s.files[s.writing.value].size == |s.disk[s.writing.value]| <= FILE_ROTATE_SIZE)
    && (forall id | id in s.known :: 1 <= id <= s.last && End(s.known[id]) <= Limit(s, s.known[id].file))
  }

  /** Records of known buckets never overlap. */
  predicate Disjoint(known: map<int, KnownBucket>) {
    forall i, j | i in known && j in known && i != j && known[i].file == known[j].file ::
      End(known[i]) <= known[j].pos || End(known[j]) <= known[i].pos
  }

  lemma WritingSize(s: Shard)
    requires Names(s) && Bounds(s) && s.writing.Some?
    ensures s.files[s.writing.value].size == |s.disk[s.writing.value]|
  {}

  function IdsIn(known: map<int, KnownBucket>, n: string): set<int> {
    set id | id in known && known[id].file == n
  }

  function Bit(b: bool): nat { if b then 1 else 0 }

  /** References to a file: one per known bucket in it and one for each role. */
  function Refs(s: Shard, n: string): nat {
    |IdsIn(s.known, n)| + Bit(s.tail == Some(n)) + Bit(s.writing == Some(n))
  }

  /** `hot` is a file whose last reference has been given up but not yet counted down. */
  predicate RefCounts(s: Shard, hot: Option<string>) {
    forall n | n in s.files :: s.files[n].refCount == Refs(s, n) + Bit(hot == Some(n)) && s.files[n].refCount >= 1
  }

  function Cost(k: KnownBucket): int { k.size + HEADER_SIZE }

  function Costs(known: map<int, KnownBucket>): map<int, int> {
    map id | id in known :: Cost(known[id])
  }

  function CostsIn(known: map<int, KnownBucket>, n: string): map<int, int> {
    map id | id in known && known[id].file == n :: Cost(known[id])
  }

  function Sizes(files: map<string, OpenFile>): map<string, int> {
    map n | n in files :: files[n].size
  }

  function WaitingTotal(waiting: seq<WaitingFile>): int {
    if waiting == [] then 0 else waiting[0].size + WaitingTotal(waiting[1..])
  }

  ghost predicate Totals(s: Shard) {
    && s.knownSize == Sum(Costs(s.known))
    && s.waitingSize == WaitingTotal(s.waiting)
    && s.total == s.waitingSize + Sum(Sizes(s.files))
  }

  /** The known records of a file take no more room than the part of it that was read or written. */
  ghost predicate Packed(s: Shard) {
    forall n | n in s.files :: Sum(CostsIn(s.known, n)) <= Limit(s, n)
  }

  ghost predicate InvHot(s: Shard, hot: Option<string>) {
    && Names(s) && Distinct(s.waiting) && Bounds(s) && Disjoint(s.known)
    && RefCounts(s, hot) && Totals(s) && Packed(s)
  }

  ghost predicate Inv(s: Shard) { InvHot(s, None) }

  // ---------- what the state means ----------

  /** The record a known bucket stands for (a record always fits its file, see `Bounds`). */
  function KnownRecord(b: seq<byte>, k: KnownBucket): Record {
    Record(k.pos, k.time, k.crc, if End(k) <= |b| then b[k.pos + HEADER_SIZE..End(k)] else [])
  }

  function Label(n: string, recs: seq<Record>): seq<Entry> {
    seq(|recs|, i requires 0 <= i < |recs| => Entry(n, recs[i]))
  }

  function Unread(s: Shard, n: string): seq<Record>
    requires n in s.disk && Names(s)
  {
    if s.tail == Some(n) then Scan(s.disk[n], s.files[n].nextPos) else []
  }

  function WaitingEntries(disk: map<string, seq<byte>>, waiting: seq<WaitingFile>): seq<Entry>
    requires forall i | 0 <= i < |waiting| :: waiting[i].name in disk
  {
    if waiting == [] then []
    else Label(waiting[0].name, Scan(disk[waiting[0].name], 0)) + WaitingEntries(disk, waiting[1..])
  }

  function TailEntries(s: Shard): seq<Entry>
    requires Names(s)
  {
    (if s.tail.Some? then Label(s.tail.value, Unread(s, s.tail.value)) else [])
    + WaitingEntries(s.disk, s.waiting)
  }

  function BytesOf(disk: map<string, seq<byte>>, n: string): seq<byte> {
    if n in disk then disk[n] else []
  }

  function EntryOf(disk: map<string, seq<byte>>, k: KnownBucket): Entry {
    Entry(k.file, KnownRecord(BytesOf(disk, k.file), k))
  }

  function KnownEntries(disk: map<string, seq<byte>>, known: map<int, KnownBucket>): map<int, Entry> {
    map id | id in known :: EntryOf(disk, known[id])
  }

  function View(s: Shard): Store
    requires Names(s)
  {
    Store(KnownEntries(s.disk, s.known), TailEntries(s), s.last)
  }

  // ---------- disk usage ----------

  function TailRest(s: Shard): int
    requires Names(s)
  {
    if s.tail.Some? then s.files[s.tail.value].size - s.files[s.tail.value].nextPos else 0
  }

  function CostsAmong(known: map<int, KnownBucket>, names: set<string>): map<int, int> {
    map id | id in known && known[id].file in names :: Cost(known[id])
  }

  function SizesAmong(files: map<string, OpenFile>, names: set<string>): map<string, int> {
    map n | n in files && n in names :: files[n].size
  }

  lemma SplitOff(known: map<int, KnownBucket>, files: map<string, OpenFile>, names: set<string>, n: string)
    requires n in names && n in files
    ensures Sum(CostsAmong(known, names)) == Sum(CostsAmong(known, names - {n})) + Sum(CostsIn(known, n))
    ensures Sum(SizesAmong(files, names)) == files[n].size + Sum(SizesAmong(files, names - {n}))
  {
    SumUnion(CostsAmong(known, names - {n}), CostsIn(known, n));
    assert CostsAmong(known, names) == CostsAmong(known, names - {n}) + CostsIn(known, n);
    SumRemove(SizesAmong(files, names), n);
    assert SizesAmong(files, names) - {n} == SizesAmong(files, names - {n});
  }

  lemma {:induction false} UnsentAmong(s: Shard, names: set<string>)
    requires names <= s.files.Keys
    requires Packed(s)
    requires forall n | n in s.files :: s.files[n].nextPos <= s.files[n].size
    ensures Sum(CostsAmong(s.known, names))
            + (if s.tail.Some? && s.tail.value in names
               then s.files[s.tail.value].size - s.files[s.tail.value].nextPos else 0)
            <= Sum(SizesAmong(s.files, names))
  {
    if names == {} {
      assert CostsAmong(s.known, names) == map[];
    } else {
      var n :| n in names;
      UnsentAmong(s, names - {n});
      SplitOff(s.known, s.files, names, n);
    }
  }

  lemma AllAmong(known: map<int, KnownBucket>, files: map<string, OpenFile>)
    requires forall id | id in known :: known[id].file in files
    ensures CostsAmong(known, files.Keys) == Costs(known)
    ensures SizesAmong(files, files.Keys) == Sizes(files)
  {
    forall id | id in known ensures id in CostsAmong(known, files.Keys) {
      assert known[id].file in files.Keys;
    }
  }

  lemma UnsentBound(s: Shard)
    requires Totals(s) && Packed(s)
    requires forall id | id in s.known :: s.known[id].file in s.files
    requires forall n | n in s.files :: s.files[n].nextPos <= s.files[n].size
    requires s.tail.Some? ==> s.tail.value in s.files
    ensures s.knownSize + s.waitingSize
            + (if s.tail.Some? then s.files[s.tail.value].size - s.files[s.tail.value].nextPos else 0)
            <= s.total
  {
    UnsentAmong(s, s.files.Keys);
    AllAmong(s.known, s.files);
  }

  /** The clamp in `TotalFileSize` never fires. */
  lemma UnsentAtMostTotal(s: Shard)
    requires Inv(s)
    ensures s.knownSize + s.waitingSize + TailRest(s) <= s.total
  {
    UnsentBound(s);
  }
}
