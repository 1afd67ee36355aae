/** A restart keeps the files and forgets everything else. */
module DiskRestart {
  import opened Records
  import opened MapSums
  import opened Store
  import opened DiskState
  import opened DiskOps
  import opened DiskFolder

  /** The order of file names, which start with their creation time. */
  predicate NameBefore(a: string, b: string) {
    b != [] && (a == [] || a[0] < b[0] || (a[0] == b[0] && NameBefore(a[1..], b[1..])))
  }

  lemma {:induction false} NameNotBeforeItself(a: string)
    ensures !NameBefore(a, a)
  {
    if a != [] { NameNotBeforeItself(a[1..]); }
  }

  /** `names` lists the files of the folder in name order. */
  ghost predicate Listing(names: seq<string>, disk: map<string, seq<byte>>) {
    && (forall n :: n in names <==> n in disk)
    && (forall i, j | 0 <= i < j < |names| :: NameBefore(names[i], names[j]))
  }

  function Waiting(disk: map<string, seq<byte>>, names: seq<string>): (w: seq<WaitingFile>)
    requires forall n | n in names :: n in disk
    ensures |w| == |names|
    ensures forall i | 0 <= i < |w| :: w[i] == WaitingFile(names[i], |disk[names[i]]|)
  {
    seq(|names|, i requires 0 <= i < |names| => assert names[i] in names; WaitingFile(names[i], |disk[names[i]]|))
  }

  function Restart(disk: map<string, seq<byte>>, names: seq<string>): Shard
    requires forall n | n in names :: n in disk
  {
    var waiting := Waiting(disk, names);
    Shard(disk, map[], map[], 0, 0, None, waiting, WaitingTotal(waiting), None, WaitingTotal(waiting))
  }

  lemma RestartInv(disk: map<string, seq<byte>>, names: seq<string>)
    requires Listing(names, disk)
    ensures Inv(Restart(disk, names)) && Chained(Restart(disk, names))
  {
    var s := Restart(disk, names);
    forall i | 0 <= i < |s.waiting| ensures s.waiting[i].name in s.disk { assert names[i] in names; }
    forall i, j | 0 <= i < j < |s.waiting| ensures s.waiting[i].name != s.waiting[j].name {
      NameNotBeforeItself(names[i]);
    }
    assert Costs(s.known) == map[] && Sizes(s.files) == map[];
  }

  /** Entries of waiting files are exactly the live records of those files. */
  lemma {:induction false} WaitingMember(disk: map<string, seq<byte>>, waiting: seq<WaitingFile>, e: Entry)
    requires forall i | 0 <= i < |waiting| :: waiting[i].name in disk
    ensures e in WaitingEntries(disk, waiting) <==>
            exists i :: 0 <= i < |waiting| && waiting[i].name == e.file && e.record in Scan(disk[e.file], 0)
  {
    if waiting != [] {
      var n := waiting[0].name;
      WaitingMember(disk, waiting[1..], e);
      LabelMember(n, Scan(disk[n], 0), e);
      forall i | 0 <= i < |waiting| && waiting[i].name == e.file && i > 0 ensures waiting[1..][i - 1].name == e.file {}
    }
  }

  lemma LabelMember(n: string, recs: seq<Record>, e: Entry)
    ensures e in Label(n, recs) <==> e.file == n && e.record in recs
  {
    if e.file == n && e.record in recs {
      var i :| 0 <= i < |recs| && recs[i] == e.record;
      assert Label(n, recs)[i] == e;
    }
  }

  lemma RestartTail(disk: map<string, seq<byte>>, names: seq<string>, e: Entry)
    requires Listing(names, disk)
    ensures e in WaitingEntries(disk, Waiting(disk, names)) <==> e in FolderOf(disk).live
  {
    var w := Waiting(disk, names);
    WaitingMember(disk, w, e);
    InFolder(disk, e);
    if e in FolderOf(disk).live {
      var i :| 0 <= i < |names| && names[i] == e.file;
      assert w[i].name == e.file;
    }
  }

  /** Files in name order, records of one file in the order they were written. */
  predicate Earlier(a: Entry, b: Entry) {
    NameBefore(a.file, b.file) || (a.file == b.file && a.record.pos < b.record.pos)
  }

  lemma {:induction false} WaitingOrdered(disk: map<string, seq<byte>>, waiting: seq<WaitingFile>)
    requires forall i | 0 <= i < |waiting| :: waiting[i].name in disk
    requires forall i, j | 0 <= i < j < |waiting| :: NameBefore(waiting[i].name, waiting[j].name)
    ensures var all := WaitingEntries(disk, waiting);
            forall i, j | 0 <= i < j < |all| :: Earlier(all[i], all[j])
  {
    if waiting != [] {
      var n := waiting[0].name;
      var first, rest := Label(n, Scan(disk[n], 0)), WaitingEntries(disk, waiting[1..]);
      WaitingOrdered(disk, waiting[1..]);
      ScanInOrder(disk[n], 0);
      forall j | 0 <= j < |rest| ensures NameBefore(n, rest[j].file) {
        WaitingMember(disk, waiting[1..], rest[j]);
      }
    }
  }

  /** Restart recovery: dropping all memory and listing the folder again makes readable, each once
      and in order, exactly the live records of the files, and if nothing was torn or lost exactly
      the buckets that were known or unread before, with their second, checksum and body. */
  lemma RestartRecovers(s: Shard, names: seq<string>)
    requires Inv(s) && Listing(names, s.disk)
    ensures Inv(Restart(s.disk, names))
    ensures var t := View(Restart(s.disk, names));
            && t.known == map[] && t.last == 0
            && (set e | e in t.tail) == FolderOf(s.disk).live
            && (Exact(s) ==> (set e | e in t.tail) == OnDisk(View(s)))
            && (forall i, j | 0 <= i < j < |t.tail| :: Earlier(t.tail[i], t.tail[j]) && t.tail[i] != t.tail[j])
  {
    RestartInv(s.disk, names);
    var w := Waiting(s.disk, names);
    WaitingOrdered(s.disk, w);
    assert View(Restart(s.disk, names)).tail == WaitingEntries(s.disk, w);
    forall e ensures e in WaitingEntries(s.disk, w) <==> e in FolderOf(s.disk).live { RestartTail(s.disk, names, e); }
    forall a: Entry ensures !Earlier(a, a) { NameNotBeforeItself(a.file); }
    hide WaitingEntries, FolderOf;
  }

  /** A whole erase: the mark, the count of references, possibly the file. */
  function Erased(s: Shard, id: int, written: nat, removed: bool): Shard
    requires Names(s) && Bounds(s) && id in s.known && written <= 4
  {
    Unref(Forget(s, id, written), s.known[id].file, removed)
  }

  lemma ErasedFolder(s: Shard, id: int, written: nat, removed: bool) returns (gone: set<string>)
    requires Inv(s) && Chained(s) && id in s.known && written <= 4
    ensures FolderOf(Erased(s, id, written, removed).disk)
            == Swept(Marked(FolderOf(s.disk), EntryOf(s.disk, s.known[id]), written), gone)
    ensures Idle(Drop(View(s), id), gone)
    ensures s.known[id].file in gone <==> s.known[id].file !in Erased(s, id, written, removed).disk
  {
    var f, n := Forget(s, id, written), s.known[id].file;
    gone := Gone(f, n, removed);
    ForgetFolder(s, id, written);
    UnrefFolder(f, n, removed);
    ForgetInv(s, id, written);
    GoneIsIdle(f, n, removed);
    ForgetKnown(s, id, written);
    ForgetTail(s, id, written);
    hide FolderOf, KnownEntries, TailEntries, Chained, Bounds, RefCounts, Totals, Packed, Disjoint, Idle;
  }

  /** The unread buckets of a restarted shard. */
  ghost function Found(disk: map<string, seq<byte>>, names: seq<string>): (tail: seq<Entry>)
    requires Listing(names, disk)
    ensures Names(Restart(disk, names)) && tail == View(Restart(disk, names)).tail
  {
    RestartInv(disk, names);
    WaitingEntries(disk, Waiting(disk, names))
  }

  /** An erase of which only `written` bytes of the mark reached the disk, followed by a restart: the
      erased bucket comes back exactly if fewer than three did and its file is still there; another
      bucket that a restart would have found, and that is still known or unread, is lost exactly if
      three did and it lies behind the mark. */
  lemma EraseThenRestart(s: Shard, id: int, written: nat, removed: bool, t: Shard, names: seq<string>, e: Entry)
    requires Inv(s) && Chained(s) && id in s.known && written <= 4 && e in FolderOf(s.disk).live
    requires t == Erased(s, id, written, removed) && Listing(names, t.disk)
    ensures var x, back := EntryOf(s.disk, s.known[id]), Found(t.disk, names);
            && (e == x ==> (e in back <==> written < 3 && x.file in t.disk))
            && (e != x && e in OnDisk(View(s)) ==> (e in back <==> written != 3 || !AtOrBehind(e, x)))
  {
    hide FolderOf, Chained, Bounds, RefCounts, Totals, Packed, Disjoint, KnownEntries, TailEntries;
    hide Erased, Idle, OnDisk;
    var gone := ErasedFolder(s, id, written, removed);
    RestartTail(t.disk, names, e);
    DropKeeps(View(s), id);
    KnownIs(s, id);
    if e in OnDisk(Drop(View(s), id)) { IdleMeans(Drop(View(s), id), gone, e); }
  }

  lemma KnownIs(s: Shard, id: int)
    requires Names(s) && id in s.known
    ensures id in View(s).known && View(s).known[id] == EntryOf(s.disk, s.known[id])
    ensures EntryOf(s.disk, s.known[id]).file == s.known[id].file
  {}
}
