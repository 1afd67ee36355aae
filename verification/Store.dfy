/** What the agent's disk cache of one shard promises its users, with bytes abstracted away: buckets
    known by id, buckets still unread after a restart, and what the next restart will find. */
module Store {
  import opened Records

  /** A saved bucket: the file that holds it and its record there. No two buckets share a place. */
  datatype Entry = Entry(file: string, record: Record)

  // ---------- what the cache knows ----------

  datatype Store = Store(known: map<int, Entry>, tail: seq<Entry>, last: int)

  function Save(s: Store, e: Entry): Store {
    s.(known := s.known[s.last + 1 := e], last := s.last + 1)
  }

  function Drop(s: Store, id: int): Store {
    s.(known := s.known - {id})
  }

  /** The oldest unread bucket becomes known under a fresh id. */
  function TakeTail(s: Store): Store
    requires s.tail != []
  {
    Save(s, s.tail[0]).(tail := s.tail[1..])
  }

  /** Unread buckets whose files cannot be read are passed over. */
  function Skip(s: Store, n: nat): Store
    requires n <= |s.tail|
  {
    s.(tail := s.tail[n..])
  }

  /** The first `n` unread buckets are passed over, and the next, if there is one, becomes known. */
  function TakeAfter(s: Store, n: nat): Store
    requires n <= |s.tail|
  {
    if n == |s.tail| then Skip(s, n) else TakeTail(Skip(s, n))
  }

  ghost function OnDisk(s: Store): set<Entry> {
    (set id | id in s.known :: s.known[id]) + (set e | e in s.tail)
  }

  predicate Numbered(s: Store) {
    s.last >= 0 && forall id | id in s.known :: 0 < id <= s.last
  }

  predicate NoRepeats(tail: seq<Entry>) {
    forall i, j | 0 <= i < j < |tail| :: tail[i] != tail[j]
  }

  /** No bucket is there twice. */
  predicate Unique(s: Store) {
    && NoRepeats(s.tail) && (forall id | id in s.known :: s.known[id] !in s.tail)
    && (forall i, j | i in s.known && j in s.known && i != j :: s.known[i] != s.known[j])
  }

  lemma SaveUnique(s: Store, e: Entry)
    requires Unique(s) && e !in OnDisk(s)
    ensures Unique(Save(s, e))
  {}

  lemma DropUnique(s: Store, id: int)
    requires Unique(s)
    ensures Unique(Drop(s, id))
  {}

  lemma TakeAfterUnique(s: Store, n: nat)
    requires Unique(s) && n <= |s.tail|
    ensures Unique(TakeAfter(s, n))
  {
    forall e | e in s.tail[n..] ensures e in s.tail {}
  }

  /** What is passed over is not on the disk any more. */
  lemma TakeAfterGone(s: Store, n: nat, e: Entry)
    requires Unique(s) && n <= |s.tail| && e in s.tail[..n]
    ensures e !in OnDisk(TakeAfter(s, n))
  {
    var i :| 0 <= i < n && s.tail[i] == e;
    assert e in s.tail;
  }

  lemma SaveKeeps(s: Store, x: Entry)
    requires forall id | id in s.known :: id <= s.last
    ensures OnDisk(Save(s, x)) == OnDisk(s) + {x}
  {
    var n := Save(s, x);
    assert n.known[s.last + 1] == x;
    forall e | e in OnDisk(s) ensures e in OnDisk(n) {
      if id :| id in s.known && s.known[id] == e { assert n.known[id] == e; }
    }
    forall e | e in OnDisk(n) ensures e in OnDisk(s) + {x} {
      if id :| id in n.known && n.known[id] == e { assert id != s.last + 1 ==> s.known[id] == e; }
    }
  }

  lemma TakeKeeps(s: Store)
    requires s.tail != [] && forall id | id in s.known :: id <= s.last
    ensures OnDisk(TakeTail(s)) == OnDisk(s)
  {
    SaveKeeps(s, s.tail[0]);
    var n := Save(s, s.tail[0]);
    assert s.tail == [s.tail[0]] + s.tail[1..];
    forall e ensures e in OnDisk(TakeTail(s)) <==> e in OnDisk(n) {
      assert e == s.tail[0] ==> n.known[s.last + 1] == e;
    }
  }

  lemma DropKeeps(s: Store, id: int)
    ensures OnDisk(Drop(s, id)) <= OnDisk(s)
    ensures forall e | e in OnDisk(s) :: e in OnDisk(Drop(s, id)) || (id in s.known && s.known[id] == e)
  {
    forall e | e in OnDisk(s) ensures e in OnDisk(Drop(s, id)) || (id in s.known && s.known[id] == e) {
      if i :| i in s.known && s.known[i] == e && i != id { assert Drop(s, id).known[i] == e; }
    }
  }

  lemma DropExactly(s: Store, id: int)
    requires id in s.known && s.known[id] !in s.tail
    requires forall j | j in s.known && j != id :: s.known[j] != s.known[id]
    ensures OnDisk(Drop(s, id)) == OnDisk(s) - {s.known[id]}
  {
    DropKeeps(s, id);
  }

  lemma SkipKeeps(s: Store, n: nat)
    requires n <= |s.tail|
    ensures OnDisk(Skip(s, n)) <= OnDisk(s)
    ensures forall e | e in OnDisk(s) :: e in OnDisk(Skip(s, n)) || e in s.tail[..n]
  {
    assert s.tail == s.tail[..n] + s.tail[n..];
  }

  // ---------- what a restart will find ----------

  /** The live records of all files, and the files in which a broken mark hides what is behind it. */
  datatype Folder = Folder(live: set<Entry>, broken: set<string>)

  predicate AtOrBehind(x: Entry, e: Entry) {
    x.file == e.file && x.record.pos >= e.record.pos
  }

  /** After the first `written` bytes of a deletion mark on `e`: all four erase it, three hide it and
      everything behind it, fewer do nothing. */
  function Marked(f: Folder, e: Entry, written: nat): Folder {
    if written == 4 then f.(live := f.live - {e})
    else if written == 3 then Folder((set x | x in f.live && !AtOrBehind(x, e)), f.broken + {e.file})
    else f
  }

  /** After a record was written to the end of its file. */
  function Added(f: Folder, e: Entry): Folder {
    if e.file in f.broken then f else f.(live := f.live + {e})
  }

  /** After files were deleted. */
  function Swept(f: Folder, gone: set<string>): Folder {
    Folder((set x | x in f.live && x.file !in gone), f.broken - gone)
  }

  /** None of the files holds a bucket that is known or unread. */
  predicate Idle(s: Store, gone: set<string>) {
    (forall id | id in s.known :: s.known[id].file !in gone) && (forall e | e in s.tail :: e.file !in gone)
  }

  lemma SweptTwice(f: Folder, a: set<string>, b: set<string>)
    ensures Swept(Swept(f, a), b) == Swept(f, a + b) && Swept(f, {}) == f
  {}

  lemma IdleMeans(s: Store, gone: set<string>, e: Entry)
    requires Idle(s, gone) && e in OnDisk(s)
    ensures e.file !in gone
  {}
}
