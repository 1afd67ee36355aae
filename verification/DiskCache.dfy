/** One shard of the agent's disk cache of buckets. */
module DiskCache {
  import opened Records
  import opened Store
  import opened DiskState
  import opened DiskOps
  import opened DiskFolder
  import opened DiskSteps
  import opened DiskRestart

  /** How a write ends: completely, with no file to write to, or cut after some bytes of the record. */
  datatype WriteOutcome = Written | CreateFailed | Cut(bytes: nat)

  datatype GetResult = Data(body: seq<byte>) | UnknownId | WrongSecond | ReadFailed | WrongChecksum

  /** Files that cannot be opened (-1), or not be read at some position. */
  type Faults = set<(string, int)>

  predicate Faulty(faults: Faults, n: string) {
    exists f :: f in faults && f.0 == n
  }

  /** There is a fault at or before the bucket in its file. */
  predicate Blocked(faults: Faults, e: Entry) {
    exists f :: f in faults && f.0 == e.file && f.1 <= e.record.pos
  }

  class DiskCacheShard {
    const checksum: Checksum
    const removable: string -> bool // whether the file system will remove a file
    var disk: map<string, seq<byte>> // the shard's folder
    var files: map<string, OpenFile> // file objects, by name
    var knownBuckets: map<int, KnownBucket>
    var knownBucketsSize: int
    var lastBucketID: int
    var readingFileTail: Option<string>
    var waitingFilesTail: seq<WaitingFile>
    var waitingFilesSize: int
    var writingFile: Option<string>
    var totalFileSize: int

    ghost function State(): Shard
      reads this
    {
      Shard(disk, files, knownBuckets, knownBucketsSize, lastBucketID, readingFileTail,
            waitingFilesTail, waitingFilesSize, writingFile, totalFileSize)
    }

    ghost predicate Valid()
      reads this
    {
      Inv(State()) && lastBucketID >= 0 && Chained(State())
    }

    /** The buckets the shard holds, by id and unread. */
    ghost function Contents(): Store
      requires Valid()
      reads this
    {
      View(State())
    }

    /** What the next restart will find. */
    ghost function Ground(): Folder
      reads this
    {
      FolderOf(disk)
    }

    /** A bucket will be saved: it is small enough, the write is not cut and there is a file for it. */
    ghost predicate Accepts(data: seq<byte>, name: string, aged: bool, io: WriteOutcome)
      requires Valid()
      reads this
    {
      |data| <= MAX_CHUNK_SIZE && !io.Cut? && CanWrite(State(), |data|, name, aged, io == CreateFailed, removable)
    }

    /** How much of the tail file there is still to read, 0 when there is no such file. */
    ghost function ReadingLeft(): nat
      requires Valid()
      reads this
    {
      if readingFileTail.None? then 0 else if TailRest(State()) < 0 then 1 else TailRest(State()) + 1
    }

    /** A restart on an arbitrary folder: nothing is assumed about the bytes of its files. */
    constructor (checksum: Checksum, removable: string -> bool, folder: map<string, seq<byte>>, names: seq<string>)
      requires Listing(names, folder)
      ensures Valid() && this.checksum == checksum && this.removable == removable
      ensures State() == Restart(folder, names)
    {
      this.checksum, this.removable := checksum, removable;
      disk, files, knownBuckets, knownBucketsSize, lastBucketID := folder, map[], map[], 0, 0;
      readingFileTail, writingFile := None, None;
      waitingFilesTail := Waiting(folder, names);
      waitingFilesSize := WaitingTotal(Waiting(folder, names));
      totalFileSize := WaitingTotal(Waiting(folder, names));
      new;
      RestartInv(folder, names);
    }

    /** Total bytes in files and bytes not sent yet; the second never exceeds the first. */
    method TotalFileSize() returns (total: int, unsent: int)
      requires Valid()
      ensures total == totalFileSize
      ensures unsent == knownBucketsSize + waitingFilesSize + TailRest(State()) <= total
    {
      unsent := knownBucketsSize + waitingFilesSize;
      if readingFileTail.Some? && files[readingFileTail.value].nextPos < files[readingFileTail.value].size {
        unsent := unsent + (files[readingFileTail.value].size - files[readingFileTail.value].nextPos);
      }
      UnsentAtMostTotal(State());
      if unsent > totalFileSize {
        assert false; // must be never
      }
      total := totalFileSize;
    }

    /** Counts down a reference its holder has already let go of. */
    method UnrefFile(n: string) returns (ghost gone: set<string>)
      requires InvHot(State(), Some(n)) && n in files && lastBucketID >= 0 && Chained(State())
      modifies this
      ensures Valid() && Contents() == old(View(State())) && lastBucketID == old(lastBucketID)
      ensures readingFileTail == old(readingFileTail) && writingFile == old(writingFile)
      ensures waitingFilesTail == old(waitingFilesTail) && disk.Keys == old(disk).Keys - gone
      ensures gone == if old(files[n].refCount) == 1 && removable(n) then {n} else {}
      ensures files.Keys == if old(files[n].refCount) == 1 then old(files.Keys) - {n} else old(files.Keys)
      ensures Ground() == Swept(old(Ground()), gone) && Idle(Contents(), gone)
      ensures old(Exact(State())) ==> Exact(State())
    {
      hide Names, Distinct, Bounds, Disjoint, RefCounts, Totals, Packed, Chained, TailEntries, KnownEntries;
      hide FolderOf, Exact, Idle, Swept;
      ghost var s := State();
      var removed := removable(n); // a failed removal is only logged
      var f := files[n];
      f := f.(refCount := f.refCount - 1);
      if f.refCount == 0 {
        totalFileSize := totalFileSize - f.size;
        files := files - {n};
        if removed {
          disk := disk - {n};
        }
      } else {
        files := files[n := f];
      }
      assert State() == Unref(s, n, removed);
      gone := UnrefAll(s, n, removed);
    }

    method CloseWriting() returns (ghost gone: set<string>)
      requires Valid() && writingFile.Some?
      modifies this
      ensures Valid() && Contents() == old(Contents()) && lastBucketID == old(lastBucketID)
      ensures old(writingFile.value) in old(files) && writingFile.None? && disk.Keys == old(disk).Keys - gone
      ensures var w := old(writingFile.value);
              gone == if old(files)[w].refCount == 1 && removable(w) then {w} else {}
      ensures Ground() == Swept(old(Ground()), gone) && Idle(Contents(), gone)
      ensures old(Exact(State())) ==> Exact(State())
    {
      hide Names, Distinct, Bounds, Disjoint, RefCounts, Totals, Packed, Chained, TailEntries, KnownEntries;
      hide FolderOf, Exact, Idle, Swept;
      ghost var s := State();
      RolesNamed(s);
      ClearWritingAll(s);
      var n := writingFile.value;
      writingFile := None;
      gone := UnrefFile(n);
    }

    /** Gives up the tail file, and with it the buckets in it that are still unread. */
    method CloseTail() returns (ghost skipped: nat, ghost gone: set<string>)
      requires Valid() && readingFileTail.Some?
      modifies this
      ensures Valid() && readingFileTail.None? && lastBucketID == old(lastBucketID)
      ensures waitingFilesTail == old(waitingFilesTail)
      ensures skipped == |old(Unread(State(), readingFileTail.value))| <= |old(Contents()).tail|
      ensures Contents() == Skip(old(Contents()), skipped)
      ensures forall i | 0 <= i < skipped :: old(Contents()).tail[i].file == old(readingFileTail).value
      ensures old(readingFileTail.value) in old(files)
      ensures forall i | 0 <= i < skipped ::
                old(Contents()).tail[i].record.pos >= old(files)[old(readingFileTail.value)].nextPos
      ensures var n := old(readingFileTail.value);
              gone == if old(files)[n].refCount == 1 && removable(n) then {n} else {}
      ensures Ground() == Swept(old(Ground()), gone) && Idle(Contents(), gone)
      ensures old(Exact(State())) && skipped == 0 ==> Exact(State())
    {
      hide Names, Distinct, Bounds, Disjoint, RefCounts, Totals, Packed, Chained, TailEntries, KnownEntries;
      hide FolderOf, Exact, Idle, Swept;
      ghost var s := State();
      RolesNamed(s);
      skipped := ClearTailAll(s);
      UnreadBehind(s, skipped);
      var n := readingFileTail.value;
      readingFileTail := None;
      gone := UnrefFile(n);
    }

    /** Makes sure there is a file to write to with room for one more record. */
    method PrepareWriting(length: nat, name: string, aged: bool, createFails: bool)
      returns (ok: bool, ghost gone: set<string>)
      requires Valid() && length <= MAX_CHUNK_SIZE
      modifies this
      ensures Valid() && Contents() == old(Contents()) && lastBucketID == old(lastBucketID)
      ensures Ground() == Swept(old(Ground()), gone) && Idle(Contents(), gone)
      ensures old(Exact(State())) ==> Exact(State())
      ensures ok <==> old(CanWrite(State(), length, name, aged, createFails, removable))
      ensures !ok ==> writingFile.None?
      ensures disk.Keys <= old(disk).Keys + {name}
      ensures ok ==> writingFile.Some? && writingFile.value in disk && writingFile.value in files
                     && |disk[writingFile.value]| + HEADER_SIZE + length <= FILE_ROTATE_SIZE
    {
      hide Names, Distinct, Bounds, Disjoint, RefCounts, Totals, Packed, Chained, TailEntries, KnownEntries;
      hide FolderOf, Exact, Idle, Swept;
      RolesNamed(State());
      NothingSwept(Ground(), Contents());
      gone := {};
      if writingFile.Some? { WritingSize(State()); }
      if writingFile.Some? && (files[writingFile.value].size + HEADER_SIZE + length > FILE_ROTATE_SIZE || aged) {
        gone := CloseWriting();
      }
      if writingFile.None? {
        if createFails || name in disk {
          return false, gone;
        }
        ghost var s := State();
        CreateAll(s, name);
        disk, files := disk[name := []], files[name := OpenFile(0, 0, 1)];
        writingFile := Some(name);
        assert State() == Create(s, name);
      }
      ok := true;
    }

    /** A write that failed: its bytes stay behind in a file that is not written to any more. If they
        are a whole record after all, a restart will find it. */
    method AbandonWriting(e: seq<byte>, ghost whole: Option<KnownBucket>)
      returns (ghost left: Option<Entry>, ghost gone: set<string>)
      requires Valid() && writingFile.Some? && writingFile.value in disk
      requires match whole
               case None => !WellSized(disk[writingFile.value] + e, |disk[writingFile.value]|)
               case Some(k) => Completes(disk[writingFile.value], e, k)
      modifies this
      ensures Valid() && Contents() == old(Contents()) && lastBucketID == old(lastBucketID)
      ensures left.Some? ==>
        && whole.Some?
        && left.value == Entry(old(writingFile).value,
                               KnownRecord(old(disk)[old(writingFile).value] + e, whole.value))
      ensures Idle(Contents(), gone)
      ensures Ground() == if left.Some? then Added(old(Ground()), left.value) else Swept(old(Ground()), gone)
      ensures old(Exact(State())) && whole.None? ==> Exact(State())
      ensures writingFile.None? && disk.Keys <= old(disk).Keys
    {
      hide Names, Distinct, Bounds, Disjoint, RefCounts, Totals, Packed, Chained, TailEntries, KnownEntries;
      hide FolderOf, Exact, Idle, Swept;
      ghost var s := State();
      RolesNamed(s);
      TearAll(s, e, whole);
      var w := writingFile.value;
      disk := disk[w := disk[w] + e];
      writingFile := None;
      assert State() == Tear(s, e);
      gone := UnrefFile(w);
      left := None;
      if whole.Some? {
        ghost var x := Entry(w, KnownRecord(s.disk[w] + e, whole.value));
        left, gone := StrayOrGone(FolderOf(s.disk), x, gone, Contents());
      }
    }

    /** Saves a bucket. A fresh id means that exactly these bytes are now known under it; 0 means
        that nothing changed for any bucket, though a whole record may have been left behind. */
    method PutBucket(time: uint32, data: seq<byte>, name: string, aged: bool, io: WriteOutcome)
      returns (id: int, ghost left: Option<Entry>, ghost gone: set<string>)
      requires Valid()
      modifies this
      ensures Valid() && Idle(old(Contents()), gone)
      ensures id == 0 ==>
        && Contents() == old(Contents())
        && Ground() == if left.Some? then Added(Swept(old(Ground()), gone), left.value) else Swept(old(Ground()), gone)
      ensures left.Some? ==>
        && id == 0 && io.Cut? && io.bytes >= HEADER_SIZE + |data|
        && left.value.record.time == time && left.value.record.body == data
      ensures id != 0 ==>
        && id == old(Contents()).last + 1
        && id in Contents().known
        && Contents() == Save(old(Contents()), Contents().known[id])
        && Contents().known[id] !in OnDisk(old(Contents()))
        && Contents().known[id].record.time == time
        && Contents().known[id].record.body == data
        && Contents().known[id].record.crc == checksum(data)
        && Ground() == Added(Swept(old(Ground()), gone), Contents().known[id])
      ensures id != 0 <==> old(Accepts(data, name, aged, io))
      ensures id == 0 && |data| <= MAX_CHUNK_SIZE ==> writingFile.None? && disk.Keys <= old(disk).Keys + {name}
      ensures old(Exact(State())) && (io.Cut? ==> io.bytes < HEADER_SIZE + |data|) ==> Exact(State())
    {
      hide Names, Distinct, Bounds, Disjoint, RefCounts, Totals, Packed, Chained, TailEntries, KnownEntries;
      hide FolderOf, Exact, Idle, Swept;
      var crc := checksum(data);
      left, gone := None, {};
      NothingSwept(Ground(), Contents());
      if |data| > MAX_CHUNK_SIZE {
        return 0, left, gone;
      }
      var ok;
      ok, gone := PrepareWriting(|data|, name, aged, io == CreateFailed);
      if !ok {
        return 0, left, gone;
      }
      var w := writingFile.value;
      var e := Encode(time, data, crc);
      if io.Cut? {
        ghost var more;
        left, more := Cut(e, time, data, crc, io.bytes);
        id := 0;
        SweptTwice(old(Ground()), gone, more);
        IdleBoth(Contents(), gone, more);
        gone := if left.Some? then gone else gone + more;
        return;
      }
      Append(e, time, data, crc);
      id := lastBucketID;
    }

    /** A write that was cut after `bytes` bytes. */
    method Cut(e: seq<byte>, time: uint32, data: seq<byte>, crc: uint32, bytes: nat)
      returns (ghost left: Option<Entry>, ghost gone: set<string>)
      requires Valid() && writingFile.Some? && writingFile.value in disk
      requires |data| <= MAX_CHUNK_SIZE && e == Encode(time, data, crc)
      modifies this
      ensures Valid() && Contents() == old(Contents()) && lastBucketID == old(lastBucketID) && Idle(Contents(), gone)
      ensures left.Some? ==>
        && bytes >= HEADER_SIZE + |data| && left.value.record.time == time && left.value.record.body == data
      ensures Ground() == if left.Some? then Added(old(Ground()), left.value) else Swept(old(Ground()), gone)
      ensures old(Exact(State())) && bytes < HEADER_SIZE + |data| ==> Exact(State())
      ensures writingFile.None? && disk.Keys <= old(disk).Keys
    {
      hide Names, Distinct, Bounds, Disjoint, RefCounts, Totals, Packed, Chained, TailEntries, KnownEntries;
      hide FolderOf, Exact, Idle, Swept;
      ghost var b := disk[writingFile.value];
      assert |e| == HEADER_SIZE + |data|;
      if bytes < |e| {
        TornChunk(b, time, data, crc, bytes);
        left, gone := AbandonWriting(e[..bytes], None);
      } else {
        ghost var k := KnownBucket(writingFile.value, |b|, time, |data|, crc);
        EncodeCompletes(b, time, data, crc, k);
        left, gone := AbandonWriting(e, Some(k));
      }
    }

    method Append(e: seq<byte>, time: uint32, data: seq<byte>, crc: uint32)
      requires Valid() && writingFile.Some? && writingFile.value in disk && writingFile.value in files
      requires |data| <= MAX_CHUNK_SIZE && |disk[writingFile.value]| + HEADER_SIZE + |data| <= FILE_ROTATE_SIZE
      requires e == Encode(time, data, crc)
      modifies this
      ensures Valid() && lastBucketID == old(lastBucketID) + 1
      ensures var x := Entry(old(writingFile).value, Record(|old(disk)[old(writingFile).value]|, time, crc, data));
              && Contents() == Save(old(Contents()), x) && Ground() == Added(old(Ground()), x)
              && x !in OnDisk(old(Contents()))
      ensures old(Exact(State())) ==> Exact(State())
    {
      hide Names, Distinct, Bounds, Disjoint, RefCounts, Totals, Packed, Chained, TailEntries, KnownEntries;
      hide FolderOf, Exact, Idle, Swept;
      hide Encode, Save, Added, View, Inv, OnDisk;
      ghost var s := State();
      AppendAll(s, e, time, data, crc);
      var w := writingFile.value;
      var f := files[w];
      disk := disk[w := disk[w] + e];
      var sec := KnownBucket(w, f.size, time, |data|, crc);
      files := files[w := f.(size := f.size + HEADER_SIZE + |data|, refCount := f.refCount + 1)];
      totalFileSize := totalFileSize + HEADER_SIZE + |data|;
      knownBucketsSize := knownBucketsSize + sec.size + HEADER_SIZE;
      lastBucketID := lastBucketID + 1;
      knownBuckets := knownBuckets[lastBucketID := sec];
      assert State() == DiskOps.Append(s, e, time, data, crc);
    }

    /** Erasing an unknown id does nothing; erasing a known one forgets it and no other bucket. What a
        restart will find depends on how many bytes of the mark reach the disk. */
    method EraseBucket(id: int, written: nat) returns (ok: bool, ghost gone: set<string>)
      requires Valid() && written <= 4
      modifies this
      ensures Valid() && Contents() == Drop(old(Contents()), id) && Idle(Contents(), gone)
      ensures Ground() == if id in old(Contents()).known
                          then Swept(Marked(old(Ground()), old(Contents()).known[id], written), gone) else old(Ground())
      ensures ok <==> id !in old(Contents()).known || written == 4
      ensures id in old(knownBuckets) ==> old(knownBuckets)[id].file in old(files)
      ensures gone == if id in old(knownBuckets) && old(files)[old(knownBuckets)[id].file].refCount == 1
                         && removable(old(knownBuckets)[id].file)
                      then {old(knownBuckets)[id].file} else {}
      ensures old(Exact(State())) && ok ==> Exact(State())
    {
      hide Names, Distinct, Bounds, Disjoint, RefCounts, Totals, Packed, Chained, TailEntries, KnownEntries;
      hide FolderOf, Exact, Idle, Swept;
      ghost var s := State();
      KnownIds(s, id);
      gone := {};
      if id !in knownBuckets {
        NothingSwept(Ground(), Contents());
        return true, gone;
      }
      ForgetAll(s, id, written);
      ok := written == 4;
      var sec := knownBuckets[id];
      disk := disk[sec.file := Stamp(disk[sec.file], sec.pos, written)];
      knownBucketsSize := knownBucketsSize - (sec.size + HEADER_SIZE);
      knownBuckets := knownBuckets - {id};
      assert State() == Forget(s, id, written);
      gone := UnrefFile(sec.file);
    }

    /** Reads a bucket by id. Only a failed read or a checksum mismatch changes anything: it erases
        that bucket. */
    method GetBucket(id: int, time: uint32, readOk: bool, written: nat) returns (r: GetResult, ghost gone: set<string>)
      requires Valid() && written <= 4
      modifies this
      ensures Valid() && Idle(Contents(), gone)
      ensures var known := old(Contents()).known;
        && (id !in known ==> r == UnknownId)
        && (id in known && known[id].record.time != time ==> r == WrongSecond)
        && (id in known && known[id].record.time == time ==>
              r == if !readOk then ReadFailed
                   else if checksum(known[id].record.body) != known[id].record.crc then WrongChecksum
                   else Data(known[id].record.body))
      ensures if r.ReadFailed? || r.WrongChecksum?
              then id in old(Contents()).known && Contents() == Drop(old(Contents()), id)
                   && Ground() == Swept(Marked(old(Ground()), old(Contents()).known[id], written), gone)
              else Contents() == old(Contents()) && Ground() == old(Ground())
      ensures old(Exact(State())) && (r.ReadFailed? || r.WrongChecksum? ==> written == 4) ==> Exact(State())
    {
      hide Names, Distinct, Bounds, Disjoint, RefCounts, Totals, Packed, Chained, TailEntries, KnownEntries;
      hide FolderOf, Exact, Idle, Swept;
      KnownIds(State(), id);
      NothingSwept(Ground(), Contents());
      gone := {};
      if id !in knownBuckets {
        return UnknownId, gone;
      }
      var sec := knownBuckets[id];
      if sec.time != time {
        return WrongSecond, gone;
      }
      var ok;
      if !readOk {
        ok, gone := EraseBucket(id, written);
        return ReadFailed, gone;
      }
      var body := disk[sec.file][sec.pos + HEADER_SIZE..sec.pos + HEADER_SIZE + sec.size];
      if checksum(body) != sec.crc {
        ok, gone := EraseBucket(id, written);
        return WrongChecksum, gone;
      }
      return Data(body), gone;
    }

    /** Opens waiting files until one opens or none is left. The unread buckets of files that do not
        open, and no others, are passed over. */
    method OpenNextTail(faults: Faults) returns (ghost skipped: nat, ghost lost: set<string>)
      requires Valid() && readingFileTail.None?
      modifies this
      ensures Valid() && lastBucketID == old(lastBucketID) && disk == old(disk)
      ensures Scanned(old(Contents()), old(Ground()), Contents(), Ground(), skipped, lost, {}, faults)
      ensures readingFileTail.None? ==> waitingFilesTail == []
      ensures readingFileTail.Some? ==> |waitingFilesTail| < |old(waitingFilesTail)|
      ensures old(Exact(State())) && skipped == 0 ==> Exact(State())
    {
      hide Names, Distinct, Bounds, Disjoint, RefCounts, Totals, Packed, Chained, TailEntries, KnownEntries;
      hide FolderOf, Exact, Idle, Swept;
      hide WaitingTotal;
      skipped, lost := 0, {};
      ghost var before := Contents();
      while readingFileTail.None? && |waitingFilesTail| != 0
        invariant Valid() && lastBucketID == old(lastBucketID) && disk == old(disk)
        invariant skipped <= |before.tail| && Contents() == Skip(before, skipped)
        invariant PassedOver(before.tail[..skipped], lost) && forall n | n in lost :: Faulty(faults, n)
        invariant AllBlocked(before.tail[..skipped], faults)
        invariant |waitingFilesTail| <= |old(waitingFilesTail)|
        invariant readingFileTail.Some? ==> |waitingFilesTail| < |old(waitingFilesTail)|
        invariant old(Exact(State())) && skipped == 0 ==> Exact(State())
        decreases |waitingFilesTail|
      {
        ghost var s := State();
        var tailFile := waitingFilesTail[0];
        waitingFilesSize := waitingFilesSize - tailFile.size;
        waitingFilesTail := waitingFilesTail[1..];
        if (tailFile.name, -1) in faults {
          totalFileSize := totalFileSize - tailFile.size;
          assert State() == SkipWaiting(s);
          ghost var more := SkipAll(s);
          SkipMore(before, skipped, more, lost, tailFile.name);
          BlockedWhole(before, skipped, more, faults, tailFile.name);
          skipped, lost := skipped + more, lost + {tailFile.name};
        } else {
          files := files[tailFile.name := OpenFile(0, tailFile.size, 1)];
          readingFileTail := Some(tailFile.name);
          assert State() == OpenTail(s);
          OpenTailAll(s);
        }
      }
      NothingSwept(Ground(), Contents());
    }

    /** Looks at the chunk under the reading position of the tail file: drops the file when nothing
        can be read there, steps over an erased record, or makes a live one known. */
    method ReadTailChunk(faults: Faults)
      returns (time: uint32, id: int, ghost skipped: nat, ghost lost: set<string>, ghost gone: set<string>)
      requires Valid() && readingFileTail.Some?
      modifies this
      ensures Valid()
      ensures id == 0 ==>
        && Scanned(old(Contents()), old(Ground()), Contents(), Ground(), skipped, lost, gone, faults)
        && lastBucketID == old(lastBucketID)
        && waitingFilesTail == old(waitingFilesTail)
        && ReadingLeft() < old(ReadingLeft())
      ensures id != 0 ==>
        && skipped == 0 && old(Contents()).tail != [] && Contents() == TakeTail(old(Contents()))
        && id == Contents().last && time == old(Contents()).tail[0].record.time
        && (old(Contents()).tail[0].file, old(Contents()).tail[0].record.pos) !in faults
        && Ground() == Swept(old(Ground()), gone) && Idle(Contents(), gone)
      ensures old(Exact(State())) && skipped == 0 ==> Exact(State())
    {
      hide Names, Distinct, Bounds, Disjoint, RefCounts, Totals, Packed, Chained, TailEntries, KnownEntries;
      hide FolderOf, Exact, Idle, Swept;
      hide Uint32At, LengthAt;
      ghost var s := State();
      TailBounds(s);
      NothingSwept(Ground(), Contents());
      time, id, skipped, lost, gone := 0, 0, 0, {}, {};
      var n := readingFileTail.value;
      var f := files[n];
      if f.nextPos >= f.size {
        NothingThere(s);
        skipped, gone := CloseTail();
        return;
      }
      if (n, f.nextPos) in faults {
        skipped, gone := CloseTail();
        lost := {n};
        BlockedBehind(View(s).tail, skipped, faults, n, f.nextPos);
        return;
      }
      if f.nextPos + HEADER_SIZE > |disk[n]| {
        NothingThere(s);
        skipped, gone := CloseTail(); // the header is cut
        return;
      }
      var magic := Uint32At(disk[n], f.nextPos);
      time := Uint32At(disk[n], f.nextPos + 4);
      var chunkSize := LengthAt(disk[n], f.nextPos);
      var crc := Uint32At(disk[n], f.nextPos + 16);
      if chunkSize < 0 || chunkSize > MAX_CHUNK_SIZE || f.nextPos + HEADER_SIZE + chunkSize > f.size {
        NothingThere(s);
        skipped, gone := CloseTail();
        return;
      }
      if magic == MAGIC_DELETED {
        StepOver(chunkSize);
        return;
      }
      if magic != MAGIC_GOOD {
        NothingThere(s);
        skipped, gone := CloseTail();
        return;
      }
      id := TakeChunk(time, chunkSize, crc);
      NothingSwept(Ground(), Contents());
    }

    method TakeChunk(time: uint32, chunkSize: nat, crc: uint32) returns (id: int)
      requires Valid() && OnChunk(State())
      requires Good(disk[readingFileTail.value], files[readingFileTail.value].nextPos)
      requires chunkSize == LengthAt(disk[readingFileTail.value], files[readingFileTail.value].nextPos)
      requires time == Uint32At(disk[readingFileTail.value], files[readingFileTail.value].nextPos + 4)
      requires crc == Uint32At(disk[readingFileTail.value], files[readingFileTail.value].nextPos + 16)
      modifies this
      ensures Valid() && id != 0 && disk == old(disk)
      ensures old(Contents()).tail != [] && Contents() == TakeTail(old(Contents())) && id == Contents().last
      ensures time == old(Contents()).tail[0].record.time
      ensures old(Contents()).tail[0].file == old(readingFileTail.value)
      ensures old(Contents()).tail[0].record.pos == old(files[readingFileTail.value].nextPos)
      ensures old(Exact(State())) ==> Exact(State())
    {
      hide Names, Distinct, Bounds, Disjoint, RefCounts, Totals, Packed, Chained, TailEntries, KnownEntries;
      hide FolderOf, Exact, Idle, Swept;
      hide Scan, Uint32At, LengthAt;
      ghost var s := State();
      TailBounds(s);
      TakeAll(s);
      TakeFirst(s);
      var n := readingFileTail.value;
      var f := files[n];
      lastBucketID := lastBucketID + 1;
      if lastBucketID in knownBuckets {
        assert false; // the duplicate-id panic
      }
      knownBuckets := knownBuckets[lastBucketID := KnownBucket(n, f.nextPos, time, chunkSize, crc)];
      knownBucketsSize := knownBucketsSize + chunkSize + HEADER_SIZE;
      files := files[n := f.(refCount := f.refCount + 1, nextPos := f.nextPos + HEADER_SIZE + chunkSize)];
      assert State() == Take(s);
      id := lastBucketID;
    }

    method StepOver(chunkSize: nat)
      requires Valid() && OnChunk(State())
      requires Passable(disk[readingFileTail.value], files[readingFileTail.value].nextPos)
      requires !Good(disk[readingFileTail.value], files[readingFileTail.value].nextPos)
      requires chunkSize == LengthAt(disk[readingFileTail.value], files[readingFileTail.value].nextPos)
      modifies this
      ensures Valid() && Contents() == old(Contents()) && disk == old(disk)
      ensures waitingFilesTail == old(waitingFilesTail) && lastBucketID == old(lastBucketID)
      ensures readingFileTail.Some? && 0 <= TailRest(State()) < old(TailRest(State()))
      ensures old(Exact(State())) ==> Exact(State())
    {
      hide Names, Distinct, Bounds, Disjoint, RefCounts, Totals, Packed, Chained, TailEntries, KnownEntries;
      hide FolderOf, Exact, Idle, Swept;
      hide Scan, Uint32At, LengthAt;
      ghost var s := State();
      TailBounds(s);
      AdvanceAll(s);
      var n := readingFileTail.value;
      files := files[n := files[n].(nextPos := files[n].nextPos + HEADER_SIZE + chunkSize)];
      assert State() == Advance(s);
      TailBounds(State());
    }

    /** One more look at the tail, opening the next file first if none is open. */
    method ReadOn(faults: Faults)
      returns (over: bool, time: uint32, id: int, ghost skipped: nat, ghost lost: set<string>, ghost gone: set<string>)
      requires Valid()
      modifies this
      ensures Valid()
      ensures id == 0 ==>
        && Scanned(old(Contents()), old(Ground()), Contents(), Ground(), skipped, lost, gone, faults)
        && lastBucketID == old(lastBucketID)
        && (if over then Contents().tail == []
            else if |waitingFilesTail| == |old(waitingFilesTail)| then ReadingLeft() < old(ReadingLeft())
            else |waitingFilesTail| < |old(waitingFilesTail)|)
      ensures id != 0 ==> !over && FoundNext(old(Contents()), old(Ground()), Contents(), Ground(), time, id,
                                             skipped, lost, gone, faults)
      ensures old(Exact(State())) && skipped == 0 ==> Exact(State())
    {
      hide Names, Distinct, Bounds, Disjoint, RefCounts, Totals, Packed, Chained, TailEntries, KnownEntries;
      hide FolderOf, Exact, Idle, Swept;
      over, time, id, skipped, lost, gone := false, 0, 0, 0, {}, {};
      ghost var before, ground := Contents(), Ground();
      NotMoved(before, ground, faults);
      hide Scanned, Skip, TakeTail, PassedOver, AllBlocked, Faulty, View, Inv, TailRest, OnChunk, Scan, Unread;
      hide FoundNext;
      if readingFileTail.None? {
        skipped, lost := OpenNextTail(faults);
        if readingFileTail.None? {
          NothingUnread(State());
          return true, 0, 0, skipped, lost, gone;
        }
      }
      ghost var now, nowGround := Contents(), Ground();
      ghost var more, fewer, swept;
      time, id, more, fewer, swept := ReadTailChunk(faults);
      if id != 0 {
        Taken(before, ground, now, nowGround, Ground(), time, id, skipped, lost, gone, swept, faults);
        gone := gone + swept;
        return;
      }
      MovedOn(before, ground, now, nowGround, Contents(), Ground(), skipped, lost, gone, more, fewer, swept, faults);
      skipped, lost, gone := skipped + more, lost + fewer, gone + swept;
    }

    /** The next unread bucket, or id 0 when there is none. It terminates on every folder. The first
        unread bucket is taken that does not lie in a file given up for a fault; those before it are
        passed over, and files may be deleted that hold nothing known or unread any more. */
    method ReadNextTailSecond(faults: Faults)
      returns (time: uint32, id: int, ghost skipped: nat, ghost lost: set<string>, ghost gone: set<string>)
      requires Valid()
      modifies this
      ensures Valid() && Ground() == Swept(old(Ground()), gone) && Idle(Contents(), gone)
      ensures skipped <= |old(Contents()).tail|
      ensures PassedOver(old(Contents()).tail[..skipped], lost) && forall n | n in lost :: Faulty(faults, n)
      ensures AllBlocked(old(Contents()).tail[..skipped], faults)
      ensures id == 0 ==> skipped == |old(Contents()).tail| && Contents() == Skip(old(Contents()), skipped)
      ensures id != 0 ==>
        && skipped < |old(Contents()).tail| && Contents() == TakeTail(Skip(old(Contents()), skipped))
        && id == old(Contents()).last + 1 && time == old(Contents()).tail[skipped].record.time
        && (old(Contents()).tail[skipped].file, old(Contents()).tail[skipped].record.pos) !in faults
      ensures old(Exact(State())) && skipped == 0 ==> Exact(State())
    {
      hide Names, Distinct, Bounds, Disjoint, RefCounts, Totals, Packed, Chained, TailEntries, KnownEntries;
      hide FolderOf, Exact, Idle, Swept, PassedOver, AllBlocked, Faulty, View, ReadingLeft;
      skipped, lost, gone := 0, {}, {};
      ghost var before, ground := Contents(), Ground();
      NotMoved(before, ground, faults);
      hide Scanned;
      while true
        invariant Valid() && lastBucketID == old(lastBucketID)
        invariant Scanned(before, ground, Contents(), Ground(), skipped, lost, gone, faults)
        invariant old(Exact(State())) && skipped == 0 ==> Exact(State())
        decreases |waitingFilesTail|, ReadingLeft()
      {
        var over;
        ghost var more, fewer, swept;
        ghost var now, nowGround := Contents(), Ground();
        over, time, id, more, fewer, swept := ReadOn(faults);
        if id == 0 {
          MovedOn(before, ground, now, nowGround, Contents(), Ground(),
                  skipped, lost, gone, more, fewer, swept, faults);
        } else {
          FoundLater(before, ground, now, nowGround, Contents(), Ground(), time, id,
                     skipped, lost, gone, more, fewer, swept, faults);
        }
        skipped, lost, gone := skipped + more, lost + fewer, gone + swept;
        if over {
          AtTheEnd(before, ground, Contents(), Ground(), skipped, lost, gone, faults);
        }
        if over || id != 0 {
          return;
        }
      }
    }
  }

  /** With nothing wrong in the files, the first unread bucket is the one taken. */
  method ReadNext(d: DiskCacheShard) returns (id: int)
    requires d.Valid()
    modifies d
    ensures d.Valid()
    ensures id == 0 ==> old(d.Contents()).tail == [] && d.Contents() == old(d.Contents())
    ensures id != 0 ==> old(d.Contents()).tail != [] && d.Contents() == TakeTail(old(d.Contents()))
    ensures id != 0 ==> id == d.Contents().last
  {
    hide Names, Distinct, Bounds, Disjoint, RefCounts, Totals, Packed, Chained, TailEntries, KnownEntries;
    hide FolderOf, Exact, Idle, Swept, View, Inv;
    ghost var before := d.Contents();
    var time;
    ghost var skipped, lost, gone;
    time, id, skipped, lost, gone := d.ReadNextTailSecond({});
    NoneLost(before.tail[..skipped], lost);
    assert before.tail[0..] == before.tail;
  }

  /** Reads everything unread: the i-th id stands for the i-th unread bucket. */
  method ReadWholeTail(d: DiskCacheShard) returns (ids: seq<int>)
    requires d.Valid()
    modifies d
    ensures d.Valid() && d.Contents().tail == []
    ensures |ids| == |old(d.Contents()).tail|
    ensures forall i | 0 <= i < |ids| ::
              ids[i] in d.Contents().known && d.Contents().known[ids[i]] == old(d.Contents()).tail[i]
    ensures forall i, j | 0 <= i < j < |ids| :: ids[i] < ids[j]
    ensures forall id | id in old(d.Contents()).known && id <= old(d.Contents()).last ::
              id in d.Contents().known && d.Contents().known[id] == old(d.Contents()).known[id]
  {
    hide Names, Distinct, Bounds, Disjoint, RefCounts, Totals, Packed, Chained, TailEntries, KnownEntries;
    hide FolderOf, Exact, Idle, Swept, View, Inv;
    ids := [];
    ghost var before := d.Contents();
    NothingRead(before);
    hide ReadSoFar, TakeTail;
    while true
      invariant d.Valid() && ReadSoFar(before, d.Contents(), ids)
      decreases |d.Contents().tail|
    {
      ghost var now := d.Contents();
      var id := ReadNext(d);
      if id == 0 {
        AllRead(before, now, ids);
        return;
      }
      OneMoreRead(before, now, ids);
      ids := ids + [id];
    }
  }

  /** These ids stand for the first unread buckets of `before`; the others are still unread. */
  predicate ReadSoFar(before: Store, now: Store, ids: seq<int>) {
    && |ids| <= |before.tail| && now.tail == before.tail[|ids|..] && now.last >= before.last
    && (forall i | 0 <= i < |ids| :: ids[i] in now.known && now.known[ids[i]] == before.tail[i])
    && (forall i | 0 <= i < |ids| :: before.last < ids[i] <= now.last)
    && (forall i, j | 0 <= i < j < |ids| :: ids[i] < ids[j])
    && (forall k | k in before.known && k <= before.last :: k in now.known && now.known[k] == before.known[k])
  }

  lemma OneMoreRead(before: Store, now: Store, ids: seq<int>)
    requires ReadSoFar(before, now, ids) && now.tail != []
    ensures ReadSoFar(before, TakeTail(now), ids + [now.last + 1])
    ensures |TakeTail(now).tail| < |now.tail| && TakeTail(now).last == now.last + 1
  {}

  lemma NothingRead(before: Store)
    ensures ReadSoFar(before, before, [])
  {}

  lemma AllRead(before: Store, now: Store, ids: seq<int>)
    requires ReadSoFar(before, now, ids) && now.tail == []
    ensures |ids| == |before.tail|
    ensures forall i | 0 <= i < |ids| :: ids[i] in now.known && now.known[ids[i]] == before.tail[i]
    ensures forall i, j | 0 <= i < j < |ids| :: ids[i] < ids[j]
    ensures forall k | k in before.known && k <= before.last :: k in now.known && now.known[k] == before.known[k]
  {}

  /** Restart recovery, as it happens: the process dies, the folder is listed again in name order and
      read to the end. Exactly the live records of the files come back, each under one new id, files in
      name order and records of a file in write order; if nothing was torn or lost these are exactly
      the buckets that were known or unread. */
  method Recover(old_: DiskCacheShard, removable: string -> bool, names: seq<string>)
    returns (d: DiskCacheShard, ids: seq<int>)
    requires old_.Valid() && Listing(names, old_.disk)
    ensures fresh(d) && d.Valid() && d.Contents().tail == []
    ensures forall i | 0 <= i < |ids| :: ids[i] in d.Contents().known
    ensures forall i, j | 0 <= i < j < |ids| ::
              ids[i] < ids[j] && Earlier(d.Contents().known[ids[i]], d.Contents().known[ids[j]])
    ensures (set i | 0 <= i < |ids| :: d.Contents().known[ids[i]]) == old_.Ground().live
    ensures Exact(old_.State()) ==> old_.Ground().live == OnDisk(old_.Contents())
  {
    hide Names, Distinct, Bounds, Disjoint, RefCounts, Totals, Packed, Chained, TailEntries, KnownEntries;
    hide FolderOf, Exact, Idle, Swept;
    hide OnDisk, Restart;
    RestartRecovers(old_.State(), names);
    d := new DiskCacheShard(old_.checksum, removable, old_.disk, names);
    ghost var tail := d.Contents().tail;
    ids := ReadWholeTail(d);
    ghost var all := set i | 0 <= i < |ids| :: d.Contents().known[ids[i]];
    forall e | e in tail ensures e in all {
      var i :| 0 <= i < |tail| && tail[i] == e;
      assert d.Contents().known[ids[i]] == e;
    }
    forall e | e in all ensures e in tail {
      var i :| 0 <= i < |ids| && d.Contents().known[ids[i]] == e;
      assert tail[i] == e;
    }
  }

  // ---------- small facts ----------

  /** All these buckets lie in the files given up. */
  predicate PassedOver(tail: seq<Entry>, lost: set<string>) {
    forall e | e in tail :: e.file in lost
  }

  predicate AllBlocked(tail: seq<Entry>, faults: Faults) {
    forall e | e in tail :: Blocked(faults, e)
  }

  lemma BlockedBehind(tail: seq<Entry>, n: nat, faults: Faults, name: string, pos: int)
    requires n <= |tail| && (name, pos) in faults
    requires forall i | 0 <= i < n :: tail[i].file == name && tail[i].record.pos >= pos
    ensures AllBlocked(tail[..n], faults)
  {
    forall e | e in tail[..n] ensures Blocked(faults, e) { assert (name, pos).0 == e.file; }
  }

  lemma BlockedFurther(s: Store, a: nat, b: nat, faults: Faults)
    requires a <= |s.tail| && b <= |Skip(s, a).tail|
    requires AllBlocked(s.tail[..a], faults) && AllBlocked(Skip(s, a).tail[..b], faults)
    ensures a + b <= |s.tail| && AllBlocked(s.tail[..a + b], faults)
  {
    assert s.tail[..a + b] == s.tail[..a] + s.tail[a..][..b];
  }

  lemma BlockedWhole(s: Store, a: nat, b: nat, faults: Faults, name: string)
    requires a <= |s.tail| && b <= |Skip(s, a).tail| && AllBlocked(s.tail[..a], faults) && (name, -1) in faults
    requires forall i | 0 <= i < b :: Skip(s, a).tail[i].file == name
    ensures a + b <= |s.tail| && AllBlocked(s.tail[..a + b], faults)
  {
    BlockedBehind(Skip(s, a).tail, b, faults, name, -1);
    BlockedFurther(s, a, b, faults);
  }

  /** Unread records lie at or behind the reading position. */
  lemma UnreadBehind(s: Shard, skipped: nat)
    requires Names(s) && s.tail.Some? && s.tail.value in s.disk && s.tail.value in s.files
    requires skipped == |Unread(s, s.tail.value)| <= |View(s).tail|
    ensures forall i | 0 <= i < skipped :: View(s).tail[i].record.pos >= s.files[s.tail.value].nextPos
  {
    var n := s.tail.value;
    ScanInOrder(s.disk[n], s.files[n].nextPos);
    forall i | 0 <= i < skipped ensures View(s).tail[i].record.pos >= s.files[n].nextPos {
      assert View(s).tail[i] == Label(n, Unread(s, n))[i];
      assert Unread(s, n)[i] in Scan(s.disk[n], s.files[n].nextPos);
    }
  }

  /** The reading of the tail moved on without taking a bucket: `skipped` unread ones were passed over,
      all of them in files with a fault, and only files without known or unread buckets are gone. */
  ghost predicate Scanned(before: Store, ground: Folder, now: Store, nowGround: Folder,
                          skipped: nat, lost: set<string>, gone: set<string>, faults: Faults)
  {
    && skipped <= |before.tail| && now == Skip(before, skipped)
    && nowGround == Swept(ground, gone) && Idle(now, gone)
    && PassedOver(before.tail[..skipped], lost) && AllBlocked(before.tail[..skipped], faults)
    && forall n | n in lost :: Faulty(faults, n)
  }

  lemma NotMoved(before: Store, ground: Folder, faults: Faults)
    ensures Scanned(before, ground, before, ground, 0, {}, {}, faults)
  {
    assert before.tail[0..] == before.tail;
  }

  lemma MovedOn(before: Store, ground: Folder, now: Store, nowGround: Folder, next: Store, nextGround: Folder,
                skipped: nat, lost: set<string>, gone: set<string>,
                more: nat, fewer: set<string>, swept: set<string>, faults: Faults)
    requires Scanned(before, ground, now, nowGround, skipped, lost, gone, faults)
    requires Scanned(now, nowGround, next, nextGround, more, fewer, swept, faults)
    ensures Scanned(before, ground, next, nextGround, skipped + more, lost + fewer, gone + swept, faults)
    ensures skipped + more == 0 ==> skipped == 0 && more == 0
  {
    SweptTwice(ground, gone, swept);
    hide Swept, Faulty, AllBlocked;
    PassFurther(before, skipped, more, lost, fewer);
    BlockedFurther(before, skipped, more, faults);
    IdleLater(now, more, gone);
    hide PassedOver;
    IdleBoth(next, gone, swept);
  }

  lemma AtTheEnd(before: Store, ground: Folder, now: Store, nowGround: Folder,
                 skipped: nat, lost: set<string>, gone: set<string>, faults: Faults)
    requires Scanned(before, ground, now, nowGround, skipped, lost, gone, faults) && now.tail == []
    ensures skipped == |before.tail| && now == Skip(before, skipped)
    ensures nowGround == Swept(ground, gone) && Idle(now, gone)
    ensures PassedOver(before.tail[..skipped], lost) && AllBlocked(before.tail[..skipped], faults)
    ensures forall n | n in lost :: Faulty(faults, n)
  {}

  /** The first unread bucket that is not passed over became known. */
  ghost predicate FoundNext(before: Store, ground: Folder, next: Store, nextGround: Folder, time: uint32, id: int,
                            skipped: nat, lost: set<string>, gone: set<string>, faults: Faults)
  {
    && skipped < |before.tail| && next == TakeTail(Skip(before, skipped))
    && id == before.last + 1 && time == before.tail[skipped].record.time
    && (before.tail[skipped].file, before.tail[skipped].record.pos) !in faults
    && nextGround == Swept(ground, gone) && Idle(next, gone)
    && PassedOver(before.tail[..skipped], lost) && AllBlocked(before.tail[..skipped], faults)
    && forall n | n in lost :: Faulty(faults, n)
  }

  lemma Taken(before: Store, ground: Folder, now: Store, nowGround: Folder, nextGround: Folder, time: uint32, id: int,
              skipped: nat, lost: set<string>, gone: set<string>, swept: set<string>, faults: Faults)
    requires Scanned(before, ground, now, nowGround, skipped, lost, gone, faults)
    requires now.tail != [] && nextGround == Swept(nowGround, swept) && Idle(TakeTail(now), swept)
    requires id == TakeTail(now).last && time == now.tail[0].record.time
    requires (now.tail[0].file, now.tail[0].record.pos) !in faults
    ensures FoundNext(before, ground, TakeTail(now), nextGround, time, id, skipped, lost, gone + swept, faults)
  {
    SweptTwice(ground, gone, swept);
    hide Swept, Faulty, PassedOver;
    TakenIdle(now, gone, swept);
  }

  lemma FoundLater(before: Store, ground: Folder, now: Store, nowGround: Folder, next: Store, nextGround: Folder,
                   time: uint32, id: int, skipped: nat, lost: set<string>, gone: set<string>,
                   more: nat, fewer: set<string>, swept: set<string>, faults: Faults)
    requires Scanned(before, ground, now, nowGround, skipped, lost, gone, faults)
    requires FoundNext(now, nowGround, next, nextGround, time, id, more, fewer, swept, faults)
    ensures FoundNext(before, ground, next, nextGround, time, id, skipped + more, lost + fewer, gone + swept, faults)
  {
    SweptTwice(ground, gone, swept);
    hide Swept, Faulty, AllBlocked;
    PassFurther(before, skipped, more, lost, fewer);
    BlockedFurther(before, skipped, more, faults);
    IdleLater(now, more, gone);
    hide PassedOver;
    TakenIdle(Skip(now, more), gone, swept);
  }

  lemma NoneLost(tail: seq<Entry>, lost: set<string>)
    requires PassedOver(tail, lost)
    ensures tail == [] || tail[0].file in lost
  {
    assert tail == [] || tail[0] in tail;
  }

  lemma NothingSwept(f: Folder, s: Store)
    ensures Swept(f, {}) == f && Idle(s, {})
  {}

  lemma IdleBoth(s: Store, a: set<string>, b: set<string>)
    requires Idle(s, a) && Idle(s, b)
    ensures Idle(s, a + b)
  {}

  lemma SkipMore(s: Store, a: nat, b: nat, lost: set<string>, n: string)
    requires a <= |s.tail| && b <= |Skip(s, a).tail| && PassedOver(s.tail[..a], lost)
    requires forall i | 0 <= i < b :: Skip(s, a).tail[i].file == n
    ensures a + b <= |s.tail| && Skip(Skip(s, a), b) == Skip(s, a + b) && PassedOver(s.tail[..a + b], lost + {n})
  {
    assert s.tail[a..][b..] == s.tail[a + b..];
    assert s.tail[..a + b] == s.tail[..a] + s.tail[a..][..b];
  }

  lemma PassFurther(s: Store, a: nat, b: nat, lost: set<string>, more: set<string>)
    requires a <= |s.tail| && b <= |Skip(s, a).tail|
    requires PassedOver(s.tail[..a], lost) && PassedOver(Skip(s, a).tail[..b], more)
    ensures a + b <= |s.tail| && Skip(Skip(s, a), b) == Skip(s, a + b) && PassedOver(s.tail[..a + b], lost + more)
  {
    assert s.tail[a..][b..] == s.tail[a + b..];
    assert s.tail[..a + b] == s.tail[..a] + s.tail[a..][..b];
  }

  lemma IdleLater(s: Store, n: nat, gone: set<string>)
    requires n <= |s.tail| && Idle(s, gone)
    ensures Idle(Skip(s, n), gone)
  {
    forall e | e in s.tail[n..] ensures e in s.tail {}
  }

  lemma TakenIdle(s: Store, gone: set<string>, swept: set<string>)
    requires s.tail != [] && Idle(s, gone) && Idle(TakeTail(s), swept)
    ensures Idle(TakeTail(s), gone + swept)
  {}

  /** What is left of a whole record that was not acknowledged: a stray, or nothing if its file went. */
  lemma StrayOrGone(f: Folder, x: Entry, gone: set<string>, s: Store) returns (left: Option<Entry>, swept: set<string>)
    requires gone <= {x.file} && Idle(s, gone)
    ensures left.Some? ==> left.value == x
    ensures Idle(s, swept) && Swept(Added(f, x), gone) == if left.Some? then Added(f, x) else Swept(f, swept)
  {
    if gone == {} {
      left, swept := Some(x), {};
    } else {
      assert gone == {x.file};
      left, swept := None, gone;
    }
  }

  lemma NothingUnread(s: Shard)
    requires Names(s) && s.tail.None? && s.waiting == []
    ensures View(s).tail == []
  {}

  lemma NothingThere(s: Shard)
    requires Names(s) && s.tail.Some? && !Passable(s.disk[s.tail.value], s.files[s.tail.value].nextPos)
    ensures Unread(s, s.tail.value) == []
  {}

  lemma TailBounds(s: Shard)
    requires Names(s) && Bounds(s) && s.tail.Some?
    ensures s.tail.value in s.files && s.tail.value in s.disk
    ensures s.files[s.tail.value].nextPos <= s.files[s.tail.value].size == |s.disk[s.tail.value]|
  {}

  /** What a known id stands for. */
  lemma KnownIds(s: Shard, id: int)
    requires Names(s) && Bounds(s)
    ensures id in s.known <==> id in View(s).known
    ensures id !in s.known ==> Drop(View(s), id) == View(s)
    ensures id in s.known ==>
      var k := s.known[id];
      && k.file in s.disk && k.file in s.files && End(k) <= |s.disk[k.file]| && View(s).known[id] == EntryOf(s.disk, k)
      && View(s).known[id].record == Record(k.pos, k.time, k.crc, s.disk[k.file][k.pos + HEADER_SIZE..End(k)])
  {
    if id !in s.known { assert View(s).known - {id} == View(s).known; }
  }

  /** The file being written has room for a record of this length and is not too old. */
  predicate HasRoom(s: Shard, length: nat, aged: bool)
    requires Names(s)
  {
    s.writing.Some? && s.files[s.writing.value].size + HEADER_SIZE + length <= FILE_ROTATE_SIZE && !aged
  }

  /** There is a file for a record of this length, or a new one of this name can be created: there is none
      yet, or it is the one being written, which is to be closed and goes away with that. */
  predicate CanWrite(s: Shard, length: nat, name: string, aged: bool, createFails: bool, removable: string -> bool)
    requires Names(s)
  {
    || HasRoom(s, length, aged)
    || (!createFails &&
        (name !in s.disk || (s.writing == Some(name) && s.files[name].refCount == 1 && removable(name))))
  }
}
