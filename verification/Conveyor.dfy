/** The historic senders of one shard of an agent, as they work on its memory and on its disk cache.
    Everything they do is shown to be a run of the steps of the agent, with the disk cache of the shard
    in the place of the abstract disk. */
module Conveyor {
  import opened Records
  import opened Store
  import opened DiskState
  import opened DiskRestart
  import opened DiskCache
  import opened HistoricQueue
  import opened Routing
  import A = Agent

  datatype Reply = Error | Canceled | Keep | Discard

  /** What the world does in one attempt of a historic sender. */
  datatype Attempt = Attempt(
    now: int,
    historicWindow: int,
    readOk: bool,
    written: nat, // bytes of a deletion mark that reach the disk
    alive: bool, // there is a replica to send to
    q: Req,
    reply: Reply,
    shutdown: bool)

  datatype Outcome = Acked | Expired | Unreadable | Stopped | StillTrying

  /** The cache is the disk of the agent. */
  ghost predicate Backs(d: DiskCacheShard, s: A.Agent)
    reads d
  {
    d.Valid() && d.Contents() == s.disk && d.Ground() == s.folder && A.Inv(s)
  }

  // ---------- restarts ----------

  /** A restart, after whatever happened to the files: the folder is listed again and memory starts
      empty. The shard then has exactly what the folder holds. */
  method RestartShard(old_: DiskCacheShard, removable: string -> bool, ghost s: A.Agent, names: seq<string>)
    returns (d: DiskCacheShard, ghost n: A.Agent)
    requires Backs(old_, s) && Listing(names, old_.disk)
    ensures fresh(d) && Backs(d, n) && n.items == map[] && n.folder == s.folder && n.disk.known == map[]
    ensures OnDisk(n.disk) == s.folder.live
    ensures A.Run(s, [A.Restart(n.disk.tail)], n)
  {
    RestartRecovers(old_.State(), names);
    assert NoRepeats(View(Restart(old_.disk, names)).tail);
    d := new DiskCacheShard(old_.checksum, removable, old_.disk, names);
    hide A.Inv, A.Run, OnDisk, View, DiskState.Inv;
    n := RestartStep(s, d.Contents().tail);
  }

  lemma RestartStep(s: A.Agent, tail: seq<Entry>) returns (n: A.Agent)
    requires A.Inv(s) && (set e | e in tail) == s.folder.live && NoRepeats(tail)
    ensures A.Inv(n) && A.Run(s, [A.Restart(tail)], n) && OnDisk(n.disk) == s.folder.live
    ensures n == s.(disk := s.disk.(known := map[], tail := tail, last := 0), items := map[], next := 0)
  {
    A.RestartKeeps(tail);
    n := A.Next(s, A.Restart(tail));
    A.RunOne(s, A.Restart(tail));
  }

  // ---------- saving, erasing and reading ----------

  /** Saves a bucket unless it is saved already or saving is switched off. */
  method DiskCachePutWithLog(d: DiskCacheShard, cbd: BucketData, enabled: bool, name: string, aged: bool,
                             io: WriteOutcome, ghost s: A.Agent, ghost t: nat)
    returns (r: BucketData, ghost n: A.Agent, ghost steps: seq<A.Step>)
    requires Backs(d, s) && t in s.items && s.items[t].cbd == cbd
    requires s.items[t].place.Saving? || s.items[t].place == A.Recent(A.Ready)
    modifies d
    ensures Backs(d, n) && A.Run(s, steps, n)
    ensures r == cbd.(id := r.id) && n.items == s.items[t := s.items[t].(cbd := r)]
    ensures n.asked == s.asked && n.next == s.next
    ensures r.id == cbd.id ==> n.disk == s.disk
    ensures r.id != cbd.id ==>
      && cbd.id == 0 && enabled && r.id == s.disk.last + 1
      && exists e :: n.disk == Save(s.disk, e) && e.record.time == cbd.time && e.record.body == cbd.data
    ensures cbd.id != 0 || !enabled ==> r == cbd && n == s && steps == [] && unchanged(d)
    ensures cbd.id == 0 && enabled ==>
      && (r.id != 0 <==> old(d.Accepts(cbd.data, name, aged, io)))
      && |steps| == 1 && steps[0].Put? && (r.id != 0 <==> steps[0].saved.SavedAs?)
    ensures cbd.id == 0 && enabled && r.id == 0 && |cbd.data| <= MAX_CHUNK_SIZE ==>
      d.writingFile.None? && d.disk.Keys <= old(d.disk).Keys + {name}
  {
    hide A.Inv, A.Run, A.Next, A.Enabled, DiskCacheShard.Valid, DiskCacheShard.Contents, DiskCacheShard.State;
    hide DiskCacheShard.Accepts, DiskCacheShard.Ground, Idle, Swept, Added, Save, OnDisk;
    r, n, steps := cbd, s, [];
    A.RunNowhere(s);
    HeldSecond(s, t);
    assert s.items == s.items[t := s.items[t].(cbd := cbd)];
    if cbd.id != 0 || !enabled {
      return;
    }
    var id;
    ghost var left, gone;
    id, left, gone := d.PutBucket(cbd.time, cbd.data, name, aged, io);
    ghost var saved :=
      if id != 0 then A.SavedAs(d.Contents().known[id])
      else if left.Some? then A.LeftBehind(left.value) else A.NotSaved;
    n := PutStep(s, t, saved, gone);
    r, steps := cbd.(id := id), [A.Put(t, saved, gone)];
  }

  lemma PutStep(s: A.Agent, t: nat, saved: A.Saved, gone: set<string>) returns (n: A.Agent)
    requires A.Inv(s) && t in s.items && s.items[t].cbd.id == 0 && Idle(s.disk, gone)
    requires s.items[t].place.Saving? || s.items[t].place == A.Recent(A.Ready)
    requires saved.SavedAs? ==> saved.entry !in OnDisk(s.disk)
    requires !saved.NotSaved? ==>
      saved.entry.record.time == s.items[t].cbd.time && saved.entry.record.body == s.items[t].cbd.data
    ensures n.asked == s.asked && n.next == s.next
    ensures n.folder == if saved.NotSaved? then Swept(s.folder, gone) else Added(Swept(s.folder, gone), saved.entry)
    ensures n.disk == if saved.SavedAs? then Save(s.disk, saved.entry) else s.disk
    ensures n.items == s.items[t := s.items[t].(cbd := s.items[t].cbd.(id := if saved.SavedAs? then s.disk.last + 1
                                                                                else 0))]
    ensures A.Inv(n) && A.Run(s, [A.Put(t, saved, gone)], n)
  {
    n := A.Next(s, A.Put(t, saved, gone));
    A.RunOne(s, A.Put(t, saved, gone));
    hide A.Inv, A.Run, Idle, Swept, Added, Save, OnDisk;
    assert s.items[t := s.items[t]] == s.items;
  }

  /** Why a bucket is erased. */
  datatype Reason = Answered | OutOfWindow(now: int, historicWindow: int) | OverLimit

  function EraseStep(why: Reason, t: nat, mark: A.Mark): A.Step {
    match why
    case Answered => A.Response(t, true, mark)
    case OutOfWindow(now, historicWindow) => A.Expire(t, now, historicWindow, mark)
    case OverLimit => A.OverLimit(t, mark)
  }

  predicate MayErase(s: A.Agent, t: nat, why: Reason)
    requires t in s.items
  {
    var it := s.items[t];
    match why
    case Answered => A.InFlight(it.place)
    case OutOfWindow(now, historicWindow) =>
      (it.place == A.Historic(A.Checking) || it.place.Erasing?) && A.OutOfWindow(it.cbd.time, now, historicWindow)
    case OverLimit => it.place.Erasing?
  }

  /** Erases a bucket from disk, if it was saved, and lets it go. */
  method DiskCacheEraseWithLog(d: DiskCacheShard, id: int, written: nat,
                               ghost s: A.Agent, ghost t: nat, ghost why: Reason)
    returns (ghost n: A.Agent, ghost mark: A.Mark)
    requires Backs(d, s) && t in s.items && s.items[t].cbd.id == id && written <= 4 && MayErase(s, t, why)
    modifies d
    ensures mark.written == written && n == A.EraseItem(s, t, mark)
    ensures Backs(d, n) && A.Run(s, [EraseStep(why, t, mark)], n)
  {
    hide A.Inv, A.Run, A.EraseItem, DiskCacheShard.Valid, DiskCacheShard.Contents, DiskCacheShard.State;
    hide DiskCacheShard.Ground, Idle, Swept, Marked;
    var erased;
    ghost var gone;
    erased, gone := d.EraseBucket(id, written);
    mark := A.Mark(written, gone);
    n := ErasedRun(s, t, why, mark);
  }

  lemma ErasedRun(s: A.Agent, t: nat, why: Reason, mark: A.Mark) returns (n: A.Agent)
    requires A.Inv(s) && t in s.items && MayErase(s, t, why)
    requires mark.written <= 4 && Idle(Drop(s.disk, s.items[t].cbd.id), mark.gone)
    ensures n == A.EraseItem(s, t, mark) && n.disk == Drop(s.disk, s.items[t].cbd.id)
    ensures n.folder == if s.items[t].cbd.id in s.disk.known
                        then Swept(Marked(s.folder, s.disk.known[s.items[t].cbd.id], mark.written), mark.gone)
                        else s.folder
    ensures A.Inv(n) && A.Run(s, [EraseStep(why, t, mark)], n)
  {
    n := A.Next(s, EraseStep(why, t, mark));
    A.RunOne(s, EraseStep(why, t, mark));
    hide A.Inv, A.Run, Idle, Swept, Marked;
  }

  /** Reads the data of a bucket unless it is in memory, and erases the bucket exactly when the read fails
      or the checksum is wrong. The errors for an unknown id and for a wrong second cannot happen. */
  method Load(d: DiskCacheShard, cbd: BucketData, readOk: bool, written: nat, ghost s: A.Agent, ghost t: nat)
    returns (ok: bool, r: BucketData, ghost n: A.Agent, ghost mark: A.Mark)
    requires Backs(d, s) && t in s.items && s.items[t] == A.Item(cbd, A.Historic(A.Checking)) && written <= 4
    modifies d
    ensures Backs(d, n) && A.Run(s, [A.Read(t, ok, mark)], n) && r == cbd.(data := r.data) && mark.written == written
    ensures cbd.id != 0 ==> cbd.id in s.disk.known
    ensures ok <==> cbd.data != [] || (readOk && cbd.id != 0 && Sound(d.checksum, s.disk.known[cbd.id]))
    ensures ok ==> n == s.(items := s.items[t := A.Item(r, A.Historic(A.Ready))])
    ensures cbd.data != [] ==> r == cbd
    ensures ok && cbd.id != 0 ==> r.data == s.disk.known[cbd.id].record.body
    ensures !ok ==> n == A.EraseItem(s, t, mark)
  {
    hide A.Inv, A.Run, A.EraseItem, DiskCacheShard.Valid, DiskCacheShard.Contents, DiskCacheShard.State;
    hide DiskCacheShard.Ground, Idle, Swept, Marked;
    r, ok, mark := cbd, true, A.Mark(written, {});
    HeldSecond(s, t);
    HeldRecord(s, t);
    if |cbd.data| == 0 {
      var got;
      ghost var gone;
      got, gone := d.GetBucket(cbd.id, cbd.time, readOk, written);
      if got.UnknownId? || got.WrongSecond? {
        assert false;
      }
      ok, mark := got.Data?, A.Mark(written, gone);
      if ok {
        r := cbd.(data := got.body);
      }
    }
    n := ReadRun(s, t, ok, mark);
  }

  /** The bytes of the record are those its checksum was computed from. */
  predicate Sound(checksum: Checksum, e: Entry) {
    checksum(e.record.body) == e.record.crc
  }

  lemma HeldSecond(s: A.Agent, t: nat)
    requires A.Inv(s) && t in s.items
    ensures 0 <= s.items[t].cbd.time < 0x1_0000_0000
  {
    A.HoldersAreSane(s, t);
  }

  /** A bucket without data is on disk, and data in memory is what the disk has. */
  lemma HeldRecord(s: A.Agent, t: nat)
    requires A.Inv(s) && t in s.items
    ensures var cbd := s.items[t].cbd;
            && (cbd.data == [] ==> cbd.id != 0)
            && (cbd.id != 0 ==> cbd.id in s.disk.known && s.disk.known[cbd.id].record.time == cbd.time)
            && (cbd.id != 0 && cbd.data != [] ==> s.disk.known[cbd.id].record.body == cbd.data)
  {
    A.HoldersAreSane(s, t);
  }

  lemma ReadRun(s: A.Agent, t: nat, ok: bool, mark: A.Mark) returns (n: A.Agent)
    requires A.Inv(s) && t in s.items && s.items[t].place == A.Historic(A.Checking)
    requires s.items[t].cbd.data == [] && !ok ==>
      mark.written <= 4 && Idle(Drop(s.disk, s.items[t].cbd.id), mark.gone)
    ensures var cbd := s.items[t].cbd;
      && (cbd.data == [] ==> cbd.id in s.disk.known)
      && if cbd.data != [] || ok then
           var data := if cbd.data != [] then cbd.data else s.disk.known[cbd.id].record.body;
           n == s.(items := s.items[t := A.Item(cbd.(data := data), A.Historic(A.Ready))])
         else
           && n == A.EraseItem(s, t, mark) && n.disk == Drop(s.disk, cbd.id)
           && n.folder == Swept(Marked(s.folder, s.disk.known[cbd.id], mark.written), mark.gone)
    ensures A.Inv(n) && A.Run(s, [A.Read(t, ok, mark)], n)
  {
    HeldRecord(s, t);
    n := A.Next(s, A.Read(t, ok, mark));
    A.RunOne(s, A.Read(t, ok, mark));
    hide A.Inv, A.Run, Idle, Swept, Marked;
  }

  // ---------- historic senders ----------

  lemma SendStep(s: A.Agent, t: nat, q: Req) returns (n: A.Agent)
    requires A.Inv(s) && t in s.items && q !in s.asked
    requires s.items[t].place == A.Recent(A.Ready) || s.items[t].place == A.Historic(A.Ready)
    ensures s.items[t].cbd.time >= 0
    ensures var it := s.items[t];
            n == s.(asked := s.asked[q := A.Payload(it.cbd.time, it.cbd.data, it.place.Historic?)],
                    items := s.items[t := it.(place := it.place.(phase := A.Asked(q)))])
    ensures A.Inv(n) && A.Run(s, [A.Send(t, q)], n)
  {
    HeldSecond(s, t);
    n := A.Next(s, A.Send(t, q));
    A.RunOne(s, A.Send(t, q));
    hide A.Inv, A.Run;
  }

  function NoMark(): A.Mark { A.Mark(0, {}) }

  /** Back to the start of a historic sender's loop. */
  lemma AgainStep(s: A.Agent, t: nat, step: A.Step) returns (n: A.Agent)
    requires A.Inv(s) && t in s.items && s.items[t].place.Historic?
    requires || (step == A.GiveUp(t) && s.items[t].place.phase.Ready?)
             || (step == A.Response(t, false, NoMark()) && s.items[t].place.phase.Asked?)
    ensures n == s.(items := s.items[t := s.items[t].(place := A.Historic(A.Checking))])
    ensures A.Inv(n) && A.Run(s, [step], n)
  {
    n := A.Next(s, step);
    A.RunOne(s, step);
    hide A.Inv, A.Run;
  }

  lemma StopStep(s: A.Agent, t: nat) returns (n: A.Agent)
    requires A.Inv(s) && t in s.items && s.items[t].place.Historic?
    ensures n == s.(items := s.items - {t}) && A.Inv(n) && A.Run(s, [A.Cancel(t)], n)
  {
    n := A.Next(s, A.Cancel(t));
    A.RunOne(s, A.Cancel(t));
    hide A.Inv, A.Run;
  }

  /** What an attempt, or several, has done to the agent. */
  ghost predicate Tried(s: A.Agent, n: A.Agent, t: nat, cbd: BucketData, c: BucketData, r: Outcome, mark: A.Mark) {
    && c == cbd.(data := c.data) && s.asked.Keys <= n.asked.Keys && n.next == s.next
    && (if r.StillTrying? then n.items == s.items[t := A.Item(c, A.Historic(A.Checking))] else n.items == s.items - {t})
    && if r.StillTrying? || r.Stopped? then n.disk == s.disk && n.folder == s.folder
       else n.disk == Drop(s.disk, cbd.id) && n.folder == A.MarkedFolder(s, cbd.id, mark)
  }

  /** The request carried exactly the bucket, as the disk has it if it was saved. */
  ghost predicate Carried(s: A.Agent, n: A.Agent, cbd: BucketData, q: Req) {
    && q in n.asked && n.asked[q].time == cbd.time && n.asked[q].historic
    && (cbd.id != 0 ==> cbd.id in s.disk.known && n.asked[q].data == s.disk.known[cbd.id].record.body)
  }

  /** Sends a bucket whose data is loaded, once, and waits for the answer. */
  method Exchange(d: DiskCacheShard, cbd: BucketData, a: Attempt, ghost s: A.Agent, ghost t: nat)
    returns (r: Outcome, ghost n: A.Agent, ghost steps: seq<A.Step>, ghost mark: A.Mark)
    requires Backs(d, s) && t in s.items && s.items[t] == A.Item(cbd, A.Historic(A.Ready))
    requires a.q !in s.asked && a.written <= 4
    requires cbd.id != 0 ==> cbd.id in s.disk.known && cbd.data == s.disk.known[cbd.id].record.body
    modifies d
    ensures Backs(d, n) && A.Run(s, steps, n) && n.asked.Keys <= s.asked.Keys + {a.q}
    ensures mark.written == a.written && Tried(s, n, t, cbd, cbd, r, mark) && !r.Expired? && !r.Unreadable?
    ensures r.Acked? <==> a.alive && a.reply == Discard
    ensures r.Stopped? <==> !r.Acked? && (a.shutdown || (a.alive && a.reply == Canceled))
    ensures r.Acked? ==> Carried(s, n, cbd, a.q)
  {
    hide A.Inv, A.Run, A.Next, A.Enabled, DiskCacheShard.Valid, DiskCacheShard.Contents, DiskCacheShard.State;
    hide A.MarkedFolder, Drop;
    mark := A.Mark(a.written, {});
    if !a.alive {
      if a.shutdown {
        n := StopStep(s, t);
        r, steps := Stopped, [A.Cancel(t)];
        return;
      }
      n := AgainStep(s, t, A.GiveUp(t));
      r, steps := StillTrying, [A.GiveUp(t)];
      return;
    }
    ghost var m := SendStep(s, t, a.q);
    steps := [A.Send(t, a.q)];
    if a.reply.Canceled? {
      n := StopStep(m, t);
      A.RunConcat(s, steps, m, [A.Cancel(t)], n);
      r, steps := Stopped, steps + [A.Cancel(t)];
    } else if a.reply.Discard? {
      n, mark := DiskCacheEraseWithLog(d, cbd.id, a.written, m, t, Answered);
      A.RunConcat(s, steps, m, [EraseStep(Answered, t, mark)], n);
      r, steps := Acked, steps + [EraseStep(Answered, t, mark)];
      MarkedAlike(s, m, cbd.id, mark);
    } else {
      n := AgainStep(m, t, A.Response(t, false, NoMark()));
      A.RunConcat(s, steps, m, [A.Response(t, false, NoMark())], n);
      r, steps := StillTrying, steps + [A.Response(t, false, NoMark())];
      if a.shutdown {
        m := n;
        n := StopStep(m, t);
        A.RunConcat(s, steps, m, [A.Cancel(t)], n);
        r, steps := Stopped, steps + [A.Cancel(t)];
      }
    }
  }

  lemma MarkedAlike(s: A.Agent, m: A.Agent, id: int, mark: A.Mark)
    requires m.disk == s.disk && m.folder == s.folder
    ensures A.MarkedFolder(m, id, mark) == A.MarkedFolder(s, id, mark)
  {}

  /** One round of a historic sender's loop. */
  method TryOnce(d: DiskCacheShard, cbd: BucketData, a: Attempt, ghost s: A.Agent, ghost t: nat)
    returns (r: Outcome, c: BucketData, ghost n: A.Agent, ghost steps: seq<A.Step>, ghost mark: A.Mark)
    requires Backs(d, s) && t in s.items && s.items[t] == A.Item(cbd, A.Historic(A.Checking))
    requires a.q !in s.asked && a.written <= 4
    modifies d
    ensures Backs(d, n) && A.Run(s, steps, n) && n.asked.Keys <= s.asked.Keys + {a.q}
    ensures mark.written == a.written && Tried(s, n, t, cbd, c, r, mark)
    ensures cbd.data != [] ==> c == cbd
    ensures r.Expired? <==> A.OutOfWindow(cbd.time, a.now, a.historicWindow)
    ensures cbd.id != 0 ==> cbd.id in s.disk.known
    ensures r.Unreadable? <==>
      && !r.Expired? && cbd.data == [] && !(a.readOk && cbd.id != 0 && Sound(d.checksum, s.disk.known[cbd.id]))
    ensures r.Acked? <==> !r.Expired? && !r.Unreadable? && a.alive && a.reply == Discard
    ensures r.Stopped? <==>
      !r.Expired? && !r.Unreadable? && !r.Acked? && (a.shutdown || (a.alive && a.reply == Canceled))
    ensures r.Acked? ==> Carried(s, n, cbd, a.q)
    ensures r.StillTrying? && cbd.id != 0 ==> c.data == s.disk.known[cbd.id].record.body
  {
    hide A.Inv, A.Run, A.Next, A.Enabled, DiskCacheShard.Valid, DiskCacheShard.Contents, DiskCacheShard.State;
    hide A.MarkedFolder, Drop, Sound;
    c := cbd;
    HeldRecord(s, t);
    if !(a.now < a.historicWindow || cbd.time >= a.now - a.historicWindow) {
      ghost var why := OutOfWindow(a.now, a.historicWindow);
      n, mark := DiskCacheEraseWithLog(d, cbd.id, a.written, s, t, why);
      r, steps := Expired, [EraseStep(why, t, mark)];
      return;
    }
    var ok;
    ghost var m;
    ok, c, m, mark := Load(d, cbd, a.readOk, a.written, s, t);
    steps := [A.Read(t, ok, mark)];
    if !ok {
      r, n := Unreadable, m;
      return;
    }
    ghost var more;
    r, n, more, mark := Exchange(d, c, a, m, t);
    A.RunConcat(s, steps, m, more, n);
    steps := steps + more;
    MarkedAlike(s, m, cbd.id, mark);
  }

  lemma TriedMore(s: A.Agent, m: A.Agent, n: A.Agent, t: nat, cbd: BucketData, b: BucketData, c: BucketData,
                  r: Outcome, a: A.Mark, mark: A.Mark)
    requires t in s.items && Tried(s, m, t, cbd, b, StillTrying, a) && Tried(m, n, t, b, c, r, mark)
    ensures Tried(s, n, t, cbd, c, r, mark)
  {
    MarkedAlike(s, m, cbd.id, mark);
    hide A.MarkedFolder;
  }

  ghost predicate SoundOnDisk(checksum: Checksum, s: A.Agent, id: int) {
    id != 0 && id in s.disk.known && Sound(checksum, s.disk.known[id])
  }

  /** The data of the bucket is in memory when attempt `i` begins: it was before, or the first one has read it. */
  predicate InMemory(s: A.Agent, cbd: BucketData, i: nat) {
    cbd.data != [] || (i > 0 && cbd.id in s.disk.known && s.disk.known[cbd.id].record.body != [])
  }

  /** What attempt `i` comes to, once the ones before it have come to nothing. */
  ghost function Fate(checksum: Checksum, s: A.Agent, cbd: BucketData, i: nat, a: Attempt): Outcome {
    if A.OutOfWindow(cbd.time, a.now, a.historicWindow) then Expired
    else if !InMemory(s, cbd, i) && !(a.readOk && SoundOnDisk(checksum, s, cbd.id)) then Unreadable
    else if a.alive && a.reply == Discard then Acked
    else if a.shutdown || (a.alive && a.reply == Canceled) then Stopped
    else StillTrying
  }

  /** Sends a bucket again and again, until the first attempt that decides. It goes away from the disk only
      when it is acknowledged, by a response to a request that carried exactly it, out of the historic
      window, or unreadable; and no other bucket the cache has changes. */
  method SendHistoric(d: DiskCacheShard, cbd: BucketData, attempts: seq<Attempt>, ghost s: A.Agent, ghost t: nat)
    returns (r: Outcome, c: BucketData, ghost n: A.Agent, ghost steps: seq<A.Step>, ghost mark: A.Mark)
    requires Backs(d, s) && t in s.items && s.items[t] == A.Item(cbd, A.Historic(A.Checking))
    requires forall i | 0 <= i < |attempts| :: attempts[i].q !in s.asked && attempts[i].written <= 4
    requires forall i, j | 0 <= i < j < |attempts| :: attempts[i].q != attempts[j].q
    modifies d
    ensures Backs(d, n) && A.Run(s, steps, n) && mark.written <= 4 && Tried(s, n, t, cbd, c, r, mark)
    ensures r.Acked? ==>
      exists i | 0 <= i < |attempts| :: attempts[i].reply == Discard && Carried(s, n, cbd, attempts[i].q)
    ensures r.Expired? ==>
      exists i | 0 <= i < |attempts| :: A.OutOfWindow(cbd.time, attempts[i].now, attempts[i].historicWindow)
    ensures r.Unreadable? ==> cbd.data == [] && cbd.id in s.disk.known
    ensures r.Unreadable? && Sound(d.checksum, s.disk.known[cbd.id]) ==>
      exists i | 0 <= i < |attempts| :: !attempts[i].readOk
    ensures r.StillTrying? <==>
      forall i | 0 <= i < |attempts| :: Fate(d.checksum, s, cbd, i, attempts[i]).StillTrying?
    ensures !r.StillTrying? ==>
      exists k | 0 <= k < |attempts| :: r == Fate(d.checksum, s, cbd, k, attempts[k]) &&
        forall i | 0 <= i < k :: Fate(d.checksum, s, cbd, i, attempts[i]).StillTrying?
  {
    hide A.Inv, A.Run, A.Next, A.Enabled, A.OutOfWindow, DiskCacheShard.Valid, DiskCacheShard.Contents;
    hide DiskCacheShard.State, A.MarkedFolder, Drop, Sound;
    r, c, n, steps, mark := StillTrying, cbd, s, [], NoMark();
    A.RunNowhere(s);
    HeldRecord(s, t);
    assert s.items == s.items[t := A.Item(cbd, A.Historic(A.Checking))];
    var i := 0;
    while i < |attempts| && r.StillTrying?
      invariant 0 <= i <= |attempts| && Backs(d, n) && A.Run(s, steps, n)
      invariant mark.written <= 4 && Tried(s, n, t, cbd, c, r, mark)
      invariant cbd.data != [] ==> c.data == cbd.data
      invariant i > 0 && r.StillTrying? && cbd.id != 0 ==> c.data == s.disk.known[cbd.id].record.body
      invariant i == 0 ==> r.StillTrying? && c == cbd
      invariant r.StillTrying? ==>
        forall j | 0 <= j < i :: Fate(d.checksum, s, cbd, j, attempts[j]).StillTrying?
      invariant !r.StillTrying? ==>
        && r == Fate(d.checksum, s, cbd, i - 1, attempts[i - 1])
        && forall j | 0 <= j < i - 1 :: Fate(d.checksum, s, cbd, j, attempts[j]).StillTrying?
      invariant r.StillTrying? ==> forall j | i <= j < |attempts| :: attempts[j].q !in n.asked
      invariant r.Acked? ==> i > 0 && attempts[i - 1].reply == Discard && Carried(s, n, cbd, attempts[i - 1].q)
      invariant r.Expired? ==> i > 0 && A.OutOfWindow(cbd.time, attempts[i - 1].now, attempts[i - 1].historicWindow)
      invariant r.Unreadable? ==>
        i > 0 && cbd.data == [] && cbd.id != 0 && !(attempts[i - 1].readOk && Sound(d.checksum, s.disk.known[cbd.id]))
      decreases |attempts| - i
    {
      ghost var m, b, more, last := n, c, [], mark;
      r, c, n, more, mark := TryOnce(d, c, attempts[i], m, t);
      TriedMore(s, m, n, t, cbd, b, c, r, last, mark);
      A.RunConcat(s, steps, m, more, n);
      steps := steps + more;
      i := i + 1;
    }
  }
}
