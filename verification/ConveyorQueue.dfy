/** The retry queue of one shard between its senders and its disk: the methods of the queue, the recent
    senders and the eraser, again as runs of the steps of the agent. */
module ConveyorQueue {
  import opened Records
  import opened Store
  import opened DiskState
  import opened DiskCache
  import opened HistoricQueue
  import opened RetryQueue
  import opened Conveyor
  import RecentWindow
  import A = Agent

  // ---------- the queue of the agent ----------

  /** The queue holds exactly the buckets of the agent that are queued; `tokens` are their keys there. */
  ghost predicate Queued(queue: seq<BucketData>, tokens: seq<nat>, s: A.Agent) {
    && |tokens| == |queue|
    && (forall i | 0 <= i < |tokens| :: tokens[i] in s.items && s.items[tokens[i]] == A.Item(queue[i], A.Queue))
    && (forall i, j | 0 <= i < j < |tokens| :: tokens[i] != tokens[j])
    && (forall t | t in s.items && s.items[t].place.Queue? :: t in tokens)
  }

  /** The cache is the disk of the agent and the shard's queue is its queue. */
  ghost predicate Conveyed(d: DiskCacheShard, q: HistoricQueues, k: nat, s: A.Agent, tokens: seq<nat>)
    reads d, q
  {
    Backs(d, s) && q.Valid() && k < |q.toSend| && Queued(q.toSend[k], tokens, s)
  }

  /** What happens to a bucket outside the queue does not concern the queue: it moves, */
  lemma QueuedMoved(queue: seq<BucketData>, tokens: seq<nat>, s: A.Agent, n: A.Agent, t: nat, it: A.Item)
    requires Queued(queue, tokens, s) && t in s.items && !s.items[t].place.Queue?
    requires n.items == s.items[t := it] && !it.place.Queue?
    ensures Queued(queue, tokens, n)
  {
    assert forall i | 0 <= i < |tokens| :: tokens[i] != t;
  }

  /** or leaves. */
  lemma QueuedLeft(queue: seq<BucketData>, tokens: seq<nat>, s: A.Agent, n: A.Agent, t: nat)
    requires Queued(queue, tokens, s) && t in s.items && !s.items[t].place.Queue?
    requires n.items == s.items - {t}
    ensures Queued(queue, tokens, n)
  {
    assert forall i | 0 <= i < |tokens| :: tokens[i] != t;
  }

  lemma QueuedMore(queue: seq<BucketData>, tokens: seq<nat>, s: A.Agent, n: A.Agent, t: nat, b: BucketData)
    requires Queued(queue, tokens, s) && (t in s.items ==> !s.items[t].place.Queue?)
    requires n.items == s.items[t := A.Item(b, A.Queue)]
    ensures Queued(queue + [b], tokens + [t], n)
  {
    assert forall i | 0 <= i < |tokens| :: tokens[i] != t;
  }

  function WithoutToken(tokens: seq<nat>, pos: nat): seq<nat>
    requires pos < |tokens|
  {
    tokens[pos := tokens[|tokens| - 1]][..|tokens| - 1]
  }

  lemma QueuedLess(queue: seq<BucketData>, tokens: seq<nat>, s: A.Agent, n: A.Agent, pos: nat, place: A.Place)
    requires Queued(queue, tokens, s) && pos < |queue| && !place.Queue?
    requires n.items == s.items[tokens[pos] := A.Item(queue[pos], place)]
    ensures Queued(Without(queue, pos), WithoutToken(tokens, pos), n)
  {
    var rest, last := WithoutToken(tokens, pos), |tokens| - 1;
    forall t | t in n.items && n.items[t].place.Queue? ensures t in rest {
      assert t in s.items && s.items[t].place.Queue?;
      var i :| 0 <= i < |tokens| && tokens[i] == t;
      assert i != pos;
      assert rest[if i == last then pos else i] == t;
    }
  }

  // ---------- reading the tail ----------

  lemma ScanFits(before: Store, skipped: nat, lost: set<string>, gone: set<string>, s: A.Agent)
    requires s.disk == before && skipped <= |before.tail| && PassedOver(before.tail[..skipped], lost)
    requires Idle(TakeAfter(before, skipped), gone)
    ensures A.ScanOk(s, A.TailScan(skipped, lost, gone))
  {}

  lemma TailReadRun(s: A.Agent, scan: A.TailScan) returns (n: A.Agent)
    requires A.Inv(s) && A.ScanOk(s, scan)
    ensures n == A.ReadTail(s, scan) && A.Inv(n) && A.Run(s, [A.TailRead(scan)], n)
  {
    n := A.Next(s, A.TailRead(scan));
    A.RunOne(s, A.TailRead(scan));
    hide A.Inv, A.Run, A.ReadTail;
  }

  /** What reading the tail does to the agent, part by part. */
  lemma ReadTailParts(s: A.Agent, scan: A.TailScan, next: Option<BucketData>)
    requires A.Inv(s) && A.ScanOk(s, scan) && NextRead(s.disk, scan.skipped, next)
    ensures var n := A.ReadTail(s, scan);
            && n.disk == TakeAfter(s.disk, scan.skipped) && n.folder == Swept(s.folder, scan.gone)
            && n.asked == s.asked && s.next !in s.items
            && n.items == (if next.Some? then s.items[s.next := A.Item(next.value, A.Queue)] else s.items)
  {}

  /** The shard looks for one more unread bucket, as it does many times at its start. */
  method ReadHistoricSecond(d: DiskCacheShard, q: HistoricQueues, k: nat, faults: Faults,
                            ghost s: A.Agent, ghost tokens: seq<nat>)
    returns (ghost n: A.Agent, ghost scan: A.TailScan, ghost all: seq<nat>)
    requires Conveyed(d, q, k, s, tokens)
    modifies d, q
    ensures scan.skipped <= |s.disk.tail| && n == A.ReadTail(s, scan)
    ensures Conveyed(d, q, k, n, all) && A.Run(s, [A.TailRead(scan)], n)
    ensures forall f | f in scan.lost :: Faulty(faults, f)
  {
    hide A.Inv, A.Run, A.ReadTail, Idle, Swept, PassedOver, Faulty, TakeAfter, Queued, A.ScanOk;
    hide DiskCacheShard.Valid, DiskCacheShard.Contents, DiskCacheShard.State, DiskCacheShard.Ground;
    ghost var queue := q.toSend[k];
    ghost var next, skipped, lost, gone;
    next, skipped, lost, gone := q.ReadHistoricSecondLocked(k, d, faults);
    scan := A.TailScan(skipped, lost, gone);
    ScanFits(s.disk, skipped, lost, gone, s);
    n := TailReadRun(s, scan);
    ReadTailParts(s, scan, next);
    all := QueuedNext(queue, tokens, s, n, next);
  }

  lemma QueuedNext(queue: seq<BucketData>, tokens: seq<nat>, s: A.Agent, n: A.Agent, next: Option<BucketData>)
    returns (all: seq<nat>)
    requires Queued(queue, tokens, s) && s.next !in s.items
    requires n.items == if next.Some? then s.items[s.next := A.Item(next.value, A.Queue)] else s.items
    ensures Queued(queue + Optional(next), all, n)
  {
    if next.Some? {
      all := tokens + [s.next];
      QueuedMore(queue, tokens, s, n, s.next, next.value);
    } else {
      all := tokens;
      assert queue + Optional(next) == queue;
    }
  }

  // ---------- popping ----------

  /** Takes the oldest queued bucket for a sender or for the eraser, if its second is over, and refills
      the queue from disk: this is the agent's step. */
  method PopOldest(d: DiskCacheShard, q: HistoricQueues, k: nat, now: int, faults: Faults, toEraser: bool,
                   ghost s: A.Agent, ghost tokens: seq<nat>)
    returns (r: Option<BucketData>, ghost t: nat, ghost n: A.Agent, ghost steps: seq<A.Step>, ghost all: seq<nat>)
    requires Conveyed(d, q, k, s, tokens)
    modifies d, q
    ensures Conveyed(d, q, k, n, all) && A.Run(s, steps, n)
    ensures r.None? ==> n == s && steps == []
    ensures r.None? <==>
      || old(q.toSend)[k] == []
      || exists e :: Oldest(old(q.toSend)[k], e) && TooEarly(e.time, now)
    ensures r.Some? ==>
      && t in s.items && s.items[t] == A.Item(r.value, A.Queue)
      && t in n.items && n.items[t] == A.Item(r.value, if toEraser then A.Erasing else A.Historic(A.Checking))
      && exists scan :: steps == [A.Pop(t, now, toEraser, scan)] && forall f | f in scan.lost :: Faulty(faults, f)
  {
    hide A.Inv, A.Run, A.ReadTail, Idle, Swept, PassedOver, Faulty, TakeAfter, Queued, A.ScanOk, Oldest, Without;
    hide DiskCacheShard.Valid, DiskCacheShard.Contents, DiskCacheShard.State, DiskCacheShard.Ground;
    ghost var queue := q.toSend[k];
    ghost var pos, next, skipped, lost, gone;
    r, pos, next, skipped, lost, gone := q.PopOldestHistoricSecond(k, now, d, faults);
    t, n, steps, all := 0, s, [], tokens;
    A.RunNowhere(s);
    if r.Some? {
      ghost var scan := A.TailScan(skipped, lost, gone);
      ScanFits(s.disk, skipped, lost, gone, s);
      t, n, all := PopRun(queue, tokens, s, pos, now, toEraser, scan, next);
      steps := [A.Pop(t, now, toEraser, scan)];
    }
  }

  lemma PopRun(queue: seq<BucketData>, tokens: seq<nat>, s: A.Agent, pos: nat, now: int, toEraser: bool,
               scan: A.TailScan, next: Option<BucketData>)
    returns (t: nat, n: A.Agent, all: seq<nat>)
    requires A.Inv(s) && Queued(queue, tokens, s) && pos < |queue|
    requires Oldest(queue, queue[pos]) && !TooEarly(queue[pos].time, now)
    requires A.ScanOk(s, scan) && NextRead(s.disk, scan.skipped, next)
    ensures A.Inv(n) && A.Run(s, [A.Pop(t, now, toEraser, scan)], n) && Queued(Rest(queue, pos, next), all, n)
    ensures n.disk == TakeAfter(s.disk, scan.skipped) && n.folder == Swept(s.folder, scan.gone)
    ensures t in s.items && s.items[t] == A.Item(queue[pos], A.Queue) && t in n.items
    ensures n.items[t] == A.Item(queue[pos], if toEraser then A.Erasing else A.Historic(A.Checking))
  {
    t := tokens[pos];
    var step := A.Pop(t, now, toEraser, scan);
    PopEnabled(queue, tokens, s, pos, now, toEraser, scan);
    var place := if toEraser then A.Erasing else A.Historic(A.Checking);
    var m := A.Move(s, t, A.Item(queue[pos], place));
    PoppedMoves(queue, tokens, s, pos, now, toEraser, scan);
    QueuedLess(queue, tokens, s, m, pos, place);
    n := A.Next(s, step);
    A.RunOne(s, step);
    hide A.Inv, A.Run, A.Next, A.Enabled, Queued, A.ReadTail, Without;
    ReadTailParts(m, scan, next);
    all := QueuedNext(Without(queue, pos), WithoutToken(tokens, pos), m, n, next);
  }

  lemma PopEnabled(queue: seq<BucketData>, tokens: seq<nat>, s: A.Agent, pos: nat, now: int, toEraser: bool,
                   scan: A.TailScan)
    requires Queued(queue, tokens, s) && pos < |queue| && A.ScanOk(s, scan)
    requires Oldest(queue, queue[pos]) && !TooEarly(queue[pos].time, now)
    ensures tokens[pos] in s.items && A.Enabled(s, A.Pop(tokens[pos], now, toEraser, scan))
  {
    hide A.ScanOk;
    forall u | u in s.items && s.items[u].place.Queue? ensures queue[pos].time <= s.items[u].cbd.time {
      var i :| 0 <= i < |tokens| && tokens[i] == u;
      assert queue[i] in queue;
    }
  }

  lemma PoppedMoves(queue: seq<BucketData>, tokens: seq<nat>, s: A.Agent, pos: nat, now: int, toEraser: bool,
                    scan: A.TailScan)
    requires A.Inv(s) && Queued(queue, tokens, s) && pos < |queue| && A.ScanOk(s, scan)
    requires A.Enabled(s, A.Pop(tokens[pos], now, toEraser, scan))
    ensures var place := if toEraser then A.Erasing else A.Historic(A.Checking);
            var m := A.Move(s, tokens[pos], A.Item(queue[pos], place));
            A.Inv(m) && A.ScanOk(m, scan) && A.Next(s, A.Pop(tokens[pos], now, toEraser, scan)) == A.ReadTail(m, scan)
  {
    var place := if toEraser then A.Erasing else A.Historic(A.Checking);
    A.HoldersAreSane(s, tokens[pos]);
    A.MoveInv(s, tokens[pos], A.Item(queue[pos], place));
    hide A.Inv, A.ReadTail, Idle;
  }

  // ---------- appending ----------

  lemma AppendRun(s: A.Agent, t: nat, fits: bool) returns (n: A.Agent)
    requires A.Inv(s) && t in s.items && (s.items[t].place.Saving? || s.items[t].place.Erasing?)
    ensures n == A.Enqueue(s, t, fits) && A.Inv(n) && A.Run(s, [A.Append(t, fits)], n)
  {
    n := A.Next(s, A.Append(t, fits));
    A.RunOne(s, A.Append(t, fits));
    hide A.Inv, A.Run, A.Enqueue;
  }

  /** What is queued of a bucket. */
  function Queueable(b: BucketData, r: Append): BucketData {
    if r.KeptOnDiskOnly? then b.(data := []) else b
  }

  /** Queues a bucket, with its data if the memory of the shard allows it: this is the agent's step. */
  method AppendHistoric(q: HistoricQueues, k: nat, cbd: BucketData, ghost s: A.Agent, ghost t: nat,
                        ghost tokens: seq<nat>)
    returns (r: Append, ghost n: A.Agent, ghost all: seq<nat>)
    requires A.Inv(s) && q.Valid() && k < |q.toSend| && Queued(q.toSend[k], tokens, s)
    requires t in s.items && s.items[t].cbd == cbd && (s.items[t].place.Saving? || s.items[t].place.Erasing?)
    modifies q
    ensures q.Valid() && k < |q.toSend| && Queued(q.toSend[k], all, n)
    ensures r == if old(q.HasMemory(k, cbd)) then Kept else if cbd.id != 0 then KeptOnDiskOnly else Lost
    ensures A.Inv(n) && A.Run(s, [A.Append(t, r.Kept?)], n) && n == A.Enqueue(s, t, r.Kept?)
    ensures n.disk == s.disk && n.folder == s.folder && n.asked == s.asked && n.next == s.next
    ensures n.items == if r.Lost? then s.items - {t} else s.items[t := A.Item(Queueable(cbd, r), A.Queue)]
  {
    hide A.Inv, A.Run, Queued, HistoricQueues.HasMemory, Bytes, Total;
    ghost var queue := q.toSend[k];
    r := q.AppendHistoricBucketsToSend(k, cbd);
    n := AppendRun(s, t, r.Kept?);
    all := tokens;
    if r.Lost? {
      assert queue + [] == queue;
      QueuedLeft(queue, tokens, s, n, t);
    } else {
      QueuedMore(queue, tokens, s, n, t, Queueable(cbd, r));
      all := tokens + [t];
    }
  }

  /** How the world treats a write. */
  datatype Writing = Writing(enabled: bool, name: string, aged: bool, io: WriteOutcome)

  /** The disk has gained at most this bucket, under a fresh id. */
  ghost predicate SavedAtMost(before: Store, after: Store, cbd: BucketData, id: int) {
    if id == cbd.id then after == before
    else
      && cbd.id == 0 && id == before.last + 1
      && exists e :: after == Save(before, e) && e.record.time == cbd.time && e.record.body == cbd.data
  }

  /** Saves a bucket, if it is not saved yet, and queues it for the historic senders. It is lost exactly
      when it was not saved and does not fit into memory. */
  method SaveAndQueue(d: DiskCacheShard, q: HistoricQueues, k: nat, cbd: BucketData, w: Writing,
                      ghost s: A.Agent, ghost t: nat, ghost tokens: seq<nat>)
    returns (r: Append, c: BucketData, ghost n: A.Agent, ghost steps: seq<A.Step>, ghost all: seq<nat>)
    requires Conveyed(d, q, k, s, tokens) && t in s.items && s.items[t] == A.Item(cbd, A.Saving)
    modifies d, q
    ensures Conveyed(d, q, k, n, all) && A.Run(s, steps, n)
    ensures c == cbd.(id := c.id) && SavedAtMost(s.disk, n.disk, cbd, c.id)
    ensures c.id != 0 <==> cbd.id != 0 || (w.enabled && old(d.Accepts(cbd.data, w.name, w.aged, w.io)))
    ensures r == if old(q.HasMemory(k, cbd)) then Kept else if c.id != 0 then KeptOnDiskOnly else Lost
    ensures n.items == if r.Lost? then s.items - {t} else s.items[t := A.Item(Queueable(c, r), A.Queue)]
    ensures n.asked == s.asked
  {
    hide A.Inv, A.Run, Queued, HistoricQueues.HasMemory, HistoricQueues.Valid, A.Enqueue, Save;
    hide DiskCacheShard.Valid, DiskCacheShard.Contents, DiskCacheShard.State, DiskCacheShard.Ground;
    hide DiskCacheShard.Accepts;
    ghost var m;
    c, m, steps := DiskCachePutWithLog(d, cbd, w.enabled, w.name, w.aged, w.io, s, t);
    QueuedMoved(q.toSend[k], tokens, s, m, t, s.items[t].(cbd := c));
    SameMemory(q, k, cbd, c);
    r, n, all := AppendHistoric(q, k, c, m, t, tokens);
    A.RunConcat(s, steps, m, [A.Append(t, r.Kept?)], n);
    steps := steps + [A.Append(t, r.Kept?)];
    assert s.items[t := s.items[t].(cbd := c)] - {t} == s.items - {t};
  }

  lemma SameMemory(q: HistoricQueues, k: nat, b: BucketData, c: BucketData)
    requires q.Valid() && k < |q.toSend| && b.data == c.data
    ensures q.HasMemory(k, b) == q.HasMemory(k, c)
  {}

  // ---------- recent senders ----------

  datatype Recent = Delivered | Requeued | Dropped

  lemma SavingRun(s: A.Agent, t: nat, step: A.Step) returns (n: A.Agent)
    requires A.Inv(s) && t in s.items && s.items[t].place.Recent?
    requires || (step == A.GiveUp(t) && s.items[t].place.phase.Ready?)
             || (step == A.Response(t, false, NoMark()) && s.items[t].place.phase.Asked?)
    ensures n == s.(items := s.items[t := s.items[t].(place := A.Saving)])
    ensures A.Inv(n) && A.Run(s, [step], n)
  {
    n := A.Next(s, step);
    A.RunOne(s, step);
    hide A.Inv, A.Run;
  }

  /** The bucket is taken to the replica if it is recent enough and somebody is alive. */
  predicate Sendable(cbd: BucketData, a: Attempt) {
    cbd.time + RecentWindow.MAX_SHORT_WINDOW + RecentWindow.FUTURE_WINDOW >= a.now && a.alive
  }

  /** A recent sender's one attempt with a bucket: acknowledged and erased, or to be saved. */
  method SendOnce(d: DiskCacheShard, cbd: BucketData, a: Attempt, ghost s: A.Agent, ghost t: nat)
    returns (ok: bool, ghost n: A.Agent, ghost steps: seq<A.Step>)
    requires Backs(d, s) && t in s.items && s.items[t] == A.Item(cbd, A.Recent(A.Ready))
    requires a.q !in s.asked && a.written <= 4
    modifies d
    ensures Backs(d, n) && A.Run(s, steps, n)
    ensures ok <==> Sendable(cbd, a) && a.reply == Discard
    ensures ok ==> n.items == s.items - {t} && n.disk == Drop(s.disk, cbd.id) && a.q in n.asked
    ensures ok ==>
      n.asked[a.q].time == cbd.time && n.asked[a.q].data == cbd.data && !n.asked[a.q].historic
    ensures !ok ==> n.items == s.items[t := A.Item(cbd, A.Saving)] && n.disk == s.disk && n.folder == s.folder
    ensures !ok ==> unchanged(d)
  {
    hide A.Inv, A.Run, A.Next, A.Enabled, A.MarkedFolder, Drop;
    hide DiskCacheShard.Valid, DiskCacheShard.Contents, DiskCacheShard.State, DiskCacheShard.Ground;
    ok := false;
    if cbd.time + RecentWindow.MAX_SHORT_WINDOW + RecentWindow.FUTURE_WINDOW < a.now || !a.alive {
      n := SavingRun(s, t, A.GiveUp(t));
      steps := [A.GiveUp(t)];
      return;
    }
    ghost var m := SendStep(s, t, a.q);
    steps := [A.Send(t, a.q)];
    if a.reply.Discard? {
      ghost var mark;
      n, mark := DiskCacheEraseWithLog(d, cbd.id, a.written, m, t, Answered);
      A.RunConcat(s, steps, m, [EraseStep(Answered, t, mark)], n);
      steps := steps + [EraseStep(Answered, t, mark)];
      return true, n, steps;
    }
    n := SavingRun(m, t, A.Response(t, false, NoMark()));
    A.RunConcat(s, steps, m, [A.Response(t, false, NoMark())], n);
    steps := steps + [A.Response(t, false, NoMark())];
  }

  /** Exactly the bucket `cbd` may have come to the disk or left it. */
  ghost predicate OnlyThis(before: Store, after: Store, cbd: BucketData) {
    && after.tail == before.tail
    && (forall id | id in before.known && id != cbd.id :: id in after.known && after.known[id] == before.known[id])
    && (forall id | id in after.known && id !in before.known ::
          after.known[id].record.time == cbd.time && after.known[id].record.body == cbd.data)
  }

  lemma DeliveredOnly(before: Store, mid: Store, cbd: BucketData, id: int)
    requires Numbered(before) && SavedAtMost(before, mid, cbd, id)
    ensures OnlyThis(before, Drop(mid, id), cbd) && Drop(mid, id).known == before.known - {cbd.id}
  {}

  lemma RequeuedOnly(before: Store, mid: Store, after: Store, cbd: BucketData, a: int, b: int)
    requires Numbered(before) && SavedAtMost(before, mid, cbd, a) && SavedAtMost(mid, after, cbd.(id := a), b)
    ensures OnlyThis(before, after, cbd) && before.known.Keys <= after.known.Keys && SavedAtMost(before, after, cbd, b)
  {}

  /** Where a bucket is left that was not delivered: queued under its id, or under the next one if it is saved
      only now; lost exactly if it is not saved and does not fit into memory. */
  ghost predicate Left(r: Recent, n: A.Agent, t: nat, cbd: BucketData, last: int, saved: bool, fits: bool) {
    var id := if cbd.id != 0 then cbd.id else if saved then last + 1 else 0;
    && (r.Dropped? <==> id == 0 && !fits)
    && (r.Requeued? <==> id != 0 || fits)
    && (r.Requeued? ==> t in n.items && n.items[t].cbd.id == id)
  }

  /** A save that can succeed in a new file. */
  predicate Tryable(cbd: BucketData, w: Writing) {
    w.enabled && |cbd.data| <= MAX_CHUNK_SIZE && w.io == Written
  }

  /** A recent sender with one bucket: saved before the attempt if so configured, sent once, and then
      either acknowledged and erased, or saved, unless it is already, and handed to the historic senders.
      Nothing else on the disk changes. */
  method SendRecent(d: DiskCacheShard, q: HistoricQueues, k: nat, cbd: BucketData, saveImmediately: bool,
                    first: Writing, second: Writing, a: Attempt, ghost s: A.Agent, ghost t: nat,
                    ghost tokens: seq<nat>)
    returns (r: Recent, ghost n: A.Agent, ghost steps: seq<A.Step>, ghost all: seq<nat>, ghost saved: bool)
    requires Conveyed(d, q, k, s, tokens) && t in s.items && s.items[t] == A.Item(cbd, A.Recent(A.Ready))
    requires a.q !in s.asked && a.written <= 4
    modifies d, q
    ensures Conveyed(d, q, k, n, all) && A.Run(s, steps, n)
    ensures OnlyThis(s.disk, n.disk, cbd)
    ensures forall u | u != t :: (u in n.items <==> u in s.items) && (u in n.items ==> n.items[u] == s.items[u])
    ensures r.Delivered? <==> Sendable(cbd, a) && a.reply == Discard
    ensures r.Delivered? ==>
      && t !in n.items && n.disk.known == s.disk.known - {cbd.id}
      && a.q in n.asked && n.asked[a.q].time == cbd.time && n.asked[a.q].data == cbd.data && !n.asked[a.q].historic
    ensures r.Requeued? ==>
      && t in n.items && n.items[t].place.Queue? && s.disk.known.Keys <= n.disk.known.Keys
      && var c := n.items[t].cbd;
      && c.time == cbd.time && SavedAtMost(s.disk, n.disk, cbd, c.id)
      && if old(q.HasMemory(k, cbd)) then c.data == cbd.data else c.data == [] && c.id != 0
    ensures r.Dropped? ==> t !in n.items && !old(q.HasMemory(k, cbd)) && cbd.id == 0 && n.disk == s.disk
    ensures !r.Delivered? ==> Left(r, n, t, cbd, s.disk.last, saved, old(q.HasMemory(k, cbd)))
    ensures !r.Delivered? && cbd.id == 0 ==>
      if saveImmediately && first.enabled then
        if old(d.Accepts(cbd.data, first.name, first.aged, first.io)) then saved
        else
          && (saved ==> Tryable(cbd, second))
          && (Tryable(cbd, second) && second.name !in old(d.disk) && second.name != first.name ==> saved)
      else saved <==> second.enabled && old(d.Accepts(cbd.data, second.name, second.aged, second.io))
    ensures saveImmediately && first.enabled && cbd.id == 0 ==>
      && steps != [] && steps[0].Put?
      && (steps[0].saved.SavedAs? <==> old(d.Accepts(cbd.data, first.name, first.aged, first.io)))
  {
    hide A.Inv, A.Run, Queued, HistoricQueues.HasMemory, HistoricQueues.Valid, Save, Drop, OnlyThis, SavedAtMost;
    hide DiskCacheShard.Valid, DiskCacheShard.Contents, DiskCacheShard.State, DiskCacheShard.Ground;
    hide DiskCacheShard.Accepts, Sendable;
    var c, ok;
    ghost var m, more, j;
    DiskNumbered(s);
    c, m, steps := SaveFirst(d, cbd, first, saveImmediately, s, t);
    ok, j, more := SendOnce(d, c, a, m, t);
    A.RunConcat(s, steps, m, more, j);
    steps := steps + more;
    SendableAlike(cbd, c, a);
    saved := c.id != 0;
    if ok {
      DeliveredOnly(s.disk, m.disk, cbd, c.id);
      QueuedLeft(q.toSend[k], tokens, s, j, t);
      r, n, all := Delivered, j, tokens;
      return;
    }
    QueuedMoved(q.toSend[k], tokens, s, j, t, A.Item(c, A.Saving));
    SameMemory(q, k, cbd, c);
    AcceptsHow(d, c, second);
    var kept, b;
    kept, b, n, more, all := SaveAndQueue(d, q, k, c, second, j, t, tokens);
    A.RunConcat(s, steps, j, more, n);
    steps := steps + more;
    saved := b.id != 0;
    RequeuedOnly(s.disk, m.disk, n.disk, cbd, c.id, b.id);
    SavedUnder(s.disk, n.disk, cbd, b.id);
    r := if kept.Lost? then Dropped else Requeued;
    if kept.Lost? { NotSaved(s.disk, n.disk, cbd, b.id); }
  }

  /** Only a small bucket is saved, and without a file being written only in a new one. */
  lemma AcceptsHow(d: DiskCacheShard, cbd: BucketData, w: Writing)
    requires d.Valid()
    ensures d.Accepts(cbd.data, w.name, w.aged, w.io) ==> |cbd.data| <= MAX_CHUNK_SIZE
    ensures d.writingFile.None? ==>
      (w.enabled && d.Accepts(cbd.data, w.name, w.aged, w.io) <==> Tryable(cbd, w) && w.name !in d.disk)
  {}

  lemma SavedUnder(before: Store, after: Store, cbd: BucketData, id: int)
    requires SavedAtMost(before, after, cbd, id)
    ensures id == if cbd.id != 0 then cbd.id else if id != 0 then before.last + 1 else 0
  {}

  lemma DiskNumbered(s: A.Agent)
    requires A.Inv(s)
    ensures Numbered(s.disk)
  {}

  lemma SendableAlike(b: BucketData, c: BucketData, a: Attempt)
    requires b.time == c.time
    ensures Sendable(b, a) == Sendable(c, a)
  {}

  lemma NotSaved(before: Store, after: Store, cbd: BucketData, id: int)
    requires SavedAtMost(before, after, cbd, id) && id == 0 && before.last >= 0
    ensures cbd.id == 0 && after == before
  {}

  /** Saves the bucket before it is sent, if so configured. */
  method SaveFirst(d: DiskCacheShard, cbd: BucketData, w: Writing, saveImmediately: bool,
                   ghost s: A.Agent, ghost t: nat)
    returns (c: BucketData, ghost n: A.Agent, ghost steps: seq<A.Step>)
    requires Backs(d, s) && t in s.items && s.items[t] == A.Item(cbd, A.Recent(A.Ready))
    modifies d
    ensures Backs(d, n) && A.Run(s, steps, n) && n.asked == s.asked
    ensures c == cbd.(id := c.id) && n.items == s.items[t := A.Item(c, A.Recent(A.Ready))]
    ensures SavedAtMost(s.disk, n.disk, cbd, c.id)
    ensures cbd.id != 0 || !(w.enabled && saveImmediately) ==> c == cbd && steps == [] && unchanged(d)
    ensures cbd.id == 0 && w.enabled && saveImmediately ==>
      && (c.id != 0 <==> old(d.Accepts(cbd.data, w.name, w.aged, w.io)))
      && |steps| == 1 && steps[0].Put? && (c.id != 0 <==> steps[0].saved.SavedAs?)
    ensures cbd.id == 0 && w.enabled && saveImmediately && c.id == 0 && |cbd.data| <= MAX_CHUNK_SIZE ==>
      d.writingFile.None? && d.disk.Keys <= old(d.disk).Keys + {w.name}
  {
    hide A.Inv, A.Run, Save;
    hide DiskCacheShard.Valid, DiskCacheShard.Contents, DiskCacheShard.State, DiskCacheShard.Ground;
    hide DiskCacheShard.Accepts;
    c, n, steps := DiskCachePutWithLog(d, cbd, w.enabled && saveImmediately, w.name, w.aged, w.io, s, t);
  }

  // ---------- the eraser ----------

  /** The eraser with one bucket: thrown out exactly when it has left the window or the files of the shard
      exceed the disk limit, queued again otherwise. */
  method EraseHistoric(d: DiskCacheShard, q: HistoricQueues, k: nat, cbd: BucketData, now: int, historicWindow: int,
                       diskLimit: int, written: nat, ghost s: A.Agent, ghost t: nat, ghost tokens: seq<nat>)
    returns (ghost n: A.Agent, ghost steps: seq<A.Step>, ghost mark: A.Mark, ghost all: seq<nat>)
    requires Conveyed(d, q, k, s, tokens) && t in s.items && s.items[t] == A.Item(cbd, A.Erasing) && written <= 4
    modifies d, q
    ensures Conveyed(d, q, k, n, all) && A.Run(s, steps, n) && mark.written == written
    ensures if A.OutOfWindow(cbd.time, now, historicWindow) || old(d.totalFileSize) > diskLimit
            then n == A.EraseItem(s, t, mark)
            else n == A.Enqueue(s, t, old(q.HasMemory(k, cbd)))
  {
    hide A.Inv, A.Run, Queued, HistoricQueues.HasMemory, HistoricQueues.Valid, A.Enqueue;
    hide DiskCacheShard.Valid, DiskCacheShard.Contents, DiskCacheShard.State, DiskCacheShard.Ground, A.MarkedFolder;
    mark := A.Mark(written, {});
    if !(now < historicWindow || cbd.time >= now - historicWindow) {
      ghost var why := OutOfWindow(now, historicWindow);
      n, mark := DiskCacheEraseWithLog(d, cbd.id, written, s, t, why);
      steps, all := [EraseStep(why, t, mark)], tokens;
      QueuedLeft(q.toSend[k], tokens, s, n, t);
      return;
    }
    var diskUsed, _ := d.TotalFileSize();
    if diskUsed > diskLimit {
      n, mark := DiskCacheEraseWithLog(d, cbd.id, written, s, t, OverLimit);
      steps, all := [EraseStep(OverLimit, t, mark)], tokens;
      QueuedLeft(q.toSend[k], tokens, s, n, t);
      return;
    }
    var r;
    r, n, all := AppendHistoric(q, k, cbd, s, t, tokens);
    steps := [A.Append(t, r.Kept?)];
  }
}
