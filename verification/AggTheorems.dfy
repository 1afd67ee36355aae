/** What the aggregator promises, for every run of it. */
module AggTheorems {
  import opened AggBucket
  import opened Routing
  import opened RecentWindow
  import opened Aggregator
  import opened AggSteps
  import opened AggMachine
  import opened AggRuns

  ghost predicate Run(s: Agg, steps: seq<Step>, t: Agg)
    decreases |steps|
  {
    if steps == [] then t == s
    else Window(s) && HistoricOk(s) && Enabled(s, steps[0]) && Run(Next(s, steps[0]), steps[1..], t)
  }

  function Init(replica: int, now: nat, shortWindow: int): Agg
    requires now >= shortWindow
  {
    Tick(Empty(replica), now, shortWindow)
  }

  function Empty(replica: int): Agg {
    Agg(replica, [], map[], [], map[], false, {}, map[], map[])
  }

  lemma InitInv(replica: int, now: nat, shortWindow: int)
    requires now >= shortWindow >= MIN_SHORT_WINDOW && 0 <= replica < 3
    ensures Inv(Init(replica, now, shortWindow))
  {
    hide Core, Fill, Tick, OpenRecent, Inv;
    var s := Empty(replica);
    EmptyCore(s);
    FirstTick(s, now, shortWindow);
    hide Empty;
    OpenRecentCore(s, now - shortWindow);
    FilledInv(OpenRecent(s, now - shortWindow), shortWindow);
  }

  lemma FilledInv(s: Agg, shortWindow: int)
    requires Core(s) && s.recent != [] && s.recent[0] < |s.buckets| && 0 <= s.replica < 3
    requires shortWindow >= MIN_SHORT_WINDOW
    ensures Inv(Fill(s, shortWindow))
  {
    hide Core, Fill;
    FillCore(s, shortWindow);
  }

  lemma FirstTick(s: Agg, now: nat, shortWindow: int)
    requires now >= shortWindow && s.recent == []
    ensures var o := OpenRecent(s, now - shortWindow);
            && o.recent != [] && o.recent[0] < |o.buckets| && o.replica == s.replica
            && Tick(s, now, shortWindow) == Fill(o, shortWindow)
  {
    hide Fill;
  }

  lemma EmptyCore(s: Agg)
    requires s == Empty(s.replica)
    ensures Core(s)
  {
    hide BucketInv, Expects, Justified;
  }

  lemma {:induction false} RunInv(s: Agg, steps: seq<Step>, t: Agg)
    requires Inv(s) && Run(s, steps, t)
    ensures Inv(t) && Later(s, t)
    decreases |steps|
  {
    hide Inv, Window, HistoricOk, Enabled, Next;
    if steps == [] {
    } else {
      var n := Next(s, steps[0]);
      StepInv(s, steps[0]);
      StepLater(s, steps[0]);
      hide Later;
      RunInv(n, steps[1..], t);
      LaterTrans(s, n, t);
    }
  }

  lemma {:induction false} RunConcat(s: Agg, a: seq<Step>, m: Agg, b: seq<Step>, t: Agg)
    requires Run(s, a, m) && Run(m, b, t)
    ensures Run(s, a + b, t)
    decreases |a|
  {
    hide Window, HistoricOk, Enabled, Next;
    if a == [] {
      assert a + b == b;
    } else {
      RunConcat(Next(s, a[0]), a[1..], m, b, t);
      assert (a + b)[1..] == a[1..] + b;
    }
  }

  lemma RunNowhere(s: Agg)
    ensures Run(s, [], s)
  {}

  lemma RunOne(s: Agg, step: Step, t: Agg)
    requires Window(s) && HistoricOk(s) && Enabled(s, step) && t == Next(s, step)
    ensures Run(s, [step], t)
  {
    hide Window, HistoricOk, Enabled, Next;
    RunNowhere(t);
  }

  /** A run that goes one step further. */
  lemma RunFurther(init: Agg, steps: seq<Step>, s: Agg, step: Step) returns (t: Agg)
    requires Run(init, steps, s) && Inv(s) && Window(s) && Enabled(s, step)
    ensures HistoricOk(s) && t == Next(s, step) && Inv(t) && Window(t) && Run(init, steps + [step], t)
  {
    StepInv(s, step);
    t := Next(s, step);
    InvLists(t);
    hide Inv, Window, HistoricOk, Enabled, Next;
    RunOne(s, step, t);
    RunConcat(init, steps, s, [step], t);
  }

  // ---------- the barrier ----------

  /** Once the barrier of a bucket has passed, all its clients are done with it, and in every
      continuation it has exactly these clients: only their long polls still disappear. */
  lemma BarrierHolds(s: Agg, steps: seq<Step>, t: Agg, i: nat)
    requires Inv(s) && Run(s, steps, t) && i < |s.buckets| && s.buckets[i].writer.WriterPassed?
    ensures i < |t.buckets| && Quiet(t.buckets[i])
    ensures t.buckets[i].clients == s.buckets[i].clients && t.buckets[i].merged == s.buckets[i].merged
    ensures t.buckets[i].hosts == s.buckets[i].hosts
    ensures t.buckets[i].contributors <= s.buckets[i].contributors && t.buckets[i].simulated <= s.buckets[i].simulated
  {
    RunInv(s, steps, t);
    hide Run;
    BucketFacts(s, i);
    assert LaterBucket(s.buckets[i], t.buckets[i]);
  }

  /** A client that is admitted takes the read lock of a bucket for which no writer waits. */
  lemma ReadLockNeverWaits(s: Agg, time: nat, historic: bool, historicWindow: nat)
    requires Inv(s)
    ensures Window(s) && KeepAliveBucket(s) < |s.buckets| && s.buckets[KeepAliveBucket(s)].writer.NoWriter?
    ensures var d := Decide(s, time, historic, historicWindow);
            d.Into? ==> d.bid < |s.buckets| && s.buckets[d.bid].writer.NoWriter?
  {
    InvLists(s);
    DecideFacts(s, time, historic, historicWindow);
    KeepAliveFacts(s);
    hide Core, RecentOk, Decide;
  }

  /** A second of another replica has no clients when it is ready, and a historic bucket never holds
      simulated errors: both panics are dead code. */
  lemma PanicsAreDead(s: Agg, i: nat)
    requires Inv(s) && i < |s.buckets|
    ensures !s.buckets[i].fromHistoric && s.buckets[i].time % 3 != s.replica ==>
              s.buckets[i].contributors == {} && s.buckets[i].simulated == {}
    ensures s.buckets[i].fromHistoric ==> s.buckets[i].simulated == {}
  {
    BucketFacts(s, i);
    hide Core;
    var b := s.buckets[i];
    forall q ensures q in b.simulated ==> !b.fromHistoric {}
  }

  // ---------- acknowledgements ----------

  lemma {:induction false} ReleaseOnly(s: Agg, now: int, shortWindow: int)
    requires forall k | 0 <= k < |s.recent| :: s.recent[k] < |s.buckets|
    ensures var r := Release(s, now, shortWindow);
            r == s.(recent := r.recent, buckets := r.buckets)
    decreases |s.recent|
  {
    if s.recent != [] && now > s.buckets[s.recent[0]].time + shortWindow {
      ReleaseOnly(ReleaseFirst(s), now, shortWindow);
    }
  }

  lemma {:induction false} FillOnly(s: Agg, shortWindow: int)
    requires s.recent != [] && s.recent[0] < |s.buckets|
    ensures var f := Fill(s, shortWindow);
            f == s.(recent := f.recent, buckets := f.buckets)
    decreases shortWindow + FUTURE_WINDOW - |s.recent|
  {
    if |s.recent| < shortWindow + FUTURE_WINDOW {
      FillOnly(OpenRecent(s, s.buckets[s.recent[0]].time + |s.recent|), shortWindow);
    }
  }

  lemma TickOnly(s: Agg, now: nat, shortWindow: int)
    requires now >= shortWindow && forall k | 0 <= k < |s.recent| :: s.recent[k] < |s.buckets|
    ensures var t := Tick(s, now, shortWindow);
            t == s.(recent := t.recent, buckets := t.buckets)
  {
    var r := Release(s, now, shortWindow);
    ReleaseOnly(s, now, shortWindow);
    hide Release, Fill;
    FillOnly(if r.recent == [] then OpenRecent(r, now - shortWindow) else r, shortWindow);
  }

  /** Only a successful insert of a bucket makes it count as inserted. */
  lemma OnlyInsertionInserts(s: Agg, step: Step, i: nat)
    requires Inv(s) && Window(s) && HistoricOk(s) && Enabled(s, step) && step != Insertion(i, true)
    ensures i in Next(s, step).inserts <==> i in s.inserts
  {
    hide Inv, Window, HistoricOk, Enabled, Next;
    if OfClient(step) {
      ClientInserts(s, step);
    } else if step.Ticking? {
      TickedInserts(s, step);
    } else {
      ServerInserts(s, step, i);
    }
  }

  lemma ServerInserts(s: Agg, step: Step, i: nat)
    requires Window(s) && HistoricOk(s) && Enabled(s, step) && !OfClient(step) && !step.Ticking?
    requires step != Insertion(i, true)
    ensures i in Next(s, step).inserts <==> i in s.inserts
  {
    hide RecentOk, HistoricOk, Listed, ToAll, Verdict, Subtract, IsStale;
  }

  lemma ClientInserts(s: Agg, step: Step)
    requires Window(s) && HistoricOk(s) && Enabled(s, step) && OfClient(step)
    ensures Next(s, step).inserts == s.inserts
  {
    hide RecentOk, HistoricOk, Listed, Arrive, Register, Advance, Cancel, Unless, Admit, Bump;
    if step.Arrival? {
      ArriveInserts(s, step.q, step.time, step.rows, step.historic, step.historicWindow, step.host,
                    step.simulated, step.started);
    }
  }

  lemma TickedInserts(s: Agg, step: Step)
    requires Inv(s) && Window(s) && HistoricOk(s) && Enabled(s, step) && step.Ticking?
    ensures Next(s, step).inserts == s.inserts
  {
    InvLists(s);
    hide Core, RecentOk, HistoricOk, Listed;
    TickOnly(s, step.now, step.shortWindow);
  }

  lemma ArriveInserts(s: Agg, q: Req, time: nat, rows: Rows, historic: bool, historicWindow: nat, host: HostKey,
                      simulated: bool, started: bool)
    requires Window(s) && HistoricOk(s)
    ensures Arrive(s, q, time, rows, historic, historicWindow, host, simulated, started).inserts == s.inserts
  {
    assert Decide(s, time, historic, historicWindow).Into? ==>
        var i := Decide(s, time, historic, historicWindow).bid; Listed(s, i, s.buckets[i].fromHistoric);
    hide RecentOk, HistoricOk, Decide;
  }

  lemma {:induction false} InsertHappened(s: Agg, steps: seq<Step>, t: Agg, i: nat)
    requires Inv(s) && Run(s, steps, t) && i in t.inserts && i !in s.inserts
    ensures Insertion(i, true) in steps
    decreases |steps|
  {
    hide Inv, Window, HistoricOk, Enabled, Next;
    if steps[0] != Insertion(i, true) {
      StepInv(s, steps[0]);
      OnlyInsertionInserts(s, steps[0], i);
      InsertHappened(Next(s, steps[0]), steps[1..], t, i);
    }
  }

  /** A client is told that it may erase its data because of an insert only if that insert happened
      in this run, succeeded, and had exactly the rows in it that the client had come with; unless the
      client is a keep-alive, which has nothing to erase. */
  lemma AckSafety(replica: int, now: nat, shortWindow: int, steps: seq<Step>, t: Agg, q: Req, i: nat)
    requires now >= shortWindow >= MIN_SHORT_WINDOW && 0 <= replica < 3
    requires Run(Init(replica, now, shortWindow), steps, t) && q in t.answers && t.answers[q] == Erase(InInsert(i))
    ensures Insertion(i, true) in steps
    ensures i < |t.buckets| && q in t.buckets[i].clients && i in t.inserts
    ensures var kind := t.buckets[i].clients[q].kind;
            kind.KeepAlive? || (kind.Data? && q in t.inserts[i] && t.inserts[i][q] == kind.rows)
  {
    var s := Init(replica, now, shortWindow);
    InitInv(replica, now, shortWindow);
    TickOnly(Empty(replica), now, shortWindow);
    assert s.inserts == map[];
    hide Init, Run;
    RunInv(s, steps, t);
    hide Later;
    AckedRows(t, q, i);
    hide Inv;
    InsertHappened(s, steps, t, i);
  }

  /** What the answer rests on in the state. */
  lemma AckedRows(t: Agg, q: Req, i: nat)
    requires Inv(t) && q in t.answers && t.answers[q] == Erase(InInsert(i))
    ensures i < |t.buckets| && q in t.buckets[i].clients && i in t.inserts
    ensures var kind := t.buckets[i].clients[q].kind;
            kind.KeepAlive? || (kind.Data? && q in t.inserts[i] && t.inserts[i][q] == kind.rows)
  {
    assert Justified(t, q, t.answers[q]);
    BucketFacts(t, i);
    hide Core, HostsCounted, Quiet;
  }

  lemma ClientStepErasesNobody(s: Agg, step: Step, q: Req)
    requires Window(s) && HistoricOk(s) && Enabled(s, step) && OfClient(step) && q in s.seen && q !in s.answers
    ensures q in Next(s, step).answers ==> !Next(s, step).answers[q].Erase?
  {
    hide RecentOk, HistoricOk, Listed, Arrive, Register, Advance, Cancel;
    match step
    case Arrival(r, time, rows, historic, historicWindow, host, simulated, started) =>
      ArriveAnswers(s, r, time, rows, historic, historicWindow, host, simulated, started);
    case _ =>
  }

  /** The only answers that let a client erase are given at once, or by the inserter to a bucket's
      long polls. */
  lemma WhoErases(s: Agg, step: Step, q: Req)
    requires Inv(s) && Window(s) && HistoricOk(s) && Enabled(s, step) && q in s.seen && q !in s.answers
    ensures var t := Next(s, step);
            q in t.answers && t.answers[q].Erase? ==>
              && step.Answering? && q in s.buckets[step.i].contributors
              && t.answers[q] == Verdict(s.buckets[step.i], step.i)
  {
    InvLists(s);
    hide Core, RecentOk, HistoricOk, Listed, Release, Fill, Verdict, Subtract;
    if OfClient(step) {
      hide Enabled, Next;
      ClientStepErasesNobody(s, step, q);
    } else if step.Ticking? {
      TickOnly(s, step.now, step.shortWindow);
    }
  }

  lemma ArriveAnswers(s: Agg, q: Req, time: nat, rows: Rows, historic: bool, historicWindow: nat, host: HostKey,
                      simulated: bool, started: bool)
    requires Window(s) && HistoricOk(s)
    ensures var t := Arrive(s, q, time, rows, historic, historicWindow, host, simulated, started);
            t.answers.Keys <= s.answers.Keys + {q}
  {
    assert Decide(s, time, historic, historicWindow).Into? ==>
        var i := Decide(s, time, historic, historicWindow).bid; Listed(s, i, s.buckets[i].fromHistoric);
    hide RecentOk, HistoricOk, Decide;
  }

  /** The bucket of `q` was not inserted, and never will be. */
  predicate Lost(s: Agg, i: nat, q: Req) {
    && i < |s.buckets| && PastBarrier(s.buckets[i]) && i !in s.inserts && q in s.buckets[i].clients
    && (q in s.answers ==> !s.answers[q].Erase?)
  }

  lemma LostStep(s: Agg, step: Step, i: nat, q: Req)
    requires Inv(s) && Window(s) && HistoricOk(s) && Enabled(s, step) && Lost(s, i, q)
    ensures Lost(Next(s, step), i, q)
  {
    BucketFacts(s, i);
    OwnerOf(s, i, q);
    StepLater(s, step);
    assert LaterBucket(s.buckets[i], Next(s, step).buckets[i]);
    assert step != Insertion(i, true);
    if step.Answering? { Contributes(s, step.i, q); }
    hide Core, BucketInv, RecentOk, HistoricOk, Next, Enabled;
    OnlyInsertionInserts(s, step, i);
    if q !in s.answers { WhoErases(s, step, q); }
  }

  lemma OwnerOf(s: Agg, i: nat, q: Req)
    requires Core(s) && i < |s.buckets| && q in s.buckets[i].clients
    ensures q in s.seen && forall j | 0 <= j < |s.buckets| && q in s.buckets[j].clients :: j == i
  {}

  lemma Contributes(s: Agg, j: nat, q: Req)
    requires Core(s) && j < |s.buckets|
    ensures q in s.buckets[j].contributors ==> q in s.buckets[j].clients
  {
    BucketFacts(s, j);
  }

  lemma {:induction false} LostRun(s: Agg, steps: seq<Step>, t: Agg, i: nat, q: Req)
    requires Inv(s) && Run(s, steps, t) && Lost(s, i, q)
    ensures Lost(t, i, q)
    decreases |steps|
  {
    hide Inv, Window, HistoricOk, Enabled, Next, Lost;
    if steps == [] {
    } else {
      StepInv(s, steps[0]);
      LostStep(s, steps[0], i, q);
      LostRun(Next(s, steps[0]), steps[1..], t, i, q);
    }
  }

  lemma UntoldKeep(s: Agg, i: nat, q: Req)
    requires Core(s) && i < |s.buckets| && q in s.buckets[i].clients && !Told(s.buckets[i])
    ensures q in s.answers ==> !s.answers[q].Erase?
  {
    hide AllBuckets, RecentOk, HistoricOk, Conserved, Owned, AnswersOk, InsertsOk, Expects;
  }

  /** A failed insert and a full conveyor lose the bucket. */
  lemma LostAfter(s: Agg, step: Step, q: Req)
    requires Inv(s) && Window(s) && HistoricOk(s) && Enabled(s, step)
    requires (step.Overflow? || (step.Insertion? && !step.ok)) && q in s.buckets[step.i].clients
    ensures Lost(Next(s, step), step.i, q)
  {
    hide Core, BucketInv, RecentOk, HistoricOk, Verdict, Subtract;
    BucketFacts(s, step.i);
    Contributes(s, step.i, q);
    UntoldKeep(s, step.i, q);
  }

  /** An insert that failed, or a conveyor that was full, never lets any client of the bucket erase
      its data, whatever happens next. */
  lemma FailureNeverErases(s: Agg, step: Step, steps: seq<Step>, t: Agg, q: Req)
    requires Inv(s) && Window(s) && HistoricOk(s) && Enabled(s, step)
    requires (step.Overflow? || (step.Insertion? && !step.ok)) && q in s.buckets[step.i].clients
    requires Run(Next(s, step), steps, t)
    ensures q in t.answers ==> !t.answers[q].Erase?
  {
    var n := Next(s, step);
    StepInv(s, step);
    hide RecentOk, HistoricOk, Run;
    LostAfter(s, step, q);
    hide Core, BucketInv, Next, Enabled, Lost;
    LostRun(n, steps, t, step.i, q);
  }

  // ---------- historic hosts ----------

  /** Historic senders of a host that buckets still to be settled stand for, and those that buckets
      dropped by the full conveyor stand for. */
  function Live(buckets: seq<Bucket>, h: HostKey): nat {
    if buckets == [] then 0
    else
      var b := buckets[|buckets| - 1];
      Live(buckets[..|buckets| - 1], h) + if b.stage.Settled? || b.stage.Dropped? then 0 else |Claimed(b, h)|
  }

  function Leaked(buckets: seq<Bucket>, h: HostKey): nat {
    if buckets == [] then 0
    else
      var b := buckets[|buckets| - 1];
      Leaked(buckets[..|buckets| - 1], h) + if b.stage.Dropped? then |Claimed(b, h)| else 0
  }

  lemma {:induction false} ClaimsSplit(buckets: seq<Bucket>, h: HostKey)
    ensures Claims(buckets, h) == Live(buckets, h) + Leaked(buckets, h)
  {
    if buckets == [] {
    } else {
      ClaimsSplit(buckets[..|buckets| - 1], h);
    }
  }

  /** In every reachable state the count of a host is what its unanswered buckets stand for plus what
      the full conveyor has leaked, so it is never negative. */
  lemma HostsConserved(replica: int, now: nat, shortWindow: int, steps: seq<Step>, t: Agg, h: HostKey)
    requires now >= shortWindow >= MIN_SHORT_WINDOW && 0 <= replica < 3
    requires Run(Init(replica, now, shortWindow), steps, t)
    ensures Get(t.hosts, h) == Live(t.buckets, h) + Leaked(t.buckets, h)
  {
    InitInv(replica, now, shortWindow);
    hide Init, Run;
    RunInv(Init(replica, now, shortWindow), steps, t);
    assert Get(t.hosts, h) == Claims(t.buckets, h);
    ClaimsSplit(t.buckets, h);
  }

  lemma {:induction false} LeakedGrows(s: seq<Bucket>, t: seq<Bucket>, h: HostKey)
    requires |s| <= |t|
    requires forall i | 0 <= i < |s| :: s[i].stage.Dropped? ==> t[i].stage.Dropped? && t[i].clients == s[i].clients
    ensures Leaked(s, h) <= Leaked(t, h)
    decreases |t|
  {
    if t == [] {
    } else if |s| < |t| {
      LeakedGrows(s, t[..|t| - 1], h);
    } else {
      var l := |s| - 1;
      LeakedGrows(s[..l], t[..l], h);
      assert s[l].stage.Dropped? ==> Claimed(t[l], h) == Claimed(s[l], h);
    }
  }

  /** What has leaked is never given back. */
  lemma LeaksStay(s: Agg, steps: seq<Step>, t: Agg, h: HostKey)
    requires Inv(s) && Run(s, steps, t)
    ensures Leaked(s.buckets, h) <= Leaked(t.buckets, h)
  {
    RunInv(s, steps, t);
    hide Run;
    forall i | 0 <= i < |s.buckets| && s.buckets[i].stage.Dropped?
      ensures t.buckets[i].stage.Dropped? && t.buckets[i].clients == s.buckets[i].clients
    {
      BucketFacts(s, i);
      assert LaterBucket(s.buckets[i], t.buckets[i]);
    }
    hide Inv, Later;
    LeakedGrows(s.buckets, t.buckets, h);
  }

  lemma {:induction false} LeakedUpdate(buckets: seq<Bucket>, i: nat, b: Bucket, h: HostKey)
    requires i < |buckets| && b.stage.Dropped? && !buckets[i].stage.Dropped? && b.clients == buckets[i].clients
    ensures Leaked(buckets[i := b], h) == Leaked(buckets, h) + |Claimed(buckets[i], h)|
  {
    var last := |buckets| - 1;
    assert Claimed(b, h) == Claimed(buckets[i], h);
    if i == last {
      assert buckets[i := b][..last] == buckets[..last];
    } else {
      LeakedUpdate(buckets[..last], i, b, h);
      assert buckets[i := b][..last] == buckets[..last][i := b];
    }
  }

  /** A full conveyor leaks exactly the historic senders of the bucket it drops: the branch that skips
      the subtraction is right if and only if no historic sender landed in this recent bucket. */
  lemma OverflowLeaks(s: Agg, i: nat)
    requires Inv(s) && Window(s) && HistoricOk(s) && Enabled(s, Overflow(i))
    ensures var t := Next(s, Overflow(i));
            && (forall h: HostKey :: Leaked(t.buckets, h) == Leaked(s.buckets, h) + Get(s.buckets[i].hosts, h))
            && ((forall h: HostKey :: Leaked(t.buckets, h) == Leaked(s.buckets, h))
                <==> forall q | q in s.buckets[i].clients :: !s.buckets[i].clients[q].historic)
  {
    var b := s.buckets[i];
    var t := Next(s, Overflow(i));
    BucketFacts(s, i);
    hide Core, RecentOk, HistoricOk, HostsCounted;
    forall h: HostKey
      ensures Leaked(t.buckets, h) == Leaked(s.buckets, h) + |Claimed(b, h)| && Get(b.hosts, h) == |Claimed(b, h)|
    {
      LeakedUpdate(s.buckets, i, t.buckets[i], h);
      QuietCounts(b, s.replica, h);
    }
    forall q | q in b.clients && b.clients[q].historic ensures |Claimed(b, b.clients[q].host)| > 0 {
      assert q in Claimed(b, b.clients[q].host);
    }
    if forall q | q in b.clients :: !b.clients[q].historic {
      forall h: HostKey ensures Claimed(b, h) == {} {}
    }
  }
}
