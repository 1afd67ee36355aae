/** What can still happen to a client that waits: the aggregator never gets stuck with it, except with
    the simulated errors of a bucket that the full conveyor dropped. */
module AggProgress {
  import opened AggBucket
  import opened Routing
  import opened RecentWindow
  import opened Aggregator
  import opened AggSteps
  import opened AggMachine
  import opened AggRuns
  import opened AggTheorems
  import opened AggWindow
  import opened AggAnswers

  // ---------- no bucket is mislaid ----------

  predicate InList(s: Agg, i: nat)
    requires i < |s.buckets|
  {
    i in s.recent || (s.buckets[i].time in s.historic && s.historic[s.buckets[i].time] == i)
  }

  /** Every bucket that is being collected is where the ticker or an inserter will find it. */
  predicate Tracked(s: Agg) {
    forall i | 0 <= i < |s.buckets| && s.buckets[i].stage.Collecting? :: InList(s, i)
  }

  lemma PutTracked(s: Agg, u: Agg, j: nat, b: Bucket, answers: map<Req, Answer>)
    requires Tracked(s) && j < |s.buckets|
    requires u == s.(hosts := u.hosts, inserts := u.inserts)
    requires b.time == s.buckets[j].time && (b.stage.Collecting? ==> s.buckets[j].stage.Collecting?)
    ensures Tracked(Put(u, j, b, answers))
  {
    var t := Put(u, j, b, answers);
    forall i | 0 <= i < |t.buckets| && t.buckets[i].stage.Collecting? ensures InList(t, i) {
      assert InList(s, i);
    }
  }

  lemma AdmitTracked(s: Agg, q: Req, j: nat, kind: Kind, historic: bool, host: HostKey)
    requires Tracked(s) && j < |s.buckets|
    ensures Tracked(AdmitTo(s, q, j, kind, historic, host))
  {
    var t := AdmitTo(s, q, j, kind, historic, host);
    forall i | 0 <= i < |t.buckets| && t.buckets[i].stage.Collecting? ensures InList(t, i) {
      assert InList(s, i);
    }
  }

  lemma OpenTracked(s: Agg, time: nat)
    requires Tracked(s) && time !in s.historic
    ensures Tracked(OpenHistoric(s, time))
  {
    var t := OpenHistoric(s, time);
    forall i | 0 <= i < |t.buckets| && t.buckets[i].stage.Collecting? ensures InList(t, i) {
      if i < |s.buckets| { assert InList(s, i); }
    }
  }

  lemma PopTracked(s: Agg, time: nat, why: Staleness)
    requires Tracked(s) && time in s.historic && s.historic[time] < |s.buckets|
    ensures Tracked(Pop(s, time, why))
  {
    var t := Pop(s, time, why);
    forall i | 0 <= i < |t.buckets| && t.buckets[i].stage.Collecting? ensures InList(t, i) {
      assert InList(s, i);
    }
  }

  lemma {:induction false} ReleaseTracked(s: Agg, now: int, shortWindow: int)
    requires Tracked(s) && Indexed(s)
    ensures Tracked(Release(s, now, shortWindow))
    decreases |s.recent|
  {
    hide Tracked;
    if s.recent != [] && now > s.buckets[s.recent[0]].time + shortWindow {
      ReleaseFirstTracked(s);
      ReleaseTracked(ReleaseFirst(s), now, shortWindow);
    }
  }

  lemma ReleaseFirstTracked(s: Agg)
    requires Tracked(s) && Indexed(s) && s.recent != []
    ensures Tracked(ReleaseFirst(s))
  {
    var t := ReleaseFirst(s);
    forall i | 0 <= i < |t.buckets| && t.buckets[i].stage.Collecting? ensures InList(t, i) {
      assert InList(s, i) && s.recent == [s.recent[0]] + s.recent[1..];
    }
  }

  lemma OpenRecentTracked(s: Agg, time: nat)
    requires Tracked(s)
    ensures Tracked(OpenRecent(s, time))
  {
    var t := OpenRecent(s, time);
    forall i | 0 <= i < |t.buckets| && t.buckets[i].stage.Collecting? ensures InList(t, i) {
      if i < |s.buckets| { assert InList(s, i); }
    }
  }

  lemma {:induction false} FillTracked(s: Agg, shortWindow: int)
    requires Tracked(s) && s.recent != [] && s.recent[0] < |s.buckets|
    ensures Tracked(Fill(s, shortWindow))
    decreases shortWindow + FUTURE_WINDOW - |s.recent|
  {
    hide Tracked, Fill, OpenRecent;
    FillUnfold(s, shortWindow);
    if |s.recent| < shortWindow + FUTURE_WINDOW {
      var time := s.buckets[s.recent[0]].time + |s.recent|;
      OpenRecentTracked(s, time);
      FillTracked(OpenRecent(s, time), shortWindow);
    }
  }

  lemma TickTracked(s: Agg, now: nat, shortWindow: int)
    requires Tracked(s) && Indexed(s) && now >= shortWindow
    ensures Tracked(Tick(s, now, shortWindow))
  {
    hide Tracked, Release, Fill;
    var r := Release(s, now, shortWindow);
    ReleaseTracked(s, now, shortWindow);
    if r.recent == [] {
      OpenRecentTracked(r, now - shortWindow);
      FillTracked(OpenRecent(r, now - shortWindow), shortWindow);
    } else {
      FillTracked(r, shortWindow);
    }
  }

  lemma ArrivalTracked(s: Agg, step: Step)
    requires Inv(s) && Window(s) && HistoricOk(s) && step.Arrival? && Tracked(s)
    ensures Tracked(Arrived(s, step))
  {
    hide Core, RecentOk, HistoricOk, Decide, Rounded, Tracked, AdmitTo, OpenHistoric;
    DecidePlace(s, step.time, step.historic, step.historicWindow);
    DecideReasons(s, step.q, step.time, step.historic, step.historicWindow);
    match Decide(s, step.time, step.historic, step.historicWindow)
    case Into(j) =>
      AdmitTracked(s, step.q, j, if step.simulated && !step.historic then Simulated else Data(step.rows),
                   step.historic, step.host);
    case NewHistoric =>
      OpenTracked(s, step.time);
      OpenLands(s, step.q, step.time, step.rows, step.historic, step.host);
      AdmitTracked(OpenHistoric(s, step.time), step.q, |s.buckets|, Data(step.rows), step.historic, step.host);
    case _ => SameTracked(s, Arrived(s, step));
  }

  lemma SameTracked(s: Agg, t: Agg)
    requires Tracked(s) && t.buckets == s.buckets && t.recent == s.recent && t.historic == s.historic
    ensures Tracked(t)
  {
    forall i | 0 <= i < |t.buckets| && t.buckets[i].stage.Collecting? ensures InList(t, i) {
      assert InList(s, i);
    }
  }

  lemma ClientTracked(s: Agg, step: Step)
    requires Inv(s) && Window(s) && HistoricOk(s) && Enabled(s, step) && OfClient(step) && Tracked(s)
    ensures Tracked(Next(s, step))
  {
    KeepAliveFacts(s);
    hide Core, RecentOk, HistoricOk, Listed, KeepAliveBucket, Unless, Arrive, Put, AdmitTo, BucketInv, Rounded, Tracked;
    match step
    case Arrival(_, _, _, _, _, _, _, _) =>
      ArrivalTracked(s, step);
      assert Next(s, step) == Arrived(s, step);
    case Ping(q) => AdmitTracked(s, q, KeepAliveBucket(s), KeepAlive, false, 0);
    case Merging(j, q) => PutTracked(s, s, j, Merge(s.buckets[j], q), map[]);
    case Registration(j, q, started) =>
      PutTracked(s, s, j, Register(s.buckets[j], q, started),
                 Unless(started, q, if s.buckets[j].clients[q].kind.KeepAlive? then Failed else KeepData));
    case Leaving(j, q) => PutTracked(s, s, j, Advance(s.buckets[j], q, Finished), map[]);
    case Cancelling(j, q) => PutTracked(s, s, j, Cancel(s.buckets[j], q), map[]);
    case Rejection(_, _) => SameTracked(s, Next(s, step));
  }

  lemma InserterTracked(s: Agg, step: Step)
    requires Window(s) && HistoricOk(s) && Enabled(s, step) && OfInserter(step) && Tracked(s)
    ensures Tracked(Next(s, step))
  {
    hide RecentOk, HistoricOk, Listed, Verdict, Subtract, ToAll, Put, Tracked;
    match step
    case Overflow(j) =>
      PutTracked(s, s, j, s.buckets[j].(stage := Dropped, contributors := {}),
                 ToAll(s.buckets[j].contributors, KeepData));
    case Insertion(j, ok) =>
      PutTracked(s, if ok then Entered(s, j) else s, j, s.buckets[j].(stage := Inserted(ok)), map[]);
    case Answering(j) =>
      PutTracked(s, s, j, s.buckets[j].(stage := Answered, contributors := {}),
                 ToAll(s.buckets[j].contributors, Verdict(s.buckets[j], j)));
    case Failing(j) => PutTracked(s, s, j, s.buckets[j].(simulated := {}), ToAll(s.buckets[j].simulated, Failed));
    case Settling(j) =>
      PutTracked(s, s.(hosts := Subtract(s.hosts, s.buckets[j].hosts)), j, s.buckets[j].(stage := Settled), map[]);
  }

  lemma OtherTracked(s: Agg, step: Step)
    requires Inv(s) && Window(s) && HistoricOk(s) && Enabled(s, step) && !OfClient(step) && !OfInserter(step)
    requires Tracked(s)
    ensures Tracked(Next(s, step))
  {
    InvLists(s);
    hide Inv, RecentOk, HistoricOk, Listed, IsStale, Tick, Put, Pop, Tracked;
    match step
    case Ticking(now, shortWindow) => TickTracked(s, now, shortWindow);
    case Popping(time, oldest, historicWindow) => PopTracked(s, time, StalenessOf(time, oldest, historicWindow));
    case Locking(j) => PutTracked(s, s, j, s.buckets[j].(writer := WriterWaiting), map[]);
    case Passing(j) =>
      PutTracked(s, s, j, s.buckets[j].(writer := WriterPassed, stage := Exclusive(s.buckets[j].stage.why)), map[]);
    case Closing => SameTracked(s, Next(s, step));
  }

  lemma StepTracked(s: Agg, step: Step)
    requires Inv(s) && Window(s) && HistoricOk(s) && Enabled(s, step) && Tracked(s)
    ensures Tracked(Next(s, step))
  {
    hide Inv, Window, HistoricOk, Enabled, Next, Tracked;
    if OfClient(step) { ClientTracked(s, step); }
    else if OfInserter(step) { InserterTracked(s, step); }
    else { OtherTracked(s, step); }
  }

  lemma {:induction false} RunTracked(s: Agg, steps: seq<Step>, t: Agg)
    requires Inv(s) && Tracked(s) && Run(s, steps, t)
    ensures Tracked(t)
    decreases |steps|
  {
    hide Inv, Window, HistoricOk, Enabled, Next, Tracked;
    if steps != [] {
      StepInv(s, steps[0]);
      StepTracked(s, steps[0]);
      RunTracked(Next(s, steps[0]), steps[1..], t);
    }
  }

  lemma InitTracked(replica: int, now: nat, shortWindow: int)
    requires now >= shortWindow >= MIN_SHORT_WINDOW
    ensures Tracked(Init(replica, now, shortWindow))
  {
    hide Tick;
    TickTracked(Empty(replica), now, shortWindow);
  }

  /** In every reachable state no bucket that is being collected is mislaid. */
  lemma NothingMislaid(replica: int, now: nat, shortWindow: int, steps: seq<Step>, t: Agg, i: nat)
    requires now >= shortWindow >= MIN_SHORT_WINDOW && 0 <= replica < 3
    requires Run(Init(replica, now, shortWindow), steps, t)
    requires i < |t.buckets| && t.buckets[i].stage.Collecting?
    ensures i in t.recent || (t.buckets[i].time in t.historic && t.historic[t.buckets[i].time] == i)
  {
    InitInv(replica, now, shortWindow);
    InitTracked(replica, now, shortWindow);
    hide Init, Run, Inv;
    RunTracked(Init(replica, now, shortWindow), steps, t);
  }

  // ---------- a waiting client can be answered ----------

  /** What the aggregator and the handlers do by themselves: nobody comes and nobody is cancelled. */
  predicate Own(step: Step) {
    !step.Arrival? && !step.Ping? && !step.Rejection? && !step.Cancelling?
  }

  predicate AllOwn(steps: seq<Step>) {
    forall k | 0 <= k < |steps| :: Own(steps[k])
  }

  /** On the way from `init`, with `q` of this kind still waiting in bucket `i`. */
  ghost predicate Going(init: Agg, steps: seq<Step>, s: Agg, i: nat, q: Req, kind: Kind) {
    && Run(init, steps, s) && AllOwn(steps) && Inv(s) && Window(s) && HistoricOk(s) && q !in s.answers
    && i < |s.buckets| && Expects(s.buckets[i], q) && q in s.buckets[i].clients && s.buckets[i].clients[q].kind == kind
  }

  lemma Onwards(init: Agg, steps: seq<Step>, s: Agg, step: Step, i: nat, q: Req, kind: Kind)
    returns (longer: seq<Step>, t: Agg)
    requires Going(init, steps, s, i, q, kind) && Enabled(s, step) && Own(step) && q !in Next(s, step).answers
    ensures t == Next(s, step) && Going(init, longer, t, i, q, kind)
  {
    hide Inv, Window, HistoricOk, Enabled, Next, Expects, Run;
    t := RunFurther(init, steps, s, step);
    longer := steps + [step];
    StillWaits(s, step, i, q);
    StepLater(s, step);
    assert LaterBucket(s.buckets[i], t.buckets[i]);
    AllIn(t);
  }

  lemma AllIn(s: Agg)
    requires Inv(s)
    ensures Window(s) && HistoricOk(s)
  {}

  /** A step that tells nobody anything. */
  lemma Silently(init: Agg, steps: seq<Step>, s: Agg, step: Step, i: nat, q: Req, kind: Kind)
    returns (longer: seq<Step>, t: Agg)
    requires Going(init, steps, s, i, q, kind) && Enabled(s, step) && Own(step)
    requires !step.Overflow? && !step.Answering? && !step.Failing? && (step.Registration? ==> step.started)
    ensures t == Next(s, step) && Going(init, longer, t, i, q, kind)
  {
    hide Inv, Window, HistoricOk, Enabled, Next, Expects, Run;
    if q in Next(s, step).answers { AnswersExactly(s, step, q, Next(s, step).answers[q]); }
    longer, t := Onwards(init, steps, s, step, i, q, kind);
  }

  // Out of the lists:

  lemma MinKey(keys: set<nat>) returns (m: nat)
    requires keys != {}
    ensures m in keys && forall k | k in keys :: m <= k
    decreases |keys|
  {
    m :| m in keys;
    if keys != {m} {
      var rest := keys - {m};
      assert keys == rest + {m};
      var other := MinKey(rest);
      assert forall k | k in keys :: k == m || k in rest;
      if other < m { m := other; }
    }
  }

  lemma {:induction false} PoppedOut(init: Agg, steps: seq<Step>, s: Agg, i: nat, q: Req, kind: Kind)
    returns (longer: seq<Step>, t: Agg)
    requires Going(init, steps, s, i, q, kind)
    requires s.buckets[i].time in s.historic && s.historic[s.buckets[i].time] == i
    ensures Going(init, longer, t, i, q, kind) && t.buckets[i].stage.Removed? && t.buckets[i].stage.why.Fresh?
    decreases |s.historic|
  {
    hide Inv, Expects, Run, RecentOk;
    var m := MinKey(s.historic.Keys);
    assert Listed(s, s.historic[m], true);
    var step := Popping(m, 0, 1);
    longer, t := Silently(init, steps, s, step, i, q, kind);
    assert t.historic.Keys == s.historic.Keys - {m};
    if m != s.buckets[i].time {
      assert s.buckets[s.historic[m]].time == m;
      longer, t := PoppedOut(init, longer, t, i, q, kind);
    }
  }

  lemma TickedOut(init: Agg, steps: seq<Step>, s: Agg, i: nat, q: Req, kind: Kind)
    returns (longer: seq<Step>, t: Agg)
    requires Going(init, steps, s, i, q, kind) && i in s.recent
    ensures Going(init, longer, t, i, q, kind) && t.buckets[i].stage.Removed? && t.buckets[i].stage.why.Fresh?
  {
    hide Inv, Expects, Run, RecentOk, HistoricOk;
    var now := OldestTime(s) + |s.recent| + MIN_SHORT_WINDOW;
    longer, t := Silently(init, steps, s, Ticking(now, MIN_SHORT_WINDOW), i, q, kind);
    InvLists(s);
    TickWindow(s, now, MIN_SHORT_WINDOW);
    assert Over(OldestTime(s), |s.recent|, now, MIN_SHORT_WINDOW) == |s.recent|;
    AllReleased(s, s.(recent := s.recent[|s.recent|..], buckets := t.buckets[..|s.buckets|]), i);
    assert t.buckets[i] == t.buckets[..|s.buckets|][i];
  }

  lemma AllReleased(s: Agg, r: Agg, i: nat)
    requires Indexed(s) && Released(s, r, |s.recent|) && i in s.recent
    ensures i < |r.buckets| && r.buckets[i].stage == Removed(Fresh)
  {
    var k :| 0 <= k < |s.recent| && s.recent[k] == i;
    assert r.buckets[s.recent[k]] == s.buckets[s.recent[k]].(stage := Removed(Fresh));
  }

  // Up to the barrier:

  function Unfinished(b: Bucket): set<Req> {
    set r | r in b.clients && !b.clients[r].progress.Finished?
  }

  function NextOf(c: Client, i: nat, r: Req): Step
    requires !c.progress.Finished?
  {
    if c.progress.Registered? then Leaving(i, r)
    else if Ready(c) then Registration(i, r, true)
    else Merging(i, r)
  }

  lemma HandlerStep(s: Agg, i: nat, r: Req)
    requires Window(s) && HistoricOk(s) && i < |s.buckets| && r in s.buckets[i].clients
    requires !s.buckets[i].clients[r].progress.Finished?
    requires s.buckets[i].clients[r].progress.RowsMerged? ==> s.buckets[i].clients[r].kind.Data?
    ensures var step := NextOf(s.buckets[i].clients[r], i, r);
            Enabled(s, step) && i < |Next(s, step).buckets| && Further(s.buckets[i], Next(s, step).buckets[i], r)
  {
    hide RecentOk, HistoricOk, Register, Merge, Advance, Further, Unless;
    HandlerMoves(s.buckets[i], r);
  }

  /** The same bucket with client `r` one or more steps further. */
  predicate Further(a: Bucket, b: Bucket, r: Req) {
    && b.stage == a.stage && b.writer == a.writer && r in a.clients && r in b.clients
    && b.clients == a.clients[r := b.clients[r]] && b.clients[r].kind == a.clients[r].kind
    && Rank(b.clients[r]) < Rank(a.clients[r])
  }

  lemma HandlerMoves(b: Bucket, r: Req)
    requires r in b.clients && !b.clients[r].progress.Finished?
    ensures b.clients[r].progress.Registered? ==> Further(b, Advance(b, r, Finished), r)
    ensures !Done(b.clients[r]) ==> Further(b, Register(b, r, true), r)
    ensures b.clients[r].progress.Admitted? && b.clients[r].kind.Data? ==> Further(b, Merge(b, r), r)
  {
    hide Bump;
  }

  function Rank(c: Client): nat {
    match c.progress
    case Admitted => 3
    case RowsMerged => 2
    case Registered => 1
    case Finished => 0
  }

  lemma RowsOnlyWithData(s: Agg, i: nat, r: Req)
    requires Inv(s) && i < |s.buckets| && r in s.buckets[i].clients
    ensures s.buckets[i].clients[r].progress.RowsMerged? ==> s.buckets[i].clients[r].kind.Data?
  {
    BucketFacts(s, i);
    hide Core, HostsCounted, Quiet;
  }

  /** One client of the bucket gets done with it. */
  lemma {:induction false} ClientFinishes(init: Agg, steps: seq<Step>, s: Agg, i: nat, q: Req, kind: Kind, r: Req)
    returns (longer: seq<Step>, t: Agg)
    requires Going(init, steps, s, i, q, kind) && r in s.buckets[i].clients
    ensures Going(init, longer, t, i, q, kind)
    ensures t.buckets[i].stage == s.buckets[i].stage && t.buckets[i].writer == s.buckets[i].writer
    ensures r in t.buckets[i].clients && t.buckets[i].clients[r].progress.Finished?
    ensures t.buckets[i].clients == s.buckets[i].clients[r := t.buckets[i].clients[r]]
    decreases Rank(s.buckets[i].clients[r])
  {
    hide Inv, Window, HistoricOk, Enabled, Next, Expects, Run, AllOwn;
    longer, t := steps, s;
    if s.buckets[i].clients[r].progress.Finished? {
      assert s.buckets[i].clients == s.buckets[i].clients[r := s.buckets[i].clients[r]];
    } else {
      RowsOnlyWithData(s, i, r);
      HandlerStep(s, i, r);
      var step := NextOf(s.buckets[i].clients[r], i, r);
      longer, t := Silently(init, steps, s, step, i, q, kind);
      longer, t := ClientFinishes(init, longer, t, i, q, kind, r);
    }
  }

  lemma OneLess(a: Bucket, b: Bucket, r: Req)
    requires r in Unfinished(a) && r in b.clients && b.clients[r].progress.Finished?
    requires b.clients == a.clients[r := b.clients[r]]
    ensures Unfinished(b) == Unfinished(a) - {r} && |Unfinished(b)| < |Unfinished(a)|
  {}

  /** All clients of the bucket get done with it. */
  lemma {:induction false} AllFinish(init: Agg, steps: seq<Step>, s: Agg, i: nat, q: Req, kind: Kind)
    returns (longer: seq<Step>, t: Agg)
    requires Going(init, steps, s, i, q, kind)
    ensures Going(init, longer, t, i, q, kind) && Quiet(t.buckets[i])
    ensures t.buckets[i].stage == s.buckets[i].stage && t.buckets[i].writer == s.buckets[i].writer
    decreases |Unfinished(s.buckets[i])|
  {
    hide Inv, Window, HistoricOk, Enabled, Next, Expects, Run, AllOwn;
    longer, t := steps, s;
    if r :| r in Unfinished(s.buckets[i]) {
      longer, t := ClientFinishes(init, steps, s, i, q, kind, r);
      OneLess(s.buckets[i], t.buckets[i], r);
      longer, t := AllFinish(init, longer, t, i, q, kind);
    } else {
      assert forall r | r in s.buckets[i].clients :: r !in Unfinished(s.buckets[i]);
    }
  }

  lemma BarrierSteps(s: Agg, i: nat)
    requires Window(s) && HistoricOk(s) && i < |s.buckets| && s.buckets[i].stage.Removed?
    ensures s.buckets[i].writer.NoWriter? ==>
              && Enabled(s, Locking(i)) && i < |Next(s, Locking(i)).buckets|
              && Next(s, Locking(i)).buckets[i] == s.buckets[i].(writer := WriterWaiting)
    ensures s.buckets[i].writer.WriterWaiting? && Quiet(s.buckets[i]) ==>
              && Enabled(s, Passing(i)) && i < |Next(s, Passing(i)).buckets|
              && Next(s, Passing(i)).buckets[i].stage == Exclusive(s.buckets[i].stage.why)
  {
    hide RecentOk, HistoricOk, Quiet;
  }

  lemma WriterOf(s: Agg, i: nat)
    requires Inv(s) && i < |s.buckets| && s.buckets[i].stage.Removed?
    ensures !s.buckets[i].writer.WriterPassed?
  {
    BucketFacts(s, i);
    hide Core, HostsCounted, Quiet, MergedOk;
  }

  /** A bucket that was taken out of the lists comes to its inserter. */
  lemma Passes(init: Agg, steps: seq<Step>, s: Agg, i: nat, q: Req, kind: Kind) returns (longer: seq<Step>, t: Agg)
    requires Going(init, steps, s, i, q, kind) && s.buckets[i].stage.Removed?
    ensures Going(init, longer, t, i, q, kind) && t.buckets[i].stage == Exclusive(s.buckets[i].stage.why)
  {
    hide Inv, Window, HistoricOk, Enabled, Next, Expects, Run, AllOwn;
    longer, t := AllFinish(init, steps, s, i, q, kind);
    BarrierSteps(t, i);
    WriterOf(t, i);
    if t.buckets[i].writer.NoWriter? {
      longer, t := Silently(init, longer, t, Locking(i), i, q, kind);
      BarrierSteps(t, i);
    }
    longer, t := Silently(init, longer, t, Passing(i), i, q, kind);
  }

  // And its clients are told:

  /** A bucket that has clients may be inserted, with or without success, and a recent one may be dropped. */
  lemma MayInsert(s: Agg, i: nat, q: Req, ok: bool)
    requires Inv(s) && Window(s) && HistoricOk(s) && i < |s.buckets| && q in s.buckets[i].clients
    requires s.buckets[i].stage == Exclusive(Fresh)
    ensures Enabled(s, Insertion(i, ok)) && (!s.buckets[i].fromHistoric ==> Enabled(s, Overflow(i)))
  {
    hide Core, HostsCounted, Quiet, MergedOk, RecentOk, HistoricOk;
    BucketFacts(s, i);
  }

  lemma InserterMoves(s: Agg, step: Step)
    requires Window(s) && HistoricOk(s) && Enabled(s, step)
    requires step.Insertion? || step.Settling?
    ensures var t := Next(s, step);
            && |t.buckets| == |s.buckets|
            && t.buckets[step.i] == s.buckets[step.i].(stage := if step.Insertion? then Inserted(step.ok) else Settled)
  {
    hide RecentOk, HistoricOk, Subtract;
  }

  lemma AnsweringMoves(s: Agg, i: nat)
    requires Window(s) && HistoricOk(s) && Enabled(s, Answering(i))
    ensures var t := Next(s, Answering(i));
            |t.buckets| == |s.buckets| && t.buckets[i] == s.buckets[i].(stage := Answered, contributors := {})
  {
    hide RecentOk, HistoricOk, Verdict, ToAll;
  }

  /** Behind the barrier whoever waits is a contributor, or a simulated error. */
  lemma WaitsHow(s: Agg, i: nat, q: Req)
    requires Inv(s) && i < |s.buckets| && Expects(s.buckets[i], q) && s.buckets[i].writer.WriterPassed?
    ensures q in s.buckets[i].clients
    ensures if s.buckets[i].clients[q].kind.Simulated? then q in s.buckets[i].simulated
            else q in s.buckets[i].contributors
  {
    BucketFacts(s, i);
    hide Core, HostsCounted, MergedOk;
  }

  lemma PassedAt(s: Agg, i: nat)
    requires Inv(s) && i < |s.buckets| && !s.buckets[i].stage.Collecting? && !s.buckets[i].stage.Removed?
    ensures s.buckets[i].writer.WriterPassed?
  {
    BucketFacts(s, i);
    hide Core, HostsCounted, MergedOk, Quiet;
  }

  /** The last step: the client gets the answer `a`. */
  lemma Finally(init: Agg, steps: seq<Step>, s: Agg, step: Step, i: nat, q: Req, kind: Kind, a: Answer)
    returns (longer: seq<Step>, t: Agg)
    requires Going(init, steps, s, i, q, kind) && Enabled(s, step) && Own(step) && Tells(s, step, q, a)
    ensures Run(init, longer, t) && AllOwn(longer) && q in t.answers && t.answers[q] == a
  {
    hide Inv, Window, HistoricOk, Enabled, Next, Expects, Run, Tells;
    t := RunFurther(init, steps, s, step);
    longer := steps + [step];
    AnswersExactly(s, step, q, a);
  }

  /** What a client hears that waits for a bucket with this fate. */
  predicate Heard(stage: Stage, kind: Kind, i: nat, a: Answer) {
    if kind.Simulated? then a == Failed else FateOf(stage, i, a)
  }

  /** A bucket at this stage can be answered, settled or cleared next. */
  lemma MayGoOn(s: Agg, i: nat)
    requires Window(s) && i < |s.buckets|
    ensures Decided(s.buckets[i]) ==> Enabled(s, Answering(i))
    ensures s.buckets[i].stage.Answered? ==> Enabled(s, Settling(i))
    ensures s.buckets[i].stage.Settled? ==> Enabled(s, Failing(i))
  {}

  lemma SimulatedFail(init: Agg, steps: seq<Step>, s: Agg, i: nat, q: Req) returns (longer: seq<Step>, t: Agg)
    requires Going(init, steps, s, i, q, Simulated) && (s.buckets[i].stage.Answered? || s.buckets[i].stage.Settled?)
    ensures Run(init, longer, t) && AllOwn(longer) && q in t.answers && t.answers[q] == Failed
  {
    hide Inv, Window, HistoricOk, Enabled, Next, Expects, Run, AllOwn;
    longer, t := steps, s;
    MayGoOn(s, i);
    if s.buckets[i].stage.Answered? {
      InserterMoves(s, Settling(i));
      longer, t := Silently(init, steps, s, Settling(i), i, q, Simulated);
      MayGoOn(t, i);
    }
    PassedAt(t, i);
    WaitsHow(t, i, q);
    longer, t := Finally(init, longer, t, Failing(i), i, q, Simulated, Failed);
  }

  /** The clients of a bucket whose fate is decided hear of it. */
  lemma DecidedTold(init: Agg, steps: seq<Step>, s: Agg, i: nat, q: Req, kind: Kind, a: Answer)
    returns (longer: seq<Step>, t: Agg)
    requires Going(init, steps, s, i, q, kind) && Decided(s.buckets[i]) && Heard(s.buckets[i].stage, kind, i, a)
    ensures Run(init, longer, t) && AllOwn(longer) && q in t.answers && t.answers[q] == a
  {
    hide Inv, Window, HistoricOk, Enabled, Next, Expects, Run, AllOwn;
    MayGoOn(s, i);
    PassedAt(s, i);
    WaitsHow(s, i, q);
    if kind.Simulated? {
      AnsweringMoves(s, i);
      OthersWait(s, i, q);
      longer, t := Onwards(init, steps, s, Answering(i), i, q, kind);
      longer, t := SimulatedFail(init, longer, t, i, q);
    } else {
      longer, t := Finally(init, steps, s, Answering(i), i, q, kind, a);
    }
  }

  /** Simulated errors are not told what becomes of the bucket. */
  lemma OthersWait(s: Agg, i: nat, q: Req)
    requires Inv(s) && Window(s) && HistoricOk(s) && Enabled(s, Answering(i)) && q !in s.answers
    requires q in s.buckets[i].clients && s.buckets[i].clients[q].kind.Simulated?
    ensures q !in Next(s, Answering(i)).answers
  {
    BucketFacts(s, i);
    hide Core, HostsCounted, Quiet, MergedOk;
    if q in Next(s, Answering(i)).answers { AnswersExactly(s, Answering(i), q, Next(s, Answering(i)).answers[q]); }
  }

  /** What a client can hope for while its bucket is at this stage: to hear that it may erase its data, or
      what was decided before. */
  predicate Hope(stage: Stage, kind: Kind, a: Answer) {
    if kind.Simulated? || stage == Inserted(false) then a == Failed else a.Erase?
  }

  lemma BehindBarrier(init: Agg, steps: seq<Step>, s: Agg, i: nat, q: Req, kind: Kind)
    returns (longer: seq<Step>, t: Agg)
    requires Going(init, steps, s, i, q, kind) && s.buckets[i].stage.Exclusive?
    ensures Run(init, longer, t) && AllOwn(longer) && q in t.answers && Hope(s.buckets[i].stage, kind, t.answers[q])
  {
    hide Inv, Window, HistoricOk, Enabled, Next, Expects, Run, AllOwn;
    longer, t := steps, s;
    if s.buckets[i].stage.why.Fresh? {
      MayInsert(s, i, q, true);
      InserterMoves(s, Insertion(i, true));
      longer, t := Silently(init, steps, s, Insertion(i, true), i, q, kind);
    }
    var why := s.buckets[i].stage.why;
    var a := if kind.Simulated? then Failed
             else if why.Fresh? then Erase(InInsert(i))
             else Erase(StaleBucket(i, why.oldest, why.historicWindow));
    longer, t := DecidedTold(init, longer, t, i, q, kind, a);
  }

  lemma AtFirst(s: Agg, i: nat, q: Req) returns (kind: Kind)
    requires Inv(s) && i < |s.buckets| && Expects(s.buckets[i], q)
    ensures q in s.buckets[i].clients && kind == s.buckets[i].clients[q].kind && Going(s, [], s, i, q, kind)
  {
    AllIn(s);
    ExpectsKnown(s, i, q);
    NotYet(s, i, q);
    hide Inv, Window, HistoricOk, Enabled, Next, Expects;
    RunNowhere(s);
    kind := s.buckets[i].clients[q].kind;
  }

  lemma NotYet(s: Agg, i: nat, q: Req)
    requires Inv(s) && i < |s.buckets| && Expects(s.buckets[i], q)
    ensures q !in s.answers
  {
    hide AllBuckets, RecentOk, HistoricOk, Conserved, Owned, AnswersOk, InsertsOk, Expects, Told;
  }

  /** In a bucket that was answered or dropped only simulated errors still wait. */
  lemma OnlySimulatedWait(s: Agg, i: nat, q: Req)
    requires Inv(s) && i < |s.buckets| && Expects(s.buckets[i], q)
    requires Told(s.buckets[i]) || s.buckets[i].stage.Dropped?
    ensures q in s.buckets[i].clients && s.buckets[i].clients[q].kind.Simulated?
  {
    PassedAt(s, i);
    WaitsHow(s, i, q);
    BucketFacts(s, i);
    hide Core, HostsCounted, MergedOk, Quiet;
  }

  /** Whatever has happened so far, a client that waits for a bucket that was not dropped can still be
      answered, by what the aggregator and the handlers do themselves: it may erase its data, unless
      the insert of its bucket has already failed or its error is simulated. */
  lemma CanBeAnswered(s: Agg, i: nat, q: Req) returns (steps: seq<Step>, t: Agg)
    requires Inv(s) && Tracked(s) && i < |s.buckets| && Expects(s.buckets[i], q) && !s.buckets[i].stage.Dropped?
    ensures Run(s, steps, t) && AllOwn(steps) && q in t.answers
    ensures q in s.buckets[i].clients && Hope(s.buckets[i].stage, s.buckets[i].clients[q].kind, t.answers[q])
  {
    hide Inv, Window, HistoricOk, Enabled, Next, Expects, Run, AllOwn;
    var kind := AtFirst(s, i, q);
    if Told(s.buckets[i]) { OnlySimulatedWait(s, i, q); }
    steps, t := [], s;
    match s.buckets[i].stage
    case Collecting =>
      assert InList(s, i);
      if i in s.recent {
        steps, t := TickedOut(s, steps, t, i, q, kind);
      } else {
        steps, t := PoppedOut(s, steps, t, i, q, kind);
      }
      steps, t := Passes(s, steps, t, i, q, kind);
      steps, t := BehindBarrier(s, steps, t, i, q, kind);
    case Removed(_) =>
      steps, t := Passes(s, steps, t, i, q, kind);
      steps, t := BehindBarrier(s, steps, t, i, q, kind);
    case Exclusive(_) => steps, t := BehindBarrier(s, steps, t, i, q, kind);
    case Inserted(ok) =>
      steps, t := DecidedTold(s, steps, t, i, q, kind,
                              if ok && !kind.Simulated? then Erase(InInsert(i)) else Failed);
    case _ => steps, t := SimulatedFail(s, steps, t, i, q);
  }

  // ---------- except with the simulated errors of a dropped bucket ----------

  /** Nobody will ever be told what became of this bucket. */
  predicate Abandoned(s: Agg, i: nat, q: Req) {
    i < |s.buckets| && s.buckets[i].stage.Dropped? && q in s.buckets[i].clients && q !in s.answers
  }

  lemma AbandonedStep(s: Agg, step: Step, i: nat, q: Req)
    requires Inv(s) && Window(s) && HistoricOk(s) && Enabled(s, step) && Abandoned(s, i, q)
    ensures Abandoned(Next(s, step), i, q)
  {
    var t := Next(s, step);
    StepLater(s, step);
    assert LaterBucket(s.buckets[i], t.buckets[i]);
    if q in t.answers {
      AnswersExactly(s, step, q, t.answers[q]);
      NotTold(s, step, i, q, t.answers[q]);
    }
  }

  lemma NotTold(s: Agg, step: Step, i: nat, q: Req, a: Answer)
    requires Inv(s) && Window(s) && HistoricOk(s) && Enabled(s, step) && Abandoned(s, i, q)
    ensures !Tells(s, step, q, a)
  {
    hide Core, HostsCounted, MergedOk, RecentOk, HistoricOk, ToldAtOnce;
    OwnerOf(s, i, q);
    BucketFacts(s, i);
    if step.Answering? || step.Overflow? || step.Failing? {
      hide BucketInv;
      WaiterOf(s, step.i, q);
    }
  }

  /** A long poll of a bucket is one of its clients. */
  lemma WaiterOf(s: Agg, j: nat, q: Req)
    requires Core(s) && j < |s.buckets|
    ensures q in s.buckets[j].contributors || q in s.buckets[j].simulated ==> q in s.buckets[j].clients
  {
    hide HostsCounted, MergedOk, RecentOk, HistoricOk, Quiet, Conserved, Owned, AnswersOk, InsertsOk, AnsweredOnce;
  }

  lemma {:induction false} AbandonedRun(s: Agg, steps: seq<Step>, t: Agg, i: nat, q: Req)
    requires Inv(s) && Run(s, steps, t) && Abandoned(s, i, q)
    ensures Abandoned(t, i, q)
    decreases |steps|
  {
    hide Inv, Window, HistoricOk, Enabled, Next, Abandoned;
    if steps != [] {
      StepInv(s, steps[0]);
      AbandonedStep(s, steps[0], i, q);
      AbandonedRun(Next(s, steps[0]), steps[1..], t, i, q);
    }
  }

  /** A client that waits can still be answered if and only if its bucket was not dropped by the full
      conveyor; those that wait for such a bucket are simulated errors, and wait until they are cancelled. */
  lemma AnswerableIff(s: Agg, i: nat, q: Req)
    requires Inv(s) && Tracked(s) && i < |s.buckets| && Expects(s.buckets[i], q)
    ensures (exists steps, t :: Run(s, steps, t) && q in t.answers) <==> !s.buckets[i].stage.Dropped?
    ensures s.buckets[i].stage.Dropped? ==> q in s.buckets[i].clients && s.buckets[i].clients[q].kind.Simulated?
  {
    NotYet(s, i, q);
    ExpectsKnown(s, i, q);
    hide Inv, Tracked, Expects, Run;
    if s.buckets[i].stage.Dropped? {
      OnlySimulatedWait(s, i, q);
      forall steps, t | Run(s, steps, t) ensures q !in t.answers {
        AbandonedRun(s, steps, t, i, q);
      }
    } else {
      var steps, t := CanBeAnswered(s, i, q);
    }
  }
}
