/** Who is told what: every client is answered as the fate of its bucket calls for, and nobody is
    forgotten. */
module AggAnswers {
  import opened AggBucket
  import opened Routing
  import opened RecentWindow
  import opened Aggregator
  import opened AggSteps
  import opened AggMachine
  import opened AggRuns
  import opened AggTheorems
  import opened AggWindow

  // ---------- the answers of a step ----------

  /** What a request for this second is told at once, if anything: it may be erased when it is too far ahead
      or behind the historic window, it is to be sent again when it is merely late. */
  predicate ToldAtOnce(s: Agg, time: nat, historic: bool, historicWindow: nat, started: bool, a: Answer)
    requires Window(s)
  {
    var oldest, newest, rounded := OldestTime(s), NewestTime(s), Rounded(time, s.replica);
    if s.closing then !started && a == KeepData
    else if rounded > newest then a == Erase(TooFarInFuture(time, newest))
    else if historic then
      IsStale(rounded, oldest, historicWindow) && a == Erase(BeyondWindow(time, oldest, historicWindow))
    else rounded < oldest && a == KeepData
  }

  /** What the waiting clients of a bucket that has come to this stage are to be told. */
  predicate FateOf(stage: Stage, i: nat, a: Answer) {
    match stage
    case Inserted(ok) => a == if ok then Erase(InInsert(i)) else Failed
    case Exclusive(why) => why.Stale? && a == Erase(StaleBucket(i, why.oldest, why.historicWindow))
    case _ => false
  }

  /** The step has to answer `q`, and with `a`. */
  predicate Tells(s: Agg, step: Step, q: Req, a: Answer)
    requires Window(s)
  {
    match step
    case Rejection(r, answer) => q == r && a == answer
    case Arrival(r, time, _, historic, historicWindow, _, _, started) =>
      q == r && ToldAtOnce(s, time, historic, historicWindow, started, a)
    case Registration(i, r, started) =>
      && q == r && !started && i < |s.buckets| && q in s.buckets[i].clients
      && a == if s.buckets[i].clients[q].kind.KeepAlive? then Failed else KeepData
    case Overflow(i) => i < |s.buckets| && q in s.buckets[i].contributors && a == KeepData
    case Answering(i) => i < |s.buckets| && q in s.buckets[i].contributors && FateOf(s.buckets[i].stage, i, a)
    case Failing(i) => i < |s.buckets| && q in s.buckets[i].simulated && a == Failed
    case _ => false
  }

  predicate Answers(s: Agg, step: Step, t: Agg, q: Req, a: Answer)
    requires Window(s)
  {
    q in t.answers && t.answers[q] == a <==> Tells(s, step, q, a)
  }

  lemma ArrivalTells(s: Agg, step: Step, q: Req, a: Answer)
    requires Window(s) && HistoricOk(s) && Enabled(s, step) && step.Arrival? && q !in s.answers
    ensures Answers(s, step, Next(s, step), q, a)
  {
    hide RecentOk, HistoricOk, Listed, Admit, Bump, Decide, Rounded, ToldAtOnce;
    DecideTells(s, step.time, step.historic, step.historicWindow, step.started, a);
    DecideInto(s, step.time, step.historic, step.historicWindow);
  }

  lemma DecideInto(s: Agg, time: nat, historic: bool, historicWindow: nat)
    requires Window(s) && HistoricOk(s)
    ensures var d := Decide(s, time, historic, historicWindow); d.Into? ==> d.bid < |s.buckets|
  {
    var d := Decide(s, time, historic, historicWindow);
    assert d.Into? ==> Listed(s, d.bid, s.buckets[d.bid].fromHistoric);
    hide RecentOk, HistoricOk, Rounded;
  }

  lemma DecideTells(s: Agg, time: nat, historic: bool, historicWindow: nat, started: bool, a: Answer)
    requires Window(s)
    ensures var d := Decide(s, time, historic, historicWindow);
            ToldAtOnce(s, time, historic, historicWindow, started, a) <==>
              d == Refuse(a) || (d.Hijack? && !started && a == KeepData)
  {
    hide RecentOk, Rounded;
  }

  lemma ClientTells(s: Agg, step: Step, q: Req, a: Answer)
    requires Window(s) && HistoricOk(s) && Enabled(s, step) && OfClient(step) && q !in s.answers
    ensures Answers(s, step, Next(s, step), q, a)
  {
    if step.Arrival? {
      ArrivalTells(s, step, q, a);
    } else {
      hide RecentOk, HistoricOk, Listed, Admit, Bump, Register, Advance, Cancel, KeepAliveBucket, IsStale, Rounded;
    }
  }

  lemma InserterTells(s: Agg, step: Step, q: Req, a: Answer)
    requires Window(s) && HistoricOk(s) && Enabled(s, step) && OfInserter(step) && q !in s.answers
    ensures Answers(s, step, Next(s, step), q, a)
  {
    hide RecentOk, HistoricOk, Listed, Subtract, IsStale, Rounded;
  }

  lemma OtherTells(s: Agg, step: Step, q: Req, a: Answer)
    requires Inv(s) && Window(s) && HistoricOk(s) && Enabled(s, step) && !OfClient(step) && !OfInserter(step)
    requires q !in s.answers
    ensures Answers(s, step, Next(s, step), q, a)
  {
    InvLists(s);
    hide Core, RecentOk, HistoricOk, Listed, IsStale, Rounded, Tick;
    if step.Ticking? { TickOnly(s, step.now, step.shortWindow); }
  }

  /** A step answers exactly the clients it has to, each with the answer it is owed: all long polls of a
      bucket hear that it was inserted, that the insert failed, that it is stale or that the conveyor is
      full, exactly as it was. */
  lemma AnswersExactly(s: Agg, step: Step, q: Req, a: Answer)
    requires Inv(s) && Window(s) && HistoricOk(s) && Enabled(s, step) && q !in s.answers
    ensures var t := Next(s, step);
            q in t.answers && t.answers[q] == a <==> Tells(s, step, q, a)
  {
    hide Inv, Window, HistoricOk, Enabled, Next, Tells;
    if OfClient(step) { ClientTells(s, step, q, a); }
    else if OfInserter(step) { InserterTells(s, step, q, a); }
    else { OtherTells(s, step, q, a); }
  }

  // ---------- nobody is forgotten ----------

  lemma ExpectsKnown(s: Agg, i: nat, q: Req)
    requires Core(s) && i < |s.buckets| && Expects(s.buckets[i], q)
    ensures q in s.buckets[i].clients && q in s.seen
  {
    BucketFacts(s, i);
    hide AllBuckets, HostsCounted;
  }

  /** The bucket still waits for what it owes, or has paid it. */
  ghost predicate Owes(a: Bucket, b: Bucket, answers: map<Req, Answer>, step: Step, i: nat) {
    forall q | Expects(a, q) :: Expects(b, q) || q in answers || step == Cancelling(i, q)
  }

  ghost predicate Settles(s: Agg, step: Step, t: Agg, i: nat) {
    |s.buckets| <= |t.buckets| && (i < |s.buckets| ==> Owes(s.buckets[i], t.buckets[i], t.answers, step, i))
  }

  lemma PutSettles(s: Agg, u: Agg, step: Step, j: nat, b: Bucket, answers: map<Req, Answer>, i: nat)
    requires j < |s.buckets| && u.buckets == s.buckets && Owes(s.buckets[j], b, answers, step, j)
    ensures Settles(s, step, Put(u, j, b, answers), i)
  {}

  lemma AdmitSettles(s: Agg, step: Step, q: Req, j: nat, kind: Kind, historic: bool, host: HostKey, i: nat)
    requires j < |s.buckets| && q !in s.buckets[j].clients
    requires i < |s.buckets|
    ensures Settles(s, step, AdmitTo(s, q, j, kind, historic, host), i)
  {}

  lemma OpenSettles(s: Agg, step: Step, q: Req, time: nat, kind: Kind, historic: bool, host: HostKey, i: nat)
    requires i < |s.buckets|
    ensures |OpenHistoric(s, time).buckets| == |s.buckets| + 1
    ensures Settles(s, step, AdmitTo(OpenHistoric(s, time), q, |s.buckets|, kind, historic, host), i)
  {}

  lemma ArrivalSettles(s: Agg, step: Step, i: nat)
    requires Inv(s) && Window(s) && HistoricOk(s) && step.Arrival? && step.q !in s.seen && i < |s.buckets|
    ensures Settles(s, step, Arrived(s, step), i)
  {
    hide Core, RecentOk, HistoricOk, Decide, Rounded, Settles, AdmitTo, OpenHistoric, Listed;
    DecidePlace(s, step.time, step.historic, step.historicWindow);
    match Decide(s, step.time, step.historic, step.historicWindow)
    case Into(j) =>
      Newcomer(s, j, step.q);
      AdmitSettles(s, step, step.q, j, if step.simulated && !step.historic then Simulated else Data(step.rows),
                   step.historic, step.host, i);
    case NewHistoric => OpenSettles(s, step, step.q, step.time, Data(step.rows), step.historic, step.host, i);
    case _ => StaysSettles(s, step, Arrived(s, step), i);
  }

  lemma StaysSettles(s: Agg, step: Step, t: Agg, i: nat)
    requires t.buckets == s.buckets
    ensures Settles(s, step, t, i)
  {}

  lemma RegisterOwes(s: Agg, j: nat, q: Req, started: bool, a: Answer, step: Step)
    requires Core(s) && j < |s.buckets| && q in s.buckets[j].clients && Ready(s.buckets[j].clients[q])
    ensures Owes(s.buckets[j], Register(s.buckets[j], q, started), Unless(started, q, a), step, j)
  {
    hide Bump;
  }

  lemma HandlerOwes(a: Bucket, q: Req, step: Step, i: nat)
    requires q in a.clients
    ensures a.clients[q].kind.Data? && a.clients[q].progress.Admitted? ==> Owes(a, Merge(a, q), map[], step, i)
    ensures a.clients[q].progress.Registered? ==> Owes(a, Advance(a, q, Finished), map[], step, i)
  {}

  lemma CancelOwes(a: Bucket, q: Req, i: nat)
    ensures Owes(a, Cancel(a, q), map[], Cancelling(i, q), i)
  {}

  lemma ClientSettles(s: Agg, step: Step, i: nat)
    requires Inv(s) && Window(s) && HistoricOk(s) && Enabled(s, step) && OfClient(step) && i < |s.buckets|
    ensures Settles(s, step, Next(s, step), i)
  {
    KeepAliveFacts(s);
    hide Core, RecentOk, HistoricOk, Listed, KeepAliveBucket, Unless, Arrive, Put, AdmitTo, BucketInv, Rounded;
    hide Settles, Register, Merge, Advance, Cancel, Owes;
    match step
    case Arrival(_, _, _, _, _, _, _, _) =>
      ArrivalSettles(s, step, i);
      assert Next(s, step) == Arrived(s, step);
    case Ping(q) =>
      Newcomer(s, KeepAliveBucket(s), q);
      AdmitSettles(s, step, q, KeepAliveBucket(s), KeepAlive, false, 0, i);
    case Merging(j, q) =>
      HandlerOwes(s.buckets[j], q, step, j);
      PutSettles(s, s, step, j, Merge(s.buckets[j], q), map[], i);
    case Registration(j, q, started) =>
      var a := if s.buckets[j].clients[q].kind.KeepAlive? then Failed else KeepData;
      RegisterOwes(s, j, q, started, a, step);
      PutSettles(s, s, step, j, Register(s.buckets[j], q, started), Unless(started, q, a), i);
    case Leaving(j, q) =>
      HandlerOwes(s.buckets[j], q, step, j);
      PutSettles(s, s, step, j, Advance(s.buckets[j], q, Finished), map[], i);
    case Cancelling(j, q) =>
      CancelOwes(s.buckets[j], q, j);
      PutSettles(s, s, step, j, Cancel(s.buckets[j], q), map[], i);
    case Rejection(_, _) => StaysSettles(s, step, Next(s, step), i);
  }

  lemma InserterSettles(s: Agg, step: Step, i: nat)
    requires Window(s) && HistoricOk(s) && Enabled(s, step) && OfInserter(step)
    ensures Settles(s, step, Next(s, step), i)
  {
    hide RecentOk, HistoricOk, Listed, Verdict, Subtract, Put, Settles;
    match step
    case Overflow(j) =>
      PutSettles(s, s, step, j, s.buckets[j].(stage := Dropped, contributors := {}),
                 ToAll(s.buckets[j].contributors, KeepData), i);
    case Insertion(j, ok) =>
      PutSettles(s, if ok then Entered(s, j) else s, step, j, s.buckets[j].(stage := Inserted(ok)), map[], i);
    case Answering(j) =>
      PutSettles(s, s, step, j, s.buckets[j].(stage := Answered, contributors := {}),
                 ToAll(s.buckets[j].contributors, Verdict(s.buckets[j], j)), i);
    case Failing(j) =>
      PutSettles(s, s, step, j, s.buckets[j].(simulated := {}), ToAll(s.buckets[j].simulated, Failed), i);
    case Settling(j) =>
      PutSettles(s, s.(hosts := Subtract(s.hosts, s.buckets[j].hosts)), step, j,
                 s.buckets[j].(stage := Settled), map[], i);
  }

  lemma OtherSettles(s: Agg, step: Step, i: nat)
    requires Inv(s) && Window(s) && HistoricOk(s) && Enabled(s, step) && !OfClient(step) && !OfInserter(step)
    ensures Settles(s, step, Next(s, step), i)
  {
    InvLists(s);
    hide Inv, RecentOk, HistoricOk, Listed, IsStale, Tick, Put, Settles;
    match step
    case Ticking(now, shortWindow) => TickSettles(s, step, i);
    case Popping(time, oldest, historicWindow) =>
      var j := s.historic[time];
      PutSettles(s, s.(historic := s.historic - {time}), step, j,
                 s.buckets[j].(stage := Removed(StalenessOf(time, oldest, historicWindow))), map[], i);
    case Locking(j) => PutSettles(s, s, step, j, s.buckets[j].(writer := WriterWaiting), map[], i);
    case Passing(j) =>
      PutSettles(s, s, step, j,
                 s.buckets[j].(writer := WriterPassed, stage := Exclusive(s.buckets[j].stage.why)), map[], i);
    case Closing => StaysSettles(s, step, Next(s, step), i);
  }

  lemma TickSettles(s: Agg, step: Step, i: nat)
    requires Inv(s) && Window(s) && HistoricOk(s) && Enabled(s, step) && step.Ticking? && Indexed(s)
    ensures Settles(s, step, Tick(s, step.now, step.shortWindow), i)
  {
    hide Core, RecentOk, HistoricOk, Tick;
    TickBucket(s, step.now, step.shortWindow, i);
  }

  /** Whoever waits for an answer still waits after a step, unless the step answers or cancels it. */
  lemma StillWaits(s: Agg, step: Step, i: nat, q: Req)
    requires Inv(s) && Window(s) && HistoricOk(s) && Enabled(s, step) && i < |s.buckets| && Expects(s.buckets[i], q)
    ensures var t := Next(s, step);
            i < |t.buckets| && (q in t.answers || Expects(t.buckets[i], q) || step == Cancelling(i, q))
  {
    hide Inv, Window, HistoricOk, Enabled, Next, Expects;
    if OfClient(step) { ClientSettles(s, step, i); }
    else if OfInserter(step) { InserterSettles(s, step, i); }
    else { OtherSettles(s, step, i); }
  }

  lemma {:induction false} WaitsOn(s: Agg, steps: seq<Step>, t: Agg, i: nat, q: Req)
    requires Inv(s) && Run(s, steps, t) && i < |s.buckets| && (q in s.answers || Expects(s.buckets[i], q))
    ensures q in t.answers || (i < |t.buckets| && Expects(t.buckets[i], q)) || Cancelling(i, q) in steps
    decreases |steps|
  {
    hide Inv, Window, HistoricOk, Enabled, Next, Expects;
    if steps != [] {
      var n := Next(s, steps[0]);
      StepInv(s, steps[0]);
      StepLater(s, steps[0]);
      hide LaterBucket;
      if q !in s.answers { StillWaits(s, steps[0], i, q); }
      if steps[0] != Cancelling(i, q) { WaitsOn(n, steps[1..], t, i, q); }
    }
  }

  /** The request comes and its long poll starts. */
  predicate Comes(step: Step, q: Req) { step.Arrival? && step.q == q && step.started }

  /** A bucket is taken in: no shutdown, and its second between both ends of the window it is held to. */
  predicate TakenIn(s: Agg, time: nat, historic: bool, historicWindow: nat)
    requires Window(s)
  {
    var limit := if historic then OldestTime(s) - historicWindow else OldestTime(s);
    !s.closing && limit <= Rounded(time, s.replica) <= NewestTime(s)
  }

  /** Where a request comes to lie that is taken in, and as what. */
  lemma ArrivalLands(s: Agg, step: Step) returns (i: nat)
    requires Inv(s) && Window(s) && HistoricOk(s) && Enabled(s, step) && step.Arrival?
    ensures var t := Next(s, step);
            if TakenIn(s, step.time, step.historic, step.historicWindow) then
              && i < |t.buckets| && step.q in t.buckets[i].clients
              && t.buckets[i].clients[step.q] ==
                 Client(if step.simulated && !step.historic then Simulated else Data(step.rows),
                        step.historic, step.host, Admitted)
              && t.buckets[i].stage.Collecting?
              && t.buckets[i].time == (if t.buckets[i].fromHistoric then step.time else Rounded(step.time, s.replica))
              && (t.buckets[i].fromHistoric <==> Rounded(step.time, s.replica) < OldestTime(s))
            else forall j | 0 <= j < |t.buckets| :: step.q !in t.buckets[j].clients
  {
    hide Core, RecentOk, HistoricOk, Decide, Rounded, AdmitTo, OpenHistoric;
    DecideReasons(s, step.q, step.time, step.historic, step.historicWindow);
    DecideLists(s, step.time, step.historic, step.historicWindow);
    forall j ensures 0 <= j < |s.buckets| ==> step.q !in s.buckets[j].clients {
      if 0 <= j < |s.buckets| { Newcomer(s, j, step.q); }
    }
    i := 0;
    match Decide(s, step.time, step.historic, step.historicWindow)
    case Into(j) =>
      i := j;
      AdmitLands(s, step.q, i, if step.simulated && !step.historic then Simulated else Data(step.rows),
                 step.historic, step.host);
    case NewHistoric =>
      i := |s.buckets|;
      OpenLands(s, step.q, step.time, step.rows, step.historic, step.host);
    case _ =>
  }

  lemma DecideLists(s: Agg, time: nat, historic: bool, historicWindow: nat)
    requires Inv(s) && Window(s)
    ensures var d := Decide(s, time, historic, historicWindow);
            var rounded := Rounded(time, s.replica);
            && (d.Into? ==>
                  && d.bid < |s.buckets| && s.buckets[d.bid].stage.Collecting?
                  && s.buckets[d.bid].time == (if s.buckets[d.bid].fromHistoric then time else rounded)
                  && (s.buckets[d.bid].fromHistoric <==> rounded < OldestTime(s)))
            && (d.NewHistoric? ==> rounded < OldestTime(s))
  {
    var d := Decide(s, time, historic, historicWindow);
    assert d.Into? && time in s.historic ==> Listed(s, s.historic[time], true);
    assert forall k | 0 <= k < |s.recent| :: Listed(s, s.recent[k], false);
    hide AllBuckets, Conserved, Owned, AnswersOk, InsertsOk, AnsweredOnce, Rounded;
  }

  lemma AdmitLands(s: Agg, q: Req, j: nat, kind: Kind, historic: bool, host: HostKey)
    requires j < |s.buckets|
    ensures var t := AdmitTo(s, q, j, kind, historic, host);
            && |t.buckets| == |s.buckets|
            && t.buckets[j] ==
               s.buckets[j].(clients := s.buckets[j].clients[q := Client(kind, historic, host, Admitted)])
  {}

  lemma OpenLands(s: Agg, q: Req, time: nat, rows: Rows, historic: bool, host: HostKey)
    ensures |OpenHistoric(s, time).buckets| == |s.buckets| + 1
    ensures var t := AdmitTo(OpenHistoric(s, time), q, |s.buckets|, Data(rows), historic, host);
            && |t.buckets| == |s.buckets| + 1
            && t.buckets[|s.buckets|] ==
               NewBucket(time, true).(clients := map[q := Client(Data(rows), historic, host, Admitted)])
  {}

  lemma AtOnce(s: Agg, step: Step)
    requires Inv(s) && Window(s) && HistoricOk(s) && Enabled(s, step) && step.Arrival?
    ensures || TakenIn(s, step.time, step.historic, step.historicWindow) || (s.closing && step.started)
            || step.q in Next(s, step).answers
  {
    DecideReasons(s, step.q, step.time, step.historic, step.historicWindow);
    hide Core, RecentOk, HistoricOk, Rounded, Decide, Listed, AdmitTo, OpenHistoric;
  }

  lemma PingWaits(s: Agg, step: Step)
    requires Inv(s) && Window(s) && HistoricOk(s) && Enabled(s, step) && step.Ping?
    ensures var i := KeepAliveBucket(s);
            i < |Next(s, step).buckets| && Expects(Next(s, step).buckets[i], step.q)
  {
    KeepAliveFacts(s);
    hide Core, RecentOk, HistoricOk, KeepAliveBucket, BucketInv;
  }

  /** A request that comes is answered at once or waits in a bucket, except in a shutdown. */
  lemma ArrivalWaits(s: Agg, step: Step, q: Req) returns (i: nat)
    requires Inv(s) && Window(s) && HistoricOk(s) && Enabled(s, step) && q !in s.seen && q in Next(s, step).seen
    ensures var t := Next(s, step);
            q in t.answers || (i < |t.buckets| && Expects(t.buckets[i], q)) || (s.closing && Comes(step, q))
  {
    i := 0;
    NewSeen(s, step, q);
    if step.Arrival? {
      i := ArrivalLands(s, step);
      AtOnce(s, step);
      hide Inv, Window, HistoricOk, Enabled, Next, TakenIn;
    } else if step.Ping? {
      i := KeepAliveBucket(s);
      hide Inv, Window, HistoricOk, Enabled, Next, Expects, KeepAliveBucket;
      PingWaits(s, step);
    } else {
      hide Core, RecentOk, HistoricOk;
    }
  }

  ghost predicate Waiting(s: Agg, q: Req) {
    exists i :: 0 <= i < |s.buckets| && Expects(s.buckets[i], q)
  }

  ghost predicate Withdrawn(steps: seq<Step>, q: Req) {
    exists i: nat :: Cancelling(i, q) in steps
  }

  ghost predicate Came(steps: seq<Step>, q: Req) {
    exists k :: 0 <= k < |steps| && Comes(steps[k], q)
  }

  lemma StepClosing(s: Agg, step: Step)
    requires Inv(s) && Window(s) && HistoricOk(s) && Enabled(s, step)
    ensures Next(s, step).closing <==> s.closing || step.Closing?
  {
    hide Core, RecentOk, HistoricOk, Listed, IsStale, Rounded, Tick, Decide, Verdict, ToAll, Subtract, Register;
    hide Merge, Advance, Cancel, Unless, AdmitTo, OpenHistoric, KeepAliveBucket;
    InvLists(s);
    if step.Ticking? { TickOnly(s, step.now, step.shortWindow); }
    else if step.Arrival? { ArrivalClosing(s, step); }
    else if step.Ping? { PingClosing(s, step); }
  }

  lemma ArrivalClosing(s: Agg, step: Step)
    requires Window(s) && HistoricOk(s) && step.Arrival?
    ensures Arrived(s, step).closing == s.closing
  {
    hide RecentOk, HistoricOk, Listed, Decide, Rounded, Admit, Bump;
    DecideInto(s, step.time, step.historic, step.historicWindow);
  }

  lemma PingClosing(s: Agg, step: Step)
    requires Inv(s) && Window(s) && HistoricOk(s) && Enabled(s, step) && step.Ping?
    ensures Next(s, step).closing == s.closing
  {
    KeepAliveFacts(s);
    hide Core, RecentOk, HistoricOk, Listed, Admit, Bump, KeepAliveBucket, Rounded;
  }

  /** A shutdown is for good, and begins with its step. */
  lemma {:induction false} RunClosing(s: Agg, steps: seq<Step>, t: Agg)
    requires Inv(s) && Run(s, steps, t)
    ensures t.closing <==> s.closing || Closing in steps
    decreases |steps|
  {
    hide Inv, Window, HistoricOk, Enabled, Next;
    if steps != [] {
      StepInv(s, steps[0]);
      StepClosing(s, steps[0]);
      RunClosing(Next(s, steps[0]), steps[1..], t);
    }
  }

  /** Nobody is forgotten: in every run each request that came has its answer, or waits for it in a bucket,
      or was cancelled, or had come while the aggregator was closing down. */
  lemma {:induction false} NobodyForgotten(s: Agg, steps: seq<Step>, t: Agg, q: Req)
    requires Inv(s) && Run(s, steps, t) && q in t.seen && q !in s.seen
    ensures q in t.answers || Waiting(t, q) || Withdrawn(steps, q) || (t.closing && Came(steps, q))
    decreases |steps|
  {
    hide Inv, Window, HistoricOk, Enabled, Next, Expects, Comes;
    var n, rest := Next(s, steps[0]), steps[1..];
    StepInv(s, steps[0]);
    if q in n.seen {
      var i := ArrivalWaits(s, steps[0], q);
      if q in n.answers {
        RunInv(n, rest, t);
        hide LaterBucket;
      } else if s.closing && Comes(steps[0], q) {
        RunClosing(s, steps, t);
      } else {
        WaitsOn(n, rest, t, i, q);
        assert Cancelling(i, q) in rest ==> Cancelling(i, q) in steps;
      }
    } else {
      NobodyForgotten(n, rest, t, q);
      LaterSame(steps, q);
    }
  }

  lemma LaterSame(steps: seq<Step>, q: Req)
    requires steps != []
    ensures Withdrawn(steps[1..], q) ==> Withdrawn(steps, q)
    ensures Came(steps[1..], q) ==> Came(steps, q)
  {
    hide Comes;
    if Withdrawn(steps[1..], q) {
      var i: nat :| Cancelling(i, q) in steps[1..];
      assert Cancelling(i, q) in steps;
    }
    if Came(steps[1..], q) {
      var k :| 0 <= k < |steps[1..]| && Comes(steps[1..][k], q);
      assert Comes(steps[k + 1], q);
    }
  }
}
