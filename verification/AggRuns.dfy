/** What holds over whole runs of the aggregator. */
module AggRuns {
  import opened AggBucket
  import opened Routing
  import opened RecentWindow
  import opened Aggregator
  import opened AggSteps
  import opened AggMachine

  // ---------- nothing that matters is ever taken back ----------

  /** Requests and rows only come to a bucket. */
  predicate Grown(a: Bucket, b: Bucket) {
    && (forall q | q in a.clients :: q in b.clients && b.clients[q].kind == a.clients[q].kind)
    && (forall q | q in a.merged :: q in b.merged && b.merged[q] == a.merged[q])
  }

  /** How a bucket may change: behind the barrier only long polls still disappear. */
  predicate LaterBucket(a: Bucket, b: Bucket) {
    && a.time == b.time && a.fromHistoric == b.fromHistoric && Grown(a, b)
    && (!a.stage.Collecting? ==> !b.stage.Collecting? && b.clients.Keys == a.clients.Keys)
    && (a.writer.WriterPassed? ==>
          && b.writer.WriterPassed? && b.clients == a.clients && b.merged == a.merged && b.hosts == a.hosts
          && b.contributors <= a.contributors && b.simulated <= a.simulated)
    && (PastBarrier(a) ==> PastBarrier(b))
    && (a.stage.Dropped? ==> b.stage.Dropped?)
  }

  predicate Later(s: Agg, t: Agg) {
    && t.replica == s.replica && |s.buckets| <= |t.buckets| && s.seen <= t.seen
    && (forall q | q in s.answers :: q in t.answers && t.answers[q] == s.answers[q])
    && (forall i | i in s.inserts :: i in t.inserts && t.inserts[i] == s.inserts[i])
    && (forall i | 0 <= i < |s.buckets| :: LaterBucket(s.buckets[i], t.buckets[i]))
  }

  lemma LaterTrans(s: Agg, t: Agg, u: Agg)
    requires Later(s, t) && Later(t, u)
    ensures Later(s, u)
  {
    forall i | 0 <= i < |s.buckets| ensures LaterBucket(s.buckets[i], u.buckets[i]) {
      assert LaterBucket(s.buckets[i], t.buckets[i]) && LaterBucket(t.buckets[i], u.buckets[i]);
    }
  }

  lemma PutLater(s: Agg, i: nat, b: Bucket, answers: map<Req, Answer>)
    requires i < |s.buckets| && LaterBucket(s.buckets[i], b)
    requires forall q | q in answers :: q !in s.answers
    ensures Later(s, Put(s, i, b, answers))
  {}

  /** The same with other parts of the state changed that are not compared, and inserts only added. */
  lemma LaterElsewhere(s: Agg, t: Agg, u: Agg)
    requires Later(s, t)
    requires u == t.(recent := u.recent, historic := u.historic, hosts := u.hosts, closing := u.closing,
                     inserts := u.inserts)
    requires forall i | i in s.inserts :: i in u.inserts && u.inserts[i] == s.inserts[i]
    ensures Later(s, u)
  {
    hide LaterBucket;
  }

  lemma GrowLater(s: Agg, time: nat, fromHistoric: bool)
    ensures Later(s, Grow(s, time, fromHistoric))
  {}

  lemma Newcomer(s: Agg, i: nat, q: Req)
    requires Core(s) && i < |s.buckets| && q !in s.seen
    ensures q !in s.buckets[i].clients
  {}

  lemma AdmitLater(s: Agg, q: Req, i: nat, kind: Kind, historic: bool, host: HostKey)
    requires i < |s.buckets| && s.buckets[i].stage.Collecting? && s.buckets[i].writer.NoWriter?
    requires q !in s.buckets[i].clients
    ensures Later(s, AdmitTo(s, q, i, kind, historic, host))
  {}

  lemma {:induction false} ReleaseLater(s: Agg, now: int, shortWindow: int)
    requires Core(s) && forall k | 0 <= k < |s.recent| :: s.recent[k] < |s.buckets|
    ensures Later(s, Release(s, now, shortWindow))
    decreases |s.recent|
  {
    if s.recent != [] && now > s.buckets[s.recent[0]].time + shortWindow {
      var i, t := s.recent[0], ReleaseFirst(s);
      assert Listed(s, i, false);
      BucketFacts(s, i);
      ReleaseFirstCore(s);
      hide Core, BucketInv;
      PutLater(s, i, s.buckets[i].(stage := Removed(Fresh)), map[]);
      LaterElsewhere(s, Put(s, i, s.buckets[i].(stage := Removed(Fresh)), map[]), t);
      hide Later;
      ReleaseLater(t, now, shortWindow);
      LaterTrans(s, t, Release(s, now, shortWindow));
    } else {
      hide Core;
    }
  }

  lemma OpenRecentLater(s: Agg, time: nat)
    ensures Later(s, OpenRecent(s, time))
  {
    GrowLater(s, time, false);
    hide LaterBucket;
    LaterElsewhere(s, Grow(s, time, false), OpenRecent(s, time));
  }

  lemma {:induction false} FillLater(s: Agg, shortWindow: int)
    requires s.recent != [] && s.recent[0] < |s.buckets|
    ensures Later(s, Fill(s, shortWindow))
    decreases shortWindow + FUTURE_WINDOW - |s.recent|
  {
    if |s.recent| < shortWindow + FUTURE_WINDOW {
      var t := OpenRecent(s, s.buckets[s.recent[0]].time + |s.recent|);
      OpenRecentLater(s, s.buckets[s.recent[0]].time + |s.recent|);
      hide Later;
      FillLater(t, shortWindow);
      LaterTrans(s, t, Fill(s, shortWindow));
    }
  }

  lemma TickLater(s: Agg, now: nat, shortWindow: int)
    requires Core(s) && now >= shortWindow && forall k | 0 <= k < |s.recent| :: s.recent[k] < |s.buckets|
    ensures Later(s, Tick(s, now, shortWindow))
  {
    var r := Release(s, now, shortWindow);
    ReleaseLater(s, now, shortWindow);
    hide Core, Later, Release, Fill;
    if r.recent == [] {
      var f := OpenRecent(r, now - shortWindow);
      OpenRecentLater(r, now - shortWindow);
      FillLater(f, shortWindow);
      LaterTrans(s, r, f);
      LaterTrans(s, f, Fill(f, shortWindow));
    } else {
      FillLater(r, shortWindow);
      LaterTrans(s, r, Fill(r, shortWindow));
    }
  }

  lemma AnsweredLater(s: Agg, q: Req, a: Answer)
    requires Core(s) && q !in s.seen
    ensures Later(s, s.(seen := s.seen + {q}, answers := s.answers[q := a])) && Later(s, s.(seen := s.seen + {q}))
  {
    assert q !in s.answers;
    hide Core;
  }

  lemma OpenHistoricLater(s: Agg, time: nat, q: Req, rows: Rows, host: HostKey)
    ensures Later(s, AdmitTo(OpenHistoric(s, time), q, |s.buckets|, Data(rows), true, host))
  {
    var t := OpenHistoric(s, time);
    GrowLater(s, time, true);
    LaterElsewhere(s, Grow(s, time, true), t);
    AdmitLater(t, q, |s.buckets|, Data(rows), true, host);
    hide Later;
    LaterTrans(s, t, AdmitTo(t, q, |s.buckets|, Data(rows), true, host));
  }

  lemma ArriveLater(s: Agg, q: Req, time: nat, rows: Rows, historic: bool, historicWindow: nat, host: HostKey,
                    simulated: bool, started: bool)
    requires Inv(s) && q !in s.seen
    ensures Window(s) && HistoricOk(s)
    ensures Later(s, Arrive(s, q, time, rows, historic, historicWindow, host, simulated, started))
  {
    InvLists(s);
    Placed(s, time, historic, historicWindow);
    var d := Decide(s, time, historic, historicWindow);
    assert d.NewHistoric? ==> historic;
    if d.Into? { Newcomer(s, d.bid, q); }
    hide Core, RecentOk, HistoricOk, Decide, Later, AdmitTo, OpenHistoric;
    match d
    case Hijack => AnsweredLater(s, q, KeepData);
    case Refuse(a) => AnsweredLater(s, q, a);
    case Into(i) => AdmitLater(s, q, i, if simulated && !historic then Simulated else Data(rows), historic, host);
    case NewHistoric => OpenHistoricLater(s, time, q, rows, host);
  }

  lemma PopLater(s: Agg, time: nat, why: Staleness)
    requires Core(s) && time in s.historic && s.historic[time] < |s.buckets|
    ensures Later(s, Pop(s, time, why))
  {
    var i := s.historic[time];
    assert Listed(s, i, true);
    BucketFacts(s, i);
    hide Core, Later, HostsCounted, MergedOk;
    var b := s.buckets[i].(stage := Removed(why));
    PutLater(s, i, b, map[]);
    LaterElsewhere(s, Put(s, i, b, map[]), Pop(s, time, why));
  }

  /** Long polls that are answered had not been answered. */
  lemma Unanswered(s: Agg, i: nat)
    requires Core(s) && i < |s.buckets|
    ensures forall q | Expects(s.buckets[i], q) :: q !in s.answers
  {
    hide AllBuckets, RecentOk, HistoricOk, Conserved, Owned, AnswersOk, InsertsOk;
  }

  lemma ClientLater(s: Agg, i: nat, q: Req, b: Bucket, answers: map<Req, Answer>)
    requires Core(s) && i < |s.buckets| && q in s.buckets[i].clients && !s.buckets[i].clients[q].progress.Finished?
    requires Grown(s.buckets[i], b) && b.clients.Keys == s.buckets[i].clients.Keys && b.stage == s.buckets[i].stage
    requires b.time == s.buckets[i].time && b.fromHistoric == s.buckets[i].fromHistoric
    requires answers.Keys <= {q} && (answers != map[] ==> !Done(s.buckets[i].clients[q]))
    ensures Later(s, Put(s, i, b, answers))
  {
    BucketFacts(s, i);
    Unanswered(s, i);
    assert !s.buckets[i].writer.WriterPassed?;
    hide Core, BucketInv, Later;
    PutLater(s, i, b, answers);
  }

  lemma RegistrationLater(s: Agg, i: nat, q: Req, started: bool, a: Answer)
    requires Core(s) && i < |s.buckets| && q in s.buckets[i].clients && !Done(s.buckets[i].clients[q])
    ensures Later(s, Put(s, i, Register(s.buckets[i], q, started), Unless(started, q, a)))
  {
    hide Core, Later, Put;
    ClientLater(s, i, q, Register(s.buckets[i], q, started), Unless(started, q, a));
  }

  lemma NotYetMerged(b: Bucket, q: Req, replica: int)
    requires BucketInv(b, replica) && q in b.clients && b.clients[q].progress.Admitted?
    ensures q !in b.merged
  {
    hide HostsCounted, Quiet;
  }

  lemma MergingLater(s: Agg, i: nat, q: Req)
    requires Core(s) && i < |s.buckets| && q in s.buckets[i].clients
    requires s.buckets[i].clients[q].kind.Data? && s.buckets[i].clients[q].progress.Admitted?
    ensures Later(s, Put(s, i, Merge(s.buckets[i], q), map[]))
  {
    hide Core, BucketInv, Later, Put;
    BucketFacts(s, i);
    NotYetMerged(s.buckets[i], q, s.replica);
    ClientLater(s, i, q, Merge(s.buckets[i], q), map[]);
  }

  lemma PingLater(s: Agg, q: Req)
    requires Inv(s) && q !in s.seen
    ensures Window(s) && KeepAliveBucket(s) < |s.buckets|
    ensures Later(s, AdmitTo(s, q, KeepAliveBucket(s), KeepAlive, false, 0))
  {
    InvLists(s);
    KeepAliveFacts(s);
    Newcomer(s, KeepAliveBucket(s), q);
    hide Core, RecentOk, HistoricOk;
    AdmitLater(s, q, KeepAliveBucket(s), KeepAlive, false, 0);
  }

  lemma AnsweringLater(s: Agg, i: nat, b: Bucket, answers: map<Req, Answer>)
    requires Core(s) && i < |s.buckets| && !s.buckets[i].stage.Collecting? && !s.buckets[i].stage.Dropped?
    requires b == s.buckets[i].(stage := b.stage, writer := b.writer,
                                contributors := b.contributors, simulated := b.simulated)
    requires b.contributors <= s.buckets[i].contributors && b.simulated <= s.buckets[i].simulated
    requires !b.stage.Collecting? && (PastBarrier(s.buckets[i]) ==> PastBarrier(b))
    requires s.buckets[i].writer.WriterPassed? ==> b.writer.WriterPassed?
    requires answers.Keys <= s.buckets[i].contributors + s.buckets[i].simulated
    ensures Later(s, Put(s, i, b, answers))
  {
    Unanswered(s, i);
    hide Core, Later;
    PutLater(s, i, b, answers);
  }

  lemma CancellingLater(s: Agg, i: nat, q: Req)
    requires i < |s.buckets|
    ensures Later(s, Put(s, i, Cancel(s.buckets[i], q), map[]))
  {
    hide Later;
    PutLater(s, i, Cancel(s.buckets[i], q), map[]);
  }

  lemma NotYetInserted(s: Agg, i: nat)
    requires Core(s) && i < |s.buckets| && s.buckets[i].stage.Exclusive?
    ensures i !in s.inserts
  {
    BucketFacts(s, i);
    hide Core, BucketInv;
  }

  lemma InsertionLater(s: Agg, i: nat, ok: bool)
    requires Core(s) && i < |s.buckets| && s.buckets[i].stage == Exclusive(Fresh)
    ensures Later(s, Put(if ok then Entered(s, i) else s, i, s.buckets[i].(stage := Inserted(ok)), map[]))
  {
    hide Core, Later;
    NotYetInserted(s, i);
    var b := s.buckets[i].(stage := Inserted(ok));
    PutLater(s, i, b, map[]);
    LaterElsewhere(s, Put(s, i, b, map[]), Put(if ok then Entered(s, i) else s, i, b, map[]));
  }

  lemma SettlingLater(s: Agg, i: nat, hosts: map<HostKey, int>)
    requires Core(s) && i < |s.buckets| && s.buckets[i].stage.Answered?
    ensures Later(s, Put(s.(hosts := hosts), i, s.buckets[i].(stage := Settled), map[]))
  {
    BucketFacts(s, i);
    var b := s.buckets[i].(stage := Settled);
    hide Core, BucketInv;
    PutLater(s, i, b, map[]);
    LaterElsewhere(s, Put(s, i, b, map[]), Put(s.(hosts := hosts), i, b, map[]));
  }

  lemma ClientStepLater(s: Agg, step: Step)
    requires Inv(s) && Window(s) && HistoricOk(s) && Enabled(s, step) && OfClient(step)
    ensures Later(s, Next(s, step))
  {
    hide Core, RecentOk, HistoricOk, Decide, Arrive, Listed, Later, AdmitTo, Put;
    match step
    case Rejection(q, answer) => AnsweredLater(s, q, answer);
    case Arrival(q, time, rows, historic, historicWindow, host, simulated, started) =>
      ArriveLater(s, q, time, rows, historic, historicWindow, host, simulated, started);
    case Ping(q) => PingLater(s, q);
    case Merging(i, q) => MergingLater(s, i, q);
    case Registration(i, q, started) =>
      RegistrationLater(s, i, q, started, if s.buckets[i].clients[q].kind.KeepAlive? then Failed else KeepData);
    case Leaving(i, q) => ClientLater(s, i, q, Advance(s.buckets[i], q, Finished), map[]);
    case Cancelling(i, q) => CancellingLater(s, i, q);
  }

  lemma InserterStepLater(s: Agg, step: Step)
    requires Inv(s) && Window(s) && HistoricOk(s) && Enabled(s, step) && OfInserter(step)
    ensures Later(s, Next(s, step))
  {
    hide Core, RecentOk, HistoricOk, Listed, Later, Put, Entered, Verdict, Subtract;
    match step
    case Overflow(i) =>
      AnsweringLater(s, i, s.buckets[i].(stage := Dropped, contributors := {}),
                     ToAll(s.buckets[i].contributors, KeepData));
    case Insertion(i, ok) => InsertionLater(s, i, ok);
    case Answering(i) =>
      AnsweringLater(s, i, s.buckets[i].(stage := Answered, contributors := {}),
                     ToAll(s.buckets[i].contributors, Verdict(s.buckets[i], i)));
    case Failing(i) => AnsweringLater(s, i, s.buckets[i].(simulated := {}), ToAll(s.buckets[i].simulated, Failed));
    case Settling(i) => SettlingLater(s, i, Subtract(s.hosts, s.buckets[i].hosts));
  }

  lemma ServerStepLater(s: Agg, step: Step)
    requires Inv(s) && Window(s) && HistoricOk(s) && Enabled(s, step) && !OfClient(step) && !OfInserter(step)
    ensures Later(s, Next(s, step))
  {
    InvLists(s);
    hide Core, RecentOk, HistoricOk, Release, Fill, Listed, Later, Put, IsStale, Tick, Pop, Rounded;
    match step
    case Ticking(now, shortWindow) => TickLater(s, now, shortWindow);
    case Popping(time, oldest, historicWindow) => PopLater(s, time, StalenessOf(time, oldest, historicWindow));
    case Locking(i) => AnsweringLater(s, i, s.buckets[i].(writer := WriterWaiting), map[]);
    case Passing(i) =>
      AnsweringLater(s, i, s.buckets[i].(writer := WriterPassed, stage := Exclusive(s.buckets[i].stage.why)), map[]);
    case Closing => ClosingLater(s);
  }

  lemma StepLater(s: Agg, step: Step)
    requires Inv(s) && Window(s) && HistoricOk(s) && Enabled(s, step)
    ensures Later(s, Next(s, step))
  {
    hide Inv, Enabled, Next, Later;
    if OfClient(step) { ClientStepLater(s, step); }
    else if OfInserter(step) { InserterStepLater(s, step); }
    else { ServerStepLater(s, step); }
  }

  lemma ClosingLater(s: Agg)
    ensures Later(s, s.(closing := true))
  {}
}
