/** Ticks of the aggregator's clock as its window sees them, and a run in which host counts leak. */
module AggWindow {
  import opened AggBucket
  import opened Routing
  import opened RecentWindow
  import opened Aggregator
  import opened AggSteps
  import opened AggMachine
  import opened AggRuns
  import opened AggTheorems

  predicate Indexed(s: Agg) {
    forall k | 0 <= k < |s.recent| :: s.recent[k] < |s.buckets|
  }

  /** The first `n` seconds have left the window, and nothing else happened to any bucket. */
  predicate Released(s: Agg, r: Agg, n: nat)
    requires Indexed(s)
  {
    && n <= |s.recent| && r.recent == s.recent[n..] && |r.buckets| == |s.buckets|
    && (forall k | 0 <= k < n :: r.buckets[s.recent[k]] == s.buckets[s.recent[k]].(stage := Removed(Fresh)))
    && (forall j | 0 <= j < |s.buckets| && j !in s.recent[..n] :: r.buckets[j] == s.buckets[j])
  }

  lemma ReleaseFirstWindow(s: Agg)
    requires Core(s) && s.recent != [] && Indexed(s)
    ensures var t := ReleaseFirst(s);
            && Indexed(t) && Released(s, t, 1) && t.recent == s.recent[1..]
            && s.recent[0] !in s.recent[1..]
            && (|s.recent| > 1 ==> t.buckets[t.recent[0]].time == s.buckets[s.recent[0]].time + 1)
  {
    hide AllBuckets, HistoricOk, Conserved, Owned, AnswersOk, InsertsOk, AnsweredOnce;
    assert forall k | 0 <= k < |s.recent| :: s.buckets[s.recent[k]].time == s.buckets[s.recent[0]].time + k;
  }

  lemma ReleasedMore(s: Agg, t: Agg, r: Agg, n: nat)
    requires Indexed(s) && Indexed(t) && Released(s, t, 1) && Released(t, r, n) && s.recent[0] !in s.recent[1..]
    ensures Released(s, r, n + 1)
  {
    assert s.recent[..n + 1] == [s.recent[0]] + t.recent[..n];
    forall k | 0 <= k < n + 1 ensures r.buckets[s.recent[k]] == s.buckets[s.recent[k]].(stage := Removed(Fresh)) {
      if k == 0 { assert s.recent[0] !in t.recent[..n]; } else { assert s.recent[k] == t.recent[k - 1]; }
    }
  }

  lemma ReleaseUnfold(s: Agg, now: int, shortWindow: int)
    requires Indexed(s)
    ensures s.recent == [] ==> Release(s, now, shortWindow) == s
    ensures s.recent != [] ==>
      && Indexed(ReleaseFirst(s))
      && Release(s, now, shortWindow) ==
         if now > s.buckets[s.recent[0]].time + shortWindow then Release(ReleaseFirst(s), now, shortWindow) else s
  {}

  lemma ReleasedNone(s: Agg)
    requires Indexed(s)
    ensures Released(s, s, 0)
  {}

  lemma OverStep(first: int, count: nat, now: int, shortWindow: int)
    requires count > 0
    ensures Over(first, count, now, shortWindow) ==
            if now > first + shortWindow then 1 + Over(first + 1, count - 1, now, shortWindow) else 0
  {}

  /** Exactly the seconds that are over leave the window. */
  lemma {:induction false} ReleaseWindow(s: Agg, now: int, shortWindow: int, first: int)
    requires Core(s) && Indexed(s) && (s.recent != [] ==> first == s.buckets[s.recent[0]].time)
    ensures Released(s, Release(s, now, shortWindow), Over(first, |s.recent|, now, shortWindow))
    decreases |s.recent|
  {
    hide Over, Released, Core, Release, ReleaseFirst;
    ReleaseUnfold(s, now, shortWindow);
    ReleasedNone(s);
    if s.recent != [] {
      OverStep(first, |s.recent|, now, shortWindow);
      if now > first + shortWindow {
        var t := FirstReleased(s, first);
        ReleaseWindow(t, now, shortWindow, first + 1);
        ReleasedMore(s, t, Release(s, now, shortWindow), Over(first + 1, |s.recent| - 1, now, shortWindow));
      }
    }
  }

  lemma FirstReleased(s: Agg, first: int) returns (t: Agg)
    requires Core(s) && Indexed(s) && s.recent != [] && first == s.buckets[s.recent[0]].time
    ensures t == ReleaseFirst(s) && Core(t) && Indexed(t) && Released(s, t, 1) && s.recent[0] !in s.recent[1..]
    ensures |t.recent| == |s.recent| - 1 && (t.recent != [] ==> t.buckets[t.recent[0]].time == first + 1)
  {
    hide Released, Core, ReleaseFirst;
    ReleaseFirstWindow(s);
    ReleaseFirstCore(s);
    t := ReleaseFirst(s);
  }

  lemma {:induction false} FillWindow(s: Agg, shortWindow: int)
    requires s.recent != [] && s.recent[0] < |s.buckets|
    ensures var f := Fill(s, shortWindow);
            && |f.recent| == Max(|s.recent|, shortWindow + FUTURE_WINDOW)
            && s.recent == f.recent[..|s.recent|]
            && |s.buckets| <= |f.buckets| && s.buckets == f.buckets[..|s.buckets|]
            && |f.buckets| - |s.buckets| == |f.recent| - |s.recent|
            && (forall k | |s.recent| <= k < |f.recent| ::
                  && f.recent[k] == |s.buckets| + k - |s.recent|
                  && f.buckets[f.recent[k]] == NewBucket(s.buckets[s.recent[0]].time + k, false))
    decreases shortWindow + FUTURE_WINDOW - |s.recent|
  {
    if |s.recent| < shortWindow + FUTURE_WINDOW {
      var t := OpenRecent(s, s.buckets[s.recent[0]].time + |s.recent|);
      FillWindow(t, shortWindow);
      var f := Fill(s, shortWindow);
      assert t.recent[0] == s.recent[0] && t.buckets[..|s.buckets|] == s.buckets && t.recent[..|s.recent|] == s.recent;
      assert f.buckets[|s.buckets|] == t.buckets[|s.buckets|];
    }
  }

  /** The machine's tick moves the window as one tick of the window alone does: the released seconds
      are those that are over, the next second and the length are the ones computed there. */
  lemma TickWindow(s: Agg, now: nat, shortWindow: int)
    requires Inv(s) && Window(s) && Indexed(s) && now >= shortWindow >= MIN_SHORT_WINDOW
    ensures var t := Tick(s, now, shortWindow);
            var n := Over(OldestTime(s), |s.recent|, now, shortWindow);
            && |t.recent| == CountAfter(OldestTime(s), |s.recent|, now, shortWindow)
            && t.recent != [] && t.recent[0] < |t.buckets|
            && t.buckets[t.recent[0]].time == FirstAfter(OldestTime(s), |s.recent|, now, shortWindow)
            && |s.buckets| <= |t.buckets|
            && Released(s, s.(recent := s.recent[n..], buckets := t.buckets[..|s.buckets|]), n)
  {
    var r, n := Release(s, now, shortWindow), Over(OldestTime(s), |s.recent|, now, shortWindow);
    ReleaseWindow(s, now, shortWindow, OldestTime(s));
    ReleasedTime(s, r, n);
    ReleasedAt(s, r, n);
    hide Core, RecentOk, Released, Release;
    Refilled(r, now, shortWindow);
    hide Fill;
  }

  /** The window after the seconds that are over have left it. */
  lemma Refilled(r: Agg, now: nat, shortWindow: int)
    requires now >= shortWindow >= MIN_SHORT_WINDOW && (r.recent != [] ==> r.recent[0] < |r.buckets|)
    ensures var f := if r.recent == [] then OpenRecent(r, now - shortWindow) else r;
            var t := Fill(f, shortWindow);
            && |t.recent| == Max(|r.recent|, shortWindow + FUTURE_WINDOW)
            && t.recent[0] < |t.buckets|
            && t.buckets[t.recent[0]].time ==
               (if r.recent == [] then now - shortWindow else r.buckets[r.recent[0]].time)
            && |r.buckets| <= |t.buckets| && t.buckets[..|r.buckets|] == r.buckets
            && (forall i | |r.buckets| <= i < |t.buckets| :: t.buckets[i] == NewBucket(t.buckets[i].time, false))
  {
    var f := if r.recent == [] then OpenRecent(r, now - shortWindow) else r;
    FillWindow(f, shortWindow);
    var t := Fill(f, shortWindow);
    hide Fill;
    assert t.recent[0] == t.recent[..|f.recent|][0];
    assert t.buckets[t.recent[0]] == t.buckets[..|f.buckets|][t.recent[0]];
    forall i | |r.buckets| <= i < |t.buckets| ensures t.buckets[i] == NewBucket(t.buckets[i].time, false) {
      if i < |f.buckets| { assert t.buckets[i] == t.buckets[..|f.buckets|][i]; }
      else { assert t.recent[i - |f.buckets| + |f.recent|] == i; }
    }
    assert t.buckets[..|r.buckets|] == f.buckets[..|r.buckets|];
  }

  lemma ReleasedTime(s: Agg, r: Agg, n: nat)
    requires Inv(s) && Window(s) && Indexed(s) && Released(s, r, n)
    ensures r.recent == s.recent[n..] && |r.buckets| == |s.buckets|
    ensures n < |s.recent| ==> r.recent[0] < |r.buckets| && r.buckets[r.recent[0]].time == OldestTime(s) + n
  {
    hide AllBuckets, HistoricOk, Conserved, Owned, AnswersOk, InsertsOk, AnsweredOnce;
    if n < |s.recent| {
      assert s.buckets[s.recent[n]].time == OldestTime(s) + n;
      assert s.recent[n] !in s.recent[..n];
    }
  }

  lemma ReleasedAt(s: Agg, r: Agg, n: nat)
    requires Indexed(s) && Released(s, r, n)
    ensures Released(s, s.(recent := s.recent[n..], buckets := r.buckets), n)
  {}

  // ---------- who is in which bucket ----------

  /** The steps by which a client gets into a bucket. */
  predicate Admits(step: Step, q: Req) {
    (step.Arrival? || step.Ping?) && step.q == q
  }

  /** What a tick does to one bucket: nothing, or it leaves the window; the others are new. */
  lemma TickBucket(s: Agg, now: nat, shortWindow: int, i: nat)
    requires Inv(s) && Window(s) && Indexed(s) && now >= shortWindow >= MIN_SHORT_WINDOW
    ensures var t := Tick(s, now, shortWindow);
            && |s.buckets| <= |t.buckets|
            && (i < |s.buckets| ==> t.buckets[i] in {s.buckets[i], s.buckets[i].(stage := Removed(Fresh))})
            && (|s.buckets| <= i < |t.buckets| ==> t.buckets[i] == NewBucket(t.buckets[i].time, false))
  {
    hide Core, RecentOk, Released, Release, Over, Fill, NewBucket;
    var r, n := Release(s, now, shortWindow), Over(OldestTime(s), |s.recent|, now, shortWindow);
    ReleaseWindow(s, now, shortWindow, OldestTime(s));
    ReleasedTime(s, r, n);
    if i < |s.buckets| { ReleasedBucket(s, r, n, i); }
    hide OldestTime;
    RefilledBucket(r, now, shortWindow, i);
  }

  lemma RefilledBucket(r: Agg, now: nat, shortWindow: int, i: nat)
    requires now >= shortWindow >= MIN_SHORT_WINDOW && (r.recent != [] ==> r.recent[0] < |r.buckets|)
    ensures var t := Fill(if r.recent == [] then OpenRecent(r, now - shortWindow) else r, shortWindow);
            && |r.buckets| <= |t.buckets| && (i < |r.buckets| ==> t.buckets[i] == r.buckets[i])
            && (|r.buckets| <= i < |t.buckets| ==> t.buckets[i] == NewBucket(t.buckets[i].time, false))
  {
    hide Fill, NewBucket;
    Refilled(r, now, shortWindow);
    var t := Fill(if r.recent == [] then OpenRecent(r, now - shortWindow) else r, shortWindow);
    if i < |r.buckets| { assert t.buckets[i] == t.buckets[..|r.buckets|][i]; }
  }

  lemma ReleasedBucket(s: Agg, r: Agg, n: nat, i: nat)
    requires Indexed(s) && Released(s, r, n) && i < |s.buckets|
    ensures |r.buckets| == |s.buckets| && r.buckets[i] in {s.buckets[i], s.buckets[i].(stage := Removed(Fresh))}
  {
    if i in s.recent[..n] {
      var k :| 0 <= k < n && s.recent[k] == i;
      assert r.buckets[s.recent[k]] == s.buckets[s.recent[k]].(stage := Removed(Fresh));
    }
  }

  /** What a step of a client does to bucket `i`: the step admits its request, or merges its rows, or
      neither. */
  predicate Touched(a: Bucket, b: Bucket, step: Step, i: nat) {
    && b.stage == a.stage
    && (forall q | q in b.clients :: q in a.clients || Admits(step, q))
    && (forall q | q in b.merged :: q in a.merged || step == Merging(i, q))
  }

  predicate Opened(b: Bucket, step: Step) {
    b.stage.Collecting? && b.merged == map[] && forall q | q in b.clients :: Admits(step, q)
  }

  predicate AllTouched(s: Agg, step: Step, t: Agg, i: nat) {
    && |s.buckets| <= |t.buckets| && (i < |s.buckets| ==> Touched(s.buckets[i], t.buckets[i], step, i))
    && (|s.buckets| <= i < |t.buckets| ==> Opened(t.buckets[i], step))
  }

  lemma AdmitTouches(s: Agg, step: Step, j: nat, kind: Kind, historic: bool, host: HostKey, i: nat)
    requires j < |s.buckets| && (step.Arrival? || step.Ping?)
    ensures AllTouched(s, step, AdmitTo(s, step.q, j, kind, historic, host), i)
  {}

  lemma OpenTouches(s: Agg, step: Step, kind: Kind, historic: bool, host: HostKey, i: nat)
    requires step.Arrival?
    ensures |OpenHistoric(s, step.time).buckets| == |s.buckets| + 1
    ensures AllTouched(s, step, AdmitTo(OpenHistoric(s, step.time), step.q, |s.buckets|, kind, historic, host), i)
  {}

  lemma PutTouches(s: Agg, step: Step, j: nat, b: Bucket, answers: map<Req, Answer>, i: nat)
    requires j < |s.buckets| && Touched(s.buckets[j], b, step, j)
    ensures AllTouched(s, step, Put(s, j, b, answers), i)
  {}

  function Arrived(s: Agg, step: Step): Agg
    requires Window(s) && HistoricOk(s) && step.Arrival?
  {
    Arrive(s, step.q, step.time, step.rows, step.historic, step.historicWindow, step.host, step.simulated, step.started)
  }

  lemma IntoTouches(s: Agg, step: Step, j: nat, i: nat)
    requires Window(s) && HistoricOk(s) && step.Arrival? && j < |s.buckets|
    requires Decide(s, step.time, step.historic, step.historicWindow) == Into(j)
    ensures AllTouched(s, step, Arrived(s, step), i)
  {
    hide RecentOk, HistoricOk, Decide, AdmitTo, Listed, AllTouched;
    var kind := if step.simulated && !step.historic then Simulated else Data(step.rows);
    AdmitTouches(s, step, j, kind, step.historic, step.host, i);
  }

  lemma NewTouches(s: Agg, step: Step, i: nat)
    requires Window(s) && HistoricOk(s) && step.Arrival?
    requires Decide(s, step.time, step.historic, step.historicWindow) == NewHistoric
    ensures AllTouched(s, step, Arrived(s, step), i)
  {
    hide RecentOk, HistoricOk, Decide, AdmitTo, OpenHistoric, AllTouched;
    OpenTouches(s, step, Data(step.rows), step.historic, step.host, i);
  }

  lemma RefusedTouches(s: Agg, step: Step, i: nat)
    requires Window(s) && HistoricOk(s) && step.Arrival?
    requires var d := Decide(s, step.time, step.historic, step.historicWindow); d.Hijack? || d.Refuse?
    ensures AllTouched(s, step, Arrived(s, step), i)
  {
    hide RecentOk, HistoricOk, Decide, AdmitTo, OpenHistoric;
  }

  lemma ArrivalTouches(s: Agg, step: Step, i: nat)
    requires Inv(s) && Window(s) && HistoricOk(s) && step.Arrival?
    ensures AllTouched(s, step, Arrived(s, step), i)
  {
    hide Core, RecentOk, HistoricOk, Decide, Rounded, Arrived, AllTouched;
    DecidePlace(s, step.time, step.historic, step.historicWindow);
    match Decide(s, step.time, step.historic, step.historicWindow)
    case Into(j) => IntoTouches(s, step, j, i);
    case NewHistoric => NewTouches(s, step, i);
    case _ => RefusedTouches(s, step, i);
  }

  lemma ClientTouches(s: Agg, step: Step, i: nat)
    requires Inv(s) && Window(s) && HistoricOk(s) && Enabled(s, step) && OfClient(step)
    ensures AllTouched(s, step, Next(s, step), i)
  {
    KeepAliveFacts(s);
    hide Core, RecentOk, HistoricOk, Listed, KeepAliveBucket, Unless, Arrive, Put, AdmitTo, BucketInv, Rounded;
    match step
    case Arrival(_, _, _, _, _, _, _, _) =>
      ArrivalTouches(s, step, i);
      assert Next(s, step) == Arrived(s, step);
    case Ping(q) => AdmitTouches(s, step, KeepAliveBucket(s), KeepAlive, false, 0, i);
    case Merging(j, q) => PutTouches(s, step, j, Merge(s.buckets[j], q), map[], i);
    case Registration(j, q, started) =>
      PutTouches(s, step, j, Register(s.buckets[j], q, started),
                 Unless(started, q, if s.buckets[j].clients[q].kind.KeepAlive? then Failed else KeepData), i);
    case Leaving(j, q) => PutTouches(s, step, j, Advance(s.buckets[j], q, Finished), map[], i);
    case Cancelling(j, q) => PutTouches(s, step, j, Cancel(s.buckets[j], q), map[], i);
    case Rejection(_, _) =>
  }

  predicate Unmoved(s: Agg, t: Agg, i: nat) {
    && |s.buckets| <= |t.buckets|
    && (i < |s.buckets| ==>
          t.buckets[i].clients == s.buckets[i].clients && t.buckets[i].merged == s.buckets[i].merged)
    && (|s.buckets| <= i < |t.buckets| ==> t.buckets[i].clients == map[] && t.buckets[i].merged == map[])
  }

  lemma PutUnmoved(s: Agg, u: Agg, j: nat, b: Bucket, answers: map<Req, Answer>, i: nat)
    requires j < |s.buckets| && u.buckets == s.buckets
    requires b.clients == s.buckets[j].clients && b.merged == s.buckets[j].merged
    ensures Unmoved(s, Put(u, j, b, answers), i)
  {}

  lemma TickUnmoved(s: Agg, now: nat, shortWindow: int, i: nat)
    requires Inv(s) && Window(s) && Indexed(s) && now >= shortWindow >= MIN_SHORT_WINDOW
    ensures Unmoved(s, Tick(s, now, shortWindow), i)
  {
    hide Core, RecentOk, Tick;
    TickBucket(s, now, shortWindow, i);
  }

  lemma InserterTouches(s: Agg, step: Step, i: nat)
    requires Window(s) && HistoricOk(s) && Enabled(s, step) && OfInserter(step)
    ensures Unmoved(s, Next(s, step), i)
  {
    hide RecentOk, HistoricOk, Listed, Verdict, Subtract, ToAll, Put, Unmoved;
    match step
    case Overflow(j) =>
      PutUnmoved(s, s, j, s.buckets[j].(stage := Dropped, contributors := {}),
                 ToAll(s.buckets[j].contributors, KeepData), i);
    case Insertion(j, ok) =>
      PutUnmoved(s, if ok then Entered(s, j) else s, j, s.buckets[j].(stage := Inserted(ok)), map[], i);
    case Answering(j) =>
      PutUnmoved(s, s, j, s.buckets[j].(stage := Answered, contributors := {}),
                 ToAll(s.buckets[j].contributors, Verdict(s.buckets[j], j)), i);
    case Failing(j) =>
      PutUnmoved(s, s, j, s.buckets[j].(simulated := {}), ToAll(s.buckets[j].simulated, Failed), i);
    case Settling(j) =>
      PutUnmoved(s, s.(hosts := Subtract(s.hosts, s.buckets[j].hosts)), j, s.buckets[j].(stage := Settled), map[], i);
  }

  lemma PopUnmoved(s: Agg, time: nat, why: Staleness, i: nat)
    requires time in s.historic && s.historic[time] < |s.buckets|
    ensures Unmoved(s, Pop(s, time, why), i)
  {
    hide Put, Unmoved;
    var j := s.historic[time];
    PutUnmoved(s, s.(historic := s.historic - {time}), j, s.buckets[j].(stage := Removed(why)), map[], i);
  }

  lemma OtherTouches(s: Agg, step: Step, i: nat)
    requires Inv(s) && Window(s) && HistoricOk(s) && Enabled(s, step) && !OfClient(step) && !OfInserter(step)
    ensures Unmoved(s, Next(s, step), i)
  {
    InvLists(s);
    hide Inv, RecentOk, HistoricOk, Listed, IsStale, Tick, Pop, Put, Unmoved;
    match step
    case Ticking(now, shortWindow) => TickUnmoved(s, now, shortWindow, i);
    case Popping(time, oldest, historicWindow) => PopUnmoved(s, time, StalenessOf(time, oldest, historicWindow), i);
    case Locking(j) => PutUnmoved(s, s, j, s.buckets[j].(writer := WriterWaiting), map[], i);
    case Passing(j) =>
      PutUnmoved(s, s, j, s.buckets[j].(writer := WriterPassed, stage := Exclusive(s.buckets[j].stage.why)), map[], i);
    case Closing => ClosingUnmoved(s, i);
  }

  /** Steps of the server neither admit nor merge anything. */
  lemma ServerTouches(s: Agg, step: Step, i: nat)
    requires Inv(s) && Window(s) && HistoricOk(s) && Enabled(s, step) && !OfClient(step)
    ensures Unmoved(s, Next(s, step), i)
  {
    hide Inv, Window, HistoricOk, Enabled, Next, Unmoved;
    if OfInserter(step) { InserterTouches(s, step, i); } else { OtherTouches(s, step, i); }
  }

  lemma ClosingUnmoved(s: Agg, i: nat)
    ensures Unmoved(s, s.(closing := true), i)
  {}

  /** Nobody gets into a bucket but by arriving. */
  lemma NewClients(s: Agg, step: Step, i: nat, q: Req)
    requires Inv(s) && Window(s) && HistoricOk(s) && Enabled(s, step)
    ensures var t := Next(s, step);
            i < |t.buckets| && q in t.buckets[i].clients ==>
              (i < |s.buckets| && q in s.buckets[i].clients) || Admits(step, q)
  {
    hide Inv, Window, HistoricOk, Enabled, Next;
    if OfClient(step) { ClientTouches(s, step, i); } else { ServerTouches(s, step, i); }
  }

  /** No rows get into a bucket but by being merged. */
  lemma NewRows(s: Agg, step: Step, i: nat, q: Req)
    requires Inv(s) && Window(s) && HistoricOk(s) && Enabled(s, step)
    ensures var t := Next(s, step);
            i < |t.buckets| && q in t.buckets[i].merged ==>
              (i < |s.buckets| && q in s.buckets[i].merged) || step == Merging(i, q)
  {
    hide Inv, Window, HistoricOk, Enabled, Next;
    if OfClient(step) { ClientTouches(s, step, i); } else { ServerTouches(s, step, i); }
  }

  lemma ArriveSeen(s: Agg, q: Req, time: nat, rows: Rows, historic: bool, historicWindow: nat, host: HostKey,
                   simulated: bool, started: bool)
    requires Window(s) && HistoricOk(s)
    ensures Arrive(s, q, time, rows, historic, historicWindow, host, simulated, started).seen == s.seen + {q}
  {
    assert Decide(s, time, historic, historicWindow).Into? ==>
        var j := Decide(s, time, historic, historicWindow).bid; Listed(s, j, s.buckets[j].fromHistoric);
    hide RecentOk, HistoricOk, Decide;
  }

  lemma NewSeen(s: Agg, step: Step, q: Req)
    requires Inv(s) && Window(s) && HistoricOk(s) && Enabled(s, step)
    ensures q in Next(s, step).seen ==>
              q in s.seen || ((step.Rejection? || step.Arrival? || step.Ping?) && q == step.q)
  {
    InvLists(s);
    hide Core, RecentOk, HistoricOk, Listed, Release, Fill, Arrive, Register, Advance, Cancel, ToAll, Verdict;
    hide Subtract, Unless, IsStale, Tick;
    if step.Ticking? {
      TickOnly(s, step.now, step.shortWindow);
    } else if step.Arrival? {
      ArriveSeen(s, step.q, step.time, step.rows, step.historic, step.historicWindow, step.host,
                 step.simulated, step.started);
    }
  }

  /** A bucket that arrives is taken in under its own second, or under the replica's next one while
      that is still being collected; exactly as it came: with its rows unless it is recent and to fail. */
  lemma ArrivePlace(s: Agg, q: Req, time: nat, rows: Rows, historic: bool, historicWindow: nat, host: HostKey,
                    simulated: bool, started: bool, i: nat)
    requires Inv(s) && Window(s) && HistoricOk(s) && q !in s.seen
    ensures var t := Arrive(s, q, time, rows, historic, historicWindow, host, simulated, started);
            i < |t.buckets| && q in t.buckets[i].clients ==>
              && t.buckets[i].time == (if t.buckets[i].fromHistoric then time else Rounded(time, s.replica))
              && t.buckets[i].clients[q] ==
                 Client(if simulated && !historic then Simulated else Data(rows), historic, host, Admitted)
  {
    hide Core, RecentOk, HistoricOk, Decide, Rounded, AdmitTo, OpenHistoric;
    DecidePlace(s, time, historic, historicWindow);
    match Decide(s, time, historic, historicWindow)
    case Into(j) => AdmitPlace(s, q, j, if simulated && !historic then Simulated else Data(rows), historic, host, i);
    case NewHistoric =>
      DecideReasons(s, q, time, historic, historicWindow);
      OpenPlace(s, q, time, rows, historic, host, i);
    case _ => if i < |s.buckets| { Newcomer(s, i, q); }
  }

  lemma AdmitPlace(s: Agg, q: Req, j: nat, kind: Kind, historic: bool, host: HostKey, i: nat)
    requires Core(s) && j < |s.buckets| && q !in s.seen
    ensures var t := AdmitTo(s, q, j, kind, historic, host);
            i < |t.buckets| && q in t.buckets[i].clients ==>
              && i == j && t.buckets[i].clients[q] == Client(kind, historic, host, Admitted)
              && t.buckets[i].time == s.buckets[j].time && t.buckets[i].fromHistoric == s.buckets[j].fromHistoric
  {
    if i < |s.buckets| { Newcomer(s, i, q); }
    hide Core;
  }

  lemma OpenPlace(s: Agg, q: Req, time: nat, rows: Rows, historic: bool, host: HostKey, i: nat)
    requires Core(s) && q !in s.seen
    ensures var t := AdmitTo(OpenHistoric(s, time), q, |s.buckets|, Data(rows), historic, host);
            i < |t.buckets| && q in t.buckets[i].clients ==>
              && t.buckets[i].time == time && t.buckets[i].fromHistoric
              && t.buckets[i].clients[q] == Client(Data(rows), historic, host, Admitted)
  {
    if i < |s.buckets| { Newcomer(s, i, q); }
    hide Core;
  }

  lemma DecidePlace(s: Agg, time: nat, historic: bool, historicWindow: nat)
    requires Inv(s) && Window(s)
    ensures var d := Decide(s, time, historic, historicWindow);
            d.Into? ==>
              && d.bid < |s.buckets|
              && s.buckets[d.bid].time == if s.buckets[d.bid].fromHistoric then time else Rounded(time, s.replica)
  {
    DecideFacts(s, time, historic, historicWindow);
    hide Core, RecentOk, Decide;
  }

  // ---------- a run that leaks ----------

  lemma InitWindow(replica: int, now: nat, shortWindow: int)
    requires now >= shortWindow >= MIN_SHORT_WINDOW
    ensures var s := Init(replica, now, shortWindow);
            && |s.recent| == |s.buckets| == shortWindow + FUTURE_WINDOW
            && (forall k | 0 <= k < |s.recent| ::
                  s.recent[k] == k && s.buckets[k] == NewBucket(now - shortWindow + k, false))
            && s == Agg(replica, s.recent, map[], s.buckets, map[], false, {}, map[], map[])
  {
    var e := Agg(replica, [], map[], [], map[], false, {}, map[], map[]);
    TickOnly(e, now, shortWindow);
    FillWindow(OpenRecent(e, now - shortWindow), shortWindow);
    hide Fill;
    var s := Init(replica, now, shortWindow);
    assert s.recent[0] == s.recent[..1][0] == 0 && s.buckets[0] == s.buckets[..1][0];
  }

  datatype Sender = Sender(host: HostKey, rows: Rows)

  /** The bucket of second 9 in a fresh aggregator of replica 0, with one historic sender so far. */
  predicate OneSender(s: Agg, h: Sender, progress: Progress, stage: Stage, writer: Writer) {
    && s.replica == 0 && |s.buckets| > 2 && s.hosts == map[h.host := 1]
    && var b := s.buckets[2];
    && b.time == 9 && !b.fromHistoric && b.stage == stage && b.writer == writer
    && b.clients == map[1 := Client(Data(h.rows), true, h.host, progress)]
    && b.contributors == if progress.Registered? || progress.Finished? then {1} else {}
  }

  /** Steps in which the aggregator does not hear from new clients. */
  predicate Internal(steps: seq<Step>) {
    forall i | 0 <= i < |steps| :: !steps[i].Arrival? && !steps[i].Ping? && !steps[i].Rejection?
  }

  /** An internal run that goes one step further. */
  lemma Further(init: Agg, steps: seq<Step>, s: Agg, step: Step) returns (longer: seq<Step>, t: Agg)
    requires Run(init, steps, s) && Internal(steps) && Inv(s) && Window(s) && Enabled(s, step)
    requires !step.Arrival? && !step.Ping? && !step.Rejection?
    ensures HistoricOk(s) && t == Next(s, step) && Inv(t) && Window(t) && Run(init, longer, t) && Internal(longer)
  {
    hide Inv, Window, HistoricOk, Enabled, Next;
    t := RunFurther(init, steps, s, step);
    longer := steps + [step];
  }

  predicate FreshWindow(init: Agg) {
    && init.replica == 0 && !init.closing && init.seen == {} && init.hosts == map[]
    && |init.recent| == |init.buckets| == 7
    && forall k | 0 <= k < 7 :: init.recent[k] == k && init.buckets[k] == NewBucket(7 + k, false)
  }

  lemma SenderDecision(init: Agg)
    requires Window(init) && FreshWindow(init)
    ensures Decide(init, 9, true, 100) == Into(2)
  {
    hide RecentOk;
    assert Rounded(9, 0) == 9;
  }

  /** A sender whose second is nine comes to a fresh aggregator. */
  lemma SenderArrives(init: Agg, h: Sender) returns (t: Agg)
    requires Inv(init) && Window(init) && FreshWindow(init)
    ensures HistoricOk(init) && Enabled(init, Arrival(1, 9, h.rows, true, 100, h.host, false, true))
    ensures t == Next(init, Arrival(1, 9, h.rows, true, 100, h.host, false, true)) && Inv(t) && Window(t)
    ensures OneSender(t, h, Admitted, Collecting, NoWriter) && |t.recent| == 7 && t.recent[2] == 2
    ensures t.recent[0] < |t.buckets| && t.buckets[t.recent[0]].time == 7
  {
    hide Core, RecentOk, HistoricOk, Decide;
    InvLists(init);
    SenderDecision(init);
    StepInv(init, Arrival(1, 9, h.rows, true, 100, h.host, false, true));
    t := Next(init, Arrival(1, 9, h.rows, true, 100, h.host, false, true));
    InvLists(t);
    assert t == AdmitTo(init, 1, 2, Data(h.rows), true, h.host);
    hide Next, Enabled, Inv, Window, Arrive;
  }

  predicate SameTimes(s: Agg, t: Agg) {
    && t.recent == s.recent && |t.buckets| == |s.buckets|
    && forall i | 0 <= i < |s.buckets| :: t.buckets[i].time == s.buckets[i].time
  }

  lemma SenderMerges(init: Agg, steps: seq<Step>, s: Agg, h: Sender) returns (longer: seq<Step>, t: Agg)
    requires Run(init, steps, s) && Internal(steps) && Inv(s) && Window(s)
    requires OneSender(s, h, Admitted, Collecting, NoWriter)
    ensures Run(init, longer, t) && Internal(longer) && Inv(t) && Window(t)
    ensures OneSender(t, h, RowsMerged, Collecting, NoWriter) && SameTimes(s, t)
  {
    SenderMergeState(s, h);
    hide Inv, Window, HistoricOk, Run, Internal, OneSender, SameTimes, Put, Merge;
    longer, t := Further(init, steps, s, Merging(2, 1));
  }

  lemma SenderMergeState(s: Agg, h: Sender)
    requires Window(s) && OneSender(s, h, Admitted, Collecting, NoWriter)
    ensures Enabled(s, Merging(2, 1))
    ensures var t := Put(s, 2, Merge(s.buckets[2], 1), map[]);
            OneSender(t, h, RowsMerged, Collecting, NoWriter) && SameTimes(s, t)
  {
    hide RecentOk, Bump;
  }

  lemma SenderRegisters(init: Agg, steps: seq<Step>, s: Agg, h: Sender) returns (longer: seq<Step>, t: Agg)
    requires Run(init, steps, s) && Internal(steps) && Inv(s) && Window(s)
    requires OneSender(s, h, RowsMerged, Collecting, NoWriter)
    ensures Run(init, longer, t) && Internal(longer) && Inv(t) && Window(t)
    ensures OneSender(t, h, Registered, Collecting, NoWriter) && SameTimes(s, t)
  {
    SenderRegisterState(s, h);
    hide Inv, Window, HistoricOk, Run, Internal, OneSender, SameTimes, Put, Register;
    longer, t := Further(init, steps, s, Registration(2, 1, true));
  }

  lemma SenderRegisterState(s: Agg, h: Sender)
    requires Window(s) && OneSender(s, h, RowsMerged, Collecting, NoWriter)
    ensures Enabled(s, Registration(2, 1, true))
    ensures var t := Put(s, 2, Register(s.buckets[2], 1, true), map[]);
            OneSender(t, h, Registered, Collecting, NoWriter) && SameTimes(s, t)
  {
    hide RecentOk, Bump;
  }

  lemma SenderLeaves(init: Agg, steps: seq<Step>, s: Agg, h: Sender) returns (longer: seq<Step>, t: Agg)
    requires Run(init, steps, s) && Internal(steps) && Inv(s) && Window(s)
    requires OneSender(s, h, Registered, Collecting, NoWriter)
    ensures Run(init, longer, t) && Internal(longer) && Inv(t) && Window(t)
    ensures OneSender(t, h, Finished, Collecting, NoWriter) && SameTimes(s, t)
  {
    SenderLeaveState(s, h);
    hide Inv, Window, HistoricOk, Run, Internal, OneSender, SameTimes, Put, Advance;
    longer, t := Further(init, steps, s, Leaving(2, 1));
  }

  lemma SenderLeaveState(s: Agg, h: Sender)
    requires Window(s) && OneSender(s, h, Registered, Collecting, NoWriter)
    ensures Enabled(s, Leaving(2, 1))
    ensures var t := Put(s, 2, Advance(s.buckets[2], 1, Finished), map[]);
            OneSender(t, h, Finished, Collecting, NoWriter) && SameTimes(s, t)
  {
    hide RecentOk, Bump;
  }

  lemma SecondIsOver(init: Agg, steps: seq<Step>, s: Agg, h: Sender) returns (longer: seq<Step>, t: Agg)
    requires Run(init, steps, s) && Internal(steps) && Inv(s) && Window(s)
    requires OneSender(s, h, Finished, Collecting, NoWriter)
    requires |s.recent| == 7 && s.recent[2] == 2 && s.recent[0] < |s.buckets| && s.buckets[s.recent[0]].time == 7
    ensures Run(init, longer, t) && Internal(longer) && Inv(t) && Window(t)
    ensures OneSender(t, h, Finished, Removed(Fresh), NoWriter)
  {
    InvLists(s);
    hide Core, RecentOk, HistoricOk, Run, Tick;
    TickedAway(s, 13, 3);
    longer, t := Further(init, steps, s, Ticking(13, 3));
  }

  /** The third of seven seconds leaves the window when it is over. */
  lemma TickedAway(s: Agg, now: nat, shortWindow: int)
    requires Inv(s) && Window(s) && Indexed(s) && now == 13 && shortWindow == 3
    requires |s.recent| == 7 && s.recent[2] == 2 && s.recent[0] < |s.buckets| && s.buckets[s.recent[0]].time == 7
    ensures var t := Tick(s, now, shortWindow);
            && t.hosts == s.hosts && t.replica == s.replica && |t.buckets| >= |s.buckets| > 2
            && t.buckets[2] == s.buckets[2].(stage := Removed(Fresh))
  {
    hide Core, RecentOk, HistoricOk, Tick;
    TickWindow(s, now, shortWindow);
    TickOnly(s, now, shortWindow);
    var t := Tick(s, now, shortWindow);
    assert t.buckets[..|s.buckets|][s.recent[2]] == s.buckets[2].(stage := Removed(Fresh));
  }

  lemma BarrierStep(init: Agg, steps: seq<Step>, s: Agg, h: Sender, step: Step) returns (longer: seq<Step>, t: Agg)
    requires Run(init, steps, s) && Internal(steps) && Inv(s) && Window(s)
    requires OneSender(s, h, Finished, Removed(Fresh), if step.Locking? then NoWriter else WriterWaiting)
    requires step == Locking(2) || step == Passing(2)
    ensures Run(init, longer, t) && Internal(longer) && Inv(t) && Window(t)
    ensures if step.Locking? then OneSender(t, h, Finished, Removed(Fresh), WriterWaiting)
            else OneSender(t, h, Finished, Exclusive(Fresh), WriterPassed)
  {
    hide Core, RecentOk, HistoricOk, Run;
    longer, t := Further(init, steps, s, step);
  }

  /** From the sender's arrival to the barrier of its bucket. */
  lemma UpToBarrier(s: Agg, h: Sender) returns (steps: seq<Step>, t: Agg)
    requires Inv(s) && Window(s) && OneSender(s, h, Admitted, Collecting, NoWriter)
    requires |s.recent| == 7 && s.recent[2] == 2 && s.recent[0] < |s.buckets| && s.buckets[s.recent[0]].time == 7
    ensures Run(s, steps, t) && Internal(steps) && Inv(t) && Window(t)
    ensures OneSender(t, h, Finished, Exclusive(Fresh), WriterPassed)
  {
    RunNowhere(s);
    hide Run, Inv, Window, OneSender;
    steps, t := SenderMerges(s, [], s, h);
    steps, t := SenderRegisters(s, steps, t, h);
    steps, t := SenderLeaves(s, steps, t, h);
    steps, t := SecondIsOver(s, steps, t, h);
    steps, t := BarrierStep(s, steps, t, h, Locking(2));
    steps, t := BarrierStep(s, steps, t, h, Passing(2));
  }

  lemma LeakOverflow(init: Agg, steps: seq<Step>, s: Agg, h: Sender) returns (longer: seq<Step>, t: Agg)
    requires Run(init, steps, s) && Internal(steps) && Inv(s) && Window(s)
    requires OneSender(s, h, Finished, Exclusive(Fresh), WriterPassed)
    ensures Run(init, longer, t) && Get(t.hosts, h.host) == 1 && Leaked(t.buckets, h.host) >= 1
  {
    hide Core, RecentOk, HistoricOk, Leaked, Run;
    InvLists(s);
    CountsSender(s, h);
    OverflowLeaks(s, 2);
    longer, t := Further(init, steps, s, Overflow(2));
    assert t.hosts == s.hosts;
    hide Next, Enabled;
  }

  lemma CountsSender(s: Agg, h: Sender)
    requires Inv(s) && OneSender(s, h, Finished, Exclusive(Fresh), WriterPassed)
    ensures Get(s.buckets[2].hosts, h.host) >= 1
  {
    BucketFacts(s, 2);
    hide Core, HostsCounted;
    QuietCounts(s.buckets[2], s.replica, h.host);
    assert 1 in Claimed(s.buckets[2], h.host);
  }

  lemma LeakFrom(init: Agg, h: Sender) returns (steps: seq<Step>, t: Agg)
    requires Inv(init) && Window(init) && FreshWindow(init)
    ensures Run(init, steps, t) && Get(t.hosts, h.host) == 1 && Leaked(t.buckets, h.host) >= 1
  {
    hide Run, Inv, Window, HistoricOk, Enabled, Next, Leaked, OneSender, FreshWindow;
    var s := SenderArrives(init, h);
    RunOne(init, Arrival(1, 9, h.rows, true, 100, h.host, false, true), s);
    steps, t := UpToBarrier(s, h);
    steps, t := LeakOverflow(s, steps, t, h);
    RunConcat(init, [Arrival(1, 9, h.rows, true, 100, h.host, false, true)], s, steps, t);
    steps := [Arrival(1, 9, h.rows, true, 100, h.host, false, true)] + steps;
  }

  /** A historic sender whose second is still recent, followed by a full conveyor, leaves its host
      counted for ever, although no bucket waits for it. */
  lemma LeakHappens(h: HostKey) returns (steps: seq<Step>, t: Agg)
    ensures Run(Init(0, 10, 3), steps, t) && Get(t.hosts, h) == 1 && Live(t.buckets, h) == 0
  {
    var init := Init(0, 10, 3);
    InitInv(0, 10, 3);
    InitWindow(0, 10, 3);
    InvLists(init);
    hide Init, Run, Inv, Live, Leaked;
    steps, t := LeakFrom(init, Sender(h, []));
    HostsConserved(0, 10, 3, steps, t, h);
  }

  /** The same bucket inserted and answered: the sender may erase. */
  lemma InsertedAndAnswered(init: Agg, steps: seq<Step>, s: Agg, h: Sender) returns (longer: seq<Step>, t: Agg)
    requires Run(init, steps, s) && Internal(steps) && Inv(s) && Window(s)
    requires OneSender(s, h, Finished, Exclusive(Fresh), WriterPassed)
    ensures Run(init, longer, t) && Internal(longer) && Inv(t) && 1 in t.answers && t.answers[1] == Erase(InInsert(2))
  {
    hide Core, RecentOk, HistoricOk, Run;
    longer, t := Further(init, steps, s, Insertion(2, true));
    assert t == Put(Entered(s, 2), 2, s.buckets[2].(stage := Inserted(true)), map[]);
    longer, t := AnsweredAfter(init, longer, t, h);
  }

  lemma AnsweredAfter(init: Agg, steps: seq<Step>, s: Agg, h: Sender) returns (longer: seq<Step>, t: Agg)
    requires Run(init, steps, s) && Internal(steps) && Inv(s) && Window(s)
    requires OneSender(s, h, Finished, Inserted(true), WriterPassed)
    ensures Run(init, longer, t) && Internal(longer) && Inv(t) && 1 in t.answers && t.answers[1] == Erase(InInsert(2))
  {
    hide Core, RecentOk, HistoricOk, Run;
    longer, t := Further(init, steps, s, Answering(2));
    assert 1 in s.buckets[2].contributors;
  }
}
