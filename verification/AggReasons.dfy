/** Why an aggregator lets a client erase its data: which step says so, and what it went by. */
module AggReasons {
  import opened AggBucket
  import opened Routing
  import opened RecentWindow
  import opened Aggregator
  import opened AggSteps
  import opened AggMachine
  import opened AggRuns
  import opened AggTheorems
  import opened AggWindow

  // ---------- the step that answers ----------

  /** The step answers `q` with this reason, and the reason is what the step saw. */
  ghost predicate GivenBy(s: Agg, step: Step, q: Req, why: Discard)
    requires Window(s)
  {
    match why
    case InInsert(i) => step == Answering(i) && i < |s.buckets| && s.buckets[i].stage == Inserted(true)
    case StaleBucket(i, oldest, historicWindow) =>
      step == Answering(i) && i < |s.buckets| && s.buckets[i].stage == Exclusive(Stale(oldest, historicWindow))
    case BeyondWindow(time, oldest, historicWindow) =>
      && step.Arrival? && step.q == q && step.time == time && step.historic && step.historicWindow == historicWindow
      && oldest == OldestTime(s) && IsStale(Rounded(time, s.replica), oldest, historicWindow)
    case TooFarInFuture(time, newest) =>
      && step.Arrival? && step.q == q && step.time == time
      && newest == NewestTime(s) && Rounded(time, s.replica) > newest
    case _ => step == Rejection(q, Erase(why))
  }

  lemma ArrivalGives(s: Agg, step: Step, q: Req)
    requires Window(s) && HistoricOk(s) && Enabled(s, step) && step.Arrival? && q !in s.answers
    ensures var t := Next(s, step);
            q in t.answers && t.answers[q].Erase? ==> GivenBy(s, step, q, t.answers[q].why)
  {
    var d := Decide(s, step.time, step.historic, step.historicWindow);
    assert d.Into? ==> Listed(s, d.bid, s.buckets[d.bid].fromHistoric);
    hide RecentOk, HistoricOk, Listed, Admit, Bump;
  }

  lemma ClientGives(s: Agg, step: Step, q: Req)
    requires Window(s) && HistoricOk(s) && Enabled(s, step) && OfClient(step) && q !in s.answers
    ensures var t := Next(s, step);
            q in t.answers && t.answers[q].Erase? ==> GivenBy(s, step, q, t.answers[q].why)
  {
    if step.Arrival? {
      ArrivalGives(s, step, q);
    } else {
      hide RecentOk, HistoricOk, Listed, Admit, Bump, Register, Advance, Cancel, KeepAliveBucket, IsStale, Rounded;
    }
  }

  lemma ServerGives(s: Agg, step: Step, q: Req)
    requires Window(s) && HistoricOk(s) && Enabled(s, step) && !OfClient(step) && !step.Ticking? && q !in s.answers
    ensures var t := Next(s, step);
            q in t.answers && t.answers[q].Erase? ==> GivenBy(s, step, q, t.answers[q].why)
  {
    hide RecentOk, HistoricOk, Listed, Subtract, IsStale, Rounded;
  }

  lemma TickGives(s: Agg, step: Step)
    requires Inv(s) && Window(s) && HistoricOk(s) && Enabled(s, step) && step.Ticking?
    ensures Next(s, step).answers == s.answers
  {
    InvLists(s);
    hide Core, RecentOk, HistoricOk, Listed;
    TickOnly(s, step.now, step.shortWindow);
  }

  /** Every answer that lets a client erase is given by the step its reason names, at once to a bucket that
      comes outside of the window, or by the inserter to the long polls of a bucket. */
  lemma ErasedBy(s: Agg, step: Step, q: Req)
    requires Inv(s) && Window(s) && HistoricOk(s) && Enabled(s, step) && q !in s.answers
    ensures var t := Next(s, step);
            q in t.answers && t.answers[q].Erase? ==> GivenBy(s, step, q, t.answers[q].why)
  {
    hide Inv, Window, HistoricOk, Enabled, Next, GivenBy;
    if OfClient(step) {
      ClientGives(s, step, q);
    } else if step.Ticking? {
      TickGives(s, step);
    } else {
      ServerGives(s, step, q);
    }
  }

  // ---------- stale buckets ----------

  predicate Marked(b: Bucket, why: Staleness) {
    b.stage == Removed(why) || b.stage == Exclusive(why)
  }

  /** Bucket `i` was given up as stale by these bounds. */
  ghost predicate GivenUp(s: Agg, i: nat, why: Staleness)
    requires why.Stale?
  {
    || (i < |s.buckets| && Marked(s.buckets[i], why))
    || exists q :: q in s.answers && s.answers[q] == Erase(StaleBucket(i, why.oldest, why.historicWindow))
  }

  /** The step takes bucket `i` out of the historic map because its second lies before the beginning of
      the window by more than the historic window. */
  predicate PopsStale(s: Agg, step: Step, i: nat, why: Staleness)
    requires Window(s) && why.Stale?
  {
    && step.Popping? && step.oldest == why.oldest && step.historicWindow == why.historicWindow
    && step.time in s.historic && s.historic[step.time] == i
    && i < |s.buckets| && s.buckets[i].time == step.time
    && IsStale(step.time, why.oldest, why.historicWindow) && why.oldest <= OldestTime(s)
  }

  /** A pop takes the bucket of its second out of the map and gives it up as stale exactly if the second lies
      behind the historic window, and to be inserted otherwise; no other bucket is touched. */
  lemma PopDecides(s: Agg, step: Step)
    requires Inv(s) && Window(s) && HistoricOk(s) && Enabled(s, step) && step.Popping?
    ensures var i, t := s.historic[step.time], Next(s, step);
            && t.historic == s.historic - {step.time} && t.recent == s.recent
            && t.buckets[i].stage.Removed?
            && (t.buckets[i].stage.why.Stale? <==> IsStale(step.time, step.oldest, step.historicWindow))
            && (t.buckets[i].stage.why.Stale? ==>
                  t.buckets[i].stage.why == Stale(step.oldest, step.historicWindow))
            && t.buckets == s.buckets[i := s.buckets[i].(stage := t.buckets[i].stage)]
  {
    hide Core, RecentOk, HistoricOk, IsStale;
  }

  lemma ClientMarks(s: Agg, step: Step, i: nat, why: Staleness)
    requires Inv(s) && Window(s) && HistoricOk(s) && Enabled(s, step) && OfClient(step)
    ensures var t := Next(s, step);
            i < |t.buckets| && Marked(t.buckets[i], why) ==> i < |s.buckets| && Marked(s.buckets[i], why)
  {
    hide Inv, Window, HistoricOk, Enabled, Next;
    ClientTouches(s, step, i);
  }

  lemma ServerMarks(s: Agg, step: Step, i: nat, why: Staleness)
    requires Window(s) && HistoricOk(s) && Enabled(s, step) && !OfClient(step) && !step.Ticking? && why.Stale?
    ensures var t := Next(s, step);
            i < |t.buckets| && Marked(t.buckets[i], why) ==>
              (i < |s.buckets| && Marked(s.buckets[i], why)) || PopsStale(s, step, i, why)
  {
    hide RecentOk, Listed, Subtract, Verdict, ToAll, OldestTime;
  }

  lemma TickMarks(s: Agg, step: Step, i: nat, why: Staleness)
    requires Inv(s) && Window(s) && HistoricOk(s) && Enabled(s, step) && step.Ticking? && why.Stale?
    ensures var t := Next(s, step);
            i < |t.buckets| && Marked(t.buckets[i], why) ==> i < |s.buckets| && Marked(s.buckets[i], why)
  {
    InvLists(s);
    hide Core, RecentOk, HistoricOk, Listed, Tick;
    TickBucket(s, step.now, step.shortWindow, i);
  }

  lemma StepMarks(s: Agg, step: Step, i: nat, why: Staleness)
    requires Inv(s) && Window(s) && HistoricOk(s) && Enabled(s, step) && why.Stale?
    ensures var t := Next(s, step);
            i < |t.buckets| && Marked(t.buckets[i], why) ==>
              (i < |s.buckets| && Marked(s.buckets[i], why)) || PopsStale(s, step, i, why)
  {
    hide Inv, Window, HistoricOk, Enabled, Next, PopsStale, Marked;
    if OfClient(step) {
      ClientMarks(s, step, i, why);
    } else if step.Ticking? {
      TickMarks(s, step, i, why);
    } else {
      ServerMarks(s, step, i, why);
    }
  }

  lemma GivenUpStep(s: Agg, step: Step, i: nat, why: Staleness)
    requires Inv(s) && Window(s) && HistoricOk(s) && Enabled(s, step) && why.Stale?
    ensures GivenUp(Next(s, step), i, why) ==> GivenUp(s, i, why) || PopsStale(s, step, i, why)
  {
    hide Inv, Window, HistoricOk, Enabled, Next, PopsStale, LaterBucket;
    StepMarks(s, step, i, why);
    StepLater(s, step);
    var t := Next(s, step);
    if q :| q in t.answers && t.answers[q] == Erase(StaleBucket(i, why.oldest, why.historicWindow)) {
      if q !in s.answers { ErasedBy(s, step, q); }
    }
  }

  /** Over every run: a bucket is given up as stale, and its clients are told to erase their data for
      that, only after a pop of the run at a moment when its second lay before the beginning of the
      window by more than the historic window. */
  lemma {:induction false} StaleHappened(s: Agg, steps: seq<Step>, t: Agg, i: nat, why: Staleness)
    returns (k: nat, u: Agg)
    requires Inv(s) && Run(s, steps, t) && why.Stale? && GivenUp(t, i, why) && !GivenUp(s, i, why)
    ensures k < |steps| && Run(s, steps[..k], u) && Inv(u) && Window(u) && PopsStale(u, steps[k], i, why)
    decreases |steps|
  {
    hide Inv, Window, HistoricOk, Enabled, Next, PopsStale, GivenUp;
    var n := Next(s, steps[0]);
    StepInv(s, steps[0]);
    GivenUpStep(s, steps[0], i, why);
    if GivenUp(n, i, why) {
      k, u := 0, s;
      RunNowhere(s);
      assert steps[..0] == [];
    } else {
      k, u := StaleHappened(n, steps[1..], t, i, why);
      assert steps[..k + 1][1..] == steps[1..][..k];
      k := k + 1;
    }
  }

  /** In a run from the start nothing is stale in the beginning. */
  lemma InitNothingGivenUp(replica: int, now: nat, shortWindow: int, i: nat, why: Staleness)
    requires now >= shortWindow >= MIN_SHORT_WINDOW && why.Stale?
    ensures !GivenUp(Init(replica, now, shortWindow), i, why)
  {
    InitWindow(replica, now, shortWindow);
    hide Init;
  }

  // ---------- inserted rows ----------

  predicate HasRows(s: Agg, i: nat, q: Req) {
    i < |s.buckets| && q in s.buckets[i].merged
  }

  lemma InsertingStep(s: Agg, step: Step, i: nat)
    requires Inv(s) && Window(s) && HistoricOk(s) && Enabled(s, step)
    requires i !in s.inserts && i in Next(s, step).inserts
    ensures step == Insertion(i, true) && i < |s.buckets| && Next(s, step).inserts[i] == s.buckets[i].merged
  {
    hide Inv, Window, HistoricOk, Listed;
    if step == Insertion(i, true) {
      InsertionTakes(s, i);
    } else {
      hide Enabled, Next;
      OnlyInsertionInserts(s, step, i);
    }
  }

  lemma InsertionTakes(s: Agg, i: nat)
    requires Window(s) && HistoricOk(s) && Enabled(s, Insertion(i, true))
    ensures i < |s.buckets| && i in Next(s, Insertion(i, true)).inserts
    ensures Next(s, Insertion(i, true)).inserts[i] == s.buckets[i].merged
  {
    hide RecentOk, HistoricOk;
  }

  /** The moment of an insert, which takes what is in the bucket. */
  lemma {:induction false} InsertMoment(s: Agg, steps: seq<Step>, t: Agg, i: nat) returns (k: nat, u: Agg)
    requires Inv(s) && Run(s, steps, t) && i !in s.inserts && i in t.inserts
    ensures k < |steps| && Run(s, steps[..k], u) && steps[k] == Insertion(i, true)
    ensures i < |u.buckets| && t.inserts[i] == u.buckets[i].merged
    decreases |steps|
  {
    hide Inv, Window, HistoricOk, Enabled, Next, LaterBucket;
    var n := Next(s, steps[0]);
    StepInv(s, steps[0]);
    if i in n.inserts {
      InsertingStep(s, steps[0], i);
      RunInv(n, steps[1..], t);
      k, u := 0, s;
      RunNowhere(s);
      assert steps[..0] == [];
    } else {
      k, u := InsertMoment(n, steps[1..], t, i);
      assert steps[..k + 1][1..] == steps[1..][..k];
      k := k + 1;
    }
  }

  lemma {:induction false} MergeMoment(s: Agg, steps: seq<Step>, t: Agg, i: nat, q: Req) returns (k: nat)
    requires Inv(s) && Run(s, steps, t) && !HasRows(s, i, q) && HasRows(t, i, q)
    ensures k < |steps| && steps[k] == Merging(i, q)
    decreases |steps|
  {
    hide Inv, Window, HistoricOk, Enabled, Next;
    StepInv(s, steps[0]);
    NewRows(s, steps[0], i, q);
    if steps[0] == Merging(i, q) {
      k := 0;
    } else {
      k := MergeMoment(Next(s, steps[0]), steps[1..], t, i, q);
      k := k + 1;
    }
  }

  /** Over every run: rows that were in an insert had been merged before it, and by nothing but the merge
      of their own request. */
  lemma MergedBeforeInsert(s: Agg, steps: seq<Step>, t: Agg, i: nat, q: Req) returns (j: nat, k: nat)
    requires Inv(s) && Run(s, steps, t) && i !in s.inserts && i in t.inserts && q in t.inserts[i] && !HasRows(s, i, q)
    ensures j < k < |steps| && steps[j] == Merging(i, q) && steps[k] == Insertion(i, true)
  {
    hide Inv, Run;
    var u;
    k, u := InsertMoment(s, steps, t, i);
    j := MergeMoment(s, steps[..k], u, i, q);
  }
}
