/** Whole runs of agents and replicas: what an erased bucket guarantees. */
module EndToEnd {
  import Records
  import Disk = Store
  import opened AggBucket
  import opened Routing
  import opened RecentWindow
  import opened Delivery
  import Agent
  import G = Aggregator
  import M = AggMachine
  import R = AggRuns
  import T = AggTheorems
  import W = AggWindow
  import X = AggReasons

  /** When a replica started, and with which window. */
  datatype Start = Start(now: nat, shortWindow: int)

  predicate StartOk(x: Start) { x.now >= x.shortWindow >= MIN_SHORT_WINDOW }

  /** Fresh replicas, each with its own clock, and agents that have just started with some buckets on disk. */
  ghost predicate Initial(w: World, starts: seq<Start>) {
    && |starts| == 3 && |w.aggs| == 3 && w.flights == map[]
    && (forall r | 0 <= r < 3 ::
          StartOk(starts[r]) && w.aggs[r] == T.Init(r, starts[r].now, starts[r].shortWindow))
    && (forall a | a in w.agents ::
          && w.agents[a].items == map[] && w.agents[a].asked == map[]
          && w.agents[a].disk.known == map[] && w.agents[a].disk.last == 0
          && (set e | e in w.agents[a].disk.tail) == w.agents[a].folder.live && Disk.NoRepeats(w.agents[a].disk.tail))
  }

  /** Nothing has happened to the replica. */
  ghost predicate Untouched(g: G.Agg) {
    && g.inserts == map[] && g.answers == map[]
    && (forall i: nat, q: Req :: !X.HasRows(g, i, q))
    && (forall i: nat, why: Staleness | why.Stale? :: !X.GivenUp(g, i, why))
  }

  lemma InitialInv(w: World, starts: seq<Start>)
    requires Initial(w, starts)
    ensures Inv(w) && forall r | 0 <= r < 3 :: Untouched(w.aggs[r])
  {
    forall r | 0 <= r < 3 ensures G.Inv(w.aggs[r]) && w.aggs[r].replica == r && Untouched(w.aggs[r]) {
      T.InitInv(r, starts[r].now, starts[r].shortWindow);
      InitUntouched(r, starts[r].now, starts[r].shortWindow);
    }
    hide T.Init, G.Inv, Untouched;
  }

  lemma InitUntouched(r: int, now: nat, shortWindow: int)
    requires now >= shortWindow >= MIN_SHORT_WINDOW
    ensures Untouched(T.Init(r, now, shortWindow)) && T.Init(r, now, shortWindow).replica == r
  {
    W.InitWindow(r, now, shortWindow);
    hide T.Init;
    forall i: nat, why: Staleness | why.Stale? ensures !X.GivenUp(T.Init(r, now, shortWindow), i, why) {
      X.InitNothingGivenUp(r, now, shortWindow, i, why);
    }
  }

  ghost predicate Run(w: World, steps: seq<Step>, v: World)
    decreases |steps|
  {
    if steps == [] then v == w
    else Inv(w) && Enabled(w, steps[0]) && Run(Next(w, steps[0]), steps[1..], v)
  }

  lemma {:induction false} RunInv(w: World, steps: seq<Step>, v: World)
    requires Inv(w) && Run(w, steps, v)
    ensures Inv(v)
    decreases |steps|
  {
    hide Inv, Enabled, Next;
    if steps != [] {
      StepInv(w, steps[0]);
      RunInv(Next(w, steps[0]), steps[1..], v);
    }
  }

  lemma {:induction false} RunConcat(w: World, a: seq<Step>, m: World, b: seq<Step>, v: World)
    requires Run(w, a, m) && Run(m, b, v)
    ensures Run(w, a + b, v)
    decreases |a|
  {
    hide Inv, Enabled, Next;
    if a == [] {
      assert a + b == b;
    } else {
      RunConcat(Next(w, a[0]), a[1..], m, b, v);
      assert (a + b)[1..] == a[1..] + b;
    }
  }

  lemma RunOne(w: World, step: Step)
    requires Inv(w) && Enabled(w, step)
    ensures Run(w, [step], Next(w, step)) && Inv(Next(w, step))
  {
    StepInv(w, step);
    hide Inv, Enabled, Next;
    assert Run(Next(w, step), [], Next(w, step));
  }

  lemma RunNowhere(w: World)
    ensures Run(w, [], w)
  {}

  // ---------- the run of one replica ----------

  /** What a step of the world is to replica `r`. */
  ghost function Own(w: World, step: Step, r: nat): seq<M.Step>
    requires Inv(w) && Enabled(w, step)
  {
    match step
    case Deliver(q, _, _, _, _) => if w.flights[q].replica == r then [ArrivalOf(w, step)] else []
    case InAgg(i, s) => if i == r then [s] else []
    case _ => []
  }

  lemma OwnStep(w: World, step: Step, r: nat)
    requires Inv(w) && Enabled(w, step) && r < 3
    ensures |Next(w, step).aggs| == 3 && T.Run(w.aggs[r], Own(w, step, r), Next(w, step).aggs[r])
    ensures G.Window(w.aggs[r]) && G.HistoricOk(w.aggs[r])
    ensures Own(w, step, r) == [] ==> Next(w, step).aggs[r] == w.aggs[r]
    ensures Own(w, step, r) != [] ==>
              && M.Enabled(w.aggs[r], Own(w, step, r)[0])
              && Next(w, step).aggs[r] == M.Next(w.aggs[r], Own(w, step, r)[0])
  {
    hide Agent.Inv, G.Inv, G.Window, G.HistoricOk, M.Enabled, M.Next, Agent.Next, Agent.Enabled, T.Run;
    hide Routed, Placed, AllEvident;
    M.InvLists(w.aggs[r]);
    var o, t := Own(w, step, r), Next(w, step).aggs[r];
    T.RunNowhere(t);
    if o != [] { T.RunOne(w.aggs[r], o[0], t); }
  }

  /** A run of the world is, for each replica, a run of that replica: its steps are steps of the world, in
      the same order. */
  lemma {:induction false} Project(w: World, steps: seq<Step>, v: World, r: nat)
    returns (own: seq<M.Step>, at: seq<nat>)
    requires Inv(w) && Run(w, steps, v) && r < 3
    ensures |v.aggs| == 3 && T.Run(w.aggs[r], own, v.aggs[r])
    ensures Among(own, at, steps, r)
    decreases |steps|
  {
    if steps == [] {
      own, at := [], [];
    } else {
      hide Inv, Enabled, Next, M.Next, M.Enabled, G.Window, G.HistoricOk, T.Run, Own, Among;
      OwnStep(w, steps[0], r);
      StepInv(w, steps[0]);
      OwnIsStep(w, steps[0], r);
      var first := Own(w, steps[0], r);
      var rest, later := Project(Next(w, steps[0]), steps[1..], v, r);
      T.RunConcat(w.aggs[r], first, Next(w, steps[0]).aggs[r], rest, v.aggs[r]);
      own := first + rest;
      at := AmongMore(first, rest, later, steps, r);
    }
  }

  lemma OwnIsStep(w: World, step: Step, r: nat)
    requires Inv(w) && Enabled(w, step)
    ensures |Own(w, step, r)| <= 1 && forall s | s in Own(w, step, r) && !s.Arrival? :: step == InAgg(r, s)
  {
    hide AllAggs, AllAgents, Routed, Placed, AllEvident, M.Enabled, Agent.Enabled;
  }

  /** These are, at these places, the steps of the replica among those of the world. */
  predicate Among(own: seq<M.Step>, at: seq<nat>, steps: seq<Step>, r: nat) {
    && |at| == |own|
    && (forall j | 0 <= j < |own| :: at[j] < |steps| && (!own[j].Arrival? ==> steps[at[j]] == InAgg(r, own[j])))
    && (forall j, k | 0 <= j < k < |at| :: at[j] < at[k])
  }

  lemma AmongMore(first: seq<M.Step>, rest: seq<M.Step>, later: seq<nat>, steps: seq<Step>, r: nat)
    returns (at: seq<nat>)
    requires steps != [] && |first| <= 1 && (forall s | s in first && !s.Arrival? :: steps[0] == InAgg(r, s))
    requires Among(rest, later, steps[1..], r)
    ensures Among(first + rest, at, steps, r)
  {
    at := AmongLater(rest, later, steps, r);
    if first == [] {
      assert first + rest == rest;
    } else {
      AmongFirst(first[0], rest, at, steps, r);
      assert first + rest == [first[0]] + rest;
      at := [0] + at;
    }
  }

  lemma AmongLater(rest: seq<M.Step>, later: seq<nat>, steps: seq<Step>, r: nat) returns (at: seq<nat>)
    requires steps != [] && Among(rest, later, steps[1..], r)
    ensures Among(rest, at, steps, r) && (forall j | 0 <= j < |at| :: at[j] > 0)
  {
    at := seq(|later|, j requires 0 <= j < |later| => later[j] + 1);
  }

  lemma AmongFirst(first: M.Step, rest: seq<M.Step>, at: seq<nat>, steps: seq<Step>, r: nat)
    requires steps != [] && (!first.Arrival? ==> steps[0] == InAgg(r, first))
    requires Among(rest, at, steps, r) && (forall j | 0 <= j < |at| :: at[j] > 0)
    ensures Among([first] + rest, [0] + at, steps, r)
  {}

  // ---------- moments of a run ----------

  /** `u` is the state of the run right before its step `k`. */
  ghost predicate Moment(w: World, steps: seq<Step>, k: nat, u: World) {
    k < |steps| && Run(w, steps[..k], u) && Inv(u) && Enabled(u, steps[k])
  }

  lemma MomentNow(w: World, steps: seq<Step>)
    requires steps != [] && Inv(w) && Enabled(w, steps[0])
    ensures Moment(w, steps, 0, w)
  {
    assert steps[..0] == [];
  }

  lemma MomentLater(w: World, steps: seq<Step>, k: nat, u: World)
    requires steps != [] && Inv(w) && Enabled(w, steps[0]) && Moment(Next(w, steps[0]), steps[1..], k, u)
    ensures Moment(w, steps, k + 1, u) && k + 1 < |steps| && steps[k + 1] == steps[1..][k]
  {
    hide Inv, Enabled, Next;
    assert steps[..k + 1][1..] == steps[1..][..k];
  }

  /** The moment at which replica `r` gives its answer to `q`, and the step that gives it. */
  ghost predicate Gives(u: World, step: Step, r: nat, q: Req, a: G.Answer)
    requires Inv(u) && Enabled(u, step) && r < 3
  {
    && Own(u, step, r) != [] && G.Window(u.aggs[r])
    && (a.Erase? ==> X.GivenBy(u.aggs[r], Own(u, step, r)[0], q, a.why))
  }

  lemma GivesStep(w: World, step: Step, r: nat, q: Req)
    requires Inv(w) && Enabled(w, step) && r < 3 && q !in w.aggs[r].answers
    ensures |Next(w, step).aggs| == 3
    ensures q in Next(w, step).aggs[r].answers ==> Gives(w, step, r, q, Next(w, step).aggs[r].answers[q])
  {
    OwnStep(w, step, r);
    assert G.Inv(w.aggs[r]);
    hide Inv, Enabled, Next, Own, M.Next, M.Enabled, G.Window, G.HistoricOk, G.Inv, X.GivenBy, T.Run;
    if Own(w, step, r) != [] { X.ErasedBy(w.aggs[r], Own(w, step, r)[0], q); }
  }

  lemma {:induction false} AnswerGiven(w: World, steps: seq<Step>, v: World, r: nat, q: Req)
    returns (k: nat, u: World)
    requires Inv(w) && Run(w, steps, v) && r < 3 && q !in w.aggs[r].answers
    requires |v.aggs| == 3 && q in v.aggs[r].answers
    ensures Moment(w, steps, k, u) && Gives(u, steps[k], r, q, v.aggs[r].answers[q])
    decreases |steps|
  {
    hide Inv, Enabled, Next, Gives, Moment;
    GivesStep(w, steps[0], r, q);
    StepInv(w, steps[0]);
    var n := Next(w, steps[0]);
    if q in n.aggs[r].answers {
      k, u := 0, w;
      MomentNow(w, steps);
      AnswerStays(n, steps[1..], v, r, q);
    } else {
      k, u := AnswerGiven(n, steps[1..], v, r, q);
      MomentLater(w, steps, k, u);
      k := k + 1;
    }
  }

  lemma AnswerStays(w: World, steps: seq<Step>, v: World, r: nat, q: Req)
    requires Inv(w) && Run(w, steps, v) && r < 3 && q in w.aggs[r].answers
    ensures |v.aggs| == 3 && q in v.aggs[r].answers && v.aggs[r].answers[q] == w.aggs[r].answers[q]
  {
    var own, at := Project(w, steps, v, r);
    assert G.Inv(w.aggs[r]);
    hide Inv, G.Inv, Run, T.Run, R.LaterBucket, Among;
    T.RunInv(w.aggs[r], own, v.aggs[r]);
  }

  /** The moment at which replica `r` gives up bucket `i` as stale. */
  ghost predicate GivesUp(u: World, step: Step, r: nat, i: nat, why: Staleness)
    requires Inv(u) && Enabled(u, step) && r < 3 && why.Stale?
  {
    Own(u, step, r) != [] && G.Window(u.aggs[r]) && X.PopsStale(u.aggs[r], Own(u, step, r)[0], i, why)
  }

  lemma GivesUpStep(w: World, step: Step, r: nat, i: nat, why: Staleness)
    requires Inv(w) && Enabled(w, step) && r < 3 && why.Stale? && !X.GivenUp(w.aggs[r], i, why)
    ensures |Next(w, step).aggs| == 3
    ensures X.GivenUp(Next(w, step).aggs[r], i, why) ==> GivesUp(w, step, r, i, why)
  {
    OwnStep(w, step, r);
    assert G.Inv(w.aggs[r]);
    hide Inv, Enabled, Next, Own, M.Next, M.Enabled, G.Window, G.HistoricOk, G.Inv, X.GivenUp, X.PopsStale, T.Run;
    if Own(w, step, r) != [] { X.GivenUpStep(w.aggs[r], Own(w, step, r)[0], i, why); }
  }

  lemma {:induction false} StalePopped(w: World, steps: seq<Step>, v: World, r: nat, i: nat, why: Staleness)
    returns (k: nat, u: World)
    requires Inv(w) && Run(w, steps, v) && r < 3 && why.Stale? && !X.GivenUp(w.aggs[r], i, why)
    requires |v.aggs| == 3 && X.GivenUp(v.aggs[r], i, why)
    ensures Moment(w, steps, k, u) && GivesUp(u, steps[k], r, i, why)
    decreases |steps|
  {
    hide Inv, Enabled, Next, GivesUp, Moment, X.GivenUp;
    GivesUpStep(w, steps[0], r, i, why);
    StepInv(w, steps[0]);
    var n := Next(w, steps[0]);
    if X.GivenUp(n.aggs[r], i, why) {
      k, u := 0, w;
      MomentNow(w, steps);
    } else {
      k, u := StalePopped(n, steps[1..], v, r, i, why);
      MomentLater(w, steps, k, u);
      k := k + 1;
    }
  }

  // ---------- acknowledgements ----------

  /** What it means that an agent may erase a bucket because of the answer to its request `q`. */
  ghost predicate Worth(w: World, q: Req, time: nat, data: seq<Records.byte>)
    requires Inv(w)
  {
    && q in w.flights && PayloadOf(w, q).time == time && PayloadOf(w, q).data == data
    && var r := w.flights[q].replica;
    && r in {Primary(time), Spare(time)}
    && var g := w.aggs[r];
    && q in g.answers && g.answers[q].Erase?
    && match g.answers[q].why
       case InInsert(i) => // exactly its data was among the rows of a bucket of the right second when inserted
         && i in g.inserts && q in g.inserts[i] && g.inserts[i][q] == data
         && i < |g.buckets| && Fits(g.buckets[i], r, time)
       case StaleBucket(i, oldest, historicWindow) => // it was in the bucket of its second, which was too old
         && i < |g.buckets| && q in g.buckets[i].clients && g.buckets[i].fromHistoric && g.buckets[i].time == time
         && IsStale(time, oldest, historicWindow)
       case BeyondWindow(_, oldest, historicWindow) =>
         PayloadOf(w, q).historic && IsStale(Rounded(time, r), oldest, historicWindow)
       case TooFarInFuture(_, newest) => Rounded(time, r) > newest
       case _ => true
  }

  lemma AckIsWorth(w: World, a: nat, t: nat, mark: Agent.Mark)
    requires Inv(w) && Enabled(w, Ack(a, t, mark))
    ensures var it := w.agents[a].items[t];
            it.cbd.time >= 0 && Worth(w, RequestOf(w.agents[a], t), it.cbd.time, it.cbd.data)
  {
    hide G.Inv, Agent.Inv, Agent.MarkOk, Placed, AllEvident, Routed;
    var cbd, q := w.agents[a].items[t].cbd, RequestOf(w.agents[a], t);
    Agent.HoldersAreSane(w.agents[a], t);
    assert w.flights[q].agent == a;
    assert PayloadOf(w, q).time == cbd.time && PayloadOf(w, q).data == cbd.data;
    hide Agent.Enabled, Agent.InFlight, RequestOf;
    EraseIsWorth(w, q);
  }

  /** Every answer that lets an agent erase is worth it. */
  lemma EraseIsWorth(w: World, q: Req)
    requires Inv(w) && q in w.flights
    requires var g := w.aggs[w.flights[q].replica]; q in g.answers && g.answers[q].Erase?
    ensures Worth(w, q, PayloadOf(w, q).time, PayloadOf(w, q).data)
  {
    var g := w.aggs[w.flights[q].replica];
    assert G.Inv(g) && g.replica == w.flights[q].replica;
    Reasoned(g, q);
    hide G.Inv, AllAggs, AllAgents;
  }

  lemma Reasoned(g: G.Agg, q: Req)
    requires G.Inv(g) && q in g.answers && g.answers[q].Erase?
    ensures G.Reasonable(g, q, g.answers[q].why)
    ensures g.answers[q].why.InInsert? ==>
      var i := g.answers[q].why.bid;
      && i < |g.buckets| && q in g.buckets[i].clients
      && var kind := g.buckets[i].clients[q].kind;
      kind.KeepAlive? || (kind.Data? && q in g.inserts[i] && g.inserts[i][q] == kind.rows)
  {
    assert G.Justified(g, q, g.answers[q]);
    hide G.Inv, G.Reasonable;
    if g.answers[q].why.InInsert? { T.AckedRows(g, q, g.answers[q].why.bid); }
  }

  /** The run shows the reason: the merge of the rows and then the insert, the pop of the stale bucket at a
      moment when its second was behind the window, the arrival at such a moment, or the explicit
      rejection. */
  ghost predicate Explained(w: World, steps: seq<Step>, r: nat, q: Req, why: G.Discard)
    requires r < 3
  {
    match why
    case InInsert(i) =>
      exists j: nat, k: nat :: j < k < |steps| && steps[j] == InAgg(r, M.Merging(i, q))
                               && steps[k] == InAgg(r, M.Insertion(i, true))
    case StaleBucket(i, oldest, historicWindow) =>
      exists k: nat, u: World :: Moment(w, steps, k, u) && GivesUp(u, steps[k], r, i, Stale(oldest, historicWindow))
    case _ =>
      exists k: nat, u: World :: Moment(w, steps, k, u) && Gives(u, steps[k], r, q, G.Erase(why))
  }

  lemma InsertExplains(w0: World, steps: seq<Step>, w: World, r: nat, q: Req, i: nat) returns (j: nat, k: nat)
    requires Inv(w0) && Run(w0, steps, w) && r < 3 && i !in w0.aggs[r].inserts && !X.HasRows(w0.aggs[r], i, q)
    requires |w.aggs| == 3 && i in w.aggs[r].inserts && q in w.aggs[r].inserts[i]
    ensures j < k < |steps|
    ensures steps[j] == InAgg(r, M.Merging(i, q)) && steps[k] == InAgg(r, M.Insertion(i, true))
  {
    assert G.Inv(w0.aggs[r]);
    hide Run, Inv, G.Inv, T.Run, X.HasRows;
    var own, at := Project(w0, steps, w, r);
    j, k := X.MergedBeforeInsert(w0.aggs[r], own, w.aggs[r], i, q);
    j, k := at[j], at[k];
  }

  /** Every reason for an erase is one the run shows. */
  lemma IsExplained(w0: World, steps: seq<Step>, w: World, r: nat, q: Req)
    requires Inv(w0) && Run(w0, steps, w) && r < 3 && Untouched(w0.aggs[r])
    requires |w.aggs| == 3 && q in w.aggs[r].answers && w.aggs[r].answers[q].Erase?
    requires var why := w.aggs[r].answers[q].why;
             && G.Reasonable(w.aggs[r], q, why)
             && (why.InInsert? ==> why.bid in w.aggs[r].inserts && q in w.aggs[r].inserts[why.bid])
    ensures Explained(w0, steps, r, q, w.aggs[r].answers[q].why)
  {
    hide Run, Inv, G.Inv, Moment, GivesUp, Gives, IsStale, X.HasRows;
    match w.aggs[r].answers[q].why
    case InInsert(i) =>
      var j, k := InsertExplains(w0, steps, w, r, q, i);
    case StaleBucket(i, oldest, historicWindow) =>
      var k, u := StalePopped(w0, steps, w, r, i, Stale(oldest, historicWindow));
    case _ =>
      var k, u := AnswerGiven(w0, steps, w, r, q);
  }

  /** What is true when an agent may erase the bucket of holder `t` because of a response: its request
      carried exactly that bucket, as the disk has it if it was saved, and the response is worth it for a
      reason that the run shows. */
  ghost predicate Accounted(w0: World, steps: seq<Step>, w: World, a: nat, t: nat)
    requires Inv(w) && a in w.agents && t in w.agents[a].items && Agent.InFlight(w.agents[a].items[t].place)
  {
    var s, cbd, q := w.agents[a], w.agents[a].items[t].cbd, RequestOf(w.agents[a], t);
    && cbd.time >= 0 && Worth(w, q, cbd.time, cbd.data)
    && (cbd.id != 0 ==>
          && cbd.id in s.disk.known
          && s.disk.known[cbd.id].record.time == cbd.time && s.disk.known[cbd.id].record.body == cbd.data)
    && var r := w.flights[q].replica;
    0 <= r < 3 && Explained(w0, steps, r, q, w.aggs[r].answers[q].why)
  }

  /** End to end: whenever an agent erases a bucket because of a response, its request carried exactly
      that bucket to its primary replica or its spare, and either exactly its data was merged in this run
      and was then in an insert that succeeded, or the replica discarded it at a moment of the run at which
      its second was outside of the windows, or rejected it explicitly. */
  lemma AckedWasInserted(w0: World, starts: seq<Start>, steps: seq<Step>, w: World, a: nat, t: nat, mark: Agent.Mark)
    requires Initial(w0, starts) && Run(w0, steps, w) && Inv(w) && Enabled(w, Ack(a, t, mark))
    ensures a in w.agents && t in w.agents[a].items && Agent.InFlight(w.agents[a].items[t].place)
    ensures Accounted(w0, steps, w, a, t)
  {
    hide AllAggs, Flying, Routed, Placed, AllEvident, Run, Agent.Inv, Agent.MarkOk, Explained, Worth, Initial;
    var cbd := w.agents[a].items[t].cbd;
    AckIsWorth(w, a, t, mark);
    CarriedIsSaved(w.agents[a], t);
    WorthIsExplained(w0, starts, steps, w, RequestOf(w.agents[a], t), cbd.time, cbd.data);
  }

  lemma WorthIsExplained(w0: World, starts: seq<Start>, steps: seq<Step>, w: World, q: Req, time: nat,
                         data: seq<Records.byte>)
    requires Initial(w0, starts) && Run(w0, steps, w) && Inv(w) && Worth(w, q, time, data)
    ensures |w.aggs| == 3 && q in w.flights && 0 <= w.flights[q].replica < 3
    ensures var r := w.flights[q].replica;
            && q in w.aggs[r].answers && w.aggs[r].answers[q].Erase?
            && Explained(w0, steps, r, q, w.aggs[r].answers[q].why)
  {
    hide Flying, Routed, Placed, AllEvident, Run, Explained, G.Reasonable, G.Inv;
    var r := w.flights[q].replica;
    assert G.Inv(w.aggs[r]);
    Reasoned(w.aggs[r], q);
    InitialInv(w0, starts);
    hide Initial, Inv, Untouched;
    IsExplained(w0, steps, w, r, q);
  }

  lemma CarriedIsSaved(s: Agent.Agent, t: nat)
    requires Agent.Inv(s) && t in s.items && Agent.InFlight(s.items[t].place)
    ensures var cbd := s.items[t].cbd;
            && (cbd.id != 0 <==> cbd.id in s.disk.known)
            && (cbd.id != 0 ==>
                  s.disk.known[cbd.id].record.time == cbd.time && s.disk.known[cbd.id].record.body == cbd.data)
  {
    Agent.HoldersAreSane(s, t);
  }

  // ---------- failures ----------

  lemma {:induction false} LostStays(w: World, steps: seq<Step>, v: World, r: nat, i: nat, q: Req)
    requires Inv(w) && Run(w, steps, v) && r < 3 && T.Lost(w.aggs[r], i, q)
    ensures |v.aggs| == 3 && T.Lost(v.aggs[r], i, q)
  {
    var own, at := Project(w, steps, v, r);
    assert G.Inv(w.aggs[r]);
    hide Inv, G.Inv, Run, T.Run, T.Lost, Among;
    T.LostRun(w.aggs[r], own, v.aggs[r], i, q);
  }

  /** A failed insert or a full conveyor is never the reason for an erase: whatever happens after it,
      what the bucket had taken in stays lost to the replica, */
  lemma FailureErasesNothing(w: World, r: nat, step: M.Step, q: Req, steps: seq<Step>, v: World)
    requires Inv(w) && Enabled(w, InAgg(r, step)) && (step.Overflow? || (step.Insertion? && !step.ok))
    requires q in w.aggs[r].buckets[step.i].clients
    requires Run(Next(w, InAgg(r, step)), steps, v)
    ensures Inv(v) && T.Lost(v.aggs[r], step.i, q)
  {
    var n := Next(w, InAgg(r, step));
    StepInv(w, InAgg(r, step));
    T.LostAfter(w.aggs[r], step, q);
    hide Inv, Enabled, Run, M.Next, M.Enabled, T.Lost;
    RunInv(n, steps, v);
    LostStays(n, steps, v, r, step.i, q);
  }

  /** and no agent is ever told to erase it. */
  lemma LostIsNeverAcked(v: World, r: nat, i: nat, a: nat, t: nat, mark: Agent.Mark)
    requires Inv(v) && r < 3 && a in v.agents && t in v.agents[a].items && Agent.InFlight(v.agents[a].items[t].place)
    requires T.Lost(v.aggs[r], i, RequestOf(v.agents[a], t))
    ensures !Enabled(v, Ack(a, t, mark))
  {
    hide Agent.Inv, G.Inv, Routed, Placed, AllEvident, T.Lost;
    var q := RequestOf(v.agents[a], t);
    LostAnswer(v.aggs[r], i, q);
  }

  lemma LostAnswer(g: G.Agg, i: nat, q: Req)
    requires G.Inv(g) && T.Lost(g, i, q)
    ensures q in g.seen && (q in g.answers ==> !g.answers[q].Erase?)
  {
    hide G.AllBuckets, G.RecentOk, G.HistoricOk, G.Conserved, G.AnswersOk, G.InsertsOk, G.AnsweredOnce;
  }

  // ---------- saved buckets ----------

  /** The step lets go of the saved bucket `e` of agent `a`. */
  ghost predicate LetsGo(w: World, step: Step, a: nat, e: Disk.Entry)
    requires Inv(w) && Enabled(w, step)
  {
    match step
    case Ack(b, t, mark) =>
      && b == a
      && (|| Agent.Tears(w.agents[a], Agent.Response(t, true, mark), e)
          || (&& Agent.ErasesEntry(w.agents[a], Agent.Response(t, true, mark), e)
              && Worth(w, RequestOf(w.agents[a], t), e.record.time, e.record.body)))
    case InAgent(b, s) => b == a && Agent.Lets(w.agents[a], s, e)
    case _ => false
  }

  lemma AckLets(w: World, step: Step, e: Disk.Entry)
    requires Inv(w) && Enabled(w, step) && step.Ack?
    ensures LetsGo(w, step, step.a, e) <==> Agent.Lets(w.agents[step.a], Agent.Response(step.t, true, step.mark), e)
  {
    hide AllAggs, Flying, Routed, Placed, AllEvident, Worth, Agent.Inv, Agent.MarkOk, Agent.Tears;
    AckIsWorth(w, step.a, step.t, step.mark);
    CarriedIsSaved(w.agents[step.a], step.t);
  }

  lemma AckKeeps(w: World, step: Step, e: Disk.Entry)
    requires Inv(w) && Enabled(w, step) && step.Ack? && Agent.Safe(w.agents[step.a], e)
    ensures Agent.Safe(Next(w, step).agents[step.a], e) <==> !LetsGo(w, step, step.a, e)
  {
    var s, r := w.agents[step.a], Agent.Response(step.t, true, step.mark);
    hide AllAggs, Flying, Routed, Placed, AllEvident, Worth, Agent.Inv, Agent.Safe, Agent.Next, Agent.Lets, LetsGo;
    Agent.StepKeeps(s, r, e);
    AckLets(w, step, e);
  }

  lemma StepKeeps(w: World, step: Step, a: nat, e: Disk.Entry)
    requires Inv(w) && Enabled(w, step) && a in w.agents && Agent.Safe(w.agents[a], e)
    ensures a in Next(w, step).agents && (Agent.Safe(Next(w, step).agents[a], e) <==> !LetsGo(w, step, a, e))
  {
    hide AllAggs, Flying, Routed, Placed, AllEvident, Worth, Agent.Inv, Agent.Safe, Agent.Next, Agent.Lets, LetsGo;
    match step
    case Ack(b, _, _) => if b == a { AckKeeps(w, step, e); } else { NotMine(w, step, a, e); }
    case InAgent(b, s) => if b == a { OwnKeeps(w, step, e); } else { NotMine(w, step, a, e); }
    case SendTo(b, t, q, _) => if b == a { SendKeeps(w.agents[a], t, q, e); } NotLetGo(w, step, a, e);
    case _ => NotMine(w, step, a, e);
  }

  lemma OwnKeeps(w: World, step: Step, e: Disk.Entry)
    requires Inv(w) && Enabled(w, step) && step.InAgent? && Agent.Safe(w.agents[step.a], e)
    ensures Agent.Safe(Next(w, step).agents[step.a], e) <==> !LetsGo(w, step, step.a, e)
  {
    hide AllAggs, Flying, Routed, Placed, AllEvident, Agent.Inv, Agent.Safe, Agent.Next, Agent.Lets;
    Agent.StepKeeps(w.agents[step.a], step.step, e);
  }

  lemma NotLetGo(w: World, step: Step, a: nat, e: Disk.Entry)
    requires Inv(w) && Enabled(w, step) && !((step.Ack? || step.InAgent?) && step.a == a)
    ensures !LetsGo(w, step, a, e)
  {
    hide AllAggs, AllAgents, Flying, Routed, Placed, AllEvident, Agent.Lets, M.Enabled, Agent.Enabled;
  }

  lemma NotMine(w: World, step: Step, a: nat, e: Disk.Entry)
    requires Inv(w) && Enabled(w, step) && a in w.agents
    requires !((step.Ack? || step.InAgent? || step.SendTo?) && step.a == a)
    ensures a in Next(w, step).agents && Next(w, step).agents[a] == w.agents[a] && !LetsGo(w, step, a, e)
  {
    NotLetGo(w, step, a, e);
    hide Routed, Placed, AllEvident, LetsGo, M.Enabled, M.Next, Agent.Enabled, Agent.Next, Agent.Inv, G.Inv;
  }

  lemma SendKeeps(s: Agent.Agent, t: nat, q: Req, e: Disk.Entry)
    requires Agent.Inv(s) && Agent.Enabled(s, Agent.Send(t, q)) && Agent.Safe(s, e)
    ensures Agent.Safe(Agent.Next(s, Agent.Send(t, q)), e)
  {
    hide Agent.Inv;
  }

  ghost predicate LetGo(w: World, steps: seq<Step>, a: nat, e: Disk.Entry)
    decreases |steps|
  {
    && steps != [] && Inv(w) && Enabled(w, steps[0])
    && (LetsGo(w, steps[0], a, e) || LetGo(Next(w, steps[0]), steps[1..], a, e))
  }

  /** In every run of the whole system, restarts, torn marks and unreadable files included, a bucket that
      is safe on an agent's disk stays so until the agent lets go of it for one of the listed reasons, the
      first of which is an acknowledgement with the worth stated above. */
  lemma {:induction false} SavedUntilDelivered(w: World, steps: seq<Step>, v: World, a: nat, e: Disk.Entry)
    requires Inv(w) && Run(w, steps, v) && a in w.agents && Agent.Safe(w.agents[a], e)
    ensures LetGo(w, steps, a, e) || (a in v.agents && Agent.Safe(v.agents[a], e))
    decreases |steps|
  {
    hide Inv, Enabled, Next, LetsGo, Agent.Safe;
    if steps != [] {
      var n := Next(w, steps[0]);
      StepInv(w, steps[0]);
      StepKeeps(w, steps[0], a, e);
      if Agent.Safe(n.agents[a], e) {
        SavedUntilDelivered(n, steps[1..], v, a, e);
      }
    }
  }
}
