/** Agents and replicas together never come to a dead end: whatever has happened, every bucket an agent still
    has can be delivered. */
module Progress {
  import opened AggBucket
  import opened Routing
  import opened RecentWindow
  import opened Delivery
  import opened EndToEnd
  import Records
  import Disk = Store
  import Agent
  import P = AgentProgress
  import G = Aggregator
  import M = AggMachine
  import T = AggTheorems
  import W = AggWindow
  import N = AggAnswers
  import Q = AggProgress

  // ---------- runs of a part are runs of the whole ----------

  /** Internal steps of a replica, seen from the whole. */
  lemma {:induction false} LiftAgg(w: World, r: nat, own: seq<M.Step>, g: G.Agg) returns (steps: seq<Step>, v: World)
    requires Inv(w) && r < 3 && T.Run(w.aggs[r], own, g) && W.Internal(own)
    ensures Run(w, steps, v) && Inv(v) && v == WithAgg(w, r, g)
    decreases |own|
  {
    if own == [] {
      steps, v := [], w;
      assert w.aggs[r := g] == w.aggs;
    } else {
      var step := InAgg(r, own[0]);
      LiftOne(w, r, own[0]);
      RunOne(w, step);
      var n := Next(w, step);
      assert W.Internal(own[1..]);
      hide Inv, Enabled, Next, T.Run, M.Next, M.Enabled;
      var rest;
      rest, v := LiftAgg(n, r, own[1..], g);
      steps := [step] + rest;
      RunConcat(w, [step], n, rest, v);
      assert n.aggs[r := g] == w.aggs[r := g];
    }
  }

  lemma LiftOne(w: World, r: nat, step: M.Step)
    requires Inv(w) && r < 3 && G.Window(w.aggs[r]) && G.HistoricOk(w.aggs[r]) && M.Enabled(w.aggs[r], step)
    requires !step.Arrival? && !step.Ping? && !step.Rejection?
    ensures Enabled(w, InAgg(r, step)) && Next(w, InAgg(r, step)) == WithAgg(w, r, M.Next(w.aggs[r], step))
  {
    hide M.Enabled, M.Next, G.Core, Agent.Inv;
  }

  /** Quiet steps of an agent, seen from the whole. */
  lemma {:induction false} LiftAgent(w: World, a: nat, own: seq<Agent.Step>, s: Agent.Agent)
    returns (steps: seq<Step>, v: World)
    requires Inv(w) && a in w.agents && Agent.Run(w.agents[a], own, s) && P.AllQuietly(own)
    ensures Run(w, steps, v) && Inv(v) && v == WithAgent(w, a, s)
    decreases |own|
  {
    hide Inv, Enabled, Next, Agent.Next, Agent.Enabled, Agent.Inv, Run;
    if own == [] {
      RunNowhere(w);
      steps, v := [], w;
      assert w.agents[a := s] == w.agents;
    } else {
      var step := InAgent(a, own[0]);
      assert P.Quietly(own[0]);
      LiftQuiet(w, a, own[0]);
      RunOne(w, step);
      var n := Next(w, step);
      hide Agent.Run;
      var rest;
      rest, v := LiftAgent(n, a, own[1..], s);
      steps := [step] + rest;
      RunConcat(w, [step], n, rest, v);
      assert n.agents[a := s] == w.agents[a := s];
    }
  }

  lemma LiftQuiet(w: World, a: nat, step: Agent.Step)
    requires Inv(w) && a in w.agents && Agent.Inv(w.agents[a]) && Agent.Enabled(w.agents[a], step) && P.Quietly(step)
    ensures Enabled(w, InAgent(a, step))
    ensures Next(w, InAgent(a, step)) == WithAgent(w, a, Agent.Next(w.agents[a], step))
  {
    hide Agent.Enabled, Agent.Next, G.Inv, Agent.Inv;
  }

  // ---------- in every reachable state ----------

  ghost predicate AllTracked(w: World) {
    |w.aggs| == 3 && forall r | 0 <= r < 3 :: Q.Tracked(w.aggs[r])
  }

  lemma ReachableTracked(w0: World, starts: seq<Start>, steps: seq<Step>, w: World)
    requires Initial(w0, starts) && Run(w0, steps, w)
    ensures Inv(w) && AllTracked(w)
  {
    InitialInv(w0, starts);
    RunInv(w0, steps, w);
    hide Inv, Run;
    forall r: nat | r < 3 ensures |w.aggs| == 3 && Q.Tracked(w.aggs[r]) {
      Q.InitTracked(r, starts[r].now, starts[r].shortWindow);
      T.InitInv(r, starts[r].now, starts[r].shortWindow);
      var own, at := Project(w0, steps, w, r);
      hide T.Init, G.Inv, T.Run, Q.Tracked, Among;
      Q.RunTracked(w0.aggs[r], own, w.aggs[r]);
    }
  }

  // ---------- the parts of a delivery ----------

  lemma {:induction false} Above(keys: set<nat>) returns (q: nat)
    ensures forall k | k in keys :: k < q
    decreases |keys|
  {
    q := 0;
    if k :| k in keys {
      var rest := Above(keys - {k});
      q := if rest > k then rest else k + 1;
      assert keys == keys - {k} + {k};
    }
  }

  /** Nobody has heard of the request. */
  predicate NewReq(w: World, q: Req) {
    q !in w.flights && forall r | 0 <= r < |w.aggs| :: q !in w.aggs[r].seen
  }

  lemma SomeNewReq(w: World) returns (q: Req)
    requires |w.aggs| == 3
    ensures NewReq(w, q)
  {
    q := Above(w.flights.Keys + w.aggs[0].seen + w.aggs[1].seen + w.aggs[2].seen);
    assert q !in w.aggs[0].seen && q !in w.aggs[1].seen && q !in w.aggs[2].seen;
  }

  /** The bucket is in flight to its primary. */
  ghost predicate InTheAir(w: World, a: nat, t: nat, q: Req) {
    && a in w.agents && t in w.agents[a].items && w.agents[a].items[t].place == Agent.Historic(Agent.Asked(q))
    && q in w.agents[a].asked && w.agents[a].asked[q].historic
    && q in w.flights && w.flights[q] == Flight(a, Primary(w.agents[a].asked[q].time))
  }

  lemma Sends(w: World, a: nat, t: nat) returns (steps: seq<Step>, v: World, q: Req)
    requires Inv(w) && a in w.agents && t in w.agents[a].items
    requires w.agents[a].items[t].place == Agent.Historic(Agent.Ready)
    ensures Run(w, steps, v) && Inv(v) && v.aggs == w.aggs && InTheAir(v, a, t, q) && NewTo(v, q)
    ensures v.agents[a].asked[q].time == w.agents[a].items[t].cbd.time
  {
    q := SomeNewReq(w);
    var step := SendTo(a, t, q, [true, true, true]);
    SendWorks(w, a, t, q);
    RunOne(w, step);
    v := Next(w, step);
    steps := [step];
    hide Inv, Run;
  }

  /** No replica has heard of the request. */
  predicate NewTo(w: World, q: Req) {
    forall r | 0 <= r < |w.aggs| :: q !in w.aggs[r].seen
  }

  lemma SendWorks(w: World, a: nat, t: nat, q: Req)
    requires Inv(w) && a in w.agents && t in w.agents[a].items && NewReq(w, q)
    requires w.agents[a].items[t].place == Agent.Historic(Agent.Ready)
    ensures Enabled(w, SendTo(a, t, q, [true, true, true]))
    ensures var v := Next(w, SendTo(a, t, q, [true, true, true]));
            && v.aggs == w.aggs && InTheAir(v, a, t, q)
            && v.agents[a].asked[q].time == w.agents[a].items[t].cbd.time
  {
    Agent.HoldersAreSane(w.agents[a], t);
    hide G.Inv, Agent.Inv, Routed, Placed, AllEvident;
  }

  /** The replica may take the request in. */
  function Arrival(q: Req, p: Agent.Payload, historicWindow: nat): M.Step {
    M.Arrival(q, p.time, p.data, true, historicWindow, 0, false, true)
  }

  lemma ArrivalErases(g: G.Agg, q: Req, p: Agent.Payload) returns (own: seq<M.Step>, h: G.Agg, historicWindow: nat)
    requires G.Inv(g) && Q.Tracked(g) && !g.closing && q !in g.seen
    ensures G.Window(g) && G.HistoricOk(g) && M.Enabled(g, Arrival(q, p, historicWindow))
    ensures T.Run(M.Next(g, Arrival(q, p, historicWindow)), own, h) && W.Internal(own)
    ensures q in h.answers && h.answers[q].Erase?
  {
    hide G.Inv, G.HistoricOk, M.Next, Q.Tracked, T.Run, N.TakenIn, G.Expects, G.RecentOk, W.Internal;
    M.InvLists(g);
    historicWindow := G.OldestTime(g) + 1;
    var step := Arrival(q, p, historicWindow);
    assert M.Enabled(g, step);
    hide M.Enabled, G.Window;
    var i;
    h, i := AfterArrival(g, step);
    own := [];
    T.RunNowhere(h);
    if N.TakenIn(g, p.time, true, historicWindow) {
      own, h := Q.CanBeAnswered(h, i, q);
    } else {
      RefusedAhead(g, step);
    }
    OwnIsInternal(own);
  }

  lemma AfterArrival(g: G.Agg, step: M.Step) returns (h: G.Agg, i: nat)
    requires G.Inv(g) && Q.Tracked(g) && G.Window(g) && G.HistoricOk(g) && M.Enabled(g, step) && step.Arrival?
    requires !step.simulated
    ensures h == M.Next(g, step) && G.Inv(h) && Q.Tracked(h)
    ensures N.TakenIn(g, step.time, step.historic, step.historicWindow) ==>
              && i < |h.buckets| && step.q in h.buckets[i].clients && h.buckets[i].clients[step.q].kind.Data?
              && h.buckets[i].stage.Collecting? && G.Expects(h.buckets[i], step.q)
    ensures step.q !in g.answers
  {
    Unheard(g, step.q);
    hide G.Inv, G.Window, G.HistoricOk, M.Next, Q.Tracked, N.TakenIn;
    M.StepInv(g, step);
    Q.StepTracked(g, step);
    h := M.Next(g, step);
    i := N.ArrivalLands(g, step);
  }

  lemma Unheard(g: G.Agg, q: Req)
    requires G.Inv(g)
    ensures q !in g.seen ==> q !in g.answers
  {
    hide G.AllBuckets, G.RecentOk, G.HistoricOk, G.Conserved, G.Owned, G.InsertsOk, G.AnsweredOnce, G.Justified;
  }

  lemma OwnIsInternal(own: seq<M.Step>)
    requires Q.AllOwn(own)
    ensures W.Internal(own)
  {
    forall i | 0 <= i < |own| ensures !own[i].Arrival? && !own[i].Ping? && !own[i].Rejection? {
      assert Q.Own(own[i]);
    }
  }

  /** A historic bucket that is not taken in although its window is long enough lies too far ahead. */
  lemma RefusedAhead(g: G.Agg, step: M.Step)
    requires G.Inv(g) && G.Window(g) && G.HistoricOk(g) && M.Enabled(g, step) && step.Arrival? && step.historic
    requires !g.closing && step.historicWindow > G.OldestTime(g)
    requires !N.TakenIn(g, step.time, step.historic, step.historicWindow) && step.q !in g.answers
    ensures var h := M.Next(g, step); step.q in h.answers && h.answers[step.q].Erase?
  {
    var a := G.Erase(G.TooFarInFuture(step.time, G.NewestTime(g)));
    N.AnswersExactly(g, step, step.q, a);
    hide G.Core, G.RecentOk, G.HistoricOk, M.Next, M.Enabled;
  }

  lemma Arrives(w: World, a: nat, t: nat, q: Req, historicWindow: nat) returns (v: World)
    requires Inv(w) && InTheAir(w, a, t, q)
    requires var r := Primary(w.agents[a].asked[q].time);
             && G.Window(w.aggs[r]) && G.HistoricOk(w.aggs[r])
             && M.Enabled(w.aggs[r], Arrival(q, w.agents[a].asked[q], historicWindow))
    ensures var r := Primary(w.agents[a].asked[q].time);
            v == WithAgg(w, r, M.Next(w.aggs[r], Arrival(q, w.agents[a].asked[q], historicWindow)))
    ensures Inv(v) && Run(w, [Deliver(q, historicWindow, 0, false, true)], v)
  {
    var step := Deliver(q, historicWindow, 0, false, true);
    hide G.Inv, M.Enabled, M.Next, Agent.Inv;
    assert ArrivalOf(w, step) == Arrival(q, w.agents[a].asked[q], historicWindow);
    v := Next(w, step);
    RunOne(w, step);
    hide Inv, Run;
  }

  /** The replica takes the bucket in and comes to tell the agent that it may erase it. */
  lemma Answers(w: World, a: nat, t: nat, q: Req) returns (steps: seq<Step>, v: World)
    requires Inv(w) && AllTracked(w) && InTheAir(w, a, t, q) && NewTo(w, q)
    requires !w.aggs[Primary(w.agents[a].asked[q].time)].closing
    ensures Run(w, steps, v) && Inv(v) && v.agents == w.agents && v.flights == w.flights
    ensures var g := v.aggs[Primary(w.agents[a].asked[q].time)]; q in g.answers && g.answers[q].Erase?
  {
    var r := Primary(w.agents[a].asked[q].time);
    hide G.Inv, G.Window, G.HistoricOk, M.Enabled, M.Next, T.Run, Q.Tracked, Agent.Inv, Run, Flying, Routed, Placed;
    hide AllEvident, AllAgents, W.Internal;
    var own, h, historicWindow := ArrivalErases(w.aggs[r], q, w.agents[a].asked[q]);
    var m := Arrives(w, a, t, q, historicWindow);
    steps, v := LiftAgg(m, r, own, h);
    RunConcat(w, [Deliver(q, historicWindow, 0, false, true)], m, steps, v);
    steps := [Deliver(q, historicWindow, 0, false, true)] + steps;
  }

  lemma AckWorks(w: World, a: nat, t: nat, q: Req)
    requires Inv(w) && InTheAir(w, a, t, q)
    requires var g := w.aggs[Primary(w.agents[a].asked[q].time)]; q in g.answers && g.answers[q].Erase?
    ensures Enabled(w, Ack(a, t, P.NoMark()))
    ensures var v := Next(w, Ack(a, t, P.NoMark())); a in v.agents && t !in v.agents[a].items
  {
    hide G.Inv, Agent.Inv, Routed, Placed, AllEvident;
  }

  // ---------- every bucket can be delivered ----------

  /** The run ends with the acknowledgement of item `t` of agent `a`. */
  predicate EndsWithAck(steps: seq<Step>, a: nat, t: nat) {
    steps != [] && steps[|steps| - 1] == Ack(a, t, P.NoMark())
  }

  lemma FromSender(w: World, a: nat, t: nat) returns (steps: seq<Step>, v: World)
    requires Inv(w) && AllTracked(w) && a in w.agents && t in w.agents[a].items
    requires w.agents[a].items[t].place == Agent.Historic(Agent.Ready) && w.agents[a].items[t].cbd.time >= 0
    requires !w.aggs[Primary(w.agents[a].items[t].cbd.time)].closing
    ensures Run(w, steps, v) && Inv(v) && EndsWithAck(steps, a, t) && a in v.agents && t !in v.agents[a].items
  {
    hide Inv, Enabled, Next, Run, Q.Tracked;
    var q;
    steps, v, q := Sends(w, a, t);
    var m, more := v, [];
    more, v := Answers(m, a, t, q);
    RunConcat(w, steps, m, more, v);
    steps := steps + more;
    m := v;
    AckWorks(m, a, t, q);
    RunOne(m, Ack(a, t, P.NoMark()));
    v := Next(m, Ack(a, t, P.NoMark()));
    RunConcat(w, steps, m, [Ack(a, t, P.NoMark())], v);
    steps := steps + [Ack(a, t, P.NoMark())];
  }

  lemma FromMemory(w: World, a: nat, t: nat, time: nat, data: seq<Records.byte>) returns (steps: seq<Step>, v: World)
    requires Inv(w) && AllTracked(w) && a in w.agents && Agent.Holds(w.agents[a], t, time, data)
    requires !w.aggs[Primary(time)].closing
    ensures Run(w, steps, v) && Inv(v) && EndsWithAck(steps, a, t) && a in v.agents && t !in v.agents[a].items
  {
    AgentOf(w, a);
    hide Inv, Enabled, Next, Run, Agent.Inv, Agent.Run, Agent.Holds, Q.Tracked, P.AllQuietly, EndsWithAck;
    var own, s := P.CanBeSent(w.agents[a], t, time, data);
    HeldTime(s, t, time, data);
    steps, v := LiftAgent(w, a, own, s);
    var m, more := v, [];
    more, v := FromSender(m, a, t);
    RunConcat(w, steps, m, more, v);
    AckStays(steps, more, a, t);
    steps := steps + more;
  }

  lemma AgentOf(w: World, a: nat)
    requires Inv(w) && a in w.agents
    ensures Agent.Inv(w.agents[a])
  {
    hide Agent.Inv, AllAggs, Flying, Routed, Placed, AllEvident;
  }

  lemma HeldTime(s: Agent.Agent, t: nat, time: int, data: seq<Records.byte>)
    requires Agent.Holds(s, t, time, data)
    ensures t in s.items && s.items[t].cbd.time == time
  {}

  lemma AckStays(steps: seq<Step>, more: seq<Step>, a: nat, t: nat)
    requires EndsWithAck(more, a, t)
    ensures EndsWithAck(steps + more, a, t)
  {}

  /** From every reachable state: a bucket in the memory of an agent, wherever it is there, can still be
      delivered, by a run that ends with its acknowledgement; only its replica must not be closing down. */
  lemma CanBeDelivered(w0: World, starts: seq<Start>, past: seq<Step>, w: World, a: nat, t: nat, time: nat,
                       data: seq<Records.byte>)
    returns (steps: seq<Step>, v: World)
    requires Initial(w0, starts) && Run(w0, past, w) && a in w.agents && Agent.Holds(w.agents[a], t, time, data)
    requires |w.aggs| == 3 && !w.aggs[Primary(time)].closing
    ensures Run(w, steps, v) && EndsWithAck(steps, a, t) && a in v.agents && t !in v.agents[a].items
  {
    hide Initial, Inv, Run, Agent.Holds, EndsWithAck, AllTracked;
    ReachableTracked(w0, starts, past, w);
    steps, v := FromMemory(w, a, t, time, data);
  }

  /** And so can a bucket of which an agent has nothing but the record on its disk. */
  lemma SafeCanBeDelivered(w0: World, starts: seq<Start>, past: seq<Step>, w: World, a: nat, e: Disk.Entry)
    returns (steps: seq<Step>, v: World, t: nat)
    requires Initial(w0, starts) && Run(w0, past, w) && a in w.agents && Agent.Safe(w.agents[a], e)
    requires |w.aggs| == 3 && 0 <= e.record.time && !w.aggs[Primary(e.record.time)].closing
    ensures Run(w, steps, v) && EndsWithAck(steps, a, t) && a in v.agents && t !in v.agents[a].items
  {
    hide Initial, Inv, Run, Agent.Inv, Agent.Run, Agent.Holds, EndsWithAck, Q.Tracked, P.AllQuietly, Disk.OnDisk;
    ReachableTracked(w0, starts, past, w);
    AgentOf(w, a);
    var own, s;
    own, s, t := P.CanBeHeld(w.agents[a], e);
    steps, v := LiftAgent(w, a, own, s);
    var m, more := v, [];
    more, v := FromMemory(m, a, t, e.record.time, e.record.body);
    RunConcat(w, steps, m, more, v);
    AckStays(steps, more, a, t);
    steps := steps + more;
  }
}
