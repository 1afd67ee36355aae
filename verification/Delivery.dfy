/** Agents and the three replicas of their shard together: what an acknowledgement is worth. */
module Delivery {
  import opened Records
  import opened Store
  import opened AggBucket
  import opened Routing
  import Agent
  import G = Aggregator
  import M = AggMachine
  import R = AggRuns
  import T = AggTheorems
  import W = AggWindow
  import X = AggReasons

  /** Who sent a request, and to which replica. */
  datatype Flight = Flight(agent: nat, replica: int)

  datatype World = World(agents: map<nat, Agent.Agent>, aggs: seq<G.Agg>, flights: map<Req, Flight>)

  datatype Step =
    | InAgent(a: nat, step: Agent.Step) // anything but sending, and being told to erase
    | SendTo(a: nat, t: nat, q: Req, alive: seq<bool>)
    | Deliver(q: Req, historicWindow: nat, host: HostKey, simulated: bool, started: bool)
    | InAgg(r: nat, aggStep: M.Step) // anything but the arrival of a bucket
    | Ack(a: nat, t: nat, mark: Agent.Mark) // the agent gets a response that lets it erase

  // ---------- the invariant ----------

  ghost predicate AllAggs(w: World) {
    |w.aggs| == 3 && forall r | 0 <= r < 3 :: G.Inv(w.aggs[r]) && w.aggs[r].replica == r
  }

  predicate AllAgents(w: World) {
    forall a | a in w.agents :: Agent.Inv(w.agents[a])
  }

  /** Requests of agents are flights, and a flight is seen by no replica but its own. */
  predicate Flying(w: World)
    requires |w.aggs| == 3
  {
    && (forall a, q | a in w.agents && q in w.agents[a].asked :: q in w.flights && w.flights[q].agent == a)
    && (forall q | q in w.flights ::
          && w.flights[q].agent in w.agents && q in w.agents[w.flights[q].agent].asked
          && 0 <= w.flights[q].replica < 3)
    && (forall r, q | 0 <= r < 3 && q in w.aggs[r].seen && q in w.flights :: w.flights[q].replica == r)
  }

  /** Requests only go to the primary replica of their second or to its spare. */
  predicate Routed(w: World) {
    forall q | q in w.flights && w.flights[q].agent in w.agents && q in w.agents[w.flights[q].agent].asked ::
      w.flights[q].replica in {Primary(PayloadOf(w, q).time), Spare(PayloadOf(w, q).time)}
  }

  /** The second under which a bucket takes in data of second `time`. */
  predicate Fits(b: Bucket, replica: int, time: nat) {
    0 <= replica < 3 && if b.fromHistoric then b.time == time else b.time == Rounded(time, replica)
  }

  /** The request has come to this bucket of the right second with what its agent sent, or to be failed. */
  predicate Carries(b: Bucket, replica: int, q: Req, p: Agent.Payload) {
    Fits(b, replica, p.time) && q in b.clients && b.clients[q].kind in {Simulated, Data(p.data)}
  }

  /** Whatever a flight carried is in a bucket of the right second. */
  ghost predicate Placed(w: World)
    requires |w.aggs| == 3
  {
    forall r, i, q | 0 <= r < 3 && 0 <= i < |w.aggs[r].buckets|
                     && q in w.aggs[r].buckets[i].clients && q in w.flights ::
      && w.flights[q].agent in w.agents && q in w.agents[w.flights[q].agent].asked
      && Carries(w.aggs[r].buckets[i], r, q, w.agents[w.flights[q].agent].asked[q])
  }

  /** A refusal for its second is about the second the request carried. */
  predicate Evident(a: G.Answer, p: Agent.Payload) {
    a.Erase? ==>
      match a.why
      case BeyondWindow(time, _, _) => time == p.time && p.historic
      case TooFarInFuture(time, _) => time == p.time
      case _ => true
  }

  predicate AllEvident(w: World)
    requires |w.aggs| == 3
  {
    forall r, q | 0 <= r < 3 && q in w.aggs[r].answers && q in w.flights ::
      && w.flights[q].agent in w.agents && q in w.agents[w.flights[q].agent].asked
      && Evident(w.aggs[r].answers[q], w.agents[w.flights[q].agent].asked[q])
  }

  ghost predicate Inv(w: World) {
    AllAggs(w) && AllAgents(w) && Flying(w) && Routed(w) && Placed(w) && AllEvident(w)
  }

  // ---------- the steps ----------

  function RequestOf(s: Agent.Agent, t: nat): Req
    requires t in s.items && Agent.InFlight(s.items[t].place)
  {
    s.items[t].place.phase.q
  }

  function SecondOf(s: Agent.Agent, t: nat): nat
    requires Agent.Inv(s) && t in s.items
  {
    Agent.HoldersAreSane(s, t);
    s.items[t].cbd.time
  }

  ghost predicate Enabled(w: World, step: Step)
    requires Inv(w)
  {
    match step
    case InAgent(a, s) =>
      a in w.agents && Agent.Enabled(w.agents[a], s) && !s.Send? && !(s.Response? && s.discard)
    case SendTo(a, t, q, alive) =>
      && a in w.agents && Agent.Enabled(w.agents[a], Agent.Send(t, q))
      && q !in w.flights && (forall r | 0 <= r < 3 :: q !in w.aggs[r].seen)
      && |alive| == 3 && ShardReplicaForSecond(alive, SecondOf(w.agents[a], t)).To?
    case Deliver(q, historicWindow, host, simulated, started) =>
      && q in w.flights
      && (M.InvLists(w.aggs[w.flights[q].replica]); M.Enabled(w.aggs[w.flights[q].replica], ArrivalOf(w, step)))
    case InAgg(r, s) =>
      && r < 3 && (M.InvLists(w.aggs[r]); M.Enabled(w.aggs[r], s)) && !s.Arrival?
      && (s.Ping? ==> s.q !in w.flights)
      && (s.Rejection? && s.q in w.flights ==> w.flights[s.q].replica == r)
    case Ack(a, t, mark) =>
      && a in w.agents && Agent.Enabled(w.agents[a], Agent.Response(t, true, mark))
      && var q := RequestOf(w.agents[a], t);
      && q in w.flights && var g := w.aggs[w.flights[q].replica]; q in g.answers && g.answers[q].Erase?
  }

  function PayloadOf(w: World, q: Req): Agent.Payload
    requires q in w.flights && w.flights[q].agent in w.agents && q in w.agents[w.flights[q].agent].asked
  {
    w.agents[w.flights[q].agent].asked[q]
  }

  function ArrivalOf(w: World, step: Step): M.Step
    requires step.Deliver? && step.q in w.flights && w.flights[step.q].agent in w.agents
    requires step.q in w.agents[w.flights[step.q].agent].asked
  {
    var p := PayloadOf(w, step.q);
    M.Arrival(step.q, p.time, p.data, p.historic, step.historicWindow, step.host, step.simulated, step.started)
  }

  predicate Brings(step: M.Step, p: Agent.Payload)
    requires step.Arrival?
  {
    step.time == p.time && step.rows == p.data && step.historic == p.historic
  }

  function WithAgent(w: World, a: nat, s: Agent.Agent): World {
    w.(agents := w.agents[a := s])
  }

  function WithAgg(w: World, r: nat, g: G.Agg): World
    requires r < |w.aggs|
  {
    w.(aggs := w.aggs[r := g])
  }

  ghost function Next(w: World, step: Step): World
    requires Inv(w) && Enabled(w, step)
  {
    match step
    case InAgent(a, s) => WithAgent(w, a, Agent.Next(w.agents[a], s))
    case SendTo(a, t, q, alive) =>
      var replica := ShardReplicaForSecond(alive, SecondOf(w.agents[a], t)).replica;
      WithAgent(w, a, Agent.Next(w.agents[a], Agent.Send(t, q))).(flights := w.flights[q := Flight(a, replica)])
    case Deliver(q, _, _, _, _) =>
      var r := w.flights[q].replica;
      M.InvLists(w.aggs[r]);
      WithAgg(w, r, M.Next(w.aggs[r], ArrivalOf(w, step)))
    case InAgg(r, s) =>
      M.InvLists(w.aggs[r]);
      WithAgg(w, r, M.Next(w.aggs[r], s))
    case Ack(a, t, mark) => WithAgent(w, a, Agent.Next(w.agents[a], Agent.Response(t, true, mark)))
  }

  // ---------- every step keeps the invariant ----------

  lemma WithAgentInv(w: World, a: nat, s: Agent.Agent)
    requires Inv(w) && a in w.agents && Agent.Inv(s) && s.asked == w.agents[a].asked
    ensures Inv(WithAgent(w, a, s))
  {
    hide Agent.Inv, G.Inv, Carries, Evident;
  }

  lemma SendToInv(w: World, a: nat, s: Agent.Agent, q: Req, p: Agent.Payload, replica: int)
    requires Inv(w) && a in w.agents && Agent.Inv(s) && s.asked == w.agents[a].asked[q := p] && 0 <= replica < 3
    requires replica in {Primary(p.time), Spare(p.time)}
    requires q !in w.flights && forall r | 0 <= r < 3 :: q !in w.aggs[r].seen
    ensures Inv(WithAgent(w, a, s).(flights := w.flights[q := Flight(a, replica)]))
  {
    hide Agent.Inv, G.Core, Carries;
    forall r, i | 0 <= r < 3 && 0 <= i < |w.aggs[r].buckets| ensures q !in w.aggs[r].buckets[i].clients {
      R.Newcomer(w.aggs[r], i, q);
    }
    forall r | 0 <= r < 3 ensures q !in w.aggs[r].answers { Unanswered(w.aggs[r], q); }
    SendFlies(w, a, s, q, p, replica);
    hide G.Inv, Flying, Routed, Evident;
  }

  lemma Unanswered(s: G.Agg, q: Req)
    requires G.Core(s) && q !in s.seen
    ensures q !in s.answers
  {}

  lemma SendFlies(w: World, a: nat, s: Agent.Agent, q: Req, p: Agent.Payload, replica: int)
    requires |w.aggs| == 3 && Flying(w) && Routed(w) && a in w.agents && s.asked == w.agents[a].asked[q := p]
    requires 0 <= replica < 3 && replica in {Primary(p.time), Spare(p.time)}
    requires q !in w.flights && forall r | 0 <= r < 3 :: q !in w.aggs[r].seen
    ensures var n := WithAgent(w, a, s).(flights := w.flights[q := Flight(a, replica)]);
            Flying(n) && Routed(n)
  {
    hide Primary, Spare;
  }

  lemma WithAggInv(w: World, r: nat, g: G.Agg)
    requires Inv(w) && r < 3 && G.Inv(g) && g.replica == r
    requires forall q | q in g.seen && q in w.flights :: w.flights[q].replica == r
    requires forall i, q | 0 <= i < |g.buckets| && q in g.buckets[i].clients && q in w.flights ::
               Carries(g.buckets[i], r, q, PayloadOf(w, q))
    requires forall q | q in g.answers && q in w.flights :: Evident(g.answers[q], PayloadOf(w, q))
    ensures Inv(WithAgg(w, r, g))
  {
    hide Agent.Inv, G.Inv, Carries, Evident;
  }

  /** What an aggregator's step does to the flights in its buckets. */
  lemma AggStepPlaces(w: World, r: nat, step: M.Step, i: nat, q: Req)
    requires Inv(w) && r < 3 && G.Window(w.aggs[r]) && G.HistoricOk(w.aggs[r]) && M.Enabled(w.aggs[r], step)
    requires step.Ping? ==> step.q !in w.flights
    requires step.Arrival? ==> step.q in w.flights && Brings(step, PayloadOf(w, step.q))
    ensures var g := M.Next(w.aggs[r], step);
            i < |g.buckets| && q in g.buckets[i].clients && q in w.flights ==>
              Carries(g.buckets[i], r, q, PayloadOf(w, q))
  {
    hide Agent.Inv, G.Inv, G.Window, G.HistoricOk, M.Enabled, M.Next, R.LaterBucket, Routed, AllEvident;
    var s, g := w.aggs[r], M.Next(w.aggs[r], step);
    W.NewClients(s, step, i, q);
    R.StepLater(s, step);
    if i < |s.buckets| && q in s.buckets[i].clients && q in w.flights {
      StillCarries(s.buckets[i], g.buckets[i], r, q, PayloadOf(w, q));
    } else if step.Arrival? && q == step.q {
      ArrivalPlaces(s, step, i);
    }
  }

  lemma StillCarries(a: Bucket, b: Bucket, replica: int, q: Req, p: Agent.Payload)
    requires Carries(a, replica, q, p) && R.LaterBucket(a, b)
    ensures Carries(b, replica, q, p)
  {}

  lemma ArrivalPlaces(s: G.Agg, step: M.Step, i: nat)
    requires G.Inv(s) && G.Window(s) && G.HistoricOk(s) && M.Enabled(s, step) && step.Arrival?
    ensures var g := M.Next(s, step);
            i < |g.buckets| && step.q in g.buckets[i].clients ==>
              && Fits(g.buckets[i], s.replica, step.time)
              && g.buckets[i].clients[step.q].kind in {Simulated, Data(step.rows)}
  {
    hide G.Core, G.HistoricOk;
    W.ArrivePlace(s, step.q, step.time, step.rows, step.historic, step.historicWindow, step.host,
                  step.simulated, step.started, i);
  }

  /** What an aggregator's step tells the flights it refuses. */
  lemma AggStepEvident(w: World, r: nat, step: M.Step, q: Req)
    requires Inv(w) && r < 3 && G.Window(w.aggs[r]) && G.HistoricOk(w.aggs[r]) && M.Enabled(w.aggs[r], step)
    requires step.Arrival? ==> step.q in w.flights && Brings(step, PayloadOf(w, step.q))
    ensures var g := M.Next(w.aggs[r], step);
            q in g.answers && q in w.flights ==> Evident(g.answers[q], PayloadOf(w, q))
  {
    var s, g := w.aggs[r], M.Next(w.aggs[r], step);
    hide Agent.Inv, G.Core, G.Window, G.HistoricOk, M.Enabled, M.Next, R.LaterBucket;
    R.StepLater(s, step);
    if q !in s.answers { X.ErasedBy(s, step, q); }
  }

  lemma AggStepInv(w: World, r: nat, step: M.Step)
    requires Inv(w) && r < 3 && G.Window(w.aggs[r]) && G.HistoricOk(w.aggs[r]) && M.Enabled(w.aggs[r], step)
    requires step.Ping? ==> step.q !in w.flights
    requires step.Arrival? ==> step.q in w.flights && w.flights[step.q].replica == r
    requires step.Arrival? ==> Brings(step, PayloadOf(w, step.q))
    requires step.Rejection? && step.q in w.flights ==> w.flights[step.q].replica == r
    ensures Inv(WithAgg(w, r, M.Next(w.aggs[r], step)))
  {
    var s, g := w.aggs[r], M.Next(w.aggs[r], step);
    M.StepInv(s, step);
    R.StepLater(s, step);
    assert g.replica == r;
    forall q | q in g.seen && q in w.flights ensures w.flights[q].replica == r { W.NewSeen(s, step, q); }
    forall i, q | 0 <= i < |g.buckets| && q in g.buckets[i].clients && q in w.flights
      ensures Carries(g.buckets[i], r, q, PayloadOf(w, q))
    {
      AggStepPlaces(w, r, step, i, q);
    }
    forall q | q in g.answers && q in w.flights ensures Evident(g.answers[q], PayloadOf(w, q)) {
      AggStepEvident(w, r, step, q);
    }
    hide M.Next, M.Enabled, Inv;
    WithAggInv(w, r, g);
  }

  lemma AgentStepInv(w: World, a: nat, step: Agent.Step)
    requires Inv(w) && a in w.agents && Agent.Enabled(w.agents[a], step) && !step.Send?
    ensures Inv(WithAgent(w, a, Agent.Next(w.agents[a], step)))
  {
    hide Agent.Inv, Agent.Next, Agent.Enabled, AllAggs, Flying, Routed, Placed, AllEvident;
    Agent.StepInv(w.agents[a], step);
    Agent.AskStep(w.agents[a], step);
    WithAgentInv(w, a, Agent.Next(w.agents[a], step));
  }

  lemma SendStepInv(w: World, step: Step)
    requires Inv(w) && Enabled(w, step) && step.SendTo?
    ensures Inv(Next(w, step))
  {
    var a, t, q, alive := step.a, step.t, step.q, step.alive;
    hide Agent.Inv, Agent.Next, AllAggs, Flying, Routed, Placed, AllEvident;
    Agent.StepInv(w.agents[a], Agent.Send(t, q));
    Agent.AskStep(w.agents[a], Agent.Send(t, q));
    var s := Agent.Next(w.agents[a], Agent.Send(t, q));
    RouteFacts(alive, SecondOf(w.agents[a], t));
    SendToInv(w, a, s, q, s.asked[q], ShardReplicaForSecond(alive, SecondOf(w.agents[a], t)).replica);
  }

  /** Requests stay with their agent, their replica and buckets of their second, and refusals are about what
      was sent: every step of the whole keeps that. */
  lemma StepInv(w: World, step: Step)
    requires Inv(w) && Enabled(w, step)
    ensures Inv(Next(w, step))
  {
    hide Agent.Inv, Agent.Enabled, Agent.Next, G.Inv, M.Enabled, M.Next;
    match step
    case InAgent(a, s) => AgentStepInv(w, a, s);
    case SendTo(a, t, q, alive) => SendStepInv(w, step);
    case Deliver(q, _, _, _, _) =>
      M.InvLists(w.aggs[w.flights[q].replica]);
      AggStepInv(w, w.flights[q].replica, ArrivalOf(w, step));
    case InAgg(r, s) =>
      M.InvLists(w.aggs[r]);
      AggStepInv(w, r, s);
    case Ack(a, t, mark) => AgentStepInv(w, a, Agent.Response(t, true, mark));
  }
}
