/** A whole delivery: the theorems about acknowledgements speak of runs that exist. */
module Witness {
  import opened AggBucket
  import opened Routing
  import opened Delivery
  import opened EndToEnd
  import opened Progress
  import opened HistoricQueue
  import Records
  import Disk = Store
  import Agent
  import G = Aggregator
  import M = AggMachine
  import T = AggTheorems
  import W = AggWindow

  /** One more step of the only agent. */
  lemma AgentStep(w0: World, steps: seq<Step>, w: World, step: Agent.Step, s: Agent.Agent)
    returns (longer: seq<Step>, v: World)
    requires EndToEnd.Run(w0, steps, w) && Inv(w) && 0 in w.agents && Agent.Inv(w.agents[0])
    requires Agent.Enabled(w.agents[0], step) && s == Agent.Next(w.agents[0], step) && !step.Send? && !step.Response?
    ensures EndToEnd.Run(w0, longer, v) && Inv(v) && v == WithAgent(w, 0, s)
  {
    hide EndToEnd.Run, Agent.Enabled, Agent.Next;
    assert Enabled(w, InAgent(0, step));
    v := Next(w, InAgent(0, step));
    RunOne(w, InAgent(0, step));
    longer := steps + [InAgent(0, step)];
    RunConcat(w0, steps, w, [InAgent(0, step)], v);
  }

  // ---------- the agent ----------

  /** An agent with one bucket on disk that is queued, with a sender, or loaded. */
  function Holding(e: Disk.Entry, data: seq<Records.byte>, place: Agent.Place): Agent.Agent {
    Agent.Agent.Agent(Disk.Store.Store(map[1 := e], [], 1), Disk.Folder({e}, {}),
                      map[0 := Agent.Item(BucketData(1, e.record.time, data), place)], 1, map[])
  }

  /** The same agent right after its start. */
  function Started(e: Disk.Entry): Agent.Agent {
    Agent.Agent.Agent(Disk.Store.Store(map[], [e], 0), Disk.Folder({e}, {}), map[], 0, map[])
  }

  function NoFault(): Agent.TailScan { Agent.TailScan(0, {}, {}) }

  function WholeMark(): Agent.Mark { Agent.Mark(4, {}) }

  lemma NothingSwept(f: Disk.Folder)
    ensures Disk.Swept(f, {}) == f
  {}

  lemma AgentPath(e: Disk.Entry)
    ensures Agent.Inv(Started(e)) && Agent.Enabled(Started(e), Agent.TailRead(NoFault()))
    ensures Agent.Next(Started(e), Agent.TailRead(NoFault())) == Holding(e, [], Agent.Queue)
    ensures Agent.Inv(Holding(e, [], Agent.Queue))
  {
    Agent.StepInv(Started(e), Agent.TailRead(NoFault()));
    NothingSwept(Started(e).folder);
    assert [e][0..] == [e] && [e][1..] == [];
  }

  lemma PopPath(e: Disk.Entry, now: int)
    requires now > e.record.time
    ensures var s, step := Holding(e, [], Agent.Queue), Agent.Pop(0, now, false, NoFault());
            && Agent.Inv(s) && Agent.Enabled(s, step)
            && Agent.Next(s, step) == Holding(e, [], Agent.Historic(Agent.Checking))
  {
    NothingSwept(Started(e).folder);
  }

  lemma ReadPath(e: Disk.Entry)
    ensures var s, step := Holding(e, [], Agent.Historic(Agent.Checking)), Agent.Read(0, true, WholeMark());
            && Agent.Inv(s) && Agent.Enabled(s, step)
            && Agent.Next(s, step) == Holding(e, e.record.body, Agent.Historic(Agent.Ready))
  {}

  // ---------- the delivery ----------

  /** The agent finds its bucket on disk and loads it. */
  lemma Loads(w0: World, e: Disk.Entry) returns (steps: seq<Step>, v: World)
    requires Inv(w0) && w0.agents == map[0 := Started(e)] && e.record.time == 9
    ensures EndToEnd.Run(w0, steps, v) && Inv(v)
    ensures v == w0.(agents := map[0 := Holding(e, e.record.body, Agent.Historic(Agent.Ready))])
  {
    hide Holding, Started, Agent.Inv, Agent.Enabled, Agent.Next, Inv, EndToEnd.Run;
    AgentPath(e);
    PopPath(e, 1000);
    ReadPath(e);
    RunNowhere(w0);
    steps, v := AgentStep(w0, [], w0, Agent.TailRead(NoFault()), Holding(e, [], Agent.Queue));
    steps, v := AgentStep(w0, steps, v, Agent.Pop(0, 1000, false, NoFault()),
                          Holding(e, [], Agent.Historic(Agent.Checking)));
    steps, v := AgentStep(w0, steps, v, Agent.Read(0, true, WholeMark()),
                          Holding(e, e.record.body, Agent.Historic(Agent.Ready)));
    assert v.agents == map[0 := Holding(e, e.record.body, Agent.Historic(Agent.Ready))];
  }

  /** The bucket is in flight to its primary. */
  function Waiting(e: Disk.Entry): Agent.Agent {
    Holding(e, e.record.body, Agent.Historic(Agent.Asked(1))).(
      asked := map[1 := Agent.Payload(e.record.time, e.record.body, true)])
  }

  lemma Sends(w: World, e: Disk.Entry) returns (v: World)
    requires Inv(w) && w.agents == map[0 := Holding(e, e.record.body, Agent.Historic(Agent.Ready))]
    requires e.record.time == 9 && w.flights == map[] && forall r | 0 <= r < 3 :: 1 !in w.aggs[r].seen
    ensures v == w.(agents := map[0 := Waiting(e)], flights := map[1 := Flight(0, 0)]) && Inv(v)
    ensures EndToEnd.Run(w, [SendTo(0, 0, 1, [true, true, true])], v)
  {
    var step := SendTo(0, 0, 1, [true, true, true]);
    hide G.Inv;
    assert ShardReplicaForSecond([true, true, true], 9) == To(0, false);
    SendPath(e);
    hide Agent.Next, Agent.Enabled;
    v := Next(w, step);
    RunOne(w, step);
    hide Inv, EndToEnd.Run;
    assert v.agents == map[0 := Waiting(e)];
    assert v.flights == map[1 := Flight(0, 0)];
  }

  lemma SendPath(e: Disk.Entry)
    ensures var s := Holding(e, e.record.body, Agent.Historic(Agent.Ready));
            && Agent.Inv(s) && Agent.Enabled(s, Agent.Send(0, 1))
            && Agent.Next(s, Agent.Send(0, 1)) == Waiting(e)
  {
    var s := Holding(e, e.record.body, Agent.Historic(Agent.Ready));
    var n := Agent.Next(s, Agent.Send(0, 1));
    assert n.items == Waiting(e).items;
    assert n.asked == Waiting(e).asked;
  }

  lemma Arrives(w: World, e: Disk.Entry, h: HostKey) returns (v: World)
    requires Inv(w) && w.agents == map[0 := Waiting(e)] && w.flights == map[1 := Flight(0, 0)] && e.record.time == 9
    requires G.Window(w.aggs[0]) && G.HistoricOk(w.aggs[0])
    requires M.Enabled(w.aggs[0], M.Arrival(1, 9, e.record.body, true, 100, h, false, true))
    ensures v == WithAgg(w, 0, M.Next(w.aggs[0], M.Arrival(1, 9, e.record.body, true, 100, h, false, true))) && Inv(v)
    ensures EndToEnd.Run(w, [Deliver(1, 100, h, false, true)], v)
  {
    var step := Deliver(1, 100, h, false, true);
    hide G.Inv, M.Enabled, M.Next, Agent.Inv;
    assert ArrivalOf(w, step) == M.Arrival(1, 9, e.record.body, true, 100, h, false, true);
    v := Next(w, step);
    RunOne(w, step);
    hide Inv, EndToEnd.Run;
  }

  /** The replica inserts the bucket and answers. */
  lemma Inserts(w: World, e: Disk.Entry, h: HostKey) returns (steps: seq<Step>, v: World)
    requires Inv(w) && w.agents == map[0 := Waiting(e)] && w.flights == map[1 := Flight(0, 0)] && e.record.time == 9
    requires W.FreshWindow(w.aggs[0])
    ensures EndToEnd.Run(w, steps, v) && Inv(v) && v.agents == w.agents && v.flights == w.flights
    ensures 1 in v.aggs[0].answers && v.aggs[0].answers[1] == G.Erase(G.InInsert(2))
  {
    hide EndToEnd.Run, G.Inv, G.Window, G.HistoricOk, M.Enabled, M.Next, T.Run, W.OneSender, W.FreshWindow;
    hide Waiting, W.Internal, Flying, Routed, Placed, AllEvident, AllAgents;
    var g0 := w.aggs[0];
    assert G.Inv(g0);
    M.InvLists(g0);
    hide Inv;
    var x := W.Sender(h, e.record.body);
    var g := W.SenderArrives(g0, x);
    var m := Arrives(w, e, h);
    var own, b := W.UpToBarrier(g, x);
    own, b := W.InsertedAndAnswered(g, own, b, x);
    steps, v := LiftAgg(m, 0, own, b);
    RunConcat(w, [Deliver(1, 100, h, false, true)], m, steps, v);
    steps := [Deliver(1, 100, h, false, true)] + steps;
  }

  /** The replica has told the agent to erase the bucket, which is still on disk. */
  ghost predicate Delivered(v: World, e: Disk.Entry) {
    && Inv(v) && v.agents == map[0 := Waiting(e)] && v.flights == map[1 := Flight(0, 0)]
    && 1 in v.aggs[0].answers && v.aggs[0].answers[1] == G.Erase(G.InInsert(2))
  }

  lemma FromFresh(w0: World, e: Disk.Entry, h: HostKey) returns (steps: seq<Step>, v: World)
    requires Inv(w0) && w0.agents == map[0 := Started(e)] && w0.flights == map[] && e.record.time == 9
    requires W.FreshWindow(w0.aggs[0]) && forall r | 0 <= r < 3 :: 1 !in w0.aggs[r].seen
    ensures EndToEnd.Run(w0, steps, v) && Delivered(v, e)
  {
    hide Inv, EndToEnd.Run, W.FreshWindow, Holding, Started, Waiting;
    var a, l := Loads(w0, e);
    var s := Sends(l, e);
    var b;
    b, v := Inserts(s, e, h);
    var send := [SendTo(0, 0, 1, [true, true, true])];
    RunConcat(w0, a, l, send, s);
    RunConcat(w0, a + send, s, b, v);
    steps := a + send + b;
  }

  /** The agent has erased the bucket and forgotten it. */
  function Finished(e: Disk.Entry): Agent.Agent {
    Waiting(e).(disk := Disk.Store.Store(map[], [], 1), folder := Disk.Folder({}, {}), items := map[])
  }

  lemma AckPath(e: Disk.Entry)
    ensures var s, step := Waiting(e), Agent.Response(0, true, WholeMark());
            && Agent.Inv(s) && Agent.Enabled(s, step) && Agent.Next(s, step) == Finished(e)
            && 0 in s.items && Agent.InFlight(s.items[0].place) && RequestOf(s, 0) == 1
  {
    var s, step := Waiting(e), Agent.Response(0, true, WholeMark());
    var n := Agent.Next(s, step);
    assert n.folder == Disk.Folder({}, {});
    assert n.disk == Finished(e).disk;
    assert n.items == map[];
  }

  lemma AckEnabled(v: World, e: Disk.Entry)
    requires Delivered(v, e)
    ensures Enabled(v, Ack(0, 0, WholeMark())) && Next(v, Ack(0, 0, WholeMark())) == WithAgent(v, 0, Finished(e))
  {
    hide AllAggs, Flying, Routed, Placed, AllEvident, Agent.Inv, Agent.Next, Agent.Enabled, Agent.InFlight;
    hide Finished, Waiting, RequestOf;
    AckPath(e);
  }

  /** The acknowledgement reaches the agent. */
  lemma Acked(v: World, e: Disk.Entry) returns (u: World)
    requires Delivered(v, e)
    ensures EndToEnd.Run(v, [Ack(0, 0, WholeMark())], u) && Inv(u) && u.agents == map[0 := Finished(e)]
  {
    hide Inv, Enabled, Next, EndToEnd.Run, Finished, Waiting;
    AckEnabled(v, e);
    u := Next(v, Ack(0, 0, WholeMark()));
    RunOne(v, Ack(0, 0, WholeMark()));
    assert u.agents == map[0 := Finished(e)];
  }

  lemma BeforeAndAfter(e: Disk.Entry)
    ensures Agent.Safe(Started(e), e)
    ensures Disk.OnDisk(Finished(e).disk) == {} && Finished(e).folder.live == {}
  {}

  /** There is a run in which a bucket found on disk after a start is loaded, sent to its primary,
      merged, inserted, acknowledged and erased: in the end nothing of it is known, unread or left for a
      restart. */
  lemma DeliveryHappens(e: Disk.Entry, h: HostKey) returns (w0: World, steps: seq<Step>, v: World)
    requires e.record.time == 9
    ensures exists starts :: Initial(w0, starts)
    ensures w0.agents == map[0 := Started(e)] && Agent.Safe(w0.agents[0], e)
    ensures EndToEnd.Run(w0, steps, v) && steps != [] && steps[|steps| - 1] == Ack(0, 0, WholeMark())
    ensures v.agents.Keys == {0} && Disk.OnDisk(v.agents[0].disk) == {} && v.agents[0].folder.live == {}
  {
    hide Initial, Inv, EndToEnd.Run, Delivered, W.FreshWindow, Started, Finished, Agent.Safe, Disk.OnDisk, WholeMark;
    w0 := FreshStart(e, 10, 3);
    BeforeAndAfter(e);
    var some, m := FromFresh(w0, e, h);
    v := Acked(m, e);
    var last := [Ack(0, 0, WholeMark())];
    RunConcat(w0, some, m, last, v);
    steps := some + last;
  }

  lemma FreshStart(e: Disk.Entry, now: nat, shortWindow: int) returns (w0: World)
    requires now == 10 && shortWindow == 3
    ensures Initial(w0, [Start(now, shortWindow), Start(now, shortWindow), Start(now, shortWindow)])
    ensures Inv(w0) && w0.agents == map[0 := Started(e)] && w0.flights == map[]
    ensures W.FreshWindow(w0.aggs[0]) && forall r | 0 <= r < 3 :: 1 !in w0.aggs[r].seen
  {
    hide T.Init, Inv;
    W.InitWindow(0, now, shortWindow);
    W.InitWindow(1, now, shortWindow);
    W.InitWindow(2, now, shortWindow);
    var starts := [Start(now, shortWindow), Start(now, shortWindow), Start(now, shortWindow)];
    var aggs := [T.Init(0, now, shortWindow), T.Init(1, now, shortWindow), T.Init(2, now, shortWindow)];
    w0 := World(map[0 := Started(e)], aggs, map[]);
    assert forall r | 0 <= r < 3 :: starts[r] == Start(now, shortWindow);
    assert forall r | 0 <= r < 3 :: w0.aggs[r] == T.Init(r, now, shortWindow);
    InitialInv(w0, starts);
  }
}
