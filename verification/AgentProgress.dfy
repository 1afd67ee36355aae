/** What can still happen to a bucket of an agent: from wherever it is, it can come to a historic sender that
    has its data and is about to send it. */
module AgentProgress {
  import Records
  import opened Store
  import opened HistoricQueue
  import opened Routing
  import opened Agent

  /** Neither is anything sent, nor does an acknowledgement come. */
  predicate Quietly(step: Step) {
    !step.Send? && !(step.Response? && step.discard)
  }

  predicate AllQuietly(steps: seq<Step>) {
    forall i | 0 <= i < |steps| :: Quietly(steps[i])
  }

  /** On the way from `init`, with item `t` still standing for the bucket of this second with this data. */
  ghost predicate Going(init: Agent, steps: seq<Step>, s: Agent, t: nat, time: int, data: seq<Records.byte>) {
    Run(init, steps, s) && AllQuietly(steps) && Inv(s) && Holds(s, t, time, data)
  }

  lemma Onwards(init: Agent, steps: seq<Step>, s: Agent, step: Step, t: nat, time: int, data: seq<Records.byte>)
    returns (longer: seq<Step>, n: Agent)
    requires Going(init, steps, s, t, time, data) && Enabled(s, step) && Quietly(step) && !Removes(s, step, t)
    ensures n == Next(s, step) && Going(init, longer, n, t, time, data)
  {
    hide Inv, Enabled, Next, Holds, Run, Removes, Brings;
    HeldExactly(s, step, t, time, data);
    RunFurther(init, steps, s, step);
    longer, n := steps + [step], Next(s, step);
  }

  function NoFault(): TailScan { TailScan(0, {}, {}) }

  function NoMark(): Mark { Mark(0, {}) }

  function Queued(s: Agent): set<nat> {
    set u | u in s.items && s.items[u].place.Queue?
  }

  lemma OldestOf(s: Agent, keys: set<nat>) returns (m: nat)
    requires keys != {} && forall u | u in keys :: u in s.items
    ensures m in keys && forall u | u in keys :: s.items[m].cbd.time <= s.items[u].cbd.time
    decreases |keys|
  {
    m :| m in keys;
    if keys != {m} {
      var rest := keys - {m};
      assert keys == rest + {m};
      var other := OldestOf(s, rest);
      if s.items[other].cbd.time < s.items[m].cbd.time { m := other; }
    }
  }

  /** The oldest queued bucket goes to a sender, and the next unread one is queued. */
  lemma PopWorks(s: Agent, m: nat, t: nat)
    requires Inv(s) && m in Queued(s) && t in Queued(s)
    requires forall u | u in Queued(s) :: s.items[m].cbd.time <= s.items[u].cbd.time
    ensures var step := Pop(m, s.items[m].cbd.time + 1, false, NoFault());
            && Enabled(s, step)
            && var n := Next(s, step);
            && m in n.items && n.items[m].place == Historic(Checking)
            && (t != m ==> t in Queued(n) && Waiting(n) < Waiting(s))
  {
    hide AllSane, OneHolder, Unique, Swept;
    var step := Pop(m, s.items[m].cbd.time + 1, false, NoFault());
    var n := Next(s, step);
    if s.disk.tail == [] {
      assert Queued(n) == Queued(s) - {m};
    } else {
      assert Queued(n) == Queued(s) - {m} + {s.next};
    }
  }

  function Waiting(s: Agent): nat { 2 * |s.disk.tail| + |Queued(s)| }

  lemma {:induction false} ToSender(init: Agent, steps: seq<Step>, s: Agent, t: nat, time: int, data: seq<Records.byte>)
    returns (longer: seq<Step>, n: Agent)
    requires Going(init, steps, s, t, time, data) && t in Queued(s)
    ensures Going(init, longer, n, t, time, data) && t in n.items && n.items[t].place == Historic(Checking)
    decreases Waiting(s)
  {
    var m := OldestOf(s, Queued(s));
    PopWorks(s, m, t);
    hide Inv, Enabled, Next, Holds, Run, Waiting;
    longer, n := Onwards(init, steps, s, Pop(m, s.items[m].cbd.time + 1, false, NoFault()), t, time, data);
    if m != t {
      longer, n := ToSender(init, longer, n, t, time, data);
    }
  }

  /** One quiet step of a bucket on its way to the queue. */
  function StepOf(it: Item, t: nat): Step {
    match it.place
    case Channel => Take(t)
    case Recent(phase) => if phase.Ready? then GiveUp(t) else Response(t, false, NoMark())
    case Historic(phase) => if phase.Ready? then GiveUp(t) else Response(t, false, NoMark())
    case _ => Append(t, true)
  }

  function Distance(p: Place): nat {
    match p
    case Queue => 0
    case Erasing => 1
    case Saving => 1
    case Recent(_) => 2
    case Channel => 3
    case Historic(_) => 0
  }

  lemma StepWorks(s: Agent, t: nat)
    requires Inv(s) && t in s.items && !s.items[t].place.Queue? && !s.items[t].place.Historic?
    ensures var step := StepOf(s.items[t], t);
            && Enabled(s, step) && Quietly(step) && !Removes(s, step, t)
            && t in Next(s, step).items && Distance(Next(s, step).items[t].place) < Distance(s.items[t].place)
            && !Next(s, step).items[t].place.Historic?
  {
    HoldersAreSane(s, t);
    hide AllSane, OneHolder, Unique;
  }

  lemma {:induction false} ToQueue(init: Agent, steps: seq<Step>, s: Agent, t: nat, time: int, data: seq<Records.byte>)
    returns (longer: seq<Step>, n: Agent)
    requires Going(init, steps, s, t, time, data) && t in s.items && !s.items[t].place.Historic?
    ensures Going(init, longer, n, t, time, data) && t in n.items && n.items[t].place.Queue?
    decreases Distance(s.items[t].place)
  {
    longer, n := steps, s;
    if !s.items[t].place.Queue? {
      StepWorks(s, t);
      hide Inv, Enabled, Next, Holds, Run, Removes, Distance, Quietly, StepOf;
      longer, n := Onwards(init, steps, s, StepOf(s.items[t], t), t, time, data);
      longer, n := ToQueue(init, longer, n, t, time, data);
    }
  }

  lemma SenderStep(s: Agent, t: nat)
    requires Inv(s) && t in s.items && s.items[t].place.Historic?
    ensures s.items[t].place.phase.Checking? ==>
              && Enabled(s, Read(t, true, NoMark())) && !Removes(s, Read(t, true, NoMark()), t)
              && t in Next(s, Read(t, true, NoMark())).items
              && Next(s, Read(t, true, NoMark())).items[t].place == Historic(Ready)
    ensures s.items[t].place.phase.Asked? ==>
              && Enabled(s, Response(t, false, NoMark())) && !Removes(s, Response(t, false, NoMark()), t)
              && t in Next(s, Response(t, false, NoMark())).items
              && Next(s, Response(t, false, NoMark())).items[t].place == Historic(Checking)
  {
    HoldersAreSane(s, t);
    hide AllSane, OneHolder, Unique;
  }

  /** A historic sender loads its bucket, to send it for the first time or again. */
  lemma ToReady(init: Agent, steps: seq<Step>, s: Agent, t: nat, time: int, data: seq<Records.byte>)
    returns (longer: seq<Step>, n: Agent)
    requires Going(init, steps, s, t, time, data) && t in s.items && s.items[t].place.Historic?
    ensures Going(init, longer, n, t, time, data) && t in n.items && n.items[t].place == Historic(Ready)
  {
    longer, n := steps, s;
    SenderStep(s, t);
    hide Inv, Enabled, Next, Holds, Run, Removes;
    if s.items[t].place.phase.Asked? {
      longer, n := Onwards(init, longer, n, Response(t, false, NoMark()), t, time, data);
      SenderStep(n, t);
    }
    if n.items[t].place.phase.Checking? {
      longer, n := Onwards(init, longer, n, Read(t, true, NoMark()), t, time, data);
    }
  }

  /** Wherever a bucket is in the memory of an agent, it can come to a historic sender that has its data. */
  lemma CanBeSent(s: Agent, t: nat, time: int, data: seq<Records.byte>) returns (steps: seq<Step>, n: Agent)
    requires Inv(s) && Holds(s, t, time, data)
    ensures Run(s, steps, n) && AllQuietly(steps) && Inv(n) && Holds(n, t, time, data)
    ensures t in n.items && n.items[t].place == Historic(Ready)
  {
    steps, n := [], s;
    RunNowhere(s);
    assert t in s.items;
    hide Inv, Enabled, Next, Holds, Run;
    if !s.items[t].place.Historic? {
      steps, n := ToQueue(s, steps, n, t, time, data);
      steps, n := ToSender(s, steps, n, t, time, data);
    }
    steps, n := ToReady(s, steps, n, t, time, data);
  }

  // ---------- buckets that are only on disk ----------

  lemma AsSequence(live: set<Entry>) returns (tail: seq<Entry>)
    ensures NoRepeats(tail) && (set e | e in tail) == live
    decreases |live|
  {
    if live == {} {
      tail := [];
    } else {
      var e :| e in live;
      var rest := AsSequence(live - {e});
      assert e !in (set x | x in rest);
      tail := rest + [e];
      assert (set x | x in tail) == (set x | x in rest) + {e};
    }
  }

  /** Reading the tail up to its `k`-th bucket queues that one too. */
  lemma {:induction false} ReadUpTo(init: Agent, steps: seq<Step>, s: Agent, k: nat)
    returns (longer: seq<Step>, n: Agent, t: nat)
    requires Run(init, steps, s) && AllQuietly(steps) && Inv(s) && k < |s.disk.tail|
    ensures Run(init, longer, n) && AllQuietly(longer) && Inv(n)
    ensures Holds(n, t, s.disk.tail[k].record.time, s.disk.tail[k].record.body)
    decreases k
  {
    var step := TailRead(NoFault());
    TailReadWorks(s);
    RunFurther(init, steps, s, step);
    longer, n, t := steps + [step], Next(s, step), s.next;
    if k == 0 {
      HeldExactly(s, step, t, s.disk.tail[0].record.time, s.disk.tail[0].record.body);
      hide Inv, Enabled, Next, Holds, Run;
    } else {
      hide Inv, Enabled, Next, Holds, Run;
      longer, n, t := ReadUpTo(init, longer, n, k - 1);
    }
  }

  lemma TailReadWorks(s: Agent)
    requires Inv(s) && s.disk.tail != []
    ensures Enabled(s, TailRead(NoFault())) && Next(s, TailRead(NoFault())).disk.tail == s.disk.tail[1..]
  {
    hide AllSane, OneHolder, Unique, Swept;
  }

  /** A bucket that a restart will find can come back into memory. */
  lemma CanBeHeld(s: Agent, e: Entry) returns (steps: seq<Step>, n: Agent, t: nat)
    requires Inv(s) && e in s.folder.live
    ensures Run(s, steps, n) && AllQuietly(steps) && Inv(n) && Holds(n, t, e.record.time, e.record.body)
  {
    var tail := AsSequence(s.folder.live);
    RunOne(s, Restart(tail));
    n := Next(s, Restart(tail));
    assert e in tail;
    var k :| 0 <= k < |tail| && tail[k] == e;
    assert n.disk.tail == tail;
    hide Inv, Enabled, Next, Holds, Run;
    steps, n, t := ReadUpTo(s, [Restart(tail)], n, k);
  }
}
