/** Which of the three replicas gets a second, and which of its seconds it is counted into. */
module Routing {

  /** What tells requests apart. */
  type Req = nat

  datatype Route = Nobody | To(replica: int, spare: bool)

  function Primary(time: nat): int { time % 3 }

  function Spare(time: nat): int { (time + 1 + time % 2) % 3 }

  /** The primary replica of the second, or its spare when the primary is dead, or nobody. */
  function ShardReplicaForSecond(alive: seq<bool>, time: nat): (r: Route)
    requires |alive| == 3
  {
    if alive[time % 3] then To(time % 3, false)
    else if !alive[(time + 1 + time % 2) % 3] then Nobody
    else To((time + 1 + time % 2) % 3, true)
  }

  /** A second goes to its primary or to one other replica, always to a live one, and to nobody
      exactly when both are dead. */
  lemma RouteFacts(alive: seq<bool>, time: nat)
    requires |alive| == 3
    ensures Primary(time) != Spare(time) && 0 <= Spare(time) < 3
    ensures var r := ShardReplicaForSecond(alive, time);
            && (r.To? ==> 0 <= r.replica < 3 && alive[r.replica] && (r.spare <==> r.replica != Primary(time)))
            && (r.Nobody? <==> !alive[Primary(time)] && !alive[Spare(time)])
            && (alive[Primary(time)] ==> r == To(Primary(time), false))
  {}

  /** The seconds of a dead replica are shared out evenly: in turn the one and the other of the two replicas
      that are left stands in for it. */
  lemma SparesTakeTurns(time: nat)
    ensures Primary(time + 3) == Primary(time) && Spare(time + 6) == Spare(time)
    ensures {Primary(time), Spare(time), Spare(time + 3)} == {0, 1, 2}
  {
    assert time % 6 in {0, 1, 2, 3, 4, 5};
    SpareBySix(time);
    SpareBySix(time + 3);
  }

  lemma SpareBySix(time: nat)
    ensures Primary(time) == time % 6 % 3 && Spare(time) == (time % 6 + 1 + time % 6 % 2) % 3
  {}

  /** The first second at or after `time` that belongs to the replica. */
  function Rounded(time: nat, replica: int): (r: nat)
    requires 0 <= replica < 3
    ensures time <= r <= time + 2 && r % 3 == replica
  {
    time + (replica - time) % 3
  }

  method RoundToOurTime(time: nat, replica: int) returns (rounded: nat)
    requires 0 <= replica < 3
    ensures rounded == Rounded(time, replica)
  {
    rounded := time;
    while rounded % 3 != replica
      invariant time <= rounded <= Rounded(time, replica)
      decreases Rounded(time, replica) - rounded
    {
      rounded := rounded + 1;
    }
    OnlyOne(time, replica, rounded);
  }

  lemma OnlyOne(time: nat, replica: int, r: nat)
    requires 0 <= replica < 3 && time <= r <= time + 2 && r % 3 == replica
    ensures r == Rounded(time, replica)
  {}

  /** A bucket is counted into its own second exactly when it is sent to its primary. */
  lemma RoundedIsOwnSecond(alive: seq<bool>, time: nat)
    requires |alive| == 3
    ensures var r := ShardReplicaForSecond(alive, time);
            r.To? ==> 0 <= r.replica < 3 && (Rounded(time, r.replica) == time <==> !r.spare)
  {
    RouteFacts(alive, time);
  }
}
