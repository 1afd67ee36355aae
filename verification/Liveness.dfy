/** The detector that decides whether an aggregator replica is alive. */
module Liveness {

  function Successes(results: seq<bool>): nat {
    if results == [] then 0 else (if results[0] then 1 else 0) + Successes(results[1..])
  }

  /** The last `n` results, or all of them when there are fewer. */
  function Latest(results: seq<bool>, n: nat): seq<bool> {
    if |results| <= n then results else results[|results| - n..]
  }

  lemma {:induction false} SuccessesConcat(a: seq<bool>, b: seq<bool>)
    ensures Successes(a + b) == Successes(a) + Successes(b)
  {
    if a == [] {
      assert a + b == b;
    } else {
      SuccessesConcat(a[1..], b);
      assert (a + b)[1..] == a[1..] + b;
    }
  }

  lemma {:induction false} SuccessesFull(results: seq<bool>)
    ensures Successes(results) <= |results|
    ensures Successes(results) == |results| <==> forall i | 0 <= i < |results| :: results[i]
  {
    if results != [] {
      SuccessesFull(results[1..]);
      assert forall i | 0 < i < |results| :: results[i] == results[1..][i - 1];
      assert forall i | 0 <= i < |results| - 1 :: results[1..][i] == results[i + 1];
    }
  }

  class ShardReplica {
    const windowLength: nat
    const windowSuccesses: nat
    var alive: bool
    var lastSendSuccessful: seq<bool>
    ghost var sinceDeath: seq<bool> // every result recorded since the replica last went dead

    ghost predicate Valid()
      reads this
    {
      1 <= windowSuccesses <= windowLength && lastSendSuccessful == Latest(sinceDeath, windowLength)
    }

    constructor (length: nat, successes: nat)
      requires 1 <= successes <= length
      ensures Valid() && alive && sinceDeath == [] && windowLength == length && windowSuccesses == successes
    {
      windowLength, windowSuccesses := length, successes;
      alive, lastSendSuccessful, sinceDeath := true, [], [];
    }

    /** Records a result and counts the successes among the last `windowLength` ones. */
    method AppendLastSendSuccessful(success: bool) returns (succ: nat)
      requires Valid()
      modifies this`lastSendSuccessful, this`sinceDeath
      ensures Valid() && sinceDeath == old(sinceDeath) + [success]
      ensures succ == Successes(Latest(sinceDeath, windowLength))
    {
      if |lastSendSuccessful| >= windowLength {
        lastSendSuccessful := lastSendSuccessful[1..windowLength];
      }
      lastSendSuccessful := lastSendSuccessful + [success];
      sinceDeath := sinceDeath + [success];
      succ := 0;
      for i := 0 to |lastSendSuccessful|
        modifies {}
        invariant succ == Successes(lastSendSuccessful[..i])
      {
        SuccessesConcat(lastSendSuccessful[..i], [lastSendSuccessful[i]]);
        assert lastSendSuccessful[..i + 1] == lastSendSuccessful[..i] + [lastSendSuccessful[i]];
        if lastSendSuccessful[i] {
          succ := succ + 1;
        }
      }
      assert lastSendSuccessful[..|lastSendSuccessful|] == lastSendSuccessful;
    }

    /** The part of recording a send that runs under the lock; by then the replica may already be
        dead, because `alive` is checked before the lock is taken. */
    method RecordSendResultLocked(success: bool)
      requires Valid()
      modifies this
      ensures Valid()
      ensures var results := old(sinceDeath) + [success];
              var window := Latest(results, windowLength);
              var dies := |window| == windowLength && Successes(window) < windowSuccesses;
              && alive == (old(alive) && !dies)
              && sinceDeath == if dies then [] else results
    {
      var succ := AppendLastSendSuccessful(success);
      if |lastSendSuccessful| == windowLength && succ < windowSuccesses {
        alive := false;
        lastSendSuccessful, sinceDeath := [], [];
      }
    }

    /** A replica comes back only after its last `windowLength` results, all recorded since it went
        dead, were successes. */
    method RecordKeepLiveResult(success: bool)
      requires Valid()
      modifies this
      ensures Valid() && sinceDeath == old(sinceDeath) + [success]
      ensures var window := Latest(sinceDeath, windowLength);
              alive <==> old(alive) || (|window| == windowLength && forall i | 0 <= i < |window| :: window[i])
    {
      var succ := AppendLastSendSuccessful(success);
      SuccessesFull(lastSendSuccessful);
      if succ == windowLength {
        alive := true;
      }
    }
  }
}
