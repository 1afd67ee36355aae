/** The aggregator's window of seconds it still collects. */
module RecentWindow {
  import opened Routing

  const FUTURE_WINDOW := 4
  const MIN_SHORT_WINDOW := 3
  const MAX_SHORT_WINDOW := 5

  predicate Consecutive(times: seq<int>) {
    forall i | 0 <= i < |times| :: times[i] == times[0] + i
  }

  predicate Increasing(times: seq<int>) {
    forall i, j | 0 <= i < j < |times| :: times[i] < times[j]
  }

  /** How many of `count` consecutive seconds from `first` are over at `now`. */
  function Over(first: int, count: nat, now: int, shortWindow: int): (n: nat)
    ensures n <= count
  {
    var over := now - shortWindow - first;
    if over <= 0 then 0 else if over >= count then count else over
  }

  /** The window after a tick: its first second and its length. */
  function FirstAfter(first: int, count: nat, now: int, shortWindow: int): int {
    var over := Over(first, count, now, shortWindow);
    if over == count then now - shortWindow else first + over
  }

  function CountAfter(first: int, count: nat, now: int, shortWindow: int): nat {
    var left := count - Over(first, count, now, shortWindow);
    if left < shortWindow + FUTURE_WINDOW then shortWindow + FUTURE_WINDOW else left
  }

  /** The newest second after a tick covers the near future, and no second comes back. */
  lemma AfterTick(first: int, count: nat, now: int, shortWindow: int)
    requires shortWindow >= MIN_SHORT_WINDOW && (count == 0 ==> first == now - shortWindow)
    ensures var f := FirstAfter(first, count, now, shortWindow);
            var c := CountAfter(first, count, now, shortWindow);
            && f + c - 1 >= now + FUTURE_WINDOW - 1
            && f >= first + Over(first, count, now, shortWindow)
            && f >= now - shortWindow
            && c >= MIN_SHORT_WINDOW + FUTURE_WINDOW
            && c <= Max(count, shortWindow + FUTURE_WINDOW)
            && (Over(first, count, now, shortWindow) < count ==> f == first + Over(first, count, now, shortWindow))
  {}

  /** A second leaves the window exactly when it is over: the clock is past it by more than the short window. */
  lemma OverExactly(first: int, count: nat, now: int, shortWindow: int, k: nat)
    requires k < count
    ensures k < Over(first, count, now, shortWindow) <==> now > first + k + shortWindow
  {}

  function Max(a: int, b: int): int { if a < b then b else a }

  lemma ConsecutiveTail(was: seq<int>, ready: seq<int>, recent: seq<int>)
    requires was == ready + recent && Consecutive(was)
    ensures Consecutive(recent) && ready == was[..|ready|] && |was| == |ready| + |recent|
    ensures recent != [] ==> recent[0] == was[|ready|]
  {
    forall i | 0 <= i < |recent| ensures recent[i] == recent[0] + i {
      assert recent[i] == was[|ready| + i] && recent[0] == was[|ready|];
    }
  }

  lemma OneSecond(time: int)
    ensures Consecutive([time])
  {}

  /** Taking seconds while they are over takes as many as are over. */
  lemma OverCounts(was: seq<int>, n: nat, now: int, shortWindow: int, first: int)
    requires n <= |was| && Consecutive(was) && (was != [] ==> first == was[0])
    requires forall i | 0 <= i < n :: now > was[i] + shortWindow
    requires n < |was| ==> now <= was[n] + shortWindow
    ensures n == Over(first, |was|, now, shortWindow)
  {
    if n > 0 { assert now > was[n - 1] + shortWindow; }
  }

  lemma OverSplits(was: seq<int>, n: nat, now: int, shortWindow: int)
    requires n <= |was| && Consecutive(was)
    requires forall i | 0 <= i < n :: now > was[i] + shortWindow
    requires n < |was| ==> now <= was[n] + shortWindow
    ensures forall i | 0 <= i < |was| :: i < n <==> now > was[i] + shortWindow
  {
    forall i | n <= i < |was| ensures now <= was[i] + shortWindow {
      assert was[i] == was[0] + i && was[n] == was[0] + n;
    }
  }

  lemma WindowAfter(was: seq<int>, n: nat, recent: seq<int>, now: int, shortWindow: int, first: int)
    requires n <= |was| && n == Over(first, |was|, now, shortWindow)
    requires Consecutive(was) && (was != [] ==> first == was[0])
    requires shortWindow >= MIN_SHORT_WINDOW
    requires |recent| == Max(if n == |was| then 1 else |was| - n, shortWindow + FUTURE_WINDOW)
    requires recent[0] == if n == |was| then now - shortWindow else was[n]
    ensures |recent| == CountAfter(first, |was|, now, shortWindow)
    ensures recent[0] == FirstAfter(first, |was|, now, shortWindow)
  {}

  lemma ReleasedMore(released: seq<int>, ready: seq<int>, was: seq<int>, first: int)
    requires Increasing(released) && |ready| <= |was| && ready == was[..|ready|] && Consecutive(was)
    requires forall i | 0 <= i < |released| && was != [] :: released[i] < was[0]
    requires was == [] ==> released == []
    requires was != [] ==> first >= was[0] + |ready|
    ensures Increasing(released + ready) && forall i | 0 <= i < |released + ready| :: (released + ready)[i] < first
  {}

  class RecentBuckets {
    var recent: seq<int> // the seconds of the buckets being collected, oldest first
    ghost var released: seq<int> // every second ever handed to the inserters, in that order

    ghost predicate Valid()
      reads this
    {
      && Consecutive(recent) && Increasing(released)
      && (recent == [] ==> released == [])
      && (forall i | 0 <= i < |released| && recent != [] :: released[i] < recent[0])
    }

    constructor ()
      ensures Valid() && recent == [] && released == []
    {
      recent, released := [], [];
    }

    /** One tick of the clock, which may have jumped either way since the last one. */
    method AdvanceRecentBuckets(now: int, shortWindow: int) returns (ready: seq<int>)
      requires Valid() && shortWindow >= MIN_SHORT_WINDOW
      modifies this
      ensures Valid() && released == old(released) + ready
      ensures var first := if old(recent) == [] then now - shortWindow else old(recent)[0];
              var over := Over(first, |old(recent)|, now, shortWindow);
              && ready == old(recent)[..over]
              && |recent| == CountAfter(first, |old(recent)|, now, shortWindow)
              && recent[0] == FirstAfter(first, |old(recent)|, now, shortWindow)
      ensures forall i | 0 <= i < |old(recent)| :: i < |ready| <==> now > old(recent)[i] + shortWindow
      ensures recent[|recent| - 1] >= now + FUTURE_WINDOW - 1
    {
      hide Over, CountAfter, FirstAfter, Consecutive, Increasing, Max;
      ghost var was := recent;
      ghost var first := if was == [] then now - shortWindow else was[0];
      ready := TakeReady(now, shortWindow);
      ConsecutiveTail(was, ready, recent);
      OverCounts(was, |ready|, now, shortWindow, first);
      OverSplits(was, |ready|, now, shortWindow);
      if |recent| == 0 {
        recent := [now - shortWindow];
        OneSecond(now - shortWindow);
      }
      Fill(shortWindow);
      WindowAfter(was, |ready|, recent, now, shortWindow, first);
      AfterTick(first, |was|, now, shortWindow);
      ReleasedMore(released, ready, was, recent[0]);
      released := released + ready;
    }

    method TakeReady(now: int, shortWindow: int) returns (ready: seq<int>)
      modifies this`recent
      ensures ready + recent == old(recent)
      ensures forall i | 0 <= i < |ready| :: now > ready[i] + shortWindow
      ensures recent != [] ==> now <= recent[0] + shortWindow
    {
      ready := [];
      while |recent| != 0 && now > recent[0] + shortWindow
        invariant ready + recent == old(recent)
        invariant forall i | 0 <= i < |ready| :: now > ready[i] + shortWindow
        decreases |recent|
      {
        assert recent == [recent[0]] + recent[1..];
        ready := ready + [recent[0]];
        recent := recent[1..];
      }
    }

    method Fill(shortWindow: int)
      requires recent != [] && Consecutive(recent)
      modifies this`recent
      ensures recent != [] && Consecutive(recent) && recent[0] == old(recent)[0]
      ensures |recent| == Max(|old(recent)|, shortWindow + FUTURE_WINDOW)
    {
      while |recent| < shortWindow + FUTURE_WINDOW
        invariant |recent| >= 1 && Consecutive(recent) && recent[0] == old(recent)[0]
        invariant |recent| <= Max(|old(recent)|, shortWindow + FUTURE_WINDOW)
        decreases shortWindow + FUTURE_WINDOW - |recent|
      {
        recent := recent + [recent[0] + |recent|];
      }
    }

    /** The keep-alive of replica `replica` always finds its bucket. */
    method KeepAliveIndex(replica: int) returns (i: nat)
      requires Valid() && |recent| >= MIN_SHORT_WINDOW && recent[0] >= 0 && 0 <= replica < 3
      ensures i < |recent| && i <= 2 && recent[i] == Rounded(recent[0], replica)
    {
      var rounded := RoundToOurTime(recent[0], replica);
      i := rounded - recent[0];
    }
  }

  /** An agent whose clock is at most one second ahead is never told that its bucket lies too far in
      the future: rounding up to the replica's second still falls into the window. */
  lemma NotTooFarInFuture(first: int, count: nat, now: int, shortWindow: int, time: nat, replica: int)
    requires shortWindow >= MIN_SHORT_WINDOW && 0 <= replica < 3 && count > 0
    requires time <= now + FUTURE_WINDOW - 3
    ensures Rounded(time, replica) <=
            FirstAfter(first, count, now, shortWindow) + CountAfter(first, count, now, shortWindow) - 1
  {
    AfterTick(first, count, now, shortWindow);
  }

  /** One second more is too much: this bucket is discarded by the replica two seconds ahead of it. */
  lemma TooFarInFuture(now: nat)
    requires now >= 10
    ensures var time := now + FUTURE_WINDOW - 2;
            var first := now - MIN_SHORT_WINDOW;
            var count := MIN_SHORT_WINDOW + FUTURE_WINDOW;
            && FirstAfter(first, count, now, MIN_SHORT_WINDOW) == first
            && CountAfter(first, count, now, MIN_SHORT_WINDOW) == count
            && Rounded(time, (time + 2) % 3) > first + count - 1
  {}
}
