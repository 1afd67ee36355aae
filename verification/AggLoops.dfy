/** The two loops the aggregator runs under its lock, against the steps they stand for. */
module AggLoops {
  import opened AggBucket
  import opened Routing
  import opened RecentWindow
  import opened Aggregator
  import opened AggMachine
  import opened AggTheorems

  lemma SubtractGet(my: map<HostKey, int>, del: map<HostKey, int>, h: HostKey)
    ensures Get(Subtract(my, del), h) == Get(my, h) - Get(del, h)
    ensures h in del && h in Subtract(my, del) ==> Subtract(my, del)[h] != 0
  {}

  lemma SubtractOne(my: map<HostKey, int>, del: map<HostKey, int>, k: HostKey, v: int)
    requires k !in del
    ensures var r := Subtract(my, del);
            Subtract(my, del[k := v]) == if Get(r, k) == v then r - {k} else r[k := Get(r, k) - v]
  {
    var r, t := Subtract(my, del), Subtract(my, del[k := v]);
    forall h: HostKey | h != k ensures (h in t <==> h in r) && (h in t ==> t[h] == r[h]) {}
  }

  function Part(del: map<HostKey, int>, done: set<HostKey>): map<HostKey, int>
    requires done <= del.Keys
  {
    map h | h in done :: del[h]
  }

  lemma PartMore(del: map<HostKey, int>, done: set<HostKey>, k: HostKey)
    requires done <= del.Keys && k in del && k !in done
    ensures Part(del, done + {k}) == Part(del, done)[k := del[k]] && k !in Part(del, done)
  {}

  lemma PartEnds(my: map<HostKey, int>, del: map<HostKey, int>)
    ensures Subtract(my, Part(del, {})) == my && Part(del, del.Keys) == del
  {}

  lemma SomeKey(left: set<HostKey>)
    ensures left == {} || exists k :: k in left
  {
    assert (forall k: HostKey :: k !in left) ==> left == {};
  }

  /** Takes the hosts of a settled bucket out of the count; hosts that reach zero disappear. */
  method UpdateHistoricHost(my: map<HostKey, int>, del: map<HostKey, int>) returns (r: map<HostKey, int>)
    ensures r == Subtract(my, del)
    ensures forall h: HostKey :: Get(r, h) == Get(my, h) - Get(del, h)
    ensures forall h | h in del :: h in r ==> r[h] != 0
  {
    r := my;
    var done: set<HostKey> := {};
    PartEnds(my, del);
    hide Subtract, Part;
    var left := del.Keys;
    while left != {}
      invariant left <= del.Keys && done == del.Keys - left && r == Subtract(my, Part(del, done))
      decreases |left|
    {
      SomeKey(left);
      var k :| k in left;
      SubtractOne(my, Part(del, done), k, del[k]) by { PartMore(del, done, k); }
      PartMore(del, done, k);
      done, left := done + {k}, left - {k};
      var value := Get(r, k) - del[k];
      if value == 0 { r := r - {k}; } else { r := r[k := value]; }
    }
    assert done == del.Keys;
    forall h: HostKey ensures Get(r, h) == Get(my, h) - Get(del, h) && (h in del && h in r ==> r[h] != 0) {
      SubtractGet(my, del, h);
    }
  }

  predicate Scanned(historic: map<nat, nat>, left: set<nat>, stale: set<nat>, found: bool, time: nat,
                    oldest: nat, historicWindow: nat)
  {
    && left <= historic.Keys && stale <= historic.Keys && stale !! left
    && (forall x | x in stale :: IsStale(x, oldest, historicWindow))
    && (forall x | x in historic :: IsStale(x, oldest, historicWindow) ==> x in left || x in stale)
    && (!found ==> forall x | x in historic :: x in left || x in stale)
    && (found ==>
          && time in historic && time !in left && !IsStale(time, oldest, historicWindow)
          && forall x | x in historic :: x in left || x in stale || time <= x)
  }

  lemma ScanOne(historic: map<nat, nat>, left: set<nat>, stale: set<nat>, found: bool, time: nat, x: nat,
                oldest: nat, historicWindow: nat)
    requires Scanned(historic, left, stale, found, time, oldest, historicWindow) && x in left
    ensures x in historic && x !in stale
    ensures if IsStale(x, oldest, historicWindow) then
              Scanned(historic, left - {x}, stale + {x}, found, time, oldest, historicWindow)
            else if !found || x < time then Scanned(historic, left - {x}, stale, true, x, oldest, historicWindow)
            else Scanned(historic, left - {x}, stale, found, time, oldest, historicWindow)
  {
    hide IsStale;
  }

  lemma ScanStart(historic: map<nat, nat>, oldest: nat, historicWindow: nat)
    ensures Scanned(historic, historic.Keys, {}, false, 0, oldest, historicWindow)
    ensures AllPops([], oldest, historicWindow)
  {
    hide IsStale;
  }

  lemma ScanDone(historic: map<nat, nat>, stale: set<nat>, found: bool, time: nat, oldest: nat, historicWindow: nat)
    requires Scanned(historic, {}, stale, found, time, oldest, historicWindow)
    ensures stale == set x | x in historic && IsStale(x, oldest, historicWindow)
    ensures !found ==> historic.Keys == stale
    ensures found ==>
              && time in historic && time !in stale && !IsStale(time, oldest, historicWindow)
              && forall x | x in historic :: IsStale(x, oldest, historicWindow) || time <= x
  {
    hide IsStale;
  }

  /** Takes every stale bucket and the oldest of the others out of the historic map, looking at the
      buckets in any order: this is a run of single pops. The beginning of the window may have been read
      before. */
  method PopOldestHistoricBucket(s: Agg, oldest: nat, historicWindow: nat)
    returns (t: Agg, found: bool, time: nat, stale: set<nat>, ghost steps: seq<Step>)
    requires Inv(s) && Window(s) && oldest <= OldestTime(s)
    ensures Run(s, steps, t) && Inv(t)
    ensures stale == set x | x in s.historic && IsStale(x, oldest, historicWindow)
    ensures !found ==> s.historic.Keys == stale
    ensures found ==>
              && time in s.historic && !IsStale(time, oldest, historicWindow)
              && forall x | x in s.historic :: IsStale(x, oldest, historicWindow) || time <= x
    ensures t.historic == Kept(s.historic, if found then stale + {time} else stale)
    ensures |steps| == |stale| + (if found then 1 else 0) && AllPops(steps, oldest, historicWindow)
    ensures found ==> steps[|steps| - 1] == Popping(time, oldest, historicWindow)
  {
    hide Inv, Run, Window, IsStale, Scanned, Kept, OldestTime, AllPops;
    t, found, time, stale, steps := PopStale(s, oldest, historicWindow);
    ScanDone(s.historic, stale, found, time, oldest, historicWindow);
    if found {
      KeptLess(s.historic, stale, time);
      t, steps := PopOne(s, steps, t, time, oldest, historicWindow);
    }
  }

  /** The loop: the stale buckets leave the map, and the oldest of the others is found. */
  method PopStale(s: Agg, oldest: nat, historicWindow: nat)
    returns (t: Agg, found: bool, time: nat, stale: set<nat>, ghost steps: seq<Step>)
    requires Inv(s) && Window(s) && oldest <= OldestTime(s)
    ensures Scanned(s.historic, {}, stale, found, time, oldest, historicWindow)
    ensures Run(s, steps, t) && Inv(t) && Window(t) && t.historic == Kept(s.historic, stale)
    ensures oldest <= OldestTime(t) && |steps| == |stale| && AllPops(steps, oldest, historicWindow)
  {
    hide Inv, Run, Window, IsStale, Scanned, Kept, OldestTime, AllPops;
    t, found, time, stale, steps := s, false, 0, {}, [];
    var left := s.historic.Keys;
    RunNowhere(s);
    ScanStart(s.historic, oldest, historicWindow);
    KeptLess(s.historic, {}, 0);
    while left != {}
      invariant Scanned(s.historic, left, stale, found, time, oldest, historicWindow)
      invariant Run(s, steps, t) && Inv(t) && Window(t) && t.historic == Kept(s.historic, stale)
      invariant oldest <= OldestTime(t) && |steps| == |stale| && AllPops(steps, oldest, historicWindow)
      decreases |left|
    {
      var x :| x in left;
      KeptLess(s.historic, stale, x);
      ScanOne(s.historic, left, stale, found, time, x, oldest, historicWindow);
      left := left - {x};
      if IsStale(x, oldest, historicWindow) {
        t, steps := PopOne(s, steps, t, x, oldest, historicWindow);
        stale := stale + {x};
      } else if !found || x < time {
        found, time := true, x;
      }
    }
  }

  /** Nothing but pops at this moment. */
  predicate AllPops(steps: seq<Step>, oldest: nat, historicWindow: nat) {
    forall k | 0 <= k < |steps| ::
      steps[k].Popping? && steps[k].oldest == oldest && steps[k].historicWindow == historicWindow
  }

  function Kept(historic: map<nat, nat>, gone: set<nat>): map<nat, nat> {
    historic - gone
  }

  lemma KeptLess(historic: map<nat, nat>, gone: set<nat>, x: nat)
    ensures Kept(historic, gone) - {x} == Kept(historic, gone + {x})
    ensures x in Kept(historic, gone) <==> x in historic && x !in gone
    ensures Kept(historic, gone).Keys <= historic.Keys && Kept(historic, {}) == historic
  {}

  method PopOne(s: Agg, ghost steps: seq<Step>, t: Agg, time: nat, oldest: nat, historicWindow: nat)
    returns (u: Agg, ghost longer: seq<Step>)
    requires Run(s, steps, t) && Inv(t) && Window(t) && time in t.historic && oldest <= OldestTime(t)
    requires !IsStale(time, oldest, historicWindow) ==>
               forall x | x in t.historic :: IsStale(x, oldest, historicWindow) || time <= x
    requires AllPops(steps, oldest, historicWindow)
    ensures AllPops(longer, oldest, historicWindow) && |longer| == |steps| + 1
    ensures longer[|longer| - 1] == Popping(time, oldest, historicWindow)
    ensures Run(s, longer, u) && Inv(u) && Window(u) && u.historic == t.historic - {time}
    ensures OldestTime(u) == OldestTime(t)
  {
    hide Inv, Window, HistoricOk, Run, OldestTime, Pop;
    PopFacts(t, time, oldest, historicWindow);
    ghost var n := RunFurther(s, steps, t, Popping(time, oldest, historicWindow));
    longer := steps + [Popping(time, oldest, historicWindow)];
    u := Pop(t, time, StalenessOf(time, oldest, historicWindow));
  }

  lemma PopFacts(t: Agg, time: nat, oldest: nat, historicWindow: nat)
    requires Inv(t) && Window(t) && time in t.historic && oldest <= OldestTime(t)
    requires !IsStale(time, oldest, historicWindow) ==>
               forall x | x in t.historic :: IsStale(x, oldest, historicWindow) || time <= x
    ensures HistoricOk(t) && t.historic[time] < |t.buckets| && Enabled(t, Popping(time, oldest, historicWindow))
    ensures var u := Pop(t, time, StalenessOf(time, oldest, historicWindow));
            u.historic == t.historic - {time} && (Window(u) ==> OldestTime(u) == OldestTime(t))
  {
    InvLists(t);
    assert Listed(t, t.historic[time], true);
    hide Core, RecentOk, HistoricOk;
  }
}
