/** The steps of the aggregator and what they keep. */
module AggSteps {
  import opened AggBucket
  import opened Routing
  import opened RecentWindow
  import opened Aggregator

  // ---------- admitting a client ----------

  function AdmitTo(s: Agg, q: Req, i: nat, kind: Kind, historic: bool, host: HostKey): Agg
    requires i < |s.buckets|
  {
    s.(buckets := s.buckets[i := Admit(s.buckets[i], q, kind, historic, host)],
       hosts := if historic then Bump(s.hosts, host) else s.hosts,
       seen := s.seen + {q})
  }

  lemma AdmitConserved(s: Agg, q: Req, i: nat, kind: Kind, historic: bool, host: HostKey)
    requires Conserved(s) && i < |s.buckets| && s.buckets[i].stage.Collecting?
    requires forall h: HostKey :: |Claimed(Admit(s.buckets[i], q, kind, historic, host), h)|
               == |Claimed(s.buckets[i], h)| + if historic && h == host then 1 else 0
    ensures Conserved(AdmitTo(s, q, i, kind, historic, host))
  {
    hide Claimed;
    var b := Admit(s.buckets[i], q, kind, historic, host);
    forall h: HostKey ensures Get(AdmitTo(s, q, i, kind, historic, host).hosts, h) == Claims(s.buckets[i := b], h) {
      ClaimsUpdate(s.buckets, i, b, h);
    }
  }

  lemma AdmitOwned(s: Agg, q: Req, i: nat, kind: Kind, historic: bool, host: HostKey)
    requires Owned(s) && i < |s.buckets| && q !in s.seen
    ensures Owned(AdmitTo(s, q, i, kind, historic, host))
  {
    var t := AdmitTo(s, q, i, kind, historic, host);
    forall j, r | 0 <= j < |t.buckets| && r in t.buckets[j].clients
      ensures r in s.buckets[j].clients || (j == i && r == q) {}
  }

  lemma AdmitAnswers(s: Agg, q: Req, i: nat, kind: Kind, historic: bool, host: HostKey)
    requires AnswersOk(s) && InsertsOk(s) && AnsweredOnce(s)
    requires i < |s.buckets| && q !in s.seen && s.buckets[i].stage.Collecting?
    ensures var t := AdmitTo(s, q, i, kind, historic, host);
            AnswersOk(t) && InsertsOk(t) && AnsweredOnce(t)
  {
    var t := AdmitTo(s, q, i, kind, historic, host);
    forall r | r in t.answers ensures r in t.seen && Justified(t, r, t.answers[r]) {
      assert Justified(s, r, s.answers[r]);
    }
    forall j, r | 0 <= j < |t.buckets| && Expects(t.buckets[j], r) ensures r !in t.answers {
      assert r == q || Expects(s.buckets[j], r);
    }
    forall j, r | 0 <= j < |t.buckets| && r in t.buckets[j].clients && r in t.answers
      ensures Told(t.buckets[j]) || !t.answers[r].Erase?
    {
      assert r in s.buckets[j].clients;
    }
  }

  lemma AdmitLists(s: Agg, q: Req, i: nat, kind: Kind, historic: bool, host: HostKey)
    requires RecentOk(s) && HistoricOk(s) && i < |s.buckets|
    ensures var t := AdmitTo(s, q, i, kind, historic, host);
            RecentOk(t) && HistoricOk(t)
  {
    var t := AdmitTo(s, q, i, kind, historic, host);
    forall k | 0 <= k < |s.recent| ensures Listed(t, s.recent[k], false) { assert Listed(s, s.recent[k], false); }
    forall x | x in s.historic ensures Listed(t, s.historic[x], true) { assert Listed(s, s.historic[x], true); }
  }

  lemma AdmitCore(s: Agg, q: Req, i: nat, kind: Kind, historic: bool, host: HostKey)
    requires Core(s) && i < |s.buckets| && q !in s.seen && s.buckets[i].stage.Collecting?
    requires if s.buckets[i].fromHistoric then kind.Data? else s.buckets[i].time % 3 == s.replica
    ensures Core(AdmitTo(s, q, i, kind, historic, host))
  {
    assert BucketInv(s.buckets[i], s.replica) && q !in s.buckets[i].clients;
    AdmitInv(s.buckets[i], q, kind, historic, host, s.replica);
    AdmitConserved(s, q, i, kind, historic, host);
    AdmitOwned(s, q, i, kind, historic, host);
    AdmitAnswers(s, q, i, kind, historic, host);
    AdmitLists(s, q, i, kind, historic, host);
    hide BucketInv, RecentOk, HistoricOk, Conserved, Owned, AnswersOk, InsertsOk, AnsweredOnce, Claimed;
  }

  // ---------- new buckets ----------

  function Grow(s: Agg, time: nat, fromHistoric: bool): Agg {
    s.(buckets := s.buckets + [NewBucket(time, fromHistoric)])
  }

  lemma NewBucketInv(time: nat, fromHistoric: bool, replica: int)
    ensures BucketInv(NewBucket(time, fromHistoric), replica)
    ensures forall h: HostKey :: Claimed(NewBucket(time, fromHistoric), h) == {}
  {
    forall h: HostKey ensures Counted(NewBucket(time, fromHistoric), h) == {} {}
  }

  lemma GrowCore(s: Agg, time: nat, fromHistoric: bool)
    requires Core(s)
    ensures Core(Grow(s, time, fromHistoric))
    ensures Unlisted(Grow(s, time, fromHistoric), |s.buckets|)
  {
    var t := Grow(s, time, fromHistoric);
    NewBucketInv(time, fromHistoric, s.replica);
    GrowLists(s, time, fromHistoric);
    GrowAnswers(s, time, fromHistoric);
    assert Conserved(t) by {
      hide Claimed;
      forall h: HostKey ensures Get(t.hosts, h) == Claims(t.buckets, h) {
        ClaimsAppend(s.buckets, NewBucket(time, fromHistoric), h);
      }
    }
    hide BucketInv, RecentOk, HistoricOk, Conserved, Owned, AnswersOk, InsertsOk, AnsweredOnce, Claimed;
  }

  lemma GrowLists(s: Agg, time: nat, fromHistoric: bool)
    requires RecentOk(s) && HistoricOk(s)
    ensures var t := Grow(s, time, fromHistoric);
            RecentOk(t) && HistoricOk(t) && Unlisted(t, |s.buckets|)
  {
    var t := Grow(s, time, fromHistoric);
    forall k | 0 <= k < |s.recent| ensures Listed(t, s.recent[k], false) { assert Listed(s, s.recent[k], false); }
    forall x | x in s.historic ensures Listed(t, s.historic[x], true) { assert Listed(s, s.historic[x], true); }
  }

  lemma GrowAnswers(s: Agg, time: nat, fromHistoric: bool)
    requires Owned(s) && AnswersOk(s) && InsertsOk(s) && AnsweredOnce(s)
    ensures var t := Grow(s, time, fromHistoric);
            Owned(t) && AnswersOk(t) && InsertsOk(t) && AnsweredOnce(t)
  {
    var t := Grow(s, time, fromHistoric);
    forall q | q in t.answers ensures Justified(t, q, t.answers[q]) { assert Justified(s, q, s.answers[q]); }
    forall j, q | 0 <= j < |t.buckets| && Expects(t.buckets[j], q) ensures q !in t.answers {
      assert Expects(s.buckets[j], q);
    }
    forall j, q | 0 <= j < |t.buckets| && q in t.buckets[j].clients ensures j < |s.buckets| {}
  }

  /** A historic bucket for a second that has none. */
  function OpenHistoric(s: Agg, time: nat): Agg {
    Grow(s, time, true).(historic := s.historic[time := |s.buckets|])
  }

  lemma OpenHistoricCore(s: Agg, time: nat)
    requires Core(s)
    ensures Core(OpenHistoric(s, time))
  {
    GrowCore(s, time, true);
    var g, t := Grow(s, time, true), OpenHistoric(s, time);
    hide AllBuckets, Conserved, Owned, AnswersOk, InsertsOk, AnsweredOnce;
    assert RecentOk(t) && HistoricOk(t) by {
      forall k | 0 <= k < |s.recent| ensures Listed(t, s.recent[k], false) { assert Listed(g, s.recent[k], false); }
      forall x | x in t.historic ensures Listed(t, t.historic[x], true) {
        if x != time { assert Listed(g, g.historic[x], true); }
      }
    }
    Relisted(g, t);
  }

  /** Nothing but the two lists matters to the lists. */
  lemma Relisted(s: Agg, t: Agg)
    requires Core(s) && s.seen <= t.seen
    requires t == s.(recent := t.recent, historic := t.historic, seen := t.seen, closing := t.closing)
    requires RecentOk(t) && HistoricOk(t)
    ensures Core(t)
  {
    SameAnswers(s, t);
    hide RecentOk, HistoricOk, AnswersOk, BucketInv, Expects, Claims, PastBarrier;
  }

  lemma SameAnswers(s: Agg, t: Agg)
    requires AnswersOk(s) && s.seen <= t.seen && t.answers == s.answers
    requires t.buckets == s.buckets && t.inserts == s.inserts && t.replica == s.replica
    ensures AnswersOk(t)
  {
    forall r | r in t.answers ensures Justified(t, r, t.answers[r]) { assert Justified(s, r, s.answers[r]); }
  }

  // ---------- the window ----------

  /** A new second at the far end of the window. */
  function OpenRecent(s: Agg, time: nat): Agg {
    Grow(s, time, false).(recent := s.recent + [|s.buckets|])
  }

  lemma OpenRecentCore(s: Agg, time: nat)
    requires Core(s)
    requires s.recent != [] ==> s.recent[0] < |s.buckets| && time == s.buckets[s.recent[0]].time + |s.recent|
    ensures Core(OpenRecent(s, time))
  {
    GrowCore(s, time, false);
    var g, t := Grow(s, time, false), OpenRecent(s, time);
    hide AllBuckets, Conserved, Owned, AnswersOk, InsertsOk, AnsweredOnce;
    assert RecentOk(t) && HistoricOk(t) by {
      forall k | 0 <= k < |s.recent| ensures Listed(t, s.recent[k], false) { assert Listed(g, s.recent[k], false); }
      forall x | x in t.historic ensures Listed(t, t.historic[x], true) { assert Listed(g, g.historic[x], true); }
    }
    Relisted(g, t);
  }

  /** The oldest second leaves the window. */
  function ReleaseFirst(s: Agg): Agg
    requires s.recent != [] && s.recent[0] < |s.buckets|
  {
    var i := s.recent[0];
    Put(s.(recent := s.recent[1..]), i, s.buckets[i].(stage := Removed(Fresh)), map[])
  }

  lemma ReleaseFirstCore(s: Agg)
    requires Core(s) && s.recent != []
    ensures s.recent[0] < |s.buckets| && Core(ReleaseFirst(s))
  {
    var i, t := s.recent[0], s.(recent := s.recent[1..]);
    assert Listed(s, i, false);
    assert RecentOk(t) && HistoricOk(t) && Unlisted(t, i) by {
      hide AllBuckets, Conserved, Owned, AnswersOk, InsertsOk, AnsweredOnce;
      forall k | 0 <= k < |t.recent| ensures Listed(t, t.recent[k], false) { assert Listed(s, s.recent[k + 1], false); }
      forall x | x in s.historic ensures Listed(t, s.historic[x], true) { assert Listed(s, s.historic[x], true); }
    }
    Relisted(s, t);
    TakenOut(t, i, Fresh);
  }

  /** A bucket that is in no list any more waits for the barrier. */
  lemma TakenOut(s: Agg, i: nat, why: Staleness)
    requires Core(s) && i < |s.buckets| && Unlisted(s, i) && s.buckets[i].stage.Collecting?
    requires StaleForReason(s.buckets[i].(stage := Removed(why)))
    ensures Core(Put(s, i, s.buckets[i].(stage := Removed(why)), map[]))
  {
    var b := s.buckets[i];
    assert BucketInv(b, s.replica);
    assert i !in s.inserts;
    StageInv(b, b.(stage := Removed(why)), s.replica);
    hide AllBuckets, BucketInv, RecentOk, HistoricOk, Conserved, Owned, AnswersOk, InsertsOk, AnsweredOnce, Claimed;
    PutCore(s, i, b.(stage := Removed(why)), map[]);
  }

  function Release(s: Agg, now: int, shortWindow: int): (r: Agg)
    requires forall k | 0 <= k < |s.recent| :: s.recent[k] < |s.buckets|
    ensures |r.buckets| == |s.buckets| && forall k | 0 <= k < |r.recent| :: r.recent[k] < |r.buckets|
    decreases |s.recent|
  {
    if s.recent != [] && now > s.buckets[s.recent[0]].time + shortWindow
    then Release(ReleaseFirst(s), now, shortWindow) else s
  }

  function Fill(s: Agg, shortWindow: int): Agg
    requires s.recent != [] && s.recent[0] < |s.buckets|
    decreases shortWindow + FUTURE_WINDOW - |s.recent|
  {
    if |s.recent| < shortWindow + FUTURE_WINDOW then
      Fill(OpenRecent(s, s.buckets[s.recent[0]].time + |s.recent|), shortWindow)
    else s
  }

  /** One tick of the clock: seconds that are over leave the window and new ones enter it. */
  function Tick(s: Agg, now: nat, shortWindow: int): Agg
    requires forall k | 0 <= k < |s.recent| :: s.recent[k] < |s.buckets|
    requires now >= shortWindow
  {
    var r := Release(s, now, shortWindow);
    Fill(if r.recent == [] then OpenRecent(r, now - shortWindow) else r, shortWindow)
  }

  lemma {:induction false} ReleaseCore(s: Agg, now: int, shortWindow: int)
    requires Core(s) && forall k | 0 <= k < |s.recent| :: s.recent[k] < |s.buckets|
    ensures Core(Release(s, now, shortWindow))
    decreases |s.recent|
  {
    if s.recent != [] && now > s.buckets[s.recent[0]].time + shortWindow {
      ReleaseFirstCore(s);
      hide Core;
      ReleaseCore(ReleaseFirst(s), now, shortWindow);
    }
  }

  lemma {:induction false} FillCore(s: Agg, shortWindow: int)
    requires Core(s) && s.recent != [] && s.recent[0] < |s.buckets|
    ensures Core(Fill(s, shortWindow)) && |Fill(s, shortWindow).recent| >= shortWindow + FUTURE_WINDOW
    ensures Fill(s, shortWindow).replica == s.replica
    decreases shortWindow + FUTURE_WINDOW - |s.recent|
  {
    hide Core, Fill, OpenRecent;
    FillUnfold(s, shortWindow);
    if |s.recent| < shortWindow + FUTURE_WINDOW {
      var time := s.buckets[s.recent[0]].time + |s.recent|;
      OpenRecentCore(s, time);
      FillCore(OpenRecent(s, time), shortWindow);
    }
  }

  lemma FillUnfold(s: Agg, shortWindow: int)
    requires s.recent != [] && s.recent[0] < |s.buckets|
    ensures var o := OpenRecent(s, s.buckets[s.recent[0]].time + |s.recent|);
            && |o.recent| == |s.recent| + 1 && o.recent[0] < |o.buckets| && o.replica == s.replica
            && Fill(s, shortWindow) == if |s.recent| < shortWindow + FUTURE_WINDOW then Fill(o, shortWindow) else s
  {}

}
