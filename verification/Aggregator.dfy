/** The aggregator as a system of interleaved steps. A step is what runs under one lock without
    giving it up: handlers, cancels, the ticker and any number of inserters take steps in any order. */
module Aggregator {
  import opened AggBucket
  import opened Routing
  import opened RecentWindow

  /** Why an agent is told that it may erase a bucket. */
  datatype Discard =
    | InInsert(bid: nat) // the bucket that took it in was part of an insert that succeeded
    | StaleBucket(bid: nat, oldest: nat, historicWindow: nat) // its historic bucket fell behind the historic window
    | BeyondWindow(time: nat, oldest: nat, historicWindow: nat) // its second did when it came
    | TooFarInFuture(time: nat, newest: nat) // its second is not collected yet
    | Undecodable | OldAgent | WrongReplica

  datatype Answer = Erase(why: Discard) | KeepData | Failed

  datatype Agg = Agg(
    replica: int,
    recent: seq<nat>, // indices of buckets, oldest first
    historic: map<nat, nat>, // second -> index of bucket
    buckets: seq<Bucket>, // every bucket there ever was
    hosts: map<HostKey, int>,
    closing: bool, // no more inserts
    seen: set<Req>,
    answers: map<Req, Answer>,
    inserts: map<nat, map<Req, Rows>>) // bucket -> the rows in it when it was inserted

  // ---------- the invariant ----------

  ghost predicate AllBuckets(s: Agg) {
    forall i | 0 <= i < |s.buckets| :: BucketInv(s.buckets[i], s.replica)
  }

  const MIN_WINDOW := MIN_SHORT_WINDOW + FUTURE_WINDOW

  predicate Listed(s: Agg, i: nat, fromHistoric: bool) {
    i < |s.buckets| && s.buckets[i].stage.Collecting? && s.buckets[i].fromHistoric == fromHistoric
  }

  /** Recent buckets are consecutive seconds and are still being collected. */
  predicate RecentOk(s: Agg) {
    && (forall k | 0 <= k < |s.recent| :: Listed(s, s.recent[k], false))
    && (forall k | 0 <= k < |s.recent| :: s.buckets[s.recent[k]].time == s.buckets[s.recent[0]].time + k)
  }

  predicate Window(s: Agg) {
    0 <= s.replica < 3 && |s.recent| >= MIN_WINDOW && RecentOk(s)
  }

  predicate HistoricOk(s: Agg) {
    forall t | t in s.historic :: Listed(s, s.historic[t], true) && s.buckets[s.historic[t]].time == t
  }

  /** Historic senders a bucket still stands for in the aggregator's count. */
  function Claim(b: Bucket, h: HostKey): nat {
    if b.stage.Settled? then 0 else |Claimed(b, h)|
  }

  function Claims(buckets: seq<Bucket>, h: HostKey): nat {
    if buckets == [] then 0 else Claims(buckets[..|buckets| - 1], h) + Claim(buckets[|buckets| - 1], h)
  }

  ghost predicate Conserved(s: Agg) {
    forall h: HostKey :: Get(s.hosts, h) == Claims(s.buckets, h)
  }

  /** Every request is in at most one bucket. */
  predicate Owned(s: Agg) {
    && (forall i, q | 0 <= i < |s.buckets| && q in s.buckets[i].clients :: q in s.seen)
    && (forall i, j, q | 0 <= i < |s.buckets| && 0 <= j < |s.buckets|
                         && q in s.buckets[i].clients && q in s.buckets[j].clients :: i == j)
  }

  /** The request is a keep-alive, which has nothing to erase, in this bucket. */
  predicate Pings(s: Agg, i: nat, q: Req) {
    i < |s.buckets| && q in s.buckets[i].clients && s.buckets[i].clients[q].kind.KeepAlive?
  }

  /** An answer that lets a client erase is right: the insert had the client's rows in it, or the
      second of the client's bucket, or the one it came with, is outside of the window. */
  predicate Reasonable(s: Agg, q: Req, why: Discard) {
    match why
    case InInsert(i) => i in s.inserts && (q in s.inserts[i] || Pings(s, i, q))
    case StaleBucket(i, oldest, historicWindow) =>
      && i < |s.buckets| && q in s.buckets[i].clients && s.buckets[i].fromHistoric
      && IsStale(s.buckets[i].time, oldest, historicWindow)
    case BeyondWindow(time, oldest, historicWindow) =>
      0 <= s.replica < 3 && IsStale(Rounded(time, s.replica), oldest, historicWindow)
    case TooFarInFuture(time, newest) => 0 <= s.replica < 3 && Rounded(time, s.replica) > newest
    case _ => true
  }

  predicate Justified(s: Agg, q: Req, a: Answer) {
    a.Erase? ==> Reasonable(s, q, a.why)
  }

  predicate AnswersOk(s: Agg) {
    forall q | q in s.answers :: q in s.seen && Justified(s, q, s.answers[q])
  }

  predicate PastBarrier(b: Bucket) {
    !b.stage.Collecting? && !b.stage.Removed? && !b.stage.Exclusive?
  }

  predicate InsertsOk(s: Agg) {
    && (forall i | i in s.inserts ::
          i < |s.buckets| && PastBarrier(s.buckets[i]) && s.inserts[i] == s.buckets[i].merged)
    && (forall i | 0 <= i < |s.buckets| && s.buckets[i].stage == Inserted(true) :: i in s.inserts)
  }

  /** The request still expects its answer from this bucket. */
  predicate Expects(b: Bucket, q: Req) {
    q in b.contributors || q in b.simulated || (q in b.clients && !Done(b.clients[q]))
  }

  /** Nobody who expects an answer has been answered, and no client was told to erase before its bucket
      was inserted or found to be stale. */
  predicate AnsweredOnce(s: Agg) {
    && (forall i, q | 0 <= i < |s.buckets| && Expects(s.buckets[i], q) :: q !in s.answers)
    && (forall i, q | 0 <= i < |s.buckets| && q in s.buckets[i].clients && q in s.answers ::
          Told(s.buckets[i]) || !s.answers[q].Erase?)
  }

  ghost predicate Core(s: Agg) {
    && AllBuckets(s) && RecentOk(s) && HistoricOk(s) && Conserved(s)
    && Owned(s) && AnswersOk(s) && InsertsOk(s) && AnsweredOnce(s)
  }

  ghost predicate Inv(s: Agg) {
    Core(s) && 0 <= s.replica < 3 && |s.recent| >= MIN_WINDOW
  }

  // ---------- admission ----------

  datatype Decision = Hijack | Refuse(answer: Answer) | Into(bid: nat) | NewHistoric

  function OldestTime(s: Agg): nat
    requires Window(s)
  {
    s.buckets[s.recent[0]].time
  }

  function NewestTime(s: Agg): nat
    requires Window(s)
  {
    s.buckets[s.recent[|s.recent| - 1]].time
  }

  /** What becomes of a bucket for second `time` that a client sends. */
  function Decide(s: Agg, time: nat, historic: bool, historicWindow: nat): Decision
    requires Window(s)
  {
    var oldest, newest := OldestTime(s), NewestTime(s);
    var rounded := Rounded(time, s.replica);
    if s.closing then Hijack
    else if rounded > newest then Refuse(Erase(TooFarInFuture(time, newest)))
    else if historic && oldest >= historicWindow && rounded < oldest - historicWindow then
      Refuse(Erase(BeyondWindow(time, oldest, historicWindow)))
    else if historic && rounded < oldest then
      if time in s.historic then Into(s.historic[time]) else NewHistoric
    else if rounded < oldest then Refuse(KeepData)
    else
      assert rounded - oldest < |s.recent|;
      Into(s.recent[rounded - oldest])
  }

  /** Admission always finds a bucket that is still being collected and whose read lock is free: in
      the historic map the bucket of exactly this second, in the recent list the bucket of the
      replica's own second at or right after it. */
  lemma DecideFacts(s: Agg, time: nat, historic: bool, historicWindow: nat)
    requires Inv(s)
    ensures var d := Decide(s, time, historic, historicWindow);
            d.Into? ==>
              && d.bid < |s.buckets| && s.buckets[d.bid].stage.Collecting? && s.buckets[d.bid].writer.NoWriter?
              && var b := s.buckets[d.bid];
              && (b.fromHistoric ==> historic && b.time == time)
              && (!b.fromHistoric ==> b.time == Rounded(time, s.replica) && b.time % 3 == s.replica
                                      && (b.time == time <==> Primary(time) == s.replica))
  {
    var d := Decide(s, time, historic, historicWindow);
    if d.Into? { assert BucketInv(s.buckets[d.bid], s.replica); }
  }

  /** Which buckets are taken in and which are refused: during shutdown nobody is answered; otherwise a
      bucket is admitted exactly when its rounded second lies between the far end of the window and
      its near end, or the historic window's for historic ones; a recent bucket that is merely late is
      to be kept, and the others may be erased for good reason. */
  lemma DecideReasons(s: Agg, q: Req, time: nat, historic: bool, historicWindow: nat)
    requires Window(s)
    ensures var d := Decide(s, time, historic, historicWindow);
            var rounded := Rounded(time, s.replica);
            var limit := if historic then OldestTime(s) - historicWindow else OldestTime(s);
            && (d.Hijack? <==> s.closing)
            && (d.Into? || d.NewHistoric? <==> !s.closing && limit <= rounded <= NewestTime(s))
            && (d == Refuse(KeepData) <==> !s.closing && !historic && rounded < limit && rounded <= NewestTime(s))
            && (d.Refuse? ==> Justified(s, q, d.answer))
            && (d.NewHistoric? ==> historic && time !in s.historic)
  {}

  function KeepAliveBucket(s: Agg): nat
    requires Window(s)
  {
    s.recent[Rounded(OldestTime(s), s.replica) - OldestTime(s)]
  }

  lemma KeepAliveFacts(s: Agg)
    requires Inv(s)
    ensures var b := KeepAliveBucket(s);
            && b < |s.buckets| && s.buckets[b].stage.Collecting? && !s.buckets[b].fromHistoric
            && s.buckets[b].time % 3 == s.replica && s.buckets[b].writer.NoWriter?
            && OldestTime(s) <= s.buckets[b].time <= OldestTime(s) + 2
  {
    var b := KeepAliveBucket(s);
    assert Listed(s, b, false);
    assert BucketInv(s.buckets[b], s.replica);
  }

  // ---------- changing one bucket ----------

  function Put(s: Agg, i: nat, b: Bucket, answers: map<Req, Answer>): Agg
    requires i < |s.buckets|
  {
    s.(buckets := s.buckets[i := b], answers := s.answers + answers)
  }

  lemma {:induction false} ClaimsUpdate(buckets: seq<Bucket>, i: nat, b: Bucket, h: HostKey)
    requires i < |buckets|
    ensures Claims(buckets[i := b], h) == Claims(buckets, h) - Claim(buckets[i], h) + Claim(b, h)
  {
    var last := |buckets| - 1;
    if i == last {
      assert buckets[i := b][..last] == buckets[..last];
    } else {
      ClaimsUpdate(buckets[..last], i, b, h);
      assert buckets[i := b][..last] == buckets[..last][i := b];
    }
  }

  lemma ClaimsAppend(buckets: seq<Bucket>, b: Bucket, h: HostKey)
    ensures Claims(buckets + [b], h) == Claims(buckets, h) + Claim(b, h)
  {
    assert (buckets + [b])[..|buckets|] == buckets;
  }

  lemma PutConserved(s: Agg, i: nat, b: Bucket, answers: map<Req, Answer>)
    requires Conserved(s) && i < |s.buckets|
    requires forall h: HostKey :: Claim(b, h) == Claim(s.buckets[i], h)
    ensures Conserved(Put(s, i, b, answers))
  {
    forall h: HostKey ensures Get(s.hosts, h) == Claims(s.buckets[i := b], h) {
      ClaimsUpdate(s.buckets, i, b, h);
    }
  }

  predicate Unlisted(s: Agg, i: nat) {
    i !in s.recent && forall t | t in s.historic :: s.historic[t] != i
  }

  /** The same requests with the same rows, however far their handlers are. */
  predicate SameSenders(a: Bucket, b: Bucket) {
    a.clients.Keys == b.clients.Keys && forall q | q in a.clients :: b.clients[q].kind == a.clients[q].kind
  }

  lemma PutLists(s: Agg, i: nat, b: Bucket, answers: map<Req, Answer>)
    requires RecentOk(s) && HistoricOk(s) && i < |s.buckets|
    requires b.time == s.buckets[i].time && b.fromHistoric == s.buckets[i].fromHistoric
    requires b.stage.Collecting? || !s.buckets[i].stage.Collecting? || Unlisted(s, i)
    ensures RecentOk(Put(s, i, b, answers)) && HistoricOk(Put(s, i, b, answers))
  {
    var t := Put(s, i, b, answers);
    forall k | 0 <= k < |s.recent| ensures Listed(t, s.recent[k], false) { assert Listed(s, s.recent[k], false); }
    forall x | x in s.historic ensures Listed(t, s.historic[x], true) { assert Listed(s, s.historic[x], true); }
  }

  lemma PutOwned(s: Agg, i: nat, b: Bucket, answers: map<Req, Answer>)
    requires Owned(s) && i < |s.buckets| && SameSenders(s.buckets[i], b)
    ensures Owned(Put(s, i, b, answers))
  {
    var t := Put(s, i, b, answers);
    forall j, q | 0 <= j < |t.buckets| && q in t.buckets[j].clients ensures q in s.buckets[j].clients {}
  }

  lemma PutAll(s: Agg, i: nat, b: Bucket, answers: map<Req, Answer>)
    requires AllBuckets(s) && i < |s.buckets| && BucketInv(b, s.replica)
    ensures AllBuckets(Put(s, i, b, answers))
  {
    hide BucketInv;
  }

  lemma PutAnswersOk(s: Agg, i: nat, b: Bucket, answers: map<Req, Answer>)
    requires Owned(s) && AnswersOk(s) && i < |s.buckets| && SameSenders(s.buckets[i], b)
    requires b.time == s.buckets[i].time && b.fromHistoric == s.buckets[i].fromHistoric
    requires forall q | q in answers :: q in b.clients && Justified(s, q, answers[q])
    ensures AnswersOk(Put(s, i, b, answers))
  {
    hide IsStale, Rounded;
    var t := Put(s, i, b, answers);
    forall q | q in t.answers ensures q in t.seen && Justified(t, q, t.answers[q]) {
      assert q !in answers ==> Justified(s, q, s.answers[q]);
    }
  }

  lemma PutInsertsOk(s: Agg, i: nat, b: Bucket, answers: map<Req, Answer>)
    requires InsertsOk(s) && i < |s.buckets| && SameSenders(s.buckets[i], b)
    requires i in s.inserts ==> PastBarrier(b) && b.merged == s.buckets[i].merged
    requires b.stage == Inserted(true) ==> i in s.inserts
    ensures InsertsOk(Put(s, i, b, answers))
  {}

  lemma PutOnce(s: Agg, i: nat, b: Bucket, answers: map<Req, Answer>)
    requires AllBuckets(s) && Owned(s) && AnsweredOnce(s) && i < |s.buckets|
    requires SameSenders(s.buckets[i], b)
    requires forall q | q in answers :: q in b.clients && !Expects(b, q) && (answers[q].Erase? ==> Told(b))
    requires Told(s.buckets[i]) ==> Told(b)
    requires forall q | Expects(b, q) :: Expects(s.buckets[i], q)
    ensures AnsweredOnce(Put(s, i, b, answers))
  {
    var t := Put(s, i, b, answers);
    forall j, q | 0 <= j < |t.buckets| && Expects(t.buckets[j], q) ensures q !in t.answers {
      assert Expects(s.buckets[j], q) && BucketInv(s.buckets[j], s.replica);
      hide HostsCounted, Quiet, AllBuckets;
    }
    hide AllBuckets, Expects;
    forall j, q | 0 <= j < |t.buckets| && q in t.buckets[j].clients && q in t.answers
      ensures Told(t.buckets[j]) || !t.answers[q].Erase?
    {
      assert q in s.buckets[j].clients;
    }
  }

  lemma PutAnswers(s: Agg, i: nat, b: Bucket, answers: map<Req, Answer>)
    requires AllBuckets(s) && Owned(s) && AnswersOk(s) && InsertsOk(s) && AnsweredOnce(s) && i < |s.buckets|
    requires SameSenders(s.buckets[i], b)
    requires b.time == s.buckets[i].time && b.fromHistoric == s.buckets[i].fromHistoric
    requires i in s.inserts ==> PastBarrier(b) && b.merged == s.buckets[i].merged
    requires b.stage == Inserted(true) ==> i in s.inserts
    requires forall q | q in answers :: q in b.clients && !Expects(b, q) && Justified(s, q, answers[q])
    requires forall q | q in answers && answers[q].Erase? :: Told(b)
    requires Told(s.buckets[i]) ==> Told(b)
    requires forall q | Expects(b, q) :: Expects(s.buckets[i], q)
    ensures AnswersOk(Put(s, i, b, answers)) && InsertsOk(Put(s, i, b, answers)) && AnsweredOnce(Put(s, i, b, answers))
  {
    hide AllBuckets, Owned, AnswersOk, InsertsOk, AnsweredOnce, Justified, Expects;
    PutAnswersOk(s, i, b, answers);
    PutInsertsOk(s, i, b, answers);
    PutOnce(s, i, b, answers);
  }

  /** A step that changes one bucket and answers some of its clients. */
  lemma PutCore(s: Agg, i: nat, b: Bucket, answers: map<Req, Answer>)
    requires Core(s) && i < |s.buckets| && BucketInv(b, s.replica)
    requires b.time == s.buckets[i].time && b.fromHistoric == s.buckets[i].fromHistoric
    requires b.stage.Collecting? || !s.buckets[i].stage.Collecting? || Unlisted(s, i)
    requires SameSenders(s.buckets[i], b)
    requires forall h: HostKey :: Claim(b, h) == Claim(s.buckets[i], h)
    requires i in s.inserts ==> PastBarrier(b) && b.merged == s.buckets[i].merged
    requires b.stage == Inserted(true) ==> i in s.inserts
    requires forall q | q in answers :: q in b.clients && !Expects(b, q) && Justified(s, q, answers[q])
    requires forall q | q in answers && answers[q].Erase? :: Told(b)
    requires Told(s.buckets[i]) ==> Told(b)
    requires forall q | Expects(b, q) :: Expects(s.buckets[i], q)
    ensures Core(Put(s, i, b, answers))
  {
    PutAll(s, i, b, answers);
    PutLists(s, i, b, answers);
    PutConserved(s, i, b, answers);
    PutOwned(s, i, b, answers);
    PutAnswers(s, i, b, answers);
    hide AllBuckets, BucketInv, RecentOk, HistoricOk, Conserved, Owned, AnswersOk, InsertsOk, AnsweredOnce;
  }
}
