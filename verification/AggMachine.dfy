/** Whole runs of the aggregator: any interleaving of its steps. */
module AggMachine {
  import opened AggBucket
  import opened Routing
  import opened RecentWindow
  import opened Aggregator
  import opened AggSteps

  datatype Step =
    | Rejection(q: Req, answer: Answer) // refused before the aggregator's lock or for a wrong shard-replica
    | Arrival(q: Req, time: nat, rows: Rows, historic: bool, historicWindow: nat, host: HostKey,
              simulated: bool, started: bool)
    | Ping(q: Req)
    | Merging(i: nat, q: Req)
    | Registration(i: nat, q: Req, started: bool)
    | Leaving(i: nat, q: Req) // the read lock is given up
    | Cancelling(i: nat, q: Req)
    | Ticking(now: nat, shortWindow: int)
    | Popping(time: nat, oldest: nat, historicWindow: nat) // one bucket of a pop, stale or the oldest
    | Locking(i: nat) // the barrier asks for the write lock
    | Passing(i: nat) // and gets it
    | Overflow(i: nat) // the insert conveyor is full
    | Insertion(i: nat, ok: bool)
    | Answering(i: nat)
    | Failing(i: nat) // simulated errors
    | Settling(i: nat)
    | Closing

  predicate OfClient(step: Step) {
    || step.Rejection? || step.Arrival? || step.Ping? || step.Merging?
    || step.Registration? || step.Leaving? || step.Cancelling?
  }

  predicate OfInserter(step: Step) {
    step.Overflow? || step.Insertion? || step.Answering? || step.Failing? || step.Settling?
  }

  predicate Enabled(s: Agg, step: Step)
    requires Window(s)
  {
    match step
    case Rejection(q, answer) =>
      q !in s.seen && answer in {Erase(Undecodable), Erase(OldAgent), Erase(WrongReplica), Failed}
    case Arrival(q, _, _, _, _, _, _, _) => q !in s.seen
    case Ping(q) => q !in s.seen
    case Merging(i, q) =>
      && i < |s.buckets| && q in s.buckets[i].clients
      && s.buckets[i].clients[q].kind.Data? && s.buckets[i].clients[q].progress.Admitted?
    case Registration(i, q, _) =>
      && i < |s.buckets| && q in s.buckets[i].clients
      && Ready(s.buckets[i].clients[q])
    case Leaving(i, q) => i < |s.buckets| && q in s.buckets[i].clients && s.buckets[i].clients[q].progress.Registered?
    case Cancelling(i, q) => i < |s.buckets|
    case Ticking(now, shortWindow) => now >= shortWindow >= MIN_SHORT_WINDOW
    case Popping(time, oldest, historicWindow) =>
      && time in s.historic && s.historic[time] < |s.buckets|
      && oldest <= OldestTime(s) // read before, and the window never moves back
      && (!IsStale(time, oldest, historicWindow) ==>
            forall t | t in s.historic :: IsStale(t, oldest, historicWindow) || time <= t)
    case Locking(i) => i < |s.buckets| && s.buckets[i].stage.Removed? && s.buckets[i].writer.NoWriter?
    case Passing(i) =>
      i < |s.buckets| && s.buckets[i].stage.Removed? && s.buckets[i].writer.WriterWaiting? && Quiet(s.buckets[i])
    case Overflow(i) => i < |s.buckets| && s.buckets[i].stage == Exclusive(Fresh) && !s.buckets[i].fromHistoric
    case Insertion(i, _) =>
      && i < |s.buckets| && s.buckets[i].stage == Exclusive(Fresh)
      && (s.buckets[i].fromHistoric || s.buckets[i].time % 3 == s.replica)
    case Answering(i) => i < |s.buckets| && Decided(s.buckets[i])
    case Failing(i) => i < |s.buckets| && s.buckets[i].stage.Settled?
    case Settling(i) => i < |s.buckets| && s.buckets[i].stage.Answered?
    case Closing => true
  }

  /** It is known what to tell the clients of the bucket. */
  predicate Decided(b: Bucket) {
    b.stage.Inserted? || (b.stage.Exclusive? && b.stage.why.Stale?)
  }

  /** A handler whose long poll does not start answers itself. */
  function Unless(started: bool, q: Req, a: Answer): map<Req, Answer> {
    if started then map[] else map[q := a]
  }

  function ToAll(qs: set<Req>, a: Answer): map<Req, Answer> {
    map q | q in qs :: a
  }

  /** What the clients of a bucket are told once it was inserted, or found to be stale. */
  function Verdict(b: Bucket, i: nat): Answer {
    if b.stage == Inserted(true) then Erase(InInsert(i))
    else if b.stage.Exclusive? && b.stage.why.Stale? then
      Erase(StaleBucket(i, b.stage.why.oldest, b.stage.why.historicWindow))
    else Failed
  }

  function Subtract(my: map<HostKey, int>, del: map<HostKey, int>): map<HostKey, int> {
    map h | h in my.Keys + del.Keys && (h in del ==> Get(my, h) != del[h]) :: Get(my, h) - Get(del, h)
  }

  function Arrive(s: Agg, q: Req, time: nat, rows: Rows, historic: bool, historicWindow: nat, host: HostKey,
                  simulated: bool, started: bool): Agg
    requires Window(s) && HistoricOk(s)
  {
    match Decide(s, time, historic, historicWindow)
    case Hijack => s.(seen := s.seen + {q}, answers := if started then s.answers else s.answers[q := KeepData])
    case Refuse(answer) => s.(seen := s.seen + {q}, answers := s.answers[q := answer])
    case Into(i) =>
      assert Listed(s, i, s.buckets[i].fromHistoric);
      AdmitTo(s, q, i, if simulated && !historic then Simulated else Data(rows), historic, host)
    case NewHistoric => AdmitTo(OpenHistoric(s, time), q, |s.buckets|, Data(rows), historic, host)
  }

  function StalenessOf(time: nat, oldest: nat, historicWindow: nat): Staleness {
    if IsStale(time, oldest, historicWindow) then Stale(oldest, historicWindow) else Fresh
  }

  function Pop(s: Agg, time: nat, why: Staleness): Agg
    requires time in s.historic && s.historic[time] < |s.buckets|
  {
    var i := s.historic[time];
    Put(s.(historic := s.historic - {time}), i, s.buckets[i].(stage := Removed(why)), map[])
  }

  function Next(s: Agg, step: Step): Agg
    requires Window(s) && HistoricOk(s) && Enabled(s, step)
  {
    match step
    case Rejection(q, answer) => s.(seen := s.seen + {q}, answers := s.answers[q := answer])
    case Arrival(q, time, rows, historic, historicWindow, host, simulated, started) =>
      Arrive(s, q, time, rows, historic, historicWindow, host, simulated, started)
    case Ping(q) =>
      assert Listed(s, KeepAliveBucket(s), false);
      AdmitTo(s, q, KeepAliveBucket(s), KeepAlive, false, 0)
    case Merging(i, q) => Put(s, i, Merge(s.buckets[i], q), map[])
    case Registration(i, q, started) =>
      Put(s, i, Register(s.buckets[i], q, started),
          Unless(started, q, if s.buckets[i].clients[q].kind.KeepAlive? then Failed else KeepData))
    case Leaving(i, q) => Put(s, i, Advance(s.buckets[i], q, Finished), map[])
    case Cancelling(i, q) => Put(s, i, Cancel(s.buckets[i], q), map[])
    case Ticking(now, shortWindow) =>
      assert forall k | 0 <= k < |s.recent| :: Listed(s, s.recent[k], false);
      Tick(s, now, shortWindow)
    case Popping(time, oldest, historicWindow) => Pop(s, time, StalenessOf(time, oldest, historicWindow))
    case Locking(i) => Put(s, i, s.buckets[i].(writer := WriterWaiting), map[])
    case Passing(i) =>
      Put(s, i, s.buckets[i].(writer := WriterPassed, stage := Exclusive(s.buckets[i].stage.why)), map[])
    case Overflow(i) =>
      Put(s, i, s.buckets[i].(stage := Dropped, contributors := {}), ToAll(s.buckets[i].contributors, KeepData))
    case Insertion(i, ok) =>
      Put(if ok then Entered(s, i) else s, i, s.buckets[i].(stage := Inserted(ok)), map[])
    case Answering(i) =>
      Put(s, i, s.buckets[i].(stage := Answered, contributors := {}),
          ToAll(s.buckets[i].contributors, Verdict(s.buckets[i], i)))
    case Failing(i) => Put(s, i, s.buckets[i].(simulated := {}), ToAll(s.buckets[i].simulated, Failed))
    case Settling(i) =>
      Put(s.(hosts := Subtract(s.hosts, s.buckets[i].hosts)), i, s.buckets[i].(stage := Settled), map[])
    case Closing => s.(closing := true)
  }

  /** The insert takes what is in the bucket. */
  function Entered(s: Agg, i: nat): Agg
    requires i < |s.buckets|
  {
    s.(inserts := s.inserts[i := s.buckets[i].merged])
  }

  // ---------- every step keeps the invariant ----------

  lemma InvLists(s: Agg)
    requires Inv(s)
    ensures Window(s) && HistoricOk(s) && forall k | 0 <= k < |s.recent| :: s.recent[k] < |s.buckets|
  {
    assert forall k | 0 <= k < |s.recent| :: Listed(s, s.recent[k], false);
  }

  lemma Placed(s: Agg, time: nat, historic: bool, historicWindow: nat)
    requires Inv(s)
    ensures Window(s)
    ensures match Decide(s, time, historic, historicWindow)
            case Into(i) =>
              && i < |s.buckets| && s.buckets[i].stage.Collecting? && s.buckets[i].writer.NoWriter?
              && if s.buckets[i].fromHistoric then historic else s.buckets[i].time % 3 == s.replica
            case Refuse(a) => forall q :: Justified(s, q, a)
            case _ => true
  {
    DecideFacts(s, time, historic, historicWindow);
    forall q ensures Decide(s, time, historic, historicWindow).Refuse? ==>
                       Justified(s, q, Decide(s, time, historic, historicWindow).answer)
    {
      DecideReasons(s, q, time, historic, historicWindow);
    }
    hide Core, Decide;
  }

  lemma ArriveInv(s: Agg, q: Req, time: nat, rows: Rows, historic: bool, historicWindow: nat, host: HostKey,
                  simulated: bool, started: bool)
    requires Inv(s) && q !in s.seen
    ensures Inv(Arrive(s, q, time, rows, historic, historicWindow, host, simulated, started))
  {
    InvLists(s);
    Placed(s, time, historic, historicWindow);
    hide Core, RecentOk, HistoricOk, Decide, AdmitTo, OpenHistoric, BucketInv;
    match Decide(s, time, historic, historicWindow)
    case Hijack =>
      if started { Noticed(s, q); } else { AnsweredAtOnce(s, q, KeepData); }
    case Refuse(answer) => AnsweredAtOnce(s, q, answer);
    case Into(i) => AdmittedInv(s, q, i, if simulated && !historic then Simulated else Data(rows), historic, host);
    case NewHistoric => OpenedInv(s, q, time, rows, historic, host);
  }

  lemma AdmittedInv(s: Agg, q: Req, i: nat, kind: Kind, historic: bool, host: HostKey)
    requires Inv(s) && i < |s.buckets| && q !in s.seen && s.buckets[i].stage.Collecting?
    requires if s.buckets[i].fromHistoric then kind.Data? else s.buckets[i].time % 3 == s.replica
    ensures Inv(AdmitTo(s, q, i, kind, historic, host))
  {
    hide Core, Admit, Bump;
    AdmitCore(s, q, i, kind, historic, host);
  }

  lemma OpenedInv(s: Agg, q: Req, time: nat, rows: Rows, historic: bool, host: HostKey)
    requires Inv(s) && q !in s.seen
    ensures |OpenHistoric(s, time).buckets| == |s.buckets| + 1
    ensures Inv(AdmitTo(OpenHistoric(s, time), q, |s.buckets|, Data(rows), historic, host))
  {
    hide Core, Admit, Bump;
    OpenHistoricCore(s, time);
    AdmitCore(OpenHistoric(s, time), q, |s.buckets|, Data(rows), historic, host);
  }

  /** Nothing the invariant speaks of has changed, but for more requests that were seen. */
  lemma CoreElsewhere(s: Agg, t: Agg)
    requires Core(s) && t == s.(seen := t.seen, closing := t.closing) && s.seen <= t.seen
    ensures Core(t)
  {
    ElsewhereLists(s, t);
    hide Core, RecentOk, HistoricOk;
    Relisted(s, t);
  }

  lemma ElsewhereLists(s: Agg, t: Agg)
    requires RecentOk(s) && HistoricOk(s) && t == s.(seen := t.seen, closing := t.closing)
    ensures RecentOk(t) && HistoricOk(t)
  {
    forall k | 0 <= k < |s.recent| ensures Listed(t, s.recent[k], false) { assert Listed(s, s.recent[k], false); }
    forall x | x in s.historic ensures Listed(t, s.historic[x], true) { assert Listed(s, s.historic[x], true); }
  }

  lemma Noticed(s: Agg, q: Req)
    requires Core(s)
    ensures Core(s.(seen := s.seen + {q}))
  {
    hide Core;
    CoreElsewhere(s, s.(seen := s.seen + {q}));
  }

  lemma AnsweredAtOnce(s: Agg, q: Req, a: Answer)
    requires Core(s) && q !in s.seen && Justified(s, q, a)
    ensures Core(s.(seen := s.seen + {q}, answers := s.answers[q := a]))
  {
    var t := s.(seen := s.seen + {q}, answers := s.answers[q := a]);
    assert AnswersOk(t) && AnsweredOnce(t) by { AtOnceAnswers(s, q, a); }
    hide BucketInv, AnswersOk, AnsweredOnce;
  }

  lemma AtOnceAnswers(s: Agg, q: Req, a: Answer)
    requires AllBuckets(s) && Owned(s) && AnswersOk(s) && AnsweredOnce(s) && q !in s.seen && Justified(s, q, a)
    ensures var t := s.(seen := s.seen + {q}, answers := s.answers[q := a]);
            AnswersOk(t) && AnsweredOnce(t)
  {
    var t := s.(seen := s.seen + {q}, answers := s.answers[q := a]);
    forall r | r in t.answers ensures Justified(t, r, t.answers[r]) { assert r != q ==> Justified(s, r, s.answers[r]); }
    forall i, r | 0 <= i < |s.buckets| && Expects(s.buckets[i], r) ensures r != q {
      assert BucketInv(s.buckets[i], s.replica);
      hide AllBuckets, HostsCounted;
    }
    hide BucketInv;
  }

  lemma BucketFacts(s: Agg, i: nat)
    requires Core(s) && i < |s.buckets|
    ensures BucketInv(s.buckets[i], s.replica)
    ensures i in s.inserts ==> PastBarrier(s.buckets[i]) && s.inserts[i] == s.buckets[i].merged
    ensures s.buckets[i].stage == Inserted(true) ==> i in s.inserts
  {}

  lemma NotInserted(s: Agg, i: nat, q: Req)
    requires Core(s) && i < |s.buckets| && q in s.buckets[i].clients && !s.buckets[i].clients[q].progress.Finished?
    ensures i !in s.inserts
  {
    BucketFacts(s, i);
    hide Core;
  }

  lemma MergingCore(s: Agg, i: nat, q: Req)
    requires Core(s) && i < |s.buckets| && q in s.buckets[i].clients
    requires s.buckets[i].clients[q].kind.Data? && s.buckets[i].clients[q].progress.Admitted?
    ensures Core(Put(s, i, Merge(s.buckets[i], q), map[]))
  {
    hide Core, BucketInv, Claimed, Quiet;
    BucketFacts(s, i);
    NotInserted(s, i, q);
    MergeInv(s.buckets[i], q, s.replica);
    PutCore(s, i, Merge(s.buckets[i], q), map[]);
  }

  lemma LeavingCore(s: Agg, i: nat, q: Req)
    requires Core(s) && i < |s.buckets| && q in s.buckets[i].clients && s.buckets[i].clients[q].progress.Registered?
    ensures Core(Put(s, i, Advance(s.buckets[i], q, Finished), map[]))
  {
    hide Core, BucketInv, Claimed, Quiet;
    BucketFacts(s, i);
    FinishInv(s.buckets[i], q, s.replica);
    SameClaims(s.buckets[i], q, Finished);
    PutCore(s, i, Advance(s.buckets[i], q, Finished), map[]);
  }

  lemma RegistrationCore(s: Agg, i: nat, q: Req, started: bool, a: Answer)
    requires i < |s.buckets| && q in s.buckets[i].clients && Ready(s.buckets[i].clients[q]) && !a.Erase? && Core(s)
    ensures Core(Put(s, i, Register(s.buckets[i], q, started), Unless(started, q, a)))
  {
    hide Core, BucketInv, Claimed, Expects, Quiet, Register;
    var b := s.buckets[i];
    BucketFacts(s, i);
    RegisterInv(b, q, started, s.replica);
    RegisterClaims(b, q, started);
    RegisterExpects(b, q, started, s.replica);
    PutCore(s, i, Register(b, q, started), Unless(started, q, a));
  }

  lemma RegisterExpects(b: Bucket, q: Req, started: bool, replica: int)
    requires BucketInv(b, replica) && q in b.clients && !Done(b.clients[q])
    ensures forall r | Expects(Register(b, q, started), r) :: Expects(b, r)
    ensures !started ==> !Expects(Register(b, q, started), q)
  {
    assert q !in b.contributors && q !in b.simulated;
    hide BucketInv;
  }

  lemma CancellingCore(s: Agg, i: nat, q: Req)
    requires Core(s) && i < |s.buckets|
    ensures Core(Put(s, i, Cancel(s.buckets[i], q), map[]))
  {
    BucketFacts(s, i);
    CancelInv(s.buckets[i], q, s.replica);
    assert forall h: HostKey :: Claimed(Cancel(s.buckets[i], q), h) == Claimed(s.buckets[i], h);
    hide Core, BucketInv, Claimed;
    PutCore(s, i, Cancel(s.buckets[i], q), map[]);
  }

  lemma RegisterClaims(b: Bucket, q: Req, started: bool)
    requires q in b.clients
    ensures forall h: HostKey :: Claimed(Register(b, q, started), h) == Claimed(b, h)
    ensures var a := Register(b, q, started);
            && a.time == b.time && a.fromHistoric == b.fromHistoric
            && a.stage == b.stage && SameSenders(b, a) && a.merged == b.merged
  {}

  /** Moving a bucket that has left the lists to another stage, with some of its clients answered. */
  lemma StageCore(s: Agg, i: nat, b: Bucket, answers: map<Req, Answer>)
    requires Core(s) && i < |s.buckets|
    requires b == s.buckets[i].(stage := b.stage, writer := b.writer,
                                contributors := b.contributors, simulated := b.simulated)
    requires !s.buckets[i].stage.Collecting? && !s.buckets[i].stage.Settled?
    requires !b.stage.Collecting? && !b.stage.Settled?
    requires BucketInv(b, s.replica)
    requires b.contributors <= s.buckets[i].contributors && b.simulated <= s.buckets[i].simulated
    requires i in s.inserts ==> PastBarrier(b)
    requires b.stage == Inserted(true) ==> i in s.inserts
    requires forall q | q in answers :: q in b.clients && !Expects(b, q) && Justified(s, q, answers[q])
    requires forall q | q in answers && answers[q].Erase? :: Told(b)
    requires !Told(s.buckets[i])
    ensures Core(Put(s, i, b, answers))
  {
    assert forall h: HostKey :: Claimed(b, h) == Claimed(s.buckets[i], h);
    hide Core, BucketInv, Claimed;
    PutCore(s, i, b, answers);
  }

  lemma LockingCore(s: Agg, i: nat)
    requires Core(s) && i < |s.buckets| && s.buckets[i].stage.Removed?
    ensures Core(Put(s, i, s.buckets[i].(writer := WriterWaiting), map[]))
  {
    var b := s.buckets[i];
    BucketFacts(s, i);
    StageInv(b, b.(writer := WriterWaiting), s.replica);
    hide Core, BucketInv;
    StageCore(s, i, b.(writer := WriterWaiting), map[]);
  }

  lemma PassingCore(s: Agg, i: nat)
    requires Core(s) && i < |s.buckets| && s.buckets[i].stage.Removed? && Quiet(s.buckets[i])
    ensures Core(Put(s, i, s.buckets[i].(writer := WriterPassed, stage := Exclusive(s.buckets[i].stage.why)), map[]))
  {
    var b := s.buckets[i];
    var a := b.(writer := WriterPassed, stage := Exclusive(b.stage.why));
    BucketFacts(s, i);
    StageInv(b, a, s.replica);
    hide Core, BucketInv, Quiet;
    StageCore(s, i, a, map[]);
  }

  /** The clients of a bucket behind the barrier are answered, all at once and all the same. */
  lemma AnsweringCore(s: Agg, i: nat, stage: Stage, a: Answer)
    requires Core(s) && i < |s.buckets| && (s.buckets[i].stage.Exclusive? || s.buckets[i].stage.Inserted?)
    requires stage == Answered || (stage == Dropped && s.buckets[i].stage.Exclusive?)
    requires a.Erase? ==> a == Verdict(s.buckets[i], i) && stage == Answered
    ensures Core(Put(s, i, s.buckets[i].(stage := stage, contributors := {}), ToAll(s.buckets[i].contributors, a)))
  {
    var b := s.buckets[i];
    BucketFacts(s, i);
    StageInv(b, b.(stage := stage, contributors := {}), s.replica);
    forall q | q in b.contributors ensures q in b.clients && Done(b.clients[q]) && q !in b.simulated {}
    hide Core, BucketInv, Quiet;
    StageCore(s, i, b.(stage := stage, contributors := {}), ToAll(b.contributors, a));
  }

  lemma FailingCore(s: Agg, i: nat)
    requires Core(s) && i < |s.buckets| && s.buckets[i].stage.Settled?
    ensures Core(Put(s, i, s.buckets[i].(simulated := {}), ToAll(s.buckets[i].simulated, Failed)))
  {
    var b := s.buckets[i];
    BucketFacts(s, i);
    StageInv(b, b.(simulated := {}), s.replica);
    forall q | q in b.simulated ensures q in b.clients && Done(b.clients[q]) && q !in b.contributors {}
    hide Core, BucketInv, Quiet, Claimed;
    PutCore(s, i, b.(simulated := {}), ToAll(b.simulated, Failed));
  }

  /** A bucket is inserted after its barrier, so with the rows of all its clients. */
  lemma InsertionCore(s: Agg, i: nat, ok: bool)
    requires Core(s) && i < |s.buckets| && s.buckets[i].stage == Exclusive(Fresh)
    ensures Core(Put(if ok then Entered(s, i) else s, i, s.buckets[i].(stage := Inserted(ok)), map[]))
  {
    var b := s.buckets[i];
    var a := b.(stage := Inserted(ok));
    BucketFacts(s, i);
    StageInv(b, a, s.replica);
    InsertionAnswers(s, i, ok);
    PutAll(s, i, a, map[]);
    PutLists(s, i, a, map[]);
    PutOwned(s, i, a, map[]);
    PutConserved(s, i, a, map[]);
    hide AllBuckets, BucketInv, RecentOk, HistoricOk, Conserved, Owned, AnswersOk, InsertsOk, AnsweredOnce;
    OnlyInserts(Put(s, i, a, map[]), Put(if ok then Entered(s, i) else s, i, a, map[]));
  }

  lemma OnlyInserts(s: Agg, t: Agg)
    requires AllBuckets(s) && RecentOk(s) && HistoricOk(s) && Owned(s) && Conserved(s)
    requires t == s.(inserts := t.inserts) && AnswersOk(t) && InsertsOk(t) && AnsweredOnce(t)
    ensures Core(t)
  {
    hide BucketInv, AnswersOk, InsertsOk, AnsweredOnce;
  }

  lemma InsertionAnswers(s: Agg, i: nat, ok: bool)
    requires Core(s) && i < |s.buckets| && s.buckets[i].stage == Exclusive(Fresh)
    ensures var t := Put(if ok then Entered(s, i) else s, i, s.buckets[i].(stage := Inserted(ok)), map[]);
            AnswersOk(t) && InsertsOk(t) && AnsweredOnce(t)
  {
    BucketFacts(s, i);
    if ok {
      assert i !in s.inserts;
      EnteredAnswers(s, i);
    } else {
      hide BucketInv, Quiet;
      PutAnswers(s, i, s.buckets[i].(stage := Inserted(false)), map[]);
    }
  }

  lemma EnteredAnswers(s: Agg, i: nat)
    requires AnswersOk(s) && InsertsOk(s) && AnsweredOnce(s) && i < |s.buckets| && !Told(s.buckets[i])
    requires i !in s.inserts
    ensures var t := Put(Entered(s, i), i, s.buckets[i].(stage := Inserted(true)), map[]);
            AnswersOk(t) && InsertsOk(t) && AnsweredOnce(t)
  {
    hide AnswersOk, InsertsOk, AnsweredOnce;
    EnteredJustified(s, i);
    EnteredInserts(s, i);
    EnteredOnce(s, i, Put(Entered(s, i), i, s.buckets[i].(stage := Inserted(true)), map[]));
  }

  lemma EnteredJustified(s: Agg, i: nat)
    requires AnswersOk(s) && i < |s.buckets| && i !in s.inserts
    ensures AnswersOk(Put(Entered(s, i), i, s.buckets[i].(stage := Inserted(true)), map[]))
  {
    hide IsStale, Rounded;
    var t := Put(Entered(s, i), i, s.buckets[i].(stage := Inserted(true)), map[]);
    forall q | q in t.answers ensures q in t.seen && Justified(t, q, t.answers[q]) {
      assert Justified(s, q, s.answers[q]);
    }
  }

  lemma EnteredInserts(s: Agg, i: nat)
    requires InsertsOk(s) && i < |s.buckets| && i !in s.inserts
    ensures InsertsOk(Put(Entered(s, i), i, s.buckets[i].(stage := Inserted(true)), map[]))
  {}

  lemma EnteredOnce(s: Agg, i: nat, t: Agg)
    requires AnsweredOnce(s) && i < |s.buckets| && !Told(s.buckets[i]) && t.answers == s.answers
    requires t.buckets == s.buckets[i := s.buckets[i].(stage := Inserted(true))]
    ensures AnsweredOnce(t)
  {
    forall j, q | 0 <= j < |t.buckets| && Expects(t.buckets[j], q) ensures q !in t.answers {
      assert Expects(s.buckets[j], q);
    }
    hide Expects;
    forall j, q | 0 <= j < |t.buckets| && q in t.buckets[j].clients && q in t.answers
      ensures Told(t.buckets[j]) || !t.answers[q].Erase?
    {
      assert q in s.buckets[j].clients;
    }
  }

  /** Subtracting a bucket's hosts takes exactly its share out of the aggregator's count. */
  lemma SettlingCore(s: Agg, i: nat)
    requires Core(s) && i < |s.buckets| && s.buckets[i].stage.Answered?
    ensures Core(Put(s.(hosts := Subtract(s.hosts, s.buckets[i].hosts)), i, s.buckets[i].(stage := Settled), map[]))
  {
    var a, t := s.buckets[i].(stage := Settled), s.(hosts := Subtract(s.hosts, s.buckets[i].hosts));
    BucketFacts(s, i);
    StageInv(s.buckets[i], a, s.replica);
    SettlingConserved(s, i);
    hide BucketInv, Claimed, Quiet;
    PutAll(s, i, a, map[]);
    PutLists(s, i, a, map[]);
    PutOwned(s, i, a, map[]);
    PutAnswers(s, i, a, map[]);
    hide AllBuckets, RecentOk, HistoricOk, Conserved, Owned, AnswersOk, InsertsOk, AnsweredOnce;
    OnlyHosts(Put(s, i, a, map[]), Put(t, i, a, map[]));
  }

  lemma OnlyHosts(s: Agg, t: Agg)
    requires AllBuckets(s) && RecentOk(s) && HistoricOk(s) && Owned(s)
    requires AnswersOk(s) && InsertsOk(s) && AnsweredOnce(s)
    requires t == s.(hosts := t.hosts) && Conserved(t)
    ensures Core(t)
  {
    hide BucketInv, Conserved;
  }

  lemma SettlingConserved(s: Agg, i: nat)
    requires Core(s) && i < |s.buckets| && s.buckets[i].stage.Answered?
    ensures var t := s.(hosts := Subtract(s.hosts, s.buckets[i].hosts));
            Conserved(Put(t, i, s.buckets[i].(stage := Settled), map[]))
  {
    var b := s.buckets[i];
    var hosts, buckets := Subtract(s.hosts, b.hosts), s.buckets[i := b.(stage := Settled)];
    hide AllBuckets, RecentOk, HistoricOk, Owned, AnswersOk, InsertsOk, AnsweredOnce;
    BucketFacts(s, i);
    forall h: HostKey ensures Get(hosts, h) == Claims(buckets, h) {
      assert Get(s.hosts, h) == Claims(s.buckets, h);
      SettlesHost(s, i, h);
    }
  }

  lemma SettlesHost(s: Agg, i: nat, h: HostKey)
    requires i < |s.buckets| && BucketInv(s.buckets[i], s.replica) && s.buckets[i].stage.Answered?
    requires Get(s.hosts, h) == Claims(s.buckets, h)
    ensures var b := s.buckets[i];
            Get(Subtract(s.hosts, b.hosts), h) == Claims(s.buckets[i := b.(stage := Settled)], h)
  {
    var b := s.buckets[i];
    QuietCounts(b, s.replica, h);
    hide BucketInv;
    ClaimsUpdate(s.buckets, i, b.(stage := Settled), h);
    hide Claims, Claimed;
  }

  lemma PoppingCore(s: Agg, time: nat, why: Staleness)
    requires Core(s) && time in s.historic && s.historic[time] < |s.buckets|
    requires why.Stale? ==> IsStale(time, why.oldest, why.historicWindow)
    ensures Core(Pop(s, time, why))
  {
    hide AllBuckets, BucketInv, Conserved, Owned, AnswersOk, InsertsOk, AnsweredOnce;
    var i, t := s.historic[time], s.(historic := s.historic - {time});
    assert Listed(s, i, true);
    assert RecentOk(t) && HistoricOk(t) && Unlisted(t, i) by {
      forall k | 0 <= k < |s.recent| ensures Listed(t, s.recent[k], false) { assert Listed(s, s.recent[k], false); }
      forall x | x in t.historic ensures Listed(t, s.historic[x], true) { assert Listed(s, s.historic[x], true); }
    }
    hide RecentOk, HistoricOk;
    Relisted(s, t);
    TakenOut(t, i, why);
  }

  lemma TickInv(s: Agg, now: nat, shortWindow: int)
    requires Inv(s) && now >= shortWindow >= MIN_SHORT_WINDOW
    requires forall k | 0 <= k < |s.recent| :: s.recent[k] < |s.buckets|
    ensures Inv(Tick(s, now, shortWindow))
  {
    hide Core;
    ReleaseCore(s, now, shortWindow);
    ReleaseReplica(s, now, shortWindow);
    var r := Release(s, now, shortWindow);
    if r.recent == [] { OpenRecentCore(r, now - shortWindow); }
    hide Release, Fill;
    FillCore(if r.recent == [] then OpenRecent(r, now - shortWindow) else r, shortWindow);
  }

  lemma {:induction false} ReleaseReplica(s: Agg, now: int, shortWindow: int)
    requires forall k | 0 <= k < |s.recent| :: s.recent[k] < |s.buckets|
    ensures Release(s, now, shortWindow).replica == s.replica
    decreases |s.recent|
  {
    if s.recent != [] && now > s.buckets[s.recent[0]].time + shortWindow {
      ReleaseReplica(ReleaseFirst(s), now, shortWindow);
    }
  }

  lemma PingInv(s: Agg, q: Req)
    requires Inv(s) && q !in s.seen
    ensures Window(s) && KeepAliveBucket(s) < |s.buckets| && Inv(AdmitTo(s, q, KeepAliveBucket(s), KeepAlive, false, 0))
  {
    InvLists(s);
    KeepAliveFacts(s);
    hide Core, RecentOk;
    AdmitCore(s, q, KeepAliveBucket(s), KeepAlive, false, 0);
  }

  lemma ClosingCore(s: Agg)
    requires Core(s)
    ensures Core(s.(closing := true))
  {
    hide Core;
    CoreElsewhere(s, s.(closing := true));
  }

  lemma ClientStepInv(s: Agg, step: Step)
    requires Inv(s) && Window(s) && HistoricOk(s) && Enabled(s, step) && OfClient(step)
    ensures Inv(Next(s, step))
  {
    hide Core, RecentOk, HistoricOk, Decide, Arrive, Listed;
    match step
    case Rejection(q, answer) => AnsweredAtOnce(s, q, answer);
    case Arrival(q, time, rows, historic, historicWindow, host, simulated, started) =>
      ArriveInv(s, q, time, rows, historic, historicWindow, host, simulated, started);
    case Ping(q) => PingInv(s, q);
    case Merging(i, q) => MergingCore(s, i, q);
    case Registration(i, q, started) =>
      RegistrationCore(s, i, q, started, if s.buckets[i].clients[q].kind.KeepAlive? then Failed else KeepData);
    case Leaving(i, q) => LeavingCore(s, i, q);
    case Cancelling(i, q) => CancellingCore(s, i, q);
  }

  lemma InserterStepInv(s: Agg, step: Step)
    requires Inv(s) && Window(s) && HistoricOk(s) && Enabled(s, step) && OfInserter(step)
    ensures Inv(Next(s, step))
  {
    hide Core, RecentOk, HistoricOk, Listed, Verdict, ToAll, Subtract;
    match step
    case Overflow(i) => AnsweringCore(s, i, Dropped, KeepData);
    case Insertion(i, ok) => InsertionCore(s, i, ok);
    case Answering(i) => AnsweringCore(s, i, Answered, Verdict(s.buckets[i], i));
    case Failing(i) => FailingCore(s, i);
    case Settling(i) => SettlingCore(s, i);
  }

  lemma ServerStepInv(s: Agg, step: Step)
    requires Inv(s) && Window(s) && HistoricOk(s) && Enabled(s, step) && !OfClient(step) && !OfInserter(step)
    ensures Inv(Next(s, step))
  {
    InvLists(s);
    hide Core, RecentOk, HistoricOk, Release, Fill, Listed;
    match step
    case Ticking(now, shortWindow) => TickInv(s, now, shortWindow);
    case Popping(time, oldest, historicWindow) => PoppingCore(s, time, StalenessOf(time, oldest, historicWindow));
    case Locking(i) => LockingCore(s, i);
    case Passing(i) => PassingCore(s, i);
    case Closing => ClosingCore(s);
  }

  /** Every step keeps the invariant. */
  lemma StepInv(s: Agg, step: Step)
    requires Inv(s) && Window(s) && Enabled(s, step)
    ensures HistoricOk(s) && Inv(Next(s, step))
  {
    InvLists(s);
    hide Inv, Enabled, Next;
    if OfClient(step) { ClientStepInv(s, step); }
    else if OfInserter(step) { InserterStepInv(s, step); }
    else { ServerStepInv(s, step); }
  }
}
