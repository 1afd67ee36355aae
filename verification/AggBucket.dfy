/** One per-second bucket of the aggregator as clients, cancels, the ticker and the inserters see it. */
module AggBucket {
  import opened Routing

  type HostKey = int // role, route and host of a sender

  /** How far the handler of a request has got with its bucket: it holds the read lock of the
      bucket's `sendMu` from `Admitted` until it is `Finished`. */
  datatype Progress = Admitted | RowsMerged | Registered | Finished

  type Rows = seq<int> // what a request carries

  datatype Kind = Data(rows: Rows) | KeepAlive | Simulated

  datatype Client = Client(kind: Kind, historic: bool, host: HostKey, progress: Progress)

  /** The writer side of the bucket's `sendMu`. */
  datatype Writer = NoWriter | WriterWaiting | WriterPassed

  /** Why a bucket was taken out of the historic map: to be inserted, or because its second lay behind the
      historic window when the window began at `oldest`. */
  datatype Staleness = Fresh | Stale(oldest: nat, historicWindow: nat)

  predicate IsStale(time: nat, oldest: nat, historicWindow: nat) {
    oldest >= historicWindow && time < oldest - historicWindow
  }

  datatype Stage =
    | Collecting // in the recent list or in the historic map
    | Removed(why: Staleness) // taken out of them, clients may still be merging
    | Exclusive(why: Staleness) // the barrier has passed
    | Inserted(ok: bool) // was part of an insert
    | Answered
    | Settled // its hosts were subtracted
    | Dropped // refused by the full conveyor

  datatype Bucket = Bucket(
    time: nat,
    fromHistoric: bool,
    clients: map<Req, Client>,
    contributors: set<Req>, // long polls to answer
    simulated: set<Req>, // long polls to fail
    merged: map<Req, Rows>, // the rows in the bucket, by the request they came with
    hosts: map<HostKey, int>,
    stage: Stage,
    writer: Writer)

  function NewBucket(time: nat, fromHistoric: bool): Bucket {
    Bucket(time, fromHistoric, map[], {}, {}, map[], map[], Collecting, NoWriter)
  }

  function Get(hosts: map<HostKey, int>, h: HostKey): int {
    if h in hosts then hosts[h] else 0
  }

  /** The handler comes to registration: with its rows merged, if it has any. */
  predicate Ready(c: Client) {
    c.progress == if c.kind.Data? then RowsMerged else Admitted
  }

  predicate Done(c: Client) { c.progress.Registered? || c.progress.Finished? }

  /** Historic senders of a host that were admitted, and those of them that were registered. */
  function Claimed(b: Bucket, h: HostKey): set<Req> {
    set q | q in b.clients && b.clients[q].historic && b.clients[q].host == h
  }

  function Counted(b: Bucket, h: HostKey): set<Req> {
    set q | q in b.clients && b.clients[q].historic && b.clients[q].host == h && Done(b.clients[q])
  }

  /** No client holds the read lock. */
  predicate Quiet(b: Bucket) {
    forall q | q in b.clients :: b.clients[q].progress.Finished?
  }

  ghost predicate HostsCounted(b: Bucket) {
    forall h: HostKey :: Get(b.hosts, h) == |Counted(b, h)|
  }

  /** The clients of a bucket have been told what became of it. */
  predicate Told(b: Bucket) { b.stage.Answered? || b.stage.Settled? }

  /** A bucket is given up as stale only for its second. */
  predicate StaleForReason(b: Bucket) {
    (b.stage.Removed? || b.stage.Exclusive?) && b.stage.why.Stale? ==>
      b.fromHistoric && IsStale(b.time, b.stage.why.oldest, b.stage.why.historicWindow)
  }

  /** The bucket holds exactly the rows of the clients that sent data and are past the merge. */
  predicate MergedOk(b: Bucket) {
    && (forall q | q in b.merged ::
          q in b.clients && b.clients[q].kind == Data(b.merged[q]) && !b.clients[q].progress.Admitted?)
    && (forall q | q in b.clients && b.clients[q].kind.Data? && !b.clients[q].progress.Admitted? :: q in b.merged)
    && (forall q | q in b.clients && b.clients[q].progress.RowsMerged? :: b.clients[q].kind.Data?)
  }

  ghost predicate BucketInv(b: Bucket, replica: int) {
    && StaleForReason(b) && MergedOk(b)
    && (!b.stage.Collecting? && !b.stage.Removed? ==> Quiet(b))
    && (b.writer.NoWriter? <== b.stage.Collecting?)
    && (b.writer.WriterPassed? <==> !b.stage.Collecting? && !b.stage.Removed?)
    && (forall q | q in b.contributors :: q in b.clients && Done(b.clients[q]) && !b.clients[q].kind.Simulated?)
    && (forall q | q in b.simulated :: q in b.clients && Done(b.clients[q]) && b.clients[q].kind.Simulated?)
    && (Told(b) || b.stage.Dropped? ==> b.contributors == {})
    && HostsCounted(b)
    && (!b.fromHistoric && b.clients != map[] ==> b.time % 3 == replica)
    && (b.fromHistoric ==> forall q | q in b.clients :: b.clients[q].kind.Data?)
  }

  // ---------- what a handler does to its bucket ----------

  /** Under the aggregator's lock: the read lock is taken and the request is admitted. */
  function Admit(b: Bucket, q: Req, kind: Kind, historic: bool, host: HostKey): Bucket {
    b.(clients := b.clients[q := Client(kind, historic, host, Admitted)])
  }

  function Advance(b: Bucket, q: Req, p: Progress): Bucket
    requires q in b.clients
  {
    b.(clients := b.clients[q := b.clients[q].(progress := p)])
  }

  /** Under the locks of the shards of the bucket: the rows of the request become part of it. */
  function Merge(b: Bucket, q: Req): Bucket
    requires q in b.clients && b.clients[q].kind.Data?
  {
    Advance(b, q, RowsMerged).(merged := b.merged[q := b.clients[q].kind.rows])
  }

  function Bump(hosts: map<HostKey, int>, h: HostKey): map<HostKey, int> {
    hosts[h := Get(hosts, h) + 1]
  }

  /** Under the bucket's lock: the sender is counted and, if the long poll starts, remembered. */
  function Register(b: Bucket, q: Req, started: bool): Bucket
    requires q in b.clients
  {
    var c := b.clients[q];
    Advance(b, q, Registered).(
      hosts := if c.historic then Bump(b.hosts, c.host) else b.hosts,
      contributors := if started && !c.kind.Simulated? then b.contributors + {q} else b.contributors,
      simulated := if started && c.kind.Simulated? then b.simulated + {q} else b.simulated)
  }

  function Cancel(b: Bucket, q: Req): Bucket {
    b.(contributors := b.contributors - {q}, simulated := b.simulated - {q})
  }

  lemma AdmitInv(b: Bucket, q: Req, kind: Kind, historic: bool, host: HostKey, replica: int)
    requires BucketInv(b, replica) && b.stage.Collecting? && q !in b.clients
    requires !b.fromHistoric ==> b.time % 3 == replica
    requires b.fromHistoric ==> kind.Data?
    ensures BucketInv(Admit(b, q, kind, historic, host), replica)
    ensures forall h: HostKey :: |Claimed(Admit(b, q, kind, historic, host), h)|
              == |Claimed(b, h)| + if historic && h == host then 1 else 0
  {
    AdmitHosts(b, q, kind, historic, host);
    hide HostsCounted, Claimed;
  }

  lemma AdmitHosts(b: Bucket, q: Req, kind: Kind, historic: bool, host: HostKey)
    requires HostsCounted(b) && q !in b.clients
    ensures HostsCounted(Admit(b, q, kind, historic, host))
    ensures forall h: HostKey :: |Claimed(Admit(b, q, kind, historic, host), h)|
              == |Claimed(b, h)| + if historic && h == host then 1 else 0
  {
    var a := Admit(b, q, kind, historic, host);
    forall h: HostKey
      ensures Counted(a, h) == Counted(b, h)
      ensures |Claimed(a, h)| == |Claimed(b, h)| + if historic && h == host then 1 else 0
    {
      AdmitHost(b, q, kind, historic, host, h);
    }
    hide Counted, Claimed;
  }

  lemma AdmitHost(b: Bucket, q: Req, kind: Kind, historic: bool, host: HostKey, h: HostKey)
    requires q !in b.clients
    ensures Counted(Admit(b, q, kind, historic, host), h) == Counted(b, h)
    ensures |Claimed(Admit(b, q, kind, historic, host), h)| == |Claimed(b, h)| + if historic && h == host then 1 else 0
  {
    var a := Admit(b, q, kind, historic, host);
    if historic && h == host {
      assert Claimed(a, h) == Claimed(b, h) + {q};
    } else {
      assert Claimed(a, h) == Claimed(b, h);
    }
  }

  lemma SameClaims(b: Bucket, q: Req, p: Progress)
    requires q in b.clients
    ensures forall h: HostKey :: Claimed(Advance(b, q, p), h) == Claimed(b, h)
  {}

  lemma MergeInv(b: Bucket, q: Req, replica: int)
    requires BucketInv(b, replica) && q in b.clients && b.clients[q].kind.Data? && b.clients[q].progress.Admitted?
    ensures BucketInv(Merge(b, q), replica)
    ensures forall h: HostKey :: Claimed(Merge(b, q), h) == Claimed(b, h)
  {
    MergeMerged(b, q);
    MergeHosts(b, q);
    hide MergedOk, HostsCounted, Claimed;
  }

  lemma MergeMerged(b: Bucket, q: Req)
    requires MergedOk(b) && q in b.clients && b.clients[q].kind.Data? && b.clients[q].progress.Admitted?
    ensures MergedOk(Merge(b, q))
  {}

  lemma MergeHosts(b: Bucket, q: Req)
    requires HostsCounted(b) && q in b.clients && b.clients[q].kind.Data? && b.clients[q].progress.Admitted?
    ensures HostsCounted(Merge(b, q)) && forall h: HostKey :: Claimed(Merge(b, q), h) == Claimed(b, h)
  {
    forall h: HostKey ensures Counted(Merge(b, q), h) == Counted(b, h) {}
  }

  lemma FinishInv(b: Bucket, q: Req, replica: int)
    requires BucketInv(b, replica) && q in b.clients && b.clients[q].progress.Registered?
    ensures BucketInv(Advance(b, q, Finished), replica)
  {
    var a := Advance(b, q, Finished);
    forall h: HostKey ensures Counted(a, h) == Counted(b, h) {}
  }

  lemma RegisterInv(b: Bucket, q: Req, started: bool, replica: int)
    requires BucketInv(b, replica) && q in b.clients && Ready(b.clients[q])
    ensures BucketInv(Register(b, q, started), replica)
  {
    hide HostsCounted, MergedOk, Bump;
    RegisterHosts(b, q, started);
    RegisterMerged(b, q, started);
  }

  lemma RegisterMerged(b: Bucket, q: Req, started: bool)
    requires MergedOk(b) && q in b.clients && Ready(b.clients[q])
    ensures MergedOk(Register(b, q, started))
  {
    hide Bump;
  }

  lemma RegisterHosts(b: Bucket, q: Req, started: bool)
    requires HostsCounted(b) && q in b.clients && !Done(b.clients[q])
    ensures HostsCounted(Register(b, q, started))
  {
    var a := Register(b, q, started);
    var c := b.clients[q];
    forall h: HostKey ensures Get(a.hosts, h) == |Counted(a, h)| {
      if c.historic && h == c.host {
        assert Counted(a, h) == Counted(b, h) + {q};
      } else {
        assert Counted(a, h) == Counted(b, h);
      }
    }
  }

  lemma CancelInv(b: Bucket, q: Req, replica: int)
    requires BucketInv(b, replica)
    ensures BucketInv(Cancel(b, q), replica)
  {
    forall h: HostKey ensures Counted(Cancel(b, q), h) == Counted(b, h) {}
  }

  /** Moving to another stage, possibly with all long polls answered. */
  lemma StageInv(b: Bucket, a: Bucket, replica: int)
    requires BucketInv(b, replica)
    requires a.clients == b.clients && a.time == b.time && a.fromHistoric == b.fromHistoric && a.hosts == b.hosts
    requires a.merged == b.merged
    requires a.contributors <= b.contributors && a.simulated <= b.simulated
    requires !a.stage.Collecting? && !a.stage.Removed? ==> Quiet(b)
    requires a.writer.NoWriter? <== a.stage.Collecting?
    requires a.writer.WriterPassed? <==> !a.stage.Collecting? && !a.stage.Removed?
    requires StaleForReason(a) && (Told(a) || a.stage.Dropped? ==> a.contributors == {})
    ensures BucketInv(a, replica)
    ensures forall h: HostKey :: Claimed(a, h) == Claimed(b, h)
  {
    forall h: HostKey ensures Counted(a, h) == Counted(b, h) {}
  }

  /** Once the barrier has passed every admitted historic sender has been counted. */
  lemma QuietCounts(b: Bucket, replica: int, h: HostKey)
    requires BucketInv(b, replica) && Quiet(b)
    ensures Get(b.hosts, h) == |Claimed(b, h)|
  {
    assert Counted(b, h) == Claimed(b, h);
  }
}
