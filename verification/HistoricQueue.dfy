/** Buckets that wait in memory to be sent again: which is the oldest, and what they take up. */
module HistoricQueue {
  import opened Records
  import opened DiskState

  const MAX_HISTORIC_BUCKETS_MEMORY_SIZE := 52428800 // 50 << 20
  const MAX_FUTURE_SECONDS_ON_DISK := 122

  /** A compressed bucket: its id on disk (0 when not saved), its second and its data ([] when only on disk). */
  datatype BucketData = BucketData(id: int, time: int, data: seq<byte>)

  function Bytes(queue: seq<BucketData>): nat {
    if queue == [] then 0 else |queue[0].data| + Bytes(queue[1..])
  }

  function Total(sizes: seq<int>): int {
    if sizes == [] then 0 else sizes[0] + Total(sizes[1..])
  }

  lemma {:induction false} BytesConcat(a: seq<BucketData>, b: seq<BucketData>)
    ensures Bytes(a + b) == Bytes(a) + Bytes(b)
  {
    if a == [] {
      assert a + b == b;
    } else {
      BytesConcat(a[1..], b);
      assert (a + b)[1..] == a[1..] + b;
    }
  }

  lemma BytesAppend(queue: seq<BucketData>, b: BucketData)
    ensures Bytes(queue + [b]) == Bytes(queue) + |b.data|
  {
    BytesConcat(queue, [b]);
  }

  lemma {:induction false} TotalUpdate(sizes: seq<int>, i: nat, v: int)
    requires i < |sizes|
    ensures Total(sizes[i := v]) == Total(sizes) - sizes[i] + v
  {
    if i > 0 {
      TotalUpdate(sizes[1..], i - 1, v);
      assert sizes[i := v][1..] == sizes[1..][i - 1 := v];
    } else {
      assert sizes[i := v][1..] == sizes[1..];
    }
  }

  /** Filling the hole with the last element removes exactly the element that was there. */
  function Without(queue: seq<BucketData>, pos: nat): seq<BucketData>
    requires pos < |queue|
  {
    queue[pos := queue[|queue| - 1]][..|queue| - 1]
  }

  lemma WithoutParts(queue: seq<BucketData>, pos: nat)
    requires pos < |queue|
    ensures pos < |queue| - 1 ==>
      Without(queue, pos) == queue[..pos] + [queue[|queue| - 1]] + queue[pos + 1..|queue| - 1]
    ensures pos < |queue| - 1 ==>
      queue == queue[..pos] + [queue[pos]] + queue[pos + 1..|queue| - 1] + [queue[|queue| - 1]]
    ensures pos == |queue| - 1 ==> Without(queue, pos) == queue[..pos] && queue == queue[..pos] + [queue[pos]]
  {}

  lemma WithoutBag(queue: seq<BucketData>, pos: nat)
    requires pos < |queue|
    ensures multiset(queue) == multiset(Without(queue, pos)) + multiset{queue[pos]}
    ensures Bytes(queue) == Bytes(Without(queue, pos)) + |queue[pos].data|
  {
    WithoutParts(queue, pos);
    var last := |queue| - 1;
    if pos < last {
      var a, b := queue[..pos], queue[pos + 1..last];
      BytesConcat(a + [queue[pos]] + b, [queue[last]]);
      BytesConcat(a + [queue[pos]], b);
      BytesConcat(a, [queue[pos]]);
      BytesConcat(a + [queue[last]], b);
      BytesConcat(a, [queue[last]]);
    } else {
      BytesConcat(queue[..pos], [queue[pos]]);
    }
  }

  function Optional(next: Option<BucketData>): seq<BucketData> {
    if next.Some? then [next.value] else []
  }

  /** The queue after a pop: one entry less, and one more if the disk had one. */
  function Rest(queue: seq<BucketData>, pos: nat, next: Option<BucketData>): seq<BucketData>
    requires pos < |queue|
  {
    Without(queue, pos) + Optional(next)
  }

  lemma Popped(queue: seq<BucketData>, pos: nat, next: Option<BucketData>)
    requires pos < |queue| && (next.Some? ==> next.value.data == [])
    ensures multiset(Rest(queue, pos, next)) ==
            multiset(queue) - multiset{queue[pos]} + multiset(Optional(next))
    ensures Bytes(Rest(queue, pos, next)) == Bytes(queue) - |queue[pos].data|
  {
    WithoutBag(queue, pos);
    BytesConcat(Without(queue, pos), Optional(next));
  }

  lemma OldestTimes(queue: seq<BucketData>, b: BucketData)
    requires Oldest(queue, b)
    ensures forall e | e in queue :: b.time <= e.time
    ensures forall e | Oldest(queue, e) :: e.time == b.time
  {}

  predicate Oldest(queue: seq<BucketData>, b: BucketData) {
    b in queue && forall e | e in queue :: b.time <= e.time
  }

  /** Seconds a sender has to wait for: not over yet, but not absurdly far in the future either. */
  predicate TooEarly(time: int, now: int) {
    now <= time <= now + MAX_FUTURE_SECONDS_ON_DISK
  }

  /** The first among the oldest. */
  method FindOldest(queue: seq<BucketData>) returns (pos: nat)
    requires queue != []
    ensures pos < |queue| && Oldest(queue, queue[pos])
    ensures forall i | 0 <= i < pos :: queue[pos].time < queue[i].time
  {
    pos := 0;
    for i := 0 to |queue|
      invariant 0 <= pos < |queue| && (pos < i || pos == 0)
      invariant forall j | 0 <= j < i :: queue[pos].time <= queue[j].time
      invariant forall j | 0 <= j < pos :: queue[pos].time < queue[j].time
    {
      if queue[i].time < queue[pos].time {
        pos := i;
      }
    }
  }

  lemma {:induction false} ZeroTotal(n: nat)
    ensures Total(seq(n, _ => 0)) == 0
  {
    if n > 0 {
      ZeroTotal(n - 1);
      assert seq(n, _ => 0)[1..] == seq(n - 1, _ => 0);
    }
  }
}
