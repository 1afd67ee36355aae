/** The agent's in-memory queues of buckets waiting to be sent again, one per shard, under a common
    memory limit, each fed from the tail of its shard's disk cache. */
module RetryQueue {
  import opened Records
  import opened Store
  import opened DiskState
  import opened DiskCache
  import opened HistoricQueue

  datatype Append = Kept | KeptOnDiskOnly | Lost

  class HistoricQueues {
    var toSend: seq<seq<BucketData>> // by shard
    var dataSize: seq<int> // by shard
    var totalSize: int // of the agent

    ghost predicate Valid()
      reads this
    {
      && |toSend| == |dataSize| > 0
      && (forall s | 0 <= s < |toSend| :: dataSize[s] == Bytes(toSend[s]) && dataSize[s] <= Limit())
      && totalSize == Total(dataSize)
    }

    function Limit(): int
      requires |toSend| > 0
      reads this
    {
      MAX_HISTORIC_BUCKETS_MEMORY_SIZE / |toSend|
    }

    /** The data of the bucket fits into the shard's part of the memory. */
    predicate HasMemory(s: nat, b: BucketData)
      requires |toSend| == |dataSize| > 0 && s < |toSend|
      reads this
    {
      dataSize[s] + |b.data| <= Limit()
    }

    constructor (numShards: nat)
      requires numShards > 0
      ensures Valid() && toSend == seq(numShards, _ => []) && totalSize == 0
    {
      toSend := seq(numShards, _ => []);
      dataSize := seq(numShards, _ => 0);
      totalSize := 0;
      new;
      ZeroTotal(numShards);
    }

    /** Queues a bucket, with its data as long as that fits into memory. A bucket that is neither on
        disk nor fits is lost. */
    method AppendHistoricBucketsToSend(s: nat, b: BucketData) returns (r: Append)
      requires Valid() && s < |toSend|
      modifies this
      ensures Valid() && |toSend| == |old(toSend)|
      ensures r == if old(HasMemory(s, b)) then Kept else if b.id != 0 then KeptOnDiskOnly else Lost
      ensures toSend == old(toSend)[s := old(toSend)[s] +
                match r case Kept => [b] case KeptOnDiskOnly => [b.(data := [])] case Lost => []]
    {
      hide Bytes, Total;
      var e := b;
      r := Kept;
      if dataSize[s] + |e.data| > Limit() {
        e := e.(data := []);
        if e.id == 0 {
          assert toSend[s] + [] == toSend[s];
          assert toSend[s := toSend[s]] == toSend;
          return Lost;
        }
        r := KeptOnDiskOnly;
      } else {
        TotalUpdate(dataSize, s, dataSize[s] + |e.data|);
        dataSize := dataSize[s := dataSize[s] + |e.data|];
        totalSize := totalSize + |e.data|;
      }
      BytesAppend(toSend[s], e);
      toSend := toSend[s := toSend[s] + [e]];
    }

    /** Queues one more of the unread buckets on disk, if there is one. */
    method ReadHistoricSecondLocked(s: nat, d: DiskCacheShard, faults: Faults)
      returns (ghost next: Option<BucketData>, ghost skipped: nat, ghost lost: set<string>, ghost gone: set<string>)
      requires Valid() && d.Valid() && s < |toSend|
      modifies this`toSend, d
      ensures Valid() && d.Valid() && NextRead(old(d.Contents()), skipped, next)
      ensures d.Contents() == TakeAfter(old(d.Contents()), skipped)
      ensures PassedOver(old(d.Contents()).tail[..skipped], lost) && forall n | n in lost :: Faulty(faults, n)
      ensures AllBlocked(old(d.Contents()).tail[..skipped], faults)
      ensures d.Ground() == Swept(old(d.Ground()), gone) && Idle(d.Contents(), gone)
      ensures toSend == old(toSend)[s := old(toSend)[s] + Optional(next)]
    {
      hide DiskCacheShard.Valid, DiskCacheShard.Contents, DiskCacheShard.Ground, DiskCacheShard.State;
      hide Idle, Swept, PassedOver, AllBlocked, Faulty;
      var time, id;
      time, id, skipped, lost, gone := d.ReadNextTailSecond(faults);
      next := None;
      if id == 0 {
        assert toSend[s] + Optional(next) == toSend[s];
        assert toSend[s := toSend[s]] == toSend;
        return;
      }
      var b := BucketData(id, time, []);
      next := Some(b);
      BytesAppend(toSend[s], b);
      toSend := toSend[s := toSend[s] + [b]];
    }

    /** Takes the oldest bucket, unless its second is not over yet, and then reads one more from disk. */
    method PopOldestHistoricSecond(s: nat, now: int, d: DiskCacheShard, faults: Faults)
      returns (r: Option<BucketData>, ghost pos: nat, ghost next: Option<BucketData>,
               ghost skipped: nat, ghost lost: set<string>, ghost gone: set<string>)
      requires Valid() && d.Valid() && s < |toSend|
      modifies this, d
      ensures Valid() && d.Valid() && |toSend| == |old(toSend)|
      ensures r.None? ==> toSend == old(toSend) && d.Contents() == old(d.Contents()) && d.Ground() == old(d.Ground())
      ensures r.None? <==> old(toSend)[s] == [] || exists e :: Oldest(old(toSend)[s], e) && TooEarly(e.time, now)
      ensures r.Some? ==>
        && Oldest(old(toSend)[s], r.value) && !TooEarly(r.value.time, now)
        && pos < |old(toSend)[s]| && r.value == old(toSend)[s][pos]
        && (forall i | 0 <= i < pos :: r.value.time < old(toSend)[s][i].time)
        && toSend == old(toSend)[s := Rest(old(toSend)[s], pos, next)]
        && multiset(toSend[s]) == multiset(old(toSend)[s]) - multiset{r.value} + multiset(Optional(next))
      ensures r.Some? ==>
        && NextRead(old(d.Contents()), skipped, next)
        && d.Contents() == TakeAfter(old(d.Contents()), skipped)
        && PassedOver(old(d.Contents()).tail[..skipped], lost) && (forall n | n in lost :: Faulty(faults, n))
        && AllBlocked(old(d.Contents()).tail[..skipped], faults)
        && d.Ground() == Swept(old(d.Ground()), gone) && Idle(d.Contents(), gone)
    {
      hide Bytes, Total, Without, Rest, Oldest, TooEarly, NextRead, TakeAfter, PassedOver, Faulty, Swept, Idle, Valid;
      hide AllBlocked;
      hide DiskCacheShard.Valid, DiskCacheShard.Contents, DiskCacheShard.Ground, DiskCacheShard.State;
      pos, next, skipped, lost, gone := 0, None, 0, {}, {};
      var queue := toSend[s];
      r, pos := TakeOldest(s, now);
      if r.Some? {
        next, skipped, lost, gone := ReadHistoricSecondLocked(s, d, faults);
        NextHasNoData(old(d.Contents()), skipped, next);
        Popped(queue, pos, next);
        RestIs(queue, pos, next);
      }
    }

    /** The first half of a pop: the oldest bucket leaves the queue. */
    method TakeOldest(s: nat, now: int) returns (r: Option<BucketData>, ghost pos: nat)
      requires Valid() && s < |toSend|
      modifies this
      ensures Valid() && |toSend| == |old(toSend)|
      ensures r.None? ==> toSend == old(toSend)
      ensures r.None? <==> old(toSend)[s] == [] || exists e :: Oldest(old(toSend)[s], e) && TooEarly(e.time, now)
      ensures r.Some? ==>
        && Oldest(old(toSend)[s], r.value) && !TooEarly(r.value.time, now)
        && pos < |old(toSend)[s]| && r.value == old(toSend)[s][pos]
        && (forall i | 0 <= i < pos :: r.value.time < old(toSend)[s][i].time)
        && toSend == old(toSend)[s := Without(old(toSend)[s], pos)]
    {
      hide Bytes, Total, Without, Oldest;
      pos := 0;
      var queue := toSend[s];
      if |queue| == 0 {
        return None, pos;
      }
      var oldestPos := FindOldest(queue);
      var b := queue[oldestPos];
      OldestTimes(queue, b);
      if b.time >= now && b.time <= now + MAX_FUTURE_SECONDS_ON_DISK {
        return None, pos;
      }
      WithoutBag(queue, oldestPos);
      TotalUpdate(dataSize, s, dataSize[s] - |b.data|);
      dataSize := dataSize[s := dataSize[s] - |b.data|];
      totalSize := totalSize - |b.data|;
      if dataSize[s] < 0 {
        assert false; // the negative-size panic
      }
      var rest := Without(queue, oldestPos);
      toSend := toSend[s := rest];
      r, pos := Some(b), oldestPos;
    }
  }

  /** All shards together stay within the memory that all shards have in common. */
  lemma MemoryBounded(q: HistoricQueues)
    requires q.Valid()
    ensures 0 <= q.totalSize <= MAX_HISTORIC_BUCKETS_MEMORY_SIZE
  {
    forall i | 0 <= i < |q.dataSize| ensures 0 <= q.dataSize[i] <= q.Limit() { BytesNotNegative(q.toSend[i]); }
    TotalBounded(q.dataSize, q.Limit());
  }

  lemma {:induction false} BytesNotNegative(queue: seq<BucketData>)
    ensures Bytes(queue) >= 0
  {
    if queue != [] { BytesNotNegative(queue[1..]); }
  }

  lemma {:induction false} TotalBounded(sizes: seq<int>, limit: int)
    requires forall i | 0 <= i < |sizes| :: 0 <= sizes[i] <= limit
    ensures 0 <= Total(sizes) <= |sizes| * limit
  {
    if sizes != [] { TotalBounded(sizes[1..], limit); }
  }

  lemma NextHasNoData(before: Store, skipped: nat, next: Option<BucketData>)
    requires NextRead(before, skipped, next)
    ensures next.Some? ==> next.value.data == []
  {}

  lemma RestIs(queue: seq<BucketData>, pos: nat, next: Option<BucketData>)
    requires pos < |queue|
    ensures Rest(queue, pos, next) == Without(queue, pos) + Optional(next)
  {}

  /** What a look for one more unread bucket queues. */
  ghost predicate NextRead(before: Store, skipped: nat, next: Option<BucketData>) {
    && skipped <= |before.tail|
    && next == if skipped == |before.tail| then None
               else Some(BucketData(before.last + 1, before.tail[skipped].record.time, []))
  }
}
