/** The agent's ring of 128 one-second slots: where an event is put, and when each slot is sent. */
module SuperQueue {

  const SUPER_QUEUE_LEN := 128
  const SUPER_QUEUE_FUTURE_SLOTS := 3
  const MAX_RESOLUTION := 60
  const AGENT_WINDOW_MS := 1300
  const TWO32 := 0x1_0000_0000

  // ---------- choosing a slot ----------

  /** The share of a hash in the seconds of one resolution interval, in fixed point 32.32. */
  function Spread(hash: nat, resolution: nat): nat {
    (hash % TWO32) * resolution / TWO32
  }

  /** `x` rounded down to a multiple of `r`. */
  function RoundTo(x: int, r: int): int
    requires r >= 1
  {
    x / r * r
  }

  datatype Placement = Placement(time: int, slot: int, clampedFuture: bool)

  /** The second an event is attributed to (0 means now, the far future is clamped, low resolutions
      round down) and the slot it goes to (late events keep their alignment). */
  function Place(currentTime: int, sendTime: int, timestamp: int, resolution: int, hash: nat): Placement
    requires resolution >= 1
  {
    var given := if timestamp == 0 then currentTime else timestamp;
    var clamped := given > currentTime + SUPER_QUEUE_FUTURE_SLOTS;
    var time := if clamped then currentTime + SUPER_QUEUE_FUTURE_SLOTS else given;
    if resolution == 1 then
      Placement(time, if time < sendTime then sendTime else time, clamped)
    else
      var rounded := RoundTo(time, resolution);
      var slot := rounded + resolution + Spread(hash, resolution);
      var late := if slot < sendTime then RoundTo(sendTime - slot + resolution - 1, resolution) else 0;
      Placement(rounded, slot + late, clamped)
  }

  /** Arithmetic of the source's 32-bit unsigned integers. */
  function U32(x: int): int { x % TWO32 }

  /** The slot computation in 32-bit arithmetic. With clocks two minutes clear of the end of the
      32-bit range nothing wraps around and the result is the one of `Place`. */
  method ResolutionShardFromHash(currentTime: int, sendTime: int, timestamp: int, resolution: int, hash: nat)
    returns (p: Placement)
    requires 0 <= currentTime < TWO32 - 128 && 0 <= sendTime < TWO32 - 128 && 0 <= timestamp < TWO32
    requires 1 <= resolution <= MAX_RESOLUTION
    ensures p == Place(currentTime, sendTime, timestamp, resolution, hash)
  {
    hide U32, RoundTo, Spread;
    var time := timestamp;
    if time == 0 {
      time := currentTime;
    }
    var clampedFuture := false;
    Fits(currentTime + SUPER_QUEUE_FUTURE_SLOTS);
    if time > U32(currentTime + SUPER_QUEUE_FUTURE_SLOTS) {
      time := U32(currentTime + SUPER_QUEUE_FUTURE_SLOTS);
      clampedFuture := true;
    }
    if resolution == 1 {
      var slot := time;
      if slot < sendTime {
        slot := sendTime;
      }
      return Placement(time, slot, clampedFuture);
    }
    RoundBounds(time, resolution);
    Fits(RoundTo(time, resolution));
    time := U32(RoundTo(time, resolution));
    SpreadBound(hash, resolution);
    Fits(Spread(hash, resolution));
    var resolutionShardNum := U32(Spread(hash, resolution));
    Fits(time + resolution);
    Fits(time + resolution + resolutionShardNum);
    var slot := U32(U32(time + resolution) + resolutionShardNum);
    if slot < sendTime {
      var late := WrappedLate(sendTime - slot, resolution);
      Fits(slot + late);
      slot := U32(slot + late);
    }
    return Placement(time, slot, clampedFuture);
  }

  method WrappedLate(behind: int, resolution: int) returns (late: int)
    requires 1 <= behind < TWO32 - 128 && 1 <= resolution <= MAX_RESOLUTION
    ensures late == RoundTo(behind + resolution - 1, resolution) && behind <= late < behind + resolution
  {
    hide U32, RoundTo, Spread;
    RoundUpLate(behind, resolution);
    Fits(behind);
    Fits(behind + resolution);
    Fits(behind + resolution - 1);
    Fits(RoundTo(behind + resolution - 1, resolution));
    late := U32(RoundTo(U32(U32(U32(behind) + resolution) - 1), resolution));
  }

  lemma Fits(x: int)
    requires 0 <= x < TWO32
    ensures U32(x) == x
  {}

  function Gap(currentTime: int, sendTime: int): int {
    currentTime - (sendTime + (SUPER_QUEUE_LEN - SUPER_QUEUE_FUTURE_SLOTS) - 120)
  }

  /** The seconds from which on there is no gap. */
  function WithoutGap(currentTime: int): (x: int)
    ensures Gap(currentTime, x) == 0
  {
    currentTime + 120 - (SUPER_QUEUE_LEN - SUPER_QUEUE_FUTURE_SLOTS)
  }

  lemma SpreadBound(hash: nat, resolution: nat)
    requires resolution >= 1
    ensures Spread(hash, resolution) < resolution
  {
    var h := hash % TWO32;
    assert h * resolution <= (TWO32 - 1) * resolution;
    DivBelow(h * resolution, resolution);
  }

  lemma DivBelow(x: nat, r: nat)
    requires x < TWO32 * r
    ensures x / TWO32 < r
  {}

  lemma RoundDown(x: int, r: int)
    requires r >= 1
    ensures x - r < RoundTo(x, r) <= x && RoundTo(x, r) % r == 0
  {
    assert x == r * (x / r) + x % r;
    MultipleMod(x / r, r, 0);
  }

  lemma RoundBounds(x: int, r: int)
    requires 1 <= r <= MAX_RESOLUTION && x >= 0
    ensures 0 <= RoundTo(x, r) <= x
  {
    RoundDown(x, r);
    RoundNotNegative(x, r);
  }

  lemma RoundNotNegative(x: int, r: int)
    requires r >= 1 && x >= 0
    ensures RoundTo(x, r) >= 0
  {}

  lemma MultipleMod(k: int, r: int, rest: int)
    requires r >= 1 && 0 <= rest < r
    ensures (k * r + rest) % r == rest
  {
    var x := k * r + rest;
    var d := x / r - k;
    assert x == r * (x / r) + x % r;
    assert r * d == r * (x / r) - r * k;
    MultipleFar(r, d);
  }

  lemma MultipleFar(r: int, d: int)
    requires r >= 1
    ensures d >= 1 ==> r * d >= r
    ensures d <= -1 ==> r * d <= -r
  {}

  lemma RoundUpLate(late: int, r: int)
    requires r >= 1 && late >= 1
    ensures late <= RoundTo(late + r - 1, r) < late + r
  {
    RoundDown(late + r - 1, r);
  }

  /** The share is the part of the interval at which the low word of the hash lies in its range. */
  lemma SpreadIsShare(hash: nat, resolution: nat)
    requires resolution >= 1
    ensures var k := Spread(hash, resolution);
            k * TWO32 <= (hash % TWO32) * resolution < (k + 1) * TWO32 && k < resolution
  {
    SpreadBound(hash, resolution);
    Quotient((hash % TWO32) * resolution);
  }

  lemma Quotient(x: nat)
    ensures x / TWO32 * TWO32 <= x < (x / TWO32 + 1) * TWO32
  {}

  /** Where an event belongs that came with this timestamp: now if it came without one, and not too far ahead. */
  function Wanted(currentTime: int, timestamp: int): int {
    Least(currentTime + SUPER_QUEUE_FUTURE_SLOTS, if timestamp == 0 then currentTime else timestamp)
  }

  function Least(a: int, b: int): int { if a < b then a else b }

  /** A slot that is still to be sent, not before the interval is over, at the hash's own second of it. */
  predicate Suits(slot: int, time: int, sendTime: int, resolution: int, spread: int)
    requires resolution >= 1
  {
    slot >= sendTime && slot >= time + resolution + spread && slot % resolution == spread
  }

  /** An event is attributed to the beginning of the interval in which the wanted second lies, and goes to
      the first slot that suits it. */
  lemma PlaceMeans(currentTime: int, sendTime: int, timestamp: int, resolution: int, hash: nat)
    requires resolution >= 1
    ensures var p := Place(currentTime, sendTime, timestamp, resolution, hash);
            var wanted := Wanted(currentTime, timestamp);
            && wanted - resolution < p.time <= wanted && p.time % resolution == 0
            && (p.clampedFuture <==> timestamp != 0 && timestamp > currentTime + SUPER_QUEUE_FUTURE_SLOTS)
            && if resolution == 1 then
                 p.slot >= sendTime && p.slot >= p.time && (p.slot == sendTime || p.slot == p.time)
               else
                 var spread := Spread(hash, resolution);
                 && Suits(p.slot, p.time, sendTime, resolution, spread)
                 && forall x | Suits(x, p.time, sendTime, resolution, spread) :: p.slot <= x
  {
    var wanted := Wanted(currentTime, timestamp);
    if resolution > 1 {
      var spread := Spread(hash, resolution);
      var p := Place(currentTime, sendTime, timestamp, resolution, hash);
      PlaceAligned(currentTime, sendTime, timestamp, resolution, hash);
      RoundDown(wanted, resolution);
      var slot := RoundTo(wanted, resolution) + resolution + spread;
      if slot < sendTime { RoundUpLate(sendTime - slot, resolution); }
      hide Spread, RoundTo;
      forall x | Suits(x, p.time, sendTime, resolution, spread) ensures p.slot <= x {
        if x < p.slot { NextAlike(x, p.slot, resolution); }
      }
    }
  }

  /** Numbers with the same remainder are not close. */
  lemma NextAlike(a: int, b: int, r: int)
    requires r >= 1 && a < b && a % r == b % r
    ensures b - a >= r
  {
    assert b - a == r * (b / r - a / r);
    MultipleFar(r, b / r - a / r);
  }

  /** The ring never aliases: an accepted event lands in one of the 128 slots that start at the one
      to be sent next, never before its own second, and aligned with its hash even when late. */
  lemma PlaceInRing(currentTime: int, sendTime: int, timestamp: int, resolution: int, hash: nat)
    requires 1 <= resolution <= MAX_RESOLUTION && Gap(currentTime, sendTime) <= 0
    ensures var p := Place(currentTime, sendTime, timestamp, resolution, hash);
            && sendTime <= p.slot <= sendTime + SUPER_QUEUE_LEN - 1
            && p.time <= p.slot
            && p.time <= currentTime + SUPER_QUEUE_FUTURE_SLOTS
  {
    SpreadBound(hash, resolution);
    if resolution > 1 {
      var given := if timestamp == 0 then currentTime else timestamp;
      var latest := currentTime + SUPER_QUEUE_FUTURE_SLOTS;
      var time := if given > latest then latest else given;
      RoundDown(time, resolution);
      var slot := RoundTo(time, resolution) + resolution + Spread(hash, resolution);
      if slot < sendTime { RoundUpLate(sendTime - slot, resolution); }
    }
  }

  lemma PlaceAligned(currentTime: int, sendTime: int, timestamp: int, resolution: int, hash: nat)
    requires 1 <= resolution
    ensures var p := Place(currentTime, sendTime, timestamp, resolution, hash);
            resolution > 1 ==> p.slot % resolution == Spread(hash, resolution) && p.time % resolution == 0
  {
    if resolution > 1 {
      SpreadBound(hash, resolution);
      var given := if timestamp == 0 then currentTime else timestamp;
      var latest := currentTime + SUPER_QUEUE_FUTURE_SLOTS;
      var time := if given > latest then latest else given;
      var k := time / resolution;
      var slot := k * resolution + resolution + Spread(hash, resolution);
      RoundDown(time, resolution);
      var m := if slot < sendTime then (sendTime - slot + resolution - 1) / resolution else 0;
      MultipleMod(k + 1 + m, resolution, Spread(hash, resolution));
      assert (k + 1 + m) * resolution == k * resolution + resolution + m * resolution;
    }
  }

  /** The bound of 127 is reached: the ring could not be one slot shorter. */
  lemma RingIsTight(sendTime: int)
    requires sendTime >= 0 && (sendTime + 8) % 60 == 0
    ensures Gap(sendTime + 5, sendTime) <= 0
    ensures Place(sendTime + 5, sendTime, sendTime + 8, 60, TWO32 - 1).slot == sendTime + SUPER_QUEUE_LEN - 1
  {
    assert Spread(TWO32 - 1, 60) == 59;
    assert RoundTo(sendTime + 8, 60) == sendTime + 8;
  }

  // ---------- when a slot is sent ----------

  /** The first second at or after `sendTime` that falls into ring position `i`. */
  function Due(i: int, sendTime: int): int {
    sendTime + (i - sendTime) % SUPER_QUEUE_LEN
  }

  lemma DueFacts(i: int, s: int)
    requires 0 <= i < SUPER_QUEUE_LEN
    ensures s <= Due(i, s) < s + SUPER_QUEUE_LEN && Due(i, s) % SUPER_QUEUE_LEN == i
    ensures Due(s % SUPER_QUEUE_LEN, s) == s
    ensures Due(i, s + 1) == if i == s % SUPER_QUEUE_LEN then s + SUPER_QUEUE_LEN else Due(i, s)
  {
    OneLess(i - s, SUPER_QUEUE_LEN);
    SameRest(i, s, SUPER_QUEUE_LEN);
  }

  /** Counting down modulo `n`. */
  lemma OneLess(x: int, n: nat)
    requires n > 0
    ensures (x - 1) % n == if x % n == 0 then n - 1 else x % n - 1
  {
    var q, r := x / n, x % n;
    if r == 0 {
      assert x - 1 == n * (q - 1) + (n - 1);
      Rest(q - 1, n - 1, n);
    } else {
      assert x - 1 == n * q + (r - 1);
      Rest(q, r - 1, n);
    }
  }

  lemma Rest(q: int, r: nat, n: nat)
    requires r < n
    ensures (n * q + r) % n == r && (n * q + r) / n == q
  {
    var x := n * q + r;
    var d := x / n - q;
    assert n * d == r - x % n;
    OnlyZero(n, d, r - x % n);
  }

  lemma OnlyZero(n: int, d: int, y: int)
    requires n > 0 && n * d == y && -n < y < n
    ensures d == 0
  {}

  /** What is left of the difference says whether `i` is the rest of `s`. */
  lemma SameRest(i: int, s: int, n: nat)
    requires 0 <= i < n
    ensures (i - s) % n == 0 <==> i == s % n
    ensures (s + (i - s) % n) % n == i
  {
    var q, r := s / n, s % n;
    if i >= r {
      assert i - s == n * -q + (i - r);
      Rest(-q, i - r, n);
      assert s + (i - r) == n * q + i;
      Rest(q, i, n);
    } else {
      assert i - s == n * (-q - 1) + (n + i - r);
      Rest(-q - 1, n + i - r, n);
      assert s + (n + i - r) == n * (q + 1) + i;
      Rest(q + 1, i, n);
    }
  }

  lemma DueOfSlot(slot: int, s: int)
    requires s <= slot < s + SUPER_QUEUE_LEN
    ensures Due(slot % SUPER_QUEUE_LEN, s) == slot
  {}

  lemma DueAfterJump(i: int, s: int, blocks: nat)
    ensures Due(i, s + blocks * SUPER_QUEUE_LEN) == Due(i, s) + blocks * SUPER_QUEUE_LEN
  {
    var x := i - s;
    assert (x - blocks * SUPER_QUEUE_LEN) % SUPER_QUEUE_LEN == x % SUPER_QUEUE_LEN;
  }

  // ---------- the ring ----------

  /** An accepted event: its number, the second it is attributed to, the slot it was put into and
      the number of 128-second blocks the queue had jumped over by then. */
  datatype Event = Event(serial: nat, time: int, slot: int, epoch: nat)

  /** A slot handed to the preprocessor. */
  datatype Bucket = Bucket(time: int, events: set<Event>, epoch: nat)

  datatype Location = InSlot(i: int) | Sent(j: int)

  // Where each accepted event is: in exactly one slot or in exactly one sent bucket.

  ghost predicate InSlots(slots: seq<set<Event>>, where: map<Event, Location>) {
    forall i, e | 0 <= i < |slots| :: e in slots[i] <==> e in where && where[e] == InSlot(i)
  }

  ghost predicate InSent(sent: seq<Bucket>, where: map<Event, Location>) {
    forall j, e | 0 <= j < |sent| :: e in sent[j].events <==> e in where && where[e] == Sent(j)
  }

  predicate InRange(where: map<Event, Location>, accepted: nat, jumped: nat, sent: nat) {
    forall e | e in where ::
      && e.serial < accepted && e.epoch <= jumped
      && (where[e].InSlot? ==> 0 <= where[e].i < SUPER_QUEUE_LEN)
      && (where[e].Sent? ==> 0 <= where[e].j < sent)
  }

  /** An event waiting in a slot will leave in its own slot's second, later by the blocks jumped. */
  predicate WaitingOnTime(slots: seq<set<Event>>, sendTime: int, jumped: nat) {
    forall i, e | 0 <= i < |slots| && e in slots[i] ::
      e.time <= e.slot && Due(i, sendTime) == e.slot + (jumped - e.epoch) * SUPER_QUEUE_LEN
  }

  /** An event that was sent left in its own slot's second, later by the blocks jumped meanwhile. */
  predicate SentOnTime(sent: seq<Bucket>) {
    forall j, e | 0 <= j < |sent| && e in sent[j].events ::
      && e.time <= e.slot && e.epoch <= sent[j].epoch
      && sent[j].time == e.slot + (sent[j].epoch - e.epoch) * SUPER_QUEUE_LEN
  }

  predicate Ordered(sent: seq<Bucket>, sendTime: int) {
    && (forall j | 0 <= j < |sent| :: sent[j].time < sendTime)
    && (forall i, j | 0 <= i < j < |sent| :: sent[i].time < sent[j].time)
  }

  /** A sent event never leaves before its own second. */
  lemma SentNotEarly(sent: seq<Bucket>, j: nat, e: Event)
    requires SentOnTime(sent) && j < |sent| && e in sent[j].events
    ensures e.time <= sent[j].time
    ensures sent[j].epoch == e.epoch ==> sent[j].time == e.slot
  {}

  lemma InsertKeeps(slots: seq<set<Event>>, sent: seq<Bucket>, where: map<Event, Location>, at: int, e: Event)
    requires InSlots(slots, where) && InSent(sent, where) && 0 <= at < |slots| && e !in where
    ensures InSlots(slots[at := slots[at] + {e}], where[e := InSlot(at)])
    ensures InSent(sent, where[e := InSlot(at)])
  {}

  function Moved(where: map<Event, Location>, at: int, j: int): map<Event, Location> {
    map e | e in where :: if where[e] == InSlot(at) then Sent(j) else where[e]
  }

  lemma MoveKeeps(slots: seq<set<Event>>, sent: seq<Bucket>, where: map<Event, Location>, at: int, b: Bucket,
                  accepted: nat, jumped: nat)
    requires InSlots(slots, where) && InSent(sent, where) && InRange(where, accepted, jumped, |sent|)
    requires 0 <= at < |slots| && b.events == slots[at]
    ensures var moved := Moved(where, at, |sent|);
            && InSlots(slots[at := {}], moved) && InSent(sent + [b], moved)
            && InRange(moved, accepted, jumped, |sent| + 1) && moved.Keys == where.Keys
  {
    var moved := Moved(where, at, |sent|);
    forall i, e | 0 <= i < |slots| ensures e in slots[at := {}][i] <==> e in moved && moved[e] == InSlot(i) {
      assert e in slots[i] <==> e in where && where[e] == InSlot(i);
    }
    forall j, e | 0 <= j < |sent| + 1 ensures e in (sent + [b])[j].events <==> e in moved && moved[e] == Sent(j) {
      if j < |sent| {
        assert e in sent[j].events <==> e in where && where[e] == Sent(j);
      } else {
        assert e in slots[at] <==> e in where && where[e] == InSlot(at);
      }
    }
  }

  lemma FlushOnTime(slots: seq<set<Event>>, sent: seq<Bucket>, sendTime: int, jumped: nat,
                    where: map<Event, Location>, accepted: nat)
    requires |slots| == SUPER_QUEUE_LEN && WaitingOnTime(slots, sendTime, jumped) && SentOnTime(sent)
    requires InSlots(slots, where) && InRange(where, accepted, jumped, |sent|)
    ensures var at := sendTime % SUPER_QUEUE_LEN;
            && WaitingOnTime(slots[at := {}], sendTime + 1, jumped)
            && SentOnTime(sent + [Bucket(sendTime, slots[at], jumped)])
  {
    var at := sendTime % SUPER_QUEUE_LEN;
    var after := slots[at := {}];
    forall i, e: Event | 0 <= i < |slots| && e in after[i]
      ensures e.time <= e.slot && Due(i, sendTime + 1) == e.slot + (jumped - e.epoch) * SUPER_QUEUE_LEN
    {
      DueFacts(i, sendTime);
    }
    forall e | e in slots[at]
      ensures e.time <= e.slot && e.epoch <= jumped && sendTime == e.slot + (jumped - e.epoch) * SUPER_QUEUE_LEN
    {
      DueFacts(at, sendTime);
      assert e in where;
    }
  }

  lemma OrderKeeps(sent: seq<Bucket>, sendTime: int, b: Bucket)
    requires Ordered(sent, sendTime) && b.time == sendTime
    ensures Ordered(sent, sendTime + 1) && Ordered(sent + [b], sendTime + 1)
  {}

  lemma OrderLater(sent: seq<Bucket>, sendTime: int, later: int)
    requires Ordered(sent, sendTime) && sendTime <= later
    ensures Ordered(sent, later)
  {}

  lemma RangeLater(where: map<Event, Location>, accepted: nat, jumped: nat, sent: nat, later: nat)
    requires InRange(where, accepted, jumped, sent) && jumped <= later
    ensures InRange(where, accepted, later, sent)
  {}

  lemma JumpOnTime(slots: seq<set<Event>>, sendTime: int, jumped: nat, blocks: nat)
    requires WaitingOnTime(slots, sendTime, jumped)
    ensures WaitingOnTime(slots, sendTime + blocks * SUPER_QUEUE_LEN, jumped + blocks)
  {
    forall i, e | 0 <= i < |slots| && e in slots[i]
      ensures e.time <= e.slot
      ensures Due(i, sendTime + blocks * SUPER_QUEUE_LEN) ==
              e.slot + (jumped + blocks - e.epoch) * SUPER_QUEUE_LEN
    {
      DueAfterJump(i, sendTime, blocks);
    }
  }

  // ---------- what a flush sends ----------

  /** The buckets of `n` seconds from `first`: those with events, and empty ones from the second `wanted` on. */
  ghost function Sends(slots: seq<set<Event>>, first: int, n: nat, epoch: nat, wanted: int): seq<Bucket>
    requires |slots| == SUPER_QUEUE_LEN
  {
    if n == 0 then []
    else
      var x := first + n - 1;
      var b := slots[x % SUPER_QUEUE_LEN];
      Sends(slots, first, n - 1, epoch, wanted) + if b != {} || x >= wanted then [Bucket(x, b, epoch)] else []
  }

  /** Every second in its turn is sent with exactly the events of its slot, unless it has none and empty ones
      are not wanted yet. */
  lemma {:induction false} SendsExactly(slots: seq<set<Event>>, first: int, n: nat, epoch: nat, wanted: int,
                                        b: Bucket)
    requires |slots| == SUPER_QUEUE_LEN
    ensures b in Sends(slots, first, n, epoch, wanted) <==>
              && first <= b.time < first + n && b.events == slots[b.time % SUPER_QUEUE_LEN] && b.epoch == epoch
              && (b.events != {} || b.time >= wanted)
  {
    if n > 0 {
      SendsExactly(slots, first, n - 1, epoch, wanted, b);
    }
  }

  lemma SendsMore(slots: seq<set<Event>>, first: int, n: nat, epoch: nat, wanted: int)
    requires |slots| == SUPER_QUEUE_LEN
    ensures Sends(slots, first, 0, epoch, wanted) == []
    ensures var b := slots[(first + n) % SUPER_QUEUE_LEN];
            Sends(slots, first, n + 1, epoch, wanted) == Sends(slots, first, n, epoch, wanted)
              + if b != {} || first + n >= wanted then [Bucket(first + n, b, epoch)] else []
  {}

  /** In one turn of the ring no slot comes twice. */
  lemma DueOnce(i: int, first: int, x: int)
    requires 0 <= i < SUPER_QUEUE_LEN && first <= x < first + SUPER_QUEUE_LEN
    ensures i == x % SUPER_QUEUE_LEN <==> Due(i, first) == x
  {
    DueFacts(i, first);
    DueOfSlot(x, first);
  }

  /** What is left in the slots when those before `now` were sent. */
  ghost predicate Emptied(slots: seq<set<Event>>, was: seq<set<Event>>, first: int, now: int) {
    && |slots| == |was| == SUPER_QUEUE_LEN
    && forall i | 0 <= i < SUPER_QUEUE_LEN :: slots[i] == if Due(i, first) < now then {} else was[i]
  }

  lemma EmptiedNone(slots: seq<set<Event>>, first: int)
    requires |slots| == SUPER_QUEUE_LEN
    ensures Emptied(slots, slots, first, first)
  {
    forall i | 0 <= i < SUPER_QUEUE_LEN ensures Due(i, first) >= first { DueFacts(i, first); }
  }

  lemma EmptiedMore(slots: seq<set<Event>>, was: seq<set<Event>>, first: int, now: int)
    requires Emptied(slots, was, first, now) && first <= now < first + SUPER_QUEUE_LEN
    ensures slots[now % SUPER_QUEUE_LEN] == was[now % SUPER_QUEUE_LEN]
    ensures Emptied(slots[now % SUPER_QUEUE_LEN := {}], was, first, now + 1)
  {
    var next := slots[now % SUPER_QUEUE_LEN := {}];
    forall i | 0 <= i < SUPER_QUEUE_LEN
      ensures next[i] == if Due(i, first) < now + 1 then {} else was[i]
    {
      DueOnce(i, first, now);
    }
    DueOnce(now % SUPER_QUEUE_LEN, first, now);
  }

  lemma EmptiedAll(slots: seq<set<Event>>, was: seq<set<Event>>, first: int)
    requires Emptied(slots, was, first, first + SUPER_QUEUE_LEN)
    ensures forall i | 0 <= i < SUPER_QUEUE_LEN :: slots[i] == {}
  {
    forall i | 0 <= i < SUPER_QUEUE_LEN ensures slots[i] == {} { DueFacts(i, first); }
  }

  lemma AllInSent(slots: seq<set<Event>>, where: map<Event, Location>, accepted: nat, jumped: nat, sent: nat)
    requires |slots| == SUPER_QUEUE_LEN && InSlots(slots, where) && InRange(where, accepted, jumped, sent)
    ensures (forall i | 0 <= i < SUPER_QUEUE_LEN :: slots[i] == {}) ==> forall e | e in where :: where[e].Sent?
  {
    forall e | e in where && where[e].InSlot? ensures e in slots[where[e].i] {}
  }

  class SuperQueue {
    var currentTime: int
    var sendTime: int
    var stopReceiving: bool
    const slots: array<set<Event>>
    var sent: seq<Bucket>
    var accepted: nat
    var jumped: nat // blocks of 128 seconds jumped over so far
    ghost var where: map<Event, Location>

    ghost predicate Valid()
      reads this, slots
    {
      && slots.Length == SUPER_QUEUE_LEN
      && InSlots(slots[..], where) && InSent(sent, where) && InRange(where, accepted, jumped, |sent|)
      && WaitingOnTime(slots[..], sendTime, jumped) && SentOnTime(sent) && Ordered(sent, sendTime)
    }

    constructor (now: int)
      ensures Valid() && fresh(slots) && currentTime == now && sendTime == now - 2 && !stopReceiving
      ensures accepted == 0 && sent == [] && where == map[] && jumped == 0
    {
      currentTime, sendTime, stopReceiving := now, now - 2, false;
      slots := new set<Event>[SUPER_QUEUE_LEN](_ => {});
      sent, accepted, jumped, where := [], 0, 0, map[];
    }

    /** A representative writer: an event is refused, dropped as too old, or put into its slot. */
    method Apply(timestamp: int, resolution: int, hash: nat, dropBefore: int) returns (ok: bool)
      requires Valid() && 1 <= resolution <= MAX_RESOLUTION
      modifies this`accepted, this`where, slots
      ensures Valid() && sent == old(sent)
      ensures var p := Place(currentTime, sendTime, timestamp, resolution, hash);
              && (ok <==> !stopReceiving && Gap(currentTime, sendTime) <= 0 && p.time >= dropBefore)
              && (!ok ==> accepted == old(accepted) && where == old(where))
              && (ok ==>
                    var e := Event(old(accepted), p.time, p.slot, jumped);
                    accepted == old(accepted) + 1 && where == old(where)[e := InSlot(p.slot % SUPER_QUEUE_LEN)])
    {
      if stopReceiving || Gap(currentTime, sendTime) > 0 {
        return false;
      }
      var p := Place(currentTime, sendTime, timestamp, resolution, hash);
      if p.time < dropBefore {
        return false;
      }
      PlaceInRing(currentTime, sendTime, timestamp, resolution, hash);
      DueOfSlot(p.slot, sendTime);
      var at := p.slot % SUPER_QUEUE_LEN;
      var e := Event(accepted, p.time, p.slot, jumped);
      assert e !in where;
      InsertKeeps(slots[..], sent, where, at, e);
      ghost var before := slots[..];
      slots[at] := slots[at] + {e};
      assert slots[..] == before[at := before[at] + {e}];
      where := where[e := InSlot(at)];
      accepted := accepted + 1;
      ok := true;
    }

    method StopReceivingIncomingData()
      requires Valid()
      modifies this`stopReceiving
      ensures Valid() && stopReceiving
    {
      stopReceiving := true;
    }

    /** Sends the slot whose turn it is, unless it is empty and empty slots are not wanted. Every
        event of the slot moves into the sent bucket; every other event stays where it is. */
    method FlushAllDataSingleStep(sendEmpty: bool) returns (n: nat)
      requires Valid()
      modifies this`sendTime, this`sent, this`where, slots
      ensures Valid() && sendTime == old(sendTime) + 1
      ensures var at := old(sendTime) % SUPER_QUEUE_LEN;
              && slots[at] == {}
              && (forall i | 0 <= i < SUPER_QUEUE_LEN && i != at :: slots[i] == old(slots[i]))
              && n == (if old(slots[at]) == {} && !sendEmpty then 0 else 1)
              && sent == old(sent) + (if n == 1 then [Bucket(old(sendTime), old(slots[at]), jumped)] else [])
      ensures where.Keys == old(where).Keys
    {
      hide InSlots, InSent, InRange, WaitingOnTime, SentOnTime, Ordered;
      var time := sendTime;
      var at := time % SUPER_QUEUE_LEN;
      ghost var before := slots[..];
      FlushOnTime(before, sent, time, jumped, where, accepted);
      MoveKeeps(before, sent, where, at, Bucket(time, before[at], jumped), accepted, jumped);
      OrderKeeps(sent, time, Bucket(time, before[at], jumped));
      sendTime := sendTime + 1;
      var b := slots[at];
      if b == {} && !sendEmpty {
        assert before[at := {}] == before;
        return 0;
      }
      slots[at] := {};
      assert slots[..] == before[at := {}];
      where := Moved(where, at, |sent|);
      sent := sent + [Bucket(time, b, jumped)];
      n := 1;
    }

    /** After a long sleep the queue jumps over whole turns of the ring, so no event changes its slot. */
    method JumpAhead()
      requires Valid()
      modifies this`sendTime, this`jumped
      ensures Valid() && sendTime >= old(sendTime) && jumped >= old(jumped)
      ensures sendTime == old(sendTime) + (jumped - old(jumped)) * SUPER_QUEUE_LEN
      ensures currentTime - (SUPER_QUEUE_LEN - SUPER_QUEUE_FUTURE_SLOTS) <= sendTime
      ensures jumped > old(jumped) ==> sendTime <= currentTime + 2
      ensures jumped > old(jumped) <==> old(sendTime) < currentTime - (SUPER_QUEUE_LEN - SUPER_QUEUE_FUTURE_SLOTS)
    {
      hide InSlots, InSent, InRange, WaitingOnTime, SentOnTime, Ordered;
      if sendTime < currentTime - (SUPER_QUEUE_LEN - SUPER_QUEUE_FUTURE_SLOTS) {
        var behind := currentTime - (SUPER_QUEUE_LEN - SUPER_QUEUE_FUTURE_SLOTS) - sendTime;
        var blocks := (behind + SUPER_QUEUE_LEN - 1) / SUPER_QUEUE_LEN;
        JumpOnTime(slots[..], sendTime, jumped, blocks);
        OrderLater(sent, sendTime, sendTime + blocks * SUPER_QUEUE_LEN);
        RangeLater(where, accepted, jumped, |sent|, jumped + blocks);
        sendTime := sendTime + blocks * SUPER_QUEUE_LEN;
        jumped := jumped + blocks;
      }
    }

    /** The periodic flush, with the clock in milliseconds; `idle` says whether the preprocessor is idle at
        the check before each step. It goes on from the second after the jump until the first check at
        which the preprocessor is not idle; if there is none every second older than the agent's
        window has its turn, and none that is younger. */
    method FlushBuckets(nowMs: int, idle: nat -> bool) returns (busy: bool, ghost first: int)
      requires Valid()
      modifies this`currentTime, this`sendTime, this`jumped, this`sent, this`where, slots
      ensures Valid() && where.Keys == old(where).Keys && old(sent) <= sent
      ensures currentTime == (if nowMs / 1000 > old(currentTime) then nowMs / 1000 else old(currentTime))
      ensures sendTime >= old(sendTime) && sendTime >= currentTime - (SUPER_QUEUE_LEN - SUPER_QUEUE_FUTURE_SLOTS)
      ensures jumped >= old(jumped) && first == old(sendTime) + (jumped - old(jumped)) * SUPER_QUEUE_LEN
      ensures busy <==> sendTime < (nowMs - AGENT_WINDOW_MS) / 1000
      ensures sendTime > (nowMs - AGENT_WINDOW_MS) / 1000 ==> sendTime == first
      ensures sendTime >= first && (forall k | 0 <= k < sendTime - first :: idle(k))
      ensures busy ==> !idle(sendTime - first)
      ensures sent == old(sent) + Sends(old(slots[..]), first, sendTime - first, jumped, WithoutGap(currentTime))
      ensures Emptied(slots[..], old(slots[..]), first, sendTime)
      ensures jumped > old(jumped) <==> old(sendTime) < currentTime - (SUPER_QUEUE_LEN - SUPER_QUEUE_FUTURE_SLOTS)
    {
      hide InSlots, InSent, InRange, WaitingOnTime, SentOnTime, Ordered;
      var nowUnix := nowMs / 1000;
      if nowUnix > currentTime {
        currentTime := nowUnix;
      }
      JumpAhead();
      var sendUpToTime := (nowMs - AGENT_WINDOW_MS) / 1000;
      first := sendTime;
      busy := FlushUpTo(sendUpToTime, idle);
    }

    method FlushUpTo(sendUpToTime: int, idle: nat -> bool) returns (busy: bool)
      requires Valid() && sendUpToTime < currentTime
      requires currentTime - (SUPER_QUEUE_LEN - SUPER_QUEUE_FUTURE_SLOTS) <= sendTime
      modifies this`sendTime, this`sent, this`where, slots
      ensures Valid() && where.Keys == old(where).Keys
      ensures busy <==> sendTime < sendUpToTime
      ensures sendTime > sendUpToTime ==> sendTime == old(sendTime)
      ensures sendTime >= old(sendTime) && (forall k | 0 <= k < sendTime - old(sendTime) :: idle(k))
      ensures busy ==> !idle(sendTime - old(sendTime))
      ensures sent == old(sent) +
        Sends(old(slots[..]), old(sendTime), sendTime - old(sendTime), jumped, WithoutGap(currentTime))
      ensures Emptied(slots[..], old(slots[..]), old(sendTime), sendTime)
    {
      hide InSlots, InSent, InRange, WaitingOnTime, SentOnTime, Ordered, Emptied, Sends, Due;
      ghost var first, was, wanted := sendTime, slots[..], WithoutGap(currentTime);
      EmptiedNone(was, first);
      SendsMore(was, first, 0, jumped, wanted);
      var k := 0;
      while true
        invariant Valid() && where.Keys == old(where).Keys && k >= 0 && sendTime == first + k
        invariant sendTime > sendUpToTime ==> sendTime == first
        invariant forall j | 0 <= j < k :: idle(j)
        invariant sent == old(sent) + Sends(was, first, k, jumped, wanted)
        invariant Emptied(slots[..], was, first, sendTime)
        decreases sendUpToTime - sendTime
      {
        if sendUpToTime <= sendTime {
          return false;
        }
        if !idle(k) {
          return true;
        }
        if sendTime >= currentTime {
          assert false; // must be never: the agent window is longer than a second
        }
        SendsMore(was, first, k, jumped, wanted);
        var _ := FlushNext(Gap(currentTime, sendTime) <= 0, first, was);
        k := k + 1;
      }
    }

    /** One step of a flush that began at `first` with the slots as they `was`. */
    method FlushNext(sendEmpty: bool, ghost first: int, ghost was: seq<set<Event>>) returns (n: nat)
      requires Valid() && Emptied(slots[..], was, first, sendTime) && first <= sendTime < first + SUPER_QUEUE_LEN
      modifies this`sendTime, this`sent, this`where, slots
      ensures Valid() && where.Keys == old(where).Keys && sendTime == old(sendTime) + 1
      ensures Emptied(slots[..], was, first, sendTime)
      ensures var b := was[old(sendTime) % SUPER_QUEUE_LEN];
              sent == old(sent) + if b != {} || sendEmpty then [Bucket(old(sendTime), b, jumped)] else []
      ensures n == |sent| - |old(sent)|
    {
      hide InSlots, InSent, InRange, WaitingOnTime, SentOnTime, Ordered, Emptied, Due;
      ghost var before := slots[..];
      EmptiedMore(before, was, first, sendTime);
      n := FlushAllDataSingleStep(sendEmpty);
      assert slots[..] == before[old(sendTime) % SUPER_QUEUE_LEN := {}];
    }

    /** Shutdown: 128 steps leave no event behind in the ring. */
    method FlushAllData() returns (nonEmpty: nat)
      requires Valid()
      modifies this`sendTime, this`sent, this`where, slots
      ensures Valid() && where.Keys == old(where).Keys && old(sent) <= sent
      ensures forall i | 0 <= i < SUPER_QUEUE_LEN :: slots[i] == {}
      ensures forall e | e in where :: where[e].Sent?
      ensures nonEmpty == |sent| - |old(sent)|
      ensures sent == old(sent) +
        Sends(old(slots[..]), old(sendTime), SUPER_QUEUE_LEN, jumped, old(sendTime) + SUPER_QUEUE_LEN)
    {
      hide InSlots, InSent, InRange, WaitingOnTime, SentOnTime, Ordered, Emptied, Sends, Due;
      nonEmpty := 0;
      ghost var first, was := sendTime, slots[..];
      EmptiedNone(was, first);
      SendsMore(was, first, 0, jumped, first + SUPER_QUEUE_LEN);
      for k := 0 to SUPER_QUEUE_LEN
        invariant Valid() && where.Keys == old(where).Keys && sendTime == first + k
        invariant sent == old(sent) + Sends(was, first, k, jumped, first + SUPER_QUEUE_LEN)
        invariant Emptied(slots[..], was, first, sendTime)
        invariant nonEmpty == |sent| - |old(sent)|
      {
        SendsMore(was, first, k, jumped, first + SUPER_QUEUE_LEN);
        var n := FlushNext(false, first, was);
        nonEmpty := nonEmpty + n;
      }
      EmptiedAll(slots[..], was, first);
      AllInSent(slots[..], where, accepted, jumped, |sent|);
    }
  }
}
