/** The aggregator's table of strings that are not mapped yet: it decides from their history which of
    them deserve a mapping. */
module TagsMapper {
  import opened MapSums

  datatype UnknownTag = UnknownTag(time: int, hits: nat, total: int)
  datatype Sighting = Sighting(time: int, total: int)
  datatype Config = Config(
    maxCreateTagsPerIteration: int,
    tagHitsToCreate: int,
    tagTotalToCreate: int,
    maxUnknownTagsToKeep: int,
    keepTime: int)

  // ---------- what a table entry remembers ----------

  function Seen(c: UnknownTag, s: Sighting): UnknownTag {
    if s.time > c.time then UnknownTag(s.time, c.hits + 1, c.total + s.total)
    else UnknownTag(c.time, c.hits, c.total + s.total)
  }

  /** The entry after these sightings, the first of which admitted the string. */
  function Entry(history: seq<Sighting>): UnknownTag
    requires history != []
  {
    var s := history[|history| - 1];
    if |history| == 1 then UnknownTag(s.time, 1, s.total) else Seen(Entry(history[..|history| - 1]), s)
  }

  /** The seconds that counted as hits. */
  function HitSeconds(history: seq<Sighting>): seq<int>
    requires history != []
  {
    var s := history[|history| - 1];
    if |history| == 1 then [s.time]
    else
      var before := HitSeconds(history[..|history| - 1]);
      if s.time > Entry(history[..|history| - 1]).time then before + [s.time] else before
  }

  function TotalSeen(history: seq<Sighting>): int {
    if history == [] then 0 else TotalSeen(history[..|history| - 1]) + history[|history| - 1].total
  }

  /** Sighting `j` is in a second later than all before. */
  predicate Later(history: seq<Sighting>, j: int) {
    0 <= j < |history| && forall i | 0 <= i < j :: history[i].time < history[j].time
  }

  /** The string was seen in this second when it had not been seen in it or in a later one. */
  predicate FirstSeenIn(history: seq<Sighting>, x: int) {
    exists j | 0 <= j < |history| :: Later(history, j) && history[j].time == x
  }

  lemma {:induction false} LatestOfAll(history: seq<Sighting>)
    requires history != []
    ensures forall j | 0 <= j < |history| :: history[j].time <= Entry(history).time
  {
    var last := |history| - 1;
    if last > 0 {
      var before := history[..last];
      LatestOfAll(before);
      forall j | 0 <= j < last ensures history[j].time <= Entry(before).time { assert history[j] == before[j]; }
    }
  }

  lemma {:induction false} HitsIncrease(history: seq<Sighting>)
    requires history != []
    ensures var seconds := HitSeconds(history);
            && |seconds| == Entry(history).hits >= 1
            && seconds[|seconds| - 1] == Entry(history).time
            && (forall i, j | 0 <= i < j < |seconds| :: seconds[i] < seconds[j])
  {
    if |history| > 1 { HitsIncrease(history[..|history| - 1]); }
  }

  lemma {:induction false} TotalAddsUp(history: seq<Sighting>)
    requires history != []
    ensures Entry(history).total == TotalSeen(history)
  {
    var last := |history| - 1;
    if last == 0 {
      assert TotalSeen(history[..0]) == 0;
    } else {
      TotalAddsUp(history[..last]);
    }
  }

  /** An entry is a summary of its history: hits are counted in strictly increasing seconds, the last of which
      is the latest of all, and the total is what all sightings add up to. */
  lemma EntrySummarizes(history: seq<Sighting>)
    requires history != []
    ensures var seconds := HitSeconds(history);
            && |seconds| == Entry(history).hits >= 1
            && seconds[|seconds| - 1] == Entry(history).time
            && (forall i, j | 0 <= i < j < |seconds| :: seconds[i] < seconds[j])
            && (forall j | 0 <= j < |history| :: history[j].time <= Entry(history).time)
            && Entry(history).total == TotalSeen(history)
  {
    hide Entry, HitSeconds, TotalSeen;
    LatestOfAll(history);
    HitsIncrease(history);
    TotalAddsUp(history);
  }

  /** The hits are exactly the seconds in which the string was seen later than ever before. */
  lemma {:induction false} HitsExactly(history: seq<Sighting>, x: int)
    requires history != []
    ensures x in HitSeconds(history) <==> FirstSeenIn(history, x)
  {
    var last := |history| - 1;
    if last == 0 {
      assert Later(history, 0);
    } else {
      var before := history[..last];
      HitsExactly(before, x);
      EntrySummarizes(before);
      HitsExactly(before, Entry(before).time);
      LaterMore(history, Entry(before).time);
      FirstSeenMore(history, x);
    }
  }

  lemma LaterMore(history: seq<Sighting>, top: int)
    requires |history| > 1
    requires var before := history[..|history| - 1];
             FirstSeenIn(before, top) && forall j | 0 <= j < |before| :: before[j].time <= top
    ensures Later(history, |history| - 1) <==> history[|history| - 1].time > top
  {
    var before := history[..|history| - 1];
    var j :| 0 <= j < |before| && Later(before, j) && before[j].time == top;
    assert history[j].time == top;
    forall i | 0 <= i < |before| ensures history[i].time <= top { assert history[i] == before[i]; }
  }

  lemma FirstSeenMore(history: seq<Sighting>, x: int)
    requires |history| > 1
    ensures var last := |history| - 1;
            FirstSeenIn(history, x) <==>
              FirstSeenIn(history[..last], x) || (Later(history, last) && history[last].time == x)
  {
    var last := |history| - 1;
    var before := history[..last];
    forall j | 0 <= j < last ensures Later(before, j) <==> Later(history, j) {}
    if FirstSeenIn(before, x) {
      var j :| 0 <= j < |before| && Later(before, j) && before[j].time == x;
      assert Later(history, j) && history[j].time == x;
    }
    if FirstSeenIn(history, x) {
      var j :| 0 <= j < |history| && Later(history, j) && history[j].time == x;
      if j < last { assert Later(before, j) && before[j].time == x; }
    }
  }

  predicate Deserves(config: Config, c: UnknownTag) {
    c.hits > config.tagHitsToCreate && c.total > config.tagTotalToCreate
  }

  /** What a promotion rests on: a string deserves it exactly if it was seen in more seconds, each later than
      those before, and with a larger total than configured. */
  lemma PromotedIffSeenOften(config: Config, history: seq<Sighting>)
    requires history != []
    ensures var seconds := HitSeconds(history);
            && (Deserves(config, Entry(history)) <==>
                  |seconds| > config.tagHitsToCreate && TotalSeen(history) > config.tagTotalToCreate)
            && (forall i, j | 0 <= i < j < |seconds| :: seconds[i] < seconds[j])
            && (forall x :: x in seconds <==> FirstSeenIn(history, x))
  {
    EntrySummarizes(history);
    forall x ensures x in HitSeconds(history) <==> FirstSeenIn(history, x) { HitsExactly(history, x); }
  }

  // ---------- the table ----------

  function Hits(m: map<string, UnknownTag>): map<string, int> { map k | k in m :: m[k].hits }
  function Totals(m: map<string, UnknownTag>): map<string, int> { map k | k in m :: m[k].total }
  function Times(m: map<string, UnknownTag>): map<string, int> { map k | k in m :: m[k].time }

  function Pow2(n: nat): (p: nat)
    ensures p >= 1
  {
    if n == 0 then 1 else 2 * Pow2(n - 1)
  }

  function Max(a: int, b: int): int { if a > b then a else b }

  predicate Stale(config: Config, now: int, c: UnknownTag) { now >= c.time + config.keepTime }

  /** Whether an entry outlives a resampling with factor `sf` and this draw from [0, sf). */
  predicate Survives(config: Config, now: int, sf: nat, draw: nat, c: UnknownTag) {
    !Stale(config, now, c) && (c.total >= sf || c.total > draw)
  }

  /** The draw alone decides, so an entry stays with odds of its total to the factor; comparing the total with
      the factor first changes nothing, for entries and for new strings. */
  lemma DrawDecides(config: Config, now: int, log2: nat, draw: nat, c: UnknownTag)
    ensures var r := draw % Pow2(log2);
            && (Survives(config, now, Pow2(log2), r, c) <==> !Stale(config, now, c) && r < c.total)
            && (Lost(c.total, draw, log2) <==> c.total <= r)
  {}

  type Dice = string -> nat

  /** The table after one resampling with this factor and these dice. */
  function Sampled(config: Config, now: int, sf: nat, dice: Dice, m: map<string, UnknownTag>): map<string, UnknownTag>
    requires sf >= 1
  {
    map k | k in m && Survives(config, now, sf, dice(k) % sf, m[k]) :: m[k]
  }

  /** The table during a resampling: the entries in `todo` are still to be looked at. */
  function Sampling(config: Config, now: int, sf: nat, dice: Dice, m: map<string, UnknownTag>, todo: set<string>)
    : map<string, UnknownTag>
    requires sf >= 1
  {
    map k | k in m && (k in todo || Survives(config, now, sf, dice(k) % sf, m[k])) :: m[k]
  }

  lemma SamplingStep(config: Config, now: int, sf: nat, dice: Dice, m: map<string, UnknownTag>, todo: set<string>,
                     k: string)
    requires sf >= 1 && todo <= m.Keys && k in todo
    ensures var before := Sampling(config, now, sf, dice, m, todo);
            && k in before && before[k] == m[k] && before.Keys <= m.Keys
            && Sampling(config, now, sf, dice, m, todo - {k}) ==
               if !Stale(config, now, m[k]) && (m[k].total >= sf || m[k].total > dice(k) % sf) then before
               else before - {k}
  {}

  lemma SamplingEnds(config: Config, now: int, sf: nat, dice: Dice, m: map<string, UnknownTag>)
    requires sf >= 1
    ensures Sampling(config, now, sf, dice, m, m.Keys) == m
    ensures Sampling(config, now, sf, dice, m, {}) == Sampled(config, now, sf, dice, m)
  {}

  /** There is no room for one more string. */
  predicate TooFull(config: Config, m: map<string, UnknownTag>) {
    |m| > 1 && |m| >= config.maxUnknownTagsToKeep
  }

  /** The table after as many of these resamplings as it takes to make room. */
  function Thinned(config: Config, now: int, log2: nat, m: map<string, UnknownTag>, rounds: seq<Dice>)
    : map<string, UnknownTag>
    decreases |rounds|
  {
    if rounds == [] || !TooFull(config, m) then m
    else Thinned(config, now, log2 + 1, Sampled(config, now, Pow2(log2 + 1), rounds[0], m), rounds[1..])
  }

  /** How many it takes. */
  function RoundsTaken(config: Config, now: int, log2: nat, m: map<string, UnknownTag>, rounds: seq<Dice>): nat
    decreases |rounds|
  {
    if rounds == [] || !TooFull(config, m) then 0
    else 1 + RoundsTaken(config, now, log2 + 1, Sampled(config, now, Pow2(log2 + 1), rounds[0], m), rounds[1..])
  }

  predicate SurvivesRound(config: Config, now: int, log2: nat, dice: Dice, k: string, c: UnknownTag) {
    Survives(config, now, Pow2(log2), dice(k) % Pow2(log2), c)
  }

  /** Making room throws out exactly the entries that lose one of the throws, one more with every
      doubling of the factor, and stops as soon as there is room or nothing is left to throw. */
  lemma {:induction false} ThinnedIsExact(config: Config, now: int, log2: nat, m: map<string, UnknownTag>,
                                          rounds: seq<Dice>, k: string)
    ensures var n := RoundsTaken(config, now, log2, m, rounds);
            var left := Thinned(config, now, log2, m, rounds);
            && n <= |rounds| && (n < |rounds| ==> !TooFull(config, left))
            && (k in left <==>
                  k in m && forall i | 0 <= i < n :: SurvivesRound(config, now, log2 + 1 + i, rounds[i], k, m[k]))
            && (k in left ==> left[k] == m[k])
    decreases |rounds|
  {
    hide TooFull, Survives, Pow2;
    if rounds == [] || !TooFull(config, m) {
    } else {
      var next, n := Sampled(config, now, Pow2(log2 + 1), rounds[0], m), RoundsTaken(config, now, log2, m, rounds);
      ThinnedIsExact(config, now, log2 + 1, next, rounds[1..], k);
      assert k in next <==> k in m && SurvivesRound(config, now, log2 + 1, rounds[0], k, m[k]);
      if k in m {
        forall i | 1 <= i < n
          ensures SurvivesRound(config, now, log2 + 1 + i, rounds[i], k, m[k])
             <==> SurvivesRound(config, now, log2 + 2 + (i - 1), rounds[1..][i - 1], k, m[k])
        {}
      }
    }
  }

  ghost predicate SumsMatch(m: map<string, UnknownTag>, hits: int, total: int, time: int) {
    hits == Sum(Hits(m)) && total == Sum(Totals(m)) && time == Sum(Times(m))
  }

  lemma SumsLess(m: map<string, UnknownTag>, k: string)
    requires k in m
    ensures Sum(Hits(m - {k})) == Sum(Hits(m)) - m[k].hits
    ensures Sum(Totals(m - {k})) == Sum(Totals(m)) - m[k].total
    ensures Sum(Times(m - {k})) == Sum(Times(m)) - m[k].time
  {
    SumRemove(Hits(m), k);
    SumRemove(Totals(m), k);
    SumRemove(Times(m), k);
    assert Hits(m) - {k} == Hits(m - {k});
    assert Totals(m) - {k} == Totals(m - {k});
    assert Times(m) - {k} == Times(m - {k});
  }

  lemma SumsMore(m: map<string, UnknownTag>, k: string, c: UnknownTag)
    requires k !in m
    ensures Sum(Hits(m[k := c])) == Sum(Hits(m)) + c.hits
    ensures Sum(Totals(m[k := c])) == Sum(Totals(m)) + c.total
    ensures Sum(Times(m[k := c])) == Sum(Times(m)) + c.time
  {
    SumsLess(m[k := c], k);
    assert m[k := c] - {k} == m;
  }

  ghost predicate Remembers(m: map<string, UnknownTag>, history: map<string, seq<Sighting>>) {
    m.Keys == history.Keys && forall k | k in m :: history[k] != [] && m[k] == Entry(history[k])
  }

  lemma RemembersMore(m: map<string, UnknownTag>, history: map<string, seq<Sighting>>, k: string, h: seq<Sighting>)
    requires Remembers(m, history) && h != []
    ensures Remembers(m[k := Entry(h)], history[k := h])
  {}

  lemma RemembersLess(m: map<string, UnknownTag>, history: map<string, seq<Sighting>>, k: string)
    requires Remembers(m, history)
    ensures Remembers(m - {k}, history - {k})
  {}

  /** One more sighting of a remembered string. */
  lemma SeenAgain(h: seq<Sighting>, s: Sighting)
    requires h != []
    ensures Entry(h + [s]) == Seen(Entry(h), s)
  {
    assert (h + [s])[..|h|] == h;
  }

  // ---------- a batch of strings ----------

  predicate HalfFull(config: Config, m: map<string, UnknownTag>) {
    |m| >= config.maxUnknownTagsToKeep / 2
  }

  /** The sample factor is lowered: the table has been less than half full for long enough. */
  predicate Lowers(config: Config, now: int, log2: nat, m: map<string, UnknownTag>, reduceTime: int) {
    log2 > 0 && !HalfFull(config, m) && now >= reduceTime + config.keepTime
  }

  datatype Input = Input(config: Config, time: int, batch: map<string, int>, draw: Dice, rounds: string -> seq<Dice>)

  /** The table and the queue, with the strings that were promoted and those of them that were queued. */
  datatype Table = Table(log2: nat, tags: map<string, UnknownTag>, created: map<string, int>,
                         promoted: set<string>, queued: set<string>)

  datatype Turn = Turn(log2: nat, tags: map<string, UnknownTag>, promoted: bool)

  function Fresh(log2: nat, tags: map<string, UnknownTag>, created: map<string, int>): Table {
    Table(log2, tags, created, {}, {})
  }

  predicate Lost(total: int, draw: nat, log2: nat) {
    total < Pow2(log2) && total <= draw % Pow2(log2)
  }

  /** What the turn of one string makes of the table. */
  function Turned(config: Config, time: int, k: string, total: int, draw: nat, rounds: seq<Dice>,
                  log2: nat, tags: map<string, UnknownTag>): Turn
  {
    if k in tags then
      var c := Seen(tags[k], Sighting(time, total));
      if Deserves(config, c) then Turn(log2, tags - {k}, true) else Turn(log2, tags[k := c], false)
    else if Lost(total, draw, log2) then Turn(log2, tags, false)
    else
      var left := Thinned(config, time, log2, tags, rounds);
      Turn(log2 + RoundsTaken(config, time, log2, tags, rounds),
           if TooFull(config, left) then left else left[k := UnknownTag(time, 1, total)], false)
  }

  function TurnOf(x: Input, t: Table, k: string): Turn
    requires k in x.batch
  {
    Turned(x.config, x.time, k, x.batch[k], x.draw(k), x.rounds(k), t.log2, t.tags)
  }

  function Took(x: Input, t: Table, k: string): Table
    requires k in x.batch
  {
    var c := TurnOf(x, t, k);
    var queues := c.promoted && |t.created| < x.config.maxCreateTagsPerIteration;
    Table(c.log2, c.tags, if queues then t.created[k := x.batch[k]] else t.created,
          if c.promoted then t.promoted + {k} else t.promoted, if queues then t.queued + {k} else t.queued)
  }

  predicate InBatch(x: Input, order: seq<string>) {
    forall i | 0 <= i < |order| :: order[i] in x.batch
  }

  /** All strings in this order. */
  function Taken(x: Input, t: Table, order: seq<string>): Table
    requires InBatch(x, order)
  {
    if order == [] then t else Took(x, Taken(x, t, order[..|order| - 1]), order[|order| - 1])
  }

  predicate Once(order: seq<string>) {
    forall i, j | 0 <= i < j < |order| :: order[i] != order[j]
  }

  ghost predicate HasAll(order: seq<string>, keys: set<string>) {
    forall k :: k in order <==> k in keys
  }

  predicate Shows(t: Table, log2: nat, tags: map<string, UnknownTag>, created: map<string, int>) {
    t.log2 == log2 && t.tags == tags && t.created == created
  }

  lemma TakenNone(x: Input, t: Table)
    ensures InBatch(x, []) && Taken(x, t, []) == t && Once([]) && HasAll([], {})
  {}

  lemma TakenMore(x: Input, t: Table, order: seq<string>, k: string, keys: set<string>)
    requires InBatch(x, order) && Once(order) && HasAll(order, keys) && k !in keys && k in x.batch
    ensures Once(order + [k]) && HasAll(order + [k], keys + {k}) && InBatch(x, order + [k])
    ensures Taken(x, t, order + [k]) == Took(x, Taken(x, t, order), k)
  {
    hide Took;
    assert (order + [k])[..|order|] == order;
  }

  lemma HasAllMeans(order: seq<string>, batch: map<string, int>)
    requires HasAll(order, batch.Keys)
    ensures forall k :: k in order <==> k in batch
  {}

  lemma NotQueued(x: Input, t0: Table, order: seq<string>, k: string, done: set<string>)
    requires InBatch(x, order) && Once(order) && t0.promoted == {} && t0.queued == {}
    requires HasAll(order, done) && k !in done
    ensures k !in Taken(x, t0, order).queued
  {
    TakenQueue(x, t0, order);
    hide Taken;
  }

  // What a batch does to the queue:

  predicate QueueOk(x: Input, t0: Table, t: Table) {
    && t.queued <= t.promoted
    && t.created == t0.created + Part(x.batch, t.queued)
    && |t.created| <= Max(|t0.created|, x.config.maxCreateTagsPerIteration)
    && (t.promoted != t.queued ==> |t.created| >= x.config.maxCreateTagsPerIteration)
  }

  lemma TookQueue(x: Input, t0: Table, t: Table, k: string)
    requires k in x.batch && k !in t.promoted && QueueOk(x, t0, t)
    ensures QueueOk(x, t0, Took(x, t, k)) && Took(x, t, k).promoted <= t.promoted + {k}
  {
    hide Turned;
    PartMore(t0.created, x.batch, t.queued, k);
  }

  lemma NoPart(before: map<string, int>, batch: map<string, int>)
    ensures before + Part(batch, {}) == before
  {}

  lemma PartMore(before: map<string, int>, batch: map<string, int>, queued: set<string>, k: string)
    requires k in batch
    ensures before + Part(batch, queued + {k}) == (before + Part(batch, queued))[k := batch[k]]
  {}

  lemma QueueAtFirst(x: Input, t: Table)
    requires t.promoted == {} && t.queued == {}
    ensures QueueOk(x, t, t)
  {
    NoPart(t.created, x.batch);
  }

  lemma {:induction false} TakenQueueOk(x: Input, t0: Table, order: seq<string>)
    requires InBatch(x, order) && Once(order) && t0.promoted == {} && t0.queued == {}
    ensures QueueOk(x, t0, Taken(x, t0, order)) && forall k | k in Taken(x, t0, order).promoted :: k in order
  {
    hide Took, QueueOk;
    if order == [] {
      QueueAtFirst(x, t0);
    } else {
      var p, k := order[..|order| - 1], order[|order| - 1];
      TakenQueueOk(x, t0, p);
      TookQueue(x, t0, Taken(x, t0, p), k);
      assert k !in p;
    }
  }

  /** Exactly the queued strings come to the queue, only promoted ones, and each of those unless the queue is full. */
  lemma TakenQueue(x: Input, t0: Table, order: seq<string>)
    requires InBatch(x, order) && Once(order) && t0.promoted == {} && t0.queued == {}
    ensures var t := Taken(x, t0, order);
            && t.queued <= t.promoted && (forall k | k in t.promoted :: k in order)
            && t.created == t0.created + Part(x.batch, t.queued)
            && |t.created| <= Max(|t0.created|, x.config.maxCreateTagsPerIteration)
            && (t.promoted != t.queued ==> |t.created| >= x.config.maxCreateTagsPerIteration)
  {
    hide Taken, Part, Once;
    TakenQueueOk(x, t0, order);
  }

  // And to one string of the table:

  lemma ThinnedNone(config: Config, now: int, log2: nat, m: map<string, UnknownTag>, rounds: seq<Dice>)
    ensures RoundsTaken(config, now, log2, m, rounds) == 0 ==>
              Thinned(config, now, log2, m, rounds) == m && (rounds == [] || !TooFull(config, m))
  {}

  lemma TurnedOther(config: Config, time: int, k: string, total: int, draw: nat, rounds: seq<Dice>,
                    log2: nat, tags: map<string, UnknownTag>, j: string)
    requires j != k
    ensures var c := Turned(config, time, k, total, draw, rounds, log2, tags);
            && c.log2 >= log2 && (j in c.tags ==> j in tags && c.tags[j] == tags[j])
            && (c.log2 == log2 && j in tags ==> j in c.tags)
  {
    ThinnedNone(config, time, log2, tags, rounds);
    ThinnedIsExact(config, time, log2, tags, rounds, j);
    hide Thinned, RoundsTaken, TooFull, Pow2, Seen, Deserves;
  }

  lemma TurnedSelf(config: Config, time: int, k: string, total: int, draw: nat, rounds: seq<Dice>,
                   log2: nat, tags: map<string, UnknownTag>)
    ensures var c := Turned(config, time, k, total, draw, rounds, log2, tags);
            && c.log2 >= log2
            && (k in tags ==>
                  var now := Seen(tags[k], Sighting(time, total));
                  && c.log2 == log2 && (c.promoted <==> Deserves(config, now))
                  && (k in c.tags <==> !c.promoted) && (k in c.tags ==> c.tags[k] == now))
            && (k !in tags ==>
                  && !c.promoted
                  && (k in c.tags ==> c.tags[k] == UnknownTag(time, 1, total) && !Lost(total, draw, log2))
                  && (c.log2 == log2 && rounds != [] && !Lost(total, draw, log2) ==> k in c.tags))
  {
    ThinnedNone(config, time, log2, tags, rounds);
    ThinnedIsExact(config, time, log2, tags, rounds, k);
    hide Thinned, RoundsTaken, Pow2, Seen, Deserves, Lost;
  }

  /** What the call has made of string `k` when it had its turn, or not yet. */
  ghost predicate Turnout(x: Input, t0: Table, t: Table, k: string, turn: bool) {
    && t.log2 >= t0.log2
    && (turn ==> k in x.batch)
    && var deserves := turn && k in t0.tags && Deserves(x.config, Seen(t0.tags[k], Sighting(x.time, x.batch[k])));
    && (k in t.promoted ==> deserves && k !in t.tags)
    && (k in t.tags ==>
          if !turn then k in t0.tags && t.tags[k] == t0.tags[k]
          else
            || (k in t0.tags && !deserves && t.tags[k] == Seen(t0.tags[k], Sighting(x.time, x.batch[k])))
            || (t.tags[k] == UnknownTag(x.time, 1, x.batch[k]) && (k in t0.tags ==> t.log2 > t0.log2)))
    && (t.log2 == t0.log2 ==>
          && (k in t0.tags ==> if deserves then k in t.promoted else k in t.tags)
          && (turn && k !in t0.tags && k in t.tags ==> !Lost(x.batch[k], x.draw(k), t0.log2))
          && (turn && k !in t0.tags && x.rounds(k) != [] && !Lost(x.batch[k], x.draw(k), t0.log2) ==> k in t.tags))
  }

  lemma TookSelf(x: Input, t0: Table, t: Table, k: string)
    requires k in x.batch && k !in t.promoted && Turnout(x, t0, t, k, false)
    ensures Turnout(x, t0, Took(x, t, k), k, true)
  {
    TurnedSelf(x.config, x.time, k, x.batch[k], x.draw(k), x.rounds(k), t.log2, t.tags);
    hide Turned, Seen, Deserves, Lost;
  }

  lemma TookOther(x: Input, t0: Table, t: Table, j: string, k: string, turn: bool)
    requires j in x.batch && j != k && Turnout(x, t0, t, k, turn)
    ensures Turnout(x, t0, Took(x, t, j), k, turn)
  {
    TurnedOther(x.config, x.time, j, x.batch[j], x.draw(j), x.rounds(j), t.log2, t.tags, k);
    hide Turned, Seen, Deserves, Lost;
  }

  /** What becomes of one string, whatever the order: one that deserves it by its history is promoted, and
      leaves the table; another one of the batch is seen once more, or comes in if it wins its draw;
      and the rest stays as it is. Only when the sample factor was raised, which throws out the
      losers of the throws, can a string be missing, or begin anew. */
  lemma {:induction false} TakenString(x: Input, t0: Table, order: seq<string>, k: string)
    requires InBatch(x, order) && Once(order) && t0.promoted == {} && t0.queued == {}
    ensures Turnout(x, t0, Taken(x, t0, order), k, k in order)
  {
    hide Took, Turnout;
    if order == [] {
      NoTurn(x, t0, k);
    } else {
      var p, j := order[..|order| - 1], order[|order| - 1];
      TakenString(x, t0, p, k);
      TakenQueue(x, t0, p);
      if j == k {
        TookSelf(x, t0, Taken(x, t0, p), k);
      } else {
        TookOther(x, t0, Taken(x, t0, p), j, k, k in p);
      }
    }
  }

  lemma NoTurn(x: Input, t0: Table, k: string)
    requires t0.promoted == {}
    ensures Turnout(x, t0, t0, k, false)
  {}

  lemma TookShows(x: Input, t: Table, k: string)
    requires k in x.batch
    ensures var c, n := TurnOf(x, t, k), Took(x, t, k);
            var queues := c.promoted && |t.created| < x.config.maxCreateTagsPerIteration;
            && n.log2 == c.log2 && n.tags == c.tags
            && n.created == (if queues then t.created[k := x.batch[k]] else t.created)
            && n.queued == (if queues then t.queued + {k} else t.queued)
  {}

  /** Promoted strings deserve it by their histories. */
  lemma TakenHistories(x: Input, t0: Table, order: seq<string>, m: map<string, UnknownTag>,
                       history: map<string, seq<Sighting>>)
    requires InBatch(x, order) && Once(order) && t0.promoted == {} && t0.queued == {}
    requires Remembers(m, history) && forall k | k in t0.tags :: k in m && m[k] == t0.tags[k]
    ensures forall k | k in Taken(x, t0, order).promoted ::
              && k in x.batch && k in history && history[k] != []
              && Deserves(x.config, Entry(history[k] + [Sighting(x.time, x.batch[k])]))
              && k !in Taken(x, t0, order).tags
  {
    hide Entry, Deserves, Took, Taken, Once, Seen;
    var t := Taken(x, t0, order);
    forall k | k in t.promoted
      ensures k in x.batch && k in history && history[k] != [] && k !in t.tags
      ensures Deserves(x.config, Entry(history[k] + [Sighting(x.time, x.batch[k])]))
    {
      TakenString(x, t0, order, k);
      SeenAgain(history[k], Sighting(x.time, x.batch[k]));
    }
  }

  /** The sightings of a string in the table go on from what they were, or begin anew. */
  ghost predicate Continued(k: string, before: map<string, seq<Sighting>>, history: map<string, seq<Sighting>>,
                            batch: map<string, int>, time: int, done: set<string>)
  {
    && k in history
    && if k in done && k in batch then
         var s := Sighting(time, batch[k]);
         history[k] == [s] || (k in before && history[k] == before[k] + [s])
       else k in before && history[k] == before[k]
  }

  ghost predicate AllContinued(m: map<string, UnknownTag>, before: map<string, seq<Sighting>>,
                               history: map<string, seq<Sighting>>, batch: map<string, int>, time: int,
                               done: set<string>)
  {
    forall k | k in m :: Continued(k, before, history, batch, time, done)
  }

  lemma ContinuedNone(m: map<string, UnknownTag>, before: map<string, seq<Sighting>>,
                      history: map<string, seq<Sighting>>, batch: map<string, int>, time: int)
    requires forall j | j in m :: j in history && j in before && history[j] == before[j]
    ensures AllContinued(m, before, history, batch, time, {})
  {}

  lemma ContinuedMore(had: map<string, UnknownTag>, m: map<string, UnknownTag>, before: map<string, seq<Sighting>>,
                      mid: map<string, seq<Sighting>>, history: map<string, seq<Sighting>>,
                      batch: map<string, int>, time: int, done: set<string>, k: string)
    requires AllContinued(had, before, mid, batch, time, done) && k in batch && k !in done
    requires forall j | j in m && j != k :: j in had && j in history && j in mid && history[j] == mid[j]
    requires k in m ==>
      && k in history
      && (history[k] == [Sighting(time, batch[k])]
          || (k in had && k in mid && history[k] == mid[k] + [Sighting(time, batch[k])]))
    ensures AllContinued(m, before, history, batch, time, done + {k})
  {
    assert k in had ==> Continued(k, before, mid, batch, time, done);
    forall j | j in m && j != k ensures Continued(j, before, history, batch, time, done + {k}) {
      assert Continued(j, before, mid, batch, time, done);
    }
  }

  class TagsMapper {
    var config: Config
    var sampleFactorLog2: nat
    var unknownTags: map<string, UnknownTag>
    var sumHits: int
    var sumTotal: int
    var sumTime: int
    var sfReduceTime: int
    var createTags: map<string, int>
    ghost var history: map<string, seq<Sighting>> // sightings since the last admission

    ghost predicate Valid()
      reads this
    {
      SumsMatch(unknownTags, sumHits, sumTotal, sumTime) && Remembers(unknownTags, history)
    }

    constructor (config: Config)
      ensures Valid() && unknownTags == map[] && createTags == map[] && this.config == config
      ensures sampleFactorLog2 == 0 && sfReduceTime == 0
    {
      this.config := config;
      sampleFactorLog2, unknownTags, sumHits, sumTotal, sumTime, sfReduceTime, createTags, history :=
        0, map[], 0, 0, 0, 0, map[], map[];
      new;
      assert Hits(map[]) == map[] && Totals(map[]) == map[] && Times(map[]) == map[];
    }

    method Remove(k: string)
      requires Valid() && k in unknownTags
      modifies this`unknownTags, this`sumHits, this`sumTotal, this`sumTime, this`history
      ensures Valid() && unknownTags == old(unknownTags) - {k} && history == old(history) - {k}
    {
      hide Sum;
      SumsLess(unknownTags, k);
      RemembersLess(unknownTags, history, k);
      var v := unknownTags[k];
      sumHits, sumTotal, sumTime := sumHits - v.hits, sumTotal - v.total, sumTime - v.time;
      unknownTags := unknownTags - {k};
      history := history - {k};
    }

    /** Doubles the sample factor and throws the dice for every entry. */
    method Resample(time: int, dice: Dice)
      requires Valid()
      modifies this
      ensures Valid() && sampleFactorLog2 == old(sampleFactorLog2) + 1
      ensures unknownTags == Sampled(config, time, Pow2(sampleFactorLog2), dice, old(unknownTags))
      ensures forall k | k in unknownTags :: k in old(history) && history[k] == old(history)[k]
      ensures config == old(config) && createTags == old(createTags) && sfReduceTime == old(sfReduceTime)
    {
      hide Sum, Entry, SumsMatch, Remembers;
      RemembersKeys(unknownTags, history);
      sampleFactorLog2 := sampleFactorLog2 + 1;
      var sf := Pow2(sampleFactorLog2);
      var todo := unknownTags.Keys;
      ghost var was := unknownTags;
      SamplingEnds(config, time, sf, dice, was);
      hide Sampling, Sampled, Survives, Pow2;
      while todo != {}
        modifies this`unknownTags, this`sumHits, this`sumTotal, this`sumTime, this`history
        invariant Valid() && todo <= was.Keys && unknownTags == Sampling(config, time, sf, dice, was, todo)
        invariant forall k | k in unknownTags :: k in history && k in old(history) && history[k] == old(history)[k]
        decreases todo
      {
        var k :| k in todo;
        SamplingStep(config, time, sf, dice, was, todo, k);
        todo := todo - {k};
        var v := unknownTags[k];
        if time >= v.time + config.keepTime {
          Remove(k);
        } else if v.total >= sf || v.total > dice(k) % sf {
        } else {
          Remove(k);
        }
      }
    }

    /** Sees a string of the table once more, or admits a new one. The result says whether the string
        is promoted. `rounds` are the dice of the resamplings that make room; when they run out
        before there is room the call is `stuck` and admits nothing. */
    method AddUnknownTagLocked(time: int, k: string, total: int, draw: nat, rounds: seq<Dice>)
      returns (promoted: bool, ghost stuck: bool)
      requires Valid()
      modifies this
      ensures Valid()
      ensures var s := Sighting(time, total);
        if k in old(unknownTags) then
          var h := old(history)[k] + [s];
          && (promoted <==> Deserves(config, Entry(h))) && !stuck && sampleFactorLog2 == old(sampleFactorLog2)
          && unknownTags == (if promoted then old(unknownTags) - {k} else old(unknownTags)[k := Entry(h)])
          && history == (if promoted then old(history) - {k} else old(history)[k := h])
        else
          var sf := Pow2(old(sampleFactorLog2));
          && !promoted
          && if total < sf && total <= draw % sf then
               unknownTags == old(unknownTags) && !stuck && sampleFactorLog2 == old(sampleFactorLog2)
             else
               var left := Thinned(config, time, old(sampleFactorLog2), old(unknownTags), rounds);
               && (stuck <==> TooFull(config, left))
               && sampleFactorLog2 == old(sampleFactorLog2) +
                  RoundsTaken(config, time, old(sampleFactorLog2), old(unknownTags), rounds)
               && unknownTags == (if stuck then left else left[k := UnknownTag(time, 1, total)])
               && (!stuck ==> history[k] == [s] && |unknownTags| <= Max(2, config.maxUnknownTagsToKeep))
      ensures forall j | j in unknownTags && j != k ::
                j in old(unknownTags) && j in old(history) && history[j] == old(history)[j]
      ensures config == old(config) && createTags == old(createTags) && sfReduceTime == old(sfReduceTime)
    {
      hide Sum, Entry, SumsMatch, Remembers, Pow2, Thinned, RoundsTaken;
      promoted, stuck := false, false;
      RemembersKeys(unknownTags, history);
      if k in unknownTags {
        promoted := SeeAgain(time, k, total);
        return;
      }
      var sf := Pow2(sampleFactorLog2);
      if total < sf && total <= draw % sf {
        return;
      }
      stuck := Admit(time, k, total, rounds);
    }

    method SeeAgain(time: int, k: string, total: int) returns (promoted: bool)
      requires Valid() && k in unknownTags && unknownTags.Keys == history.Keys
      modifies this`unknownTags, this`sumHits, this`sumTotal, this`sumTime, this`history
      ensures var h := old(history)[k] + [Sighting(time, total)];
        && Valid() && (promoted <==> Deserves(config, Entry(h)))
        && unknownTags == (if promoted then old(unknownTags) - {k} else old(unknownTags)[k := Entry(h)])
        && history == (if promoted then old(history) - {k} else old(history)[k := h])
    {
      hide Sum, Entry, SumsMatch, Remembers;
      ghost var h := history[k] + [Sighting(time, total)];
      RemembersEntry(unknownTags, history, k);
      SeenAgain(history[k], Sighting(time, total));
      var c := unknownTags[k];
      Remove(k);
      c := c.(total := c.total + total);
      if time > c.time {
        c := c.(time := time, hits := c.hits + 1);
      }
      assert c == Entry(h);
      if c.hits > config.tagHitsToCreate && c.total > config.tagTotalToCreate {
        return true;
      }
      Insert(k, c, h);
      return false;
    }

    method Admit(time: int, k: string, total: int, rounds: seq<Dice>) returns (ghost stuck: bool)
      requires Valid() && k !in unknownTags && unknownTags.Keys == history.Keys
      modifies this
      ensures Valid() && config == old(config) && createTags == old(createTags) && sfReduceTime == old(sfReduceTime)
      ensures var left := Thinned(config, time, old(sampleFactorLog2), old(unknownTags), rounds);
        && (stuck <==> TooFull(config, left))
        && sampleFactorLog2 == old(sampleFactorLog2) +
           RoundsTaken(config, time, old(sampleFactorLog2), old(unknownTags), rounds)
        && unknownTags == (if stuck then left else left[k := UnknownTag(time, 1, total)])
      ensures !stuck ==>
        && k in history && history[k] == [Sighting(time, total)]
        && |unknownTags| <= Max(2, config.maxUnknownTagsToKeep)
      ensures forall j | j in unknownTags && j != k ::
                j in old(unknownTags) && j in old(history) && j in history && history[j] == old(history)[j]
    {
      hide Sum, Entry, SumsMatch, Remembers, Thinned, RoundsTaken;
      var full := MakeRoom(time, rounds);
      if full {
        return true;
      }
      OneSighting(Sighting(time, total));
      Insert(k, UnknownTag(time, 1, total), [Sighting(time, total)]);
      return false;
    }

    method Insert(k: string, c: UnknownTag, ghost h: seq<Sighting>)
      requires Valid() && k !in unknownTags && h != [] && c == Entry(h)
      modifies this`unknownTags, this`sumHits, this`sumTotal, this`sumTime, this`history
      ensures Valid() && unknownTags == old(unknownTags)[k := c] && history == old(history)[k := h]
    {
      hide Sum, Entry;
      SumsMore(unknownTags, k, c);
      RemembersMore(unknownTags, history, k, h);
      sumHits, sumTotal, sumTime := sumHits + c.hits, sumTotal + c.total, sumTime + c.time;
      unknownTags := unknownTags[k := c];
      history := history[k := h];
    }

    /** Resamples until there is room for one more string. */
    method MakeRoom(time: int, rounds: seq<Dice>) returns (full: bool)
      requires Valid()
      modifies this
      ensures Valid() && config == old(config) && createTags == old(createTags) && sfReduceTime == old(sfReduceTime)
      ensures unknownTags == Thinned(config, time, old(sampleFactorLog2), old(unknownTags), rounds)
      ensures sampleFactorLog2 == old(sampleFactorLog2) +
              RoundsTaken(config, time, old(sampleFactorLog2), old(unknownTags), rounds)
      ensures full <==> TooFull(config, unknownTags)
      ensures unknownTags.Keys <= old(unknownTags).Keys
      ensures forall j | j in unknownTags :: j in history && j in old(history) && history[j] == old(history)[j]
    {
      hide Sum, Entry, SumsMatch, Remembers, Sampled, Pow2, Thinned, RoundsTaken, Untouched, SameEnd;
      RemembersKeys(unknownTags, history);
      AllUntouched(unknownTags, history);
      ghost var log2, m := sampleFactorLog2, unknownTags;
      var i := 0;
      StartsAlike(config, time, log2, m, rounds);
      while i < |rounds| && |unknownTags| > 1 && |unknownTags| >= config.maxUnknownTagsToKeep
        invariant 0 <= i <= |rounds| && unknownTags.Keys <= m.Keys
        invariant Valid() && config == old(config) && createTags == old(createTags)
        invariant sfReduceTime == old(sfReduceTime)
        invariant SameEnd(config, time, log2, m, rounds, sampleFactorLog2, unknownTags, rounds[i..])
        invariant Untouched(unknownTags, old(history), history, m.Keys)
      {
        ghost var log, now, mid := sampleFactorLog2, unknownTags, history;
        Resample(time, rounds[i]);
        RemembersKeys(unknownTags, history);
        SampledAlike(config, time, log2, m, rounds, log, now, i);
        UntouchedStill(now, unknownTags, old(history), mid, history, m.Keys);
        i := i + 1;
      }
      EndsAlike(config, time, log2, m, rounds, sampleFactorLog2, unknownTags, rounds[i..]);
      UntouchedMeans(unknownTags, old(history), history, m.Keys);
      full := |unknownTags| > 1 && |unknownTags| >= config.maxUnknownTagsToKeep;
    }

    /** Forgets the stale ones among the strings it looks at, which are so many as the bound allows. */
    method DropStale(time: int, batchSize: nat) returns (ghost looked: set<string>)
      requires Valid()
      modifies this`unknownTags, this`sumHits, this`sumTotal, this`sumTime, this`history
      ensures Valid() && looked <= old(unknownTags).Keys
      ensures |looked| == Min(|old(unknownTags)|, 129 + 4 * batchSize)
      ensures unknownTags == WithoutStale(config, time, old(unknownTags), looked)
      ensures forall j | j in unknownTags :: j in history && j in old(history) && history[j] == old(history)[j]
    {
      hide Sum, Entry, SumsMatch, Remembers;
      RemembersKeys(unknownTags, history);
      var todo := unknownTags.Keys;
      var numIter := 0;
      ghost var was := unknownTags;
      looked := {};
      KeysCount(was);
      hide WithoutStale;
      LookedNone(config, time, was);
      while todo != {}
        modifies this`unknownTags, this`sumHits, this`sumTotal, this`sumTime, this`history
        invariant Valid() && looked == was.Keys - todo && todo <= was.Keys
        invariant numIter == |looked| && |todo| + |looked| == |was| && numIter <= 128 + 4 * batchSize
        invariant unknownTags == WithoutStale(config, time, was, looked)
        invariant forall j | j in unknownTags :: j in history && j in old(history) && history[j] == old(history)[j]
        decreases todo
      {
        var k :| k in todo;
        LookedMore(config, time, was, looked, k);
        todo, looked := todo - {k}, looked + {k};
        if time >= unknownTags[k].time + config.keepTime {
          Remove(k);
        }
        numIter := numIter + 1;
        if numIter > 128 + 4 * batchSize {
          return;
        }
      }
    }

    /** Takes in the strings one insert has seen, in some order: first the stale ones among the strings that
        were `looked` at go and the sample factor may be lowered, then one string after another is
        seen. A promoted string leaves the table, and is queued for creation unless the queue is full. */
    method AddUnknownTags(batch: map<string, int>, time: int, draw: Dice, rounds: string -> seq<Dice>)
      returns (createMapAdd: nat, ghost looked: set<string>, ghost order: seq<string>, ghost end: Table)
      requires Valid()
      modifies this
      ensures Valid() && config == old(config)
      ensures looked <= old(unknownTags).Keys && |looked| == Min(|old(unknownTags)|, 129 + 4 * |batch|)
      ensures Once(order) && (forall k :: k in order <==> k in batch)
      ensures var m := WithoutStale(config, time, old(unknownTags), looked);
              var lowers := Lowers(config, time, old(sampleFactorLog2), m, old(sfReduceTime));
              var log2 := if lowers then old(sampleFactorLog2) - 1 else old(sampleFactorLog2);
              && end == Taken(Input(config, time, batch, draw, rounds), Fresh(log2, m, old(createTags)), order)
              && sfReduceTime == if lowers || HalfFull(config, m) then time else old(sfReduceTime)
      ensures sampleFactorLog2 == end.log2 && unknownTags == end.tags && createTags == end.created
      ensures createMapAdd == |end.queued| && end.queued <= end.promoted <= batch.Keys
      ensures createTags == old(createTags) + Part(batch, end.queued)
      ensures |createTags| <= Max(|old(createTags)|, config.maxCreateTagsPerIteration)
      ensures end.promoted != end.queued ==> |createTags| >= config.maxCreateTagsPerIteration
      ensures forall k | k in end.promoted ::
                && k in old(history) && Deserves(config, Entry(old(history)[k] + [Sighting(time, batch[k])]))
                && k !in unknownTags
      ensures AllContinued(unknownTags, old(history), history, batch, time, batch.Keys)
    {
      hide Sum, Entry, SumsMatch, Remembers, Deserves, Pow2, Took, Taken, Once, AllContinued, InBatch;
      hide Lowers, HalfFull, WithoutStale, HasAll, Part;
      looked := Refresh(time, |batch|);
      StaleLess(config, time, old(unknownTags), looked);
      ghost var x, start := Input(config, time, batch, draw, rounds), Fresh(sampleFactorLog2, unknownTags, createTags);
      ContinuedNone(unknownTags, old(history), history, batch, time);
      createMapAdd, order, end := AddAll(batch, time, draw, rounds, x, start, old(history));
      TakenQueue(x, start, order);
      TakenHistories(x, start, order, old(unknownTags), old(history));
      HasAllMeans(order, batch);
    }

    /** The strings of `order` have had their turns. */
    ghost predicate Underway(x: Input, start: Table, order: seq<string>, end: Table,
                             before: map<string, seq<Sighting>>, done: set<string>)
      reads this
    {
      && Valid() && config == x.config && Once(order) && HasAll(order, done) && InBatch(x, order)
      && end == Taken(x, start, order) && Shows(end, sampleFactorLog2, unknownTags, createTags)
      && AllContinued(unknownTags, before, history, x.batch, x.time, done)
    }

    method AddAll(batch: map<string, int>, time: int, draw: Dice, rounds: string -> seq<Dice>,
                  ghost x: Input, ghost start: Table, ghost before: map<string, seq<Sighting>>)
      returns (createMapAdd: nat, ghost order: seq<string>, ghost end: Table)
      requires Valid() && x == Input(config, time, batch, draw, rounds)
      requires start == Fresh(sampleFactorLog2, unknownTags, createTags)
      requires AllContinued(unknownTags, before, history, batch, time, {})
      modifies this
      ensures Underway(x, start, order, end, before, batch.Keys) && sfReduceTime == old(sfReduceTime)
      ensures createMapAdd == |end.queued|
    {
      hide Sum, Entry, SumsMatch, Remembers, Took, Taken, Once, AllContinued, HasAll, InBatch;
      createMapAdd, order, end := 0, [], start;
      var todo := batch.Keys;
      TakenNone(x, start);
      assert batch.Keys - todo == {};
      while todo != {}
        invariant Underway(x, start, order, end, before, batch.Keys - todo) && todo <= batch.Keys
        invariant sfReduceTime == old(sfReduceTime) && createMapAdd == |end.queued|
        decreases todo
      {
        var k :| k in todo;
        ghost var done, last := batch.Keys - todo, order;
        assert done + {k} == batch.Keys - (todo - {k});
        todo := todo - {k};
        var added;
        added, end := AddOne(time, k, batch[k], draw(k), rounds(k), x, start, last, end, before, done);
        order := last + [k];
        if added {
          createMapAdd := createMapAdd + 1;
        }
      }
      assert batch.Keys - todo == batch.Keys;
    }

    /** The turn of one string. */
    method AddOne(time: int, k: string, total: int, draw: nat, rounds: seq<Dice>, ghost x: Input, ghost start: Table,
                  ghost order: seq<string>, ghost end: Table, ghost before: map<string, seq<Sighting>>,
                  ghost done: set<string>)
      returns (added: bool, ghost next: Table)
      requires Underway(x, start, order, end, before, done) && k in x.batch && k !in done
      requires start.promoted == {} && start.queued == {}
      requires time == x.time && total == x.batch[k] && draw == x.draw(k) && rounds == x.rounds(k)
      modifies this
      ensures Underway(x, start, order + [k], next, before, done + {k}) && sfReduceTime == old(sfReduceTime)
      ensures |next.queued| == |end.queued| + if added then 1 else 0
    {
      hide Sum, Entry, SumsMatch, Remembers, Deserves, Took, Taken, Once, AllContinued, HasAll, Turned, InBatch;
      ghost var had, was := unknownTags, history;
      TakenMore(x, start, order, k, done);
      NotQueued(x, start, order, k, done);
      TookShows(x, end, k);
      next := Took(x, end, k);
      added := AddAndQueue(time, k, total, draw, rounds);
      ContinuedMore(had, unknownTags, before, was, history, x.batch, time, done, k);
    }

    /** Drops what is stale and lowers the sample factor after a long time with few strings. */
    method Refresh(time: int, batchSize: nat) returns (ghost looked: set<string>)
      requires Valid()
      modifies this
      ensures Valid() && config == old(config) && createTags == old(createTags)
      ensures looked <= old(unknownTags).Keys && |looked| == Min(|old(unknownTags)|, 129 + 4 * batchSize)
      ensures unknownTags == WithoutStale(config, time, old(unknownTags), looked)
      ensures var lowers := Lowers(config, time, old(sampleFactorLog2), unknownTags, old(sfReduceTime));
              && sampleFactorLog2 == (if lowers then old(sampleFactorLog2) - 1 else old(sampleFactorLog2))
              && sfReduceTime == if lowers || HalfFull(config, unknownTags) then time else old(sfReduceTime)
      ensures forall j | j in unknownTags :: j in history && j in old(history) && history[j] == old(history)[j]
    {
      hide Sum, Entry, SumsMatch, Remembers, Pow2, WithoutStale;
      looked := DropStale(time, batchSize);
      if |unknownTags| >= config.maxUnknownTagsToKeep / 2 {
        sfReduceTime := time;
      }
      if sampleFactorLog2 > 0 && |unknownTags| < config.maxUnknownTagsToKeep / 2
         && time >= sfReduceTime + config.keepTime {
        sfReduceTime := time;
        sampleFactorLog2 := sampleFactorLog2 - 1;
      }
    }

    /** One string of a batch: seen, and queued for creation exactly when it is promoted and there is room. */
    method AddAndQueue(time: int, k: string, total: int, draw: nat, rounds: seq<Dice>) returns (added: bool)
      requires Valid()
      modifies this
      ensures Valid() && config == old(config) && sfReduceTime == old(sfReduceTime)
      ensures k in old(unknownTags) ==> k in old(history)
      ensures added <==>
                && k in old(unknownTags) && Deserves(config, Entry(old(history)[k] + [Sighting(time, total)]))
                && |old(createTags)| < config.maxCreateTagsPerIteration
      ensures createTags == if added then old(createTags)[k := total] else old(createTags)
      ensures var c := Turned(config, time, k, total, draw, rounds, old(sampleFactorLog2), old(unknownTags));
              sampleFactorLog2 == c.log2 && unknownTags == c.tags &&
              (added <==> c.promoted && |old(createTags)| < config.maxCreateTagsPerIteration)
      ensures forall j | j in unknownTags && j != k ::
                j in old(unknownTags) && j in history && j in old(history) && history[j] == old(history)[j]
      ensures k in unknownTags ==>
                && k in history
                && (history[k] == [Sighting(time, total)]
                    || (k in old(unknownTags) && k in old(history)
                        && history[k] == old(history)[k] + [Sighting(time, total)]))
    {
      hide Sum, Entry, SumsMatch, Remembers, Deserves, Pow2, Thinned, RoundsTaken, Seen;
      RemembersKeys(unknownTags, history);
      if k in unknownTags {
        RemembersEntry(unknownTags, history, k);
        SeenAgain(history[k], Sighting(time, total));
      }
      var promoted;
      ghost var stuck;
      ThinnedIsExact(config, time, sampleFactorLog2, unknownTags, rounds, k);
      promoted, stuck := AddUnknownTagLocked(time, k, total, draw, rounds);
      RemembersKeys(unknownTags, history);
      added := promoted && |createTags| < config.maxCreateTagsPerIteration;
      if added {
        createTags := createTags[k := total];
      }
    }

    method GetTagsToCreate() returns (tags: map<string, int>)
      requires Valid()
      modifies this`createTags
      ensures Valid() && tags == old(createTags) && createTags == map[]
    {
      tags := createTags;
      createTags := map[];
    }
  }

  /** What is left to do from here ends as what there was to do from the start. */
  ghost predicate SameEnd(config: Config, now: int, log0: nat, m0: map<string, UnknownTag>, all: seq<Dice>,
                          log2: nat, m: map<string, UnknownTag>, rounds: seq<Dice>)
  {
    && Thinned(config, now, log2, m, rounds) == Thinned(config, now, log0, m0, all)
    && log2 + RoundsTaken(config, now, log2, m, rounds) == log0 + RoundsTaken(config, now, log0, m0, all)
  }

  lemma StartsAlike(config: Config, now: int, log2: nat, m: map<string, UnknownTag>, rounds: seq<Dice>)
    ensures SameEnd(config, now, log2, m, rounds, log2, m, rounds[0..])
  {
    assert rounds[0..] == rounds;
  }

  lemma SampledAlike(config: Config, now: int, log0: nat, m0: map<string, UnknownTag>, all: seq<Dice>,
                     log2: nat, m: map<string, UnknownTag>, i: nat)
    requires i < |all| && TooFull(config, m) && SameEnd(config, now, log0, m0, all, log2, m, all[i..])
    ensures var next := Sampled(config, now, Pow2(log2 + 1), all[i], m);
            next.Keys <= m.Keys && SameEnd(config, now, log0, m0, all, log2 + 1, next, all[i + 1..])
  {
    assert all[i..][1..] == all[i + 1..];
    hide Pow2, Survives, TooFull;
  }

  lemma EndsAlike(config: Config, now: int, log0: nat, m0: map<string, UnknownTag>, all: seq<Dice>,
                  log2: nat, m: map<string, UnknownTag>, rounds: seq<Dice>)
    requires SameEnd(config, now, log0, m0, all, log2, m, rounds) && (rounds == [] || !TooFull(config, m))
    ensures m == Thinned(config, now, log0, m0, all) && log2 == log0 + RoundsTaken(config, now, log0, m0, all)
  {}

  lemma AllUntouched(m: map<string, UnknownTag>, history: map<string, seq<Sighting>>)
    requires m.Keys == history.Keys
    ensures Untouched(m, history, history, m.Keys)
  {}

  lemma UntouchedStill(had: map<string, UnknownTag>, m: map<string, UnknownTag>, before: map<string, seq<Sighting>>,
                       mid: map<string, seq<Sighting>>, history: map<string, seq<Sighting>>, all: set<string>)
    requires Untouched(had, before, mid, all) && m.Keys <= had.Keys && m.Keys == history.Keys
    requires forall k | k in m :: k in mid && history[k] == mid[k]
    ensures Untouched(m, before, history, all)
  {}

  lemma UntouchedMeans(m: map<string, UnknownTag>, before: map<string, seq<Sighting>>,
                       history: map<string, seq<Sighting>>, all: set<string>)
    requires Untouched(m, before, history, all) && m.Keys <= all
    ensures forall j | j in m :: j in history && j in before && history[j] == before[j]
  {}

  function Min(a: int, b: int): int { if a < b then a else b }

  function Part(batch: map<string, int>, queued: set<string>): map<string, int> {
    map k | k in batch && k in queued :: batch[k]
  }

  /** What is left when the stale ones among the strings looked at are forgotten. */
  function WithoutStale(config: Config, now: int, m: map<string, UnknownTag>, looked: set<string>)
    : map<string, UnknownTag>
  {
    map k | k in m && !(k in looked && Stale(config, now, m[k])) :: m[k]
  }

  lemma StaleLess(config: Config, now: int, m: map<string, UnknownTag>, looked: set<string>)
    ensures var left := WithoutStale(config, now, m, looked);
            forall k | k in left :: k in m && left[k] == m[k]
  {}

  lemma LookedNone(config: Config, now: int, m: map<string, UnknownTag>)
    ensures WithoutStale(config, now, m, {}) == m
  {}

  lemma LookedMore(config: Config, now: int, m: map<string, UnknownTag>, looked: set<string>, k: string)
    requires k in m && k !in looked
    ensures var left := WithoutStale(config, now, m, looked);
            && k in left && left[k] == m[k] && left.Keys <= m.Keys
            && WithoutStale(config, now, m, looked + {k}) == if Stale(config, now, m[k]) then left - {k} else left
  {}

  lemma KeysCount(m: map<string, UnknownTag>)
    ensures |m.Keys| == |m|
  {}

  /** The strings still to come have the history they had. */
  ghost predicate Untouched(m: map<string, UnknownTag>, before: map<string, seq<Sighting>>,
                            history: map<string, seq<Sighting>>, todo: set<string>)
  {
    forall j | j in m && j in todo :: j in history && j in before && history[j] == before[j]
  }

  lemma OneSighting(s: Sighting)
    ensures Entry([s]) == UnknownTag(s.time, 1, s.total)
  {}

  lemma RemembersEntry(m: map<string, UnknownTag>, history: map<string, seq<Sighting>>, k: string)
    requires Remembers(m, history) && k in m
    ensures k in history && history[k] != [] && m[k] == Entry(history[k])
  {}

  lemma RemembersKeys(m: map<string, UnknownTag>, history: map<string, seq<Sighting>>)
    requires Remembers(m, history)
    ensures m.Keys == history.Keys
  {}
}
