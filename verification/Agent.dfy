/** One shard of an agent as a system of interleaved steps: buckets travel through its channel, its
    recent senders, its historic queue, its historic senders and its eraser, with the disk behind. */
module Agent {
  import opened Records
  import opened Store
  import opened DiskState
  import opened HistoricQueue
  import opened Routing

  /** Where a sender's loop is with its bucket. */
  datatype Phase = Checking | Ready | Asked(q: Req)

  datatype Place =
    | Channel // on its way to a recent sender
    | Recent(phase: Phase)
    | Saving // about to be saved and queued
    | Queue
    | Historic(phase: Phase)
    | Erasing

  datatype Item = Item(cbd: BucketData, place: Place)

  datatype Payload = Payload(time: nat, data: seq<byte>, historic: bool)

  datatype Agent = Agent(
    disk: Store, // what the disk cache knows
    folder: Folder, // what a restart will find
    items: map<nat, Item>, // buckets in memory; the keys have no meaning
    next: nat,
    asked: map<Req, Payload>) // what every request carried

  // ---------- the invariant ----------

  predicate Loaded(p: Place) { p.Historic? && !p.phase.Checking? }

  predicate InFlight(p: Place) { (p.Recent? || p.Historic?) && p.phase.Asked? }

  predicate Sane(s: Agent, it: Item) {
    && 0 <= it.cbd.time < 0x1_0000_0000 && (it.cbd.id == 0 ==> it.cbd.data != [])
    && (it.cbd.id != 0 ==>
          && it.cbd.id in s.disk.known && s.disk.known[it.cbd.id].record.time == it.cbd.time
          && (it.cbd.data != [] || Loaded(it.place) ==> it.cbd.data == s.disk.known[it.cbd.id].record.body))
    && (it.place.Channel? || it.place.Recent? || it.place.Saving? ==> it.cbd.data != [])
    && (it.place.Recent? ==> !it.place.phase.Checking?)
    && (InFlight(it.place) ==>
          && it.place.phase.q in s.asked
          && s.asked[it.place.phase.q] == Payload(it.cbd.time, it.cbd.data, it.place.Historic?))
  }

  predicate AllSane(s: Agent) {
    forall t | t in s.items :: Sane(s, s.items[t])
  }

  /** No id has two holders. */
  predicate OneHolder(s: Agent) {
    forall t, u | t in s.items && u in s.items && t != u ::
      s.items[t].cbd.id == 0 || s.items[t].cbd.id != s.items[u].cbd.id
  }

  predicate Inv(s: Agent) {
    && AllSane(s) && OneHolder(s) && Numbered(s.disk) && Unique(s.disk)
    && forall t | t in s.items :: t < s.next
  }

  // ---------- the parts of steps ----------

  function Move(s: Agent, t: nat, it: Item): Agent {
    s.(items := s.items[t := it])
  }

  function Leave(s: Agent, t: nat): Agent {
    s.(items := s.items - {t})
  }

  /** How a deletion mark ends: the bytes of it that reach the disk, and the files deleted after it
      because nothing known or unread is left in them. */
  datatype Mark = Mark(written: nat, gone: set<string>)

  predicate MarkOk(s: Agent, t: nat, mark: Mark)
    requires t in s.items
  {
    mark.written <= 4 && Idle(Drop(s.disk, s.items[t].cbd.id), mark.gone)
  }

  function MarkedFolder(s: Agent, id: int, mark: Mark): Folder {
    if id in s.disk.known then Swept(Marked(s.folder, s.disk.known[id], mark.written), mark.gone) else s.folder
  }

  /** Erases a bucket from disk and forgets it; erasing one that was not saved does nothing. */
  function EraseItem(s: Agent, t: nat, mark: Mark): Agent
    requires t in s.items
  {
    var id := s.items[t].cbd.id;
    Leave(s, t).(disk := Drop(s.disk, id), folder := MarkedFolder(s, id, mark))
  }

  function Enter(s: Agent, cbd: BucketData, place: Place): Agent {
    s.(items := s.items[s.next := Item(cbd, place)], next := s.next + 1)
  }

  /** Queues a bucket: without its data when the memory limit is reached, not at all when it is then
      neither in memory nor on disk. */
  function Enqueue(s: Agent, t: nat, fits: bool): Agent
    requires t in s.items
  {
    var cbd := s.items[t].cbd;
    if fits then Move(s, t, Item(cbd, Queue))
    else if cbd.id == 0 then Leave(s, t)
    else Move(s, t, Item(cbd.(data := []), Queue))
  }

  /** How a look for one more unread bucket ends: so many are passed over, all in files that could not
      be read, and files are deleted in which nothing known or unread is left. */
  datatype TailScan = TailScan(skipped: nat, lost: set<string>, gone: set<string>)

  predicate ScanOk(s: Agent, scan: TailScan) {
    && scan.skipped <= |s.disk.tail| && Idle(TakeAfter(s.disk, scan.skipped), scan.gone)
    && forall e | e in s.disk.tail[..scan.skipped] :: e.file in scan.lost
  }

  /** One more bucket of the disk's tail is queued, if there is one. */
  function ReadTail(s: Agent, scan: TailScan): Agent
    requires scan.skipped <= |s.disk.tail|
  {
    var n := s.(disk := TakeAfter(s.disk, scan.skipped), folder := Swept(s.folder, scan.gone));
    if scan.skipped == |s.disk.tail| then n
    else Enter(n, BucketData(s.disk.last + 1, s.disk.tail[scan.skipped].record.time, []), Queue)
  }

  lemma MoveInv(s: Agent, t: nat, it: Item)
    requires Inv(s) && t in s.items && it.cbd.id == s.items[t].cbd.id && Sane(s, it)
    ensures Inv(Move(s, t, it))
  {
    hide Unique;
    var n := Move(s, t, it);
    forall u | u in n.items ensures Sane(n, n.items[u]) { assert u != t ==> Sane(s, s.items[u]); }
  }

  lemma LeaveInv(s: Agent, t: nat)
    requires Inv(s)
    ensures Inv(Leave(s, t))
  {
    hide Unique;
    var n := Leave(s, t);
    forall u | u in n.items ensures Sane(n, n.items[u]) { assert Sane(s, s.items[u]); }
  }

  lemma EraseItemInv(s: Agent, t: nat, mark: Mark)
    requires Inv(s) && t in s.items
    ensures Inv(EraseItem(s, t, mark))
  {
    DropUnique(s.disk, s.items[t].cbd.id);
    hide Unique;
    var n := EraseItem(s, t, mark);
    forall u | u in n.items ensures Sane(n, n.items[u]) { assert Sane(s, s.items[u]); }
  }

  lemma EnqueueInv(s: Agent, t: nat, fits: bool)
    requires Inv(s) && t in s.items && !InFlight(s.items[t].place)
    ensures Inv(Enqueue(s, t, fits))
  {
    assert Sane(s, s.items[t]);
    hide Inv;
    var cbd := s.items[t].cbd;
    if fits { MoveInv(s, t, Item(cbd, Queue)); }
    else if cbd.id == 0 { LeaveInv(s, t); }
    else { MoveInv(s, t, Item(cbd.(data := []), Queue)); }
  }

  lemma ReadTailInv(s: Agent, scan: TailScan)
    requires Inv(s) && scan.skipped <= |s.disk.tail|
    ensures Inv(ReadTail(s, scan))
  {
    TakeAfterUnique(s.disk, scan.skipped);
    hide Swept, Unique;
    var n := ReadTail(s, scan);
    forall u | u in n.items ensures Sane(n, n.items[u]) { assert u in s.items ==> Sane(s, s.items[u]); }
  }

  // ---------- the steps ----------

  /** How saving a bucket ends. A write that fails can still have left the whole record behind. */
  datatype Saved = SavedAs(entry: Entry) | LeftBehind(entry: Entry) | NotSaved

  datatype Step =
    | Flush(time: uint32, data: seq<byte>, toChannel: bool) // a second is over
    | Take(t: nat) // a recent sender takes a bucket from the channel
    | Put(t: nat, saved: Saved, gone: set<string>)
    | GiveUp(t: nat) // too old for the recent conveyor, or no live replica
    | Send(t: nat, q: Req)
    | Response(t: nat, discard: bool, mark: Mark) // an error counts as a response that does not discard
    | Append(t: nat, fits: bool)
    | Pop(t: nat, now: int, toEraser: bool, scan: TailScan)
    | Expire(t: nat, now: int, historicWindow: int, mark: Mark)
    | Read(t: nat, ok: bool, mark: Mark) // from disk, if the data is not in memory
    | Cancel(t: nat) // a historic sender stops, at shutdown
    | OverLimit(t: nat, mark: Mark) // the disk limit is exceeded
    | TailRead(scan: TailScan) // at start
    | Restart(tail: seq<Entry>)

  predicate OutOfWindow(time: int, now: int, historicWindow: int) {
    now >= historicWindow && time < now - historicWindow
  }

  /** The step erases the bucket of its holder. */
  predicate Erases(s: Agent, step: Step) {
    match step
    case Response(_, discard, _) => discard
    case Expire(_, _, _, _) => true
    case OverLimit(_, _) => true
    case Read(t, ok, _) => t in s.items && s.items[t].cbd.data == [] && !ok
    case _ => false
  }

  ghost predicate Enabled(s: Agent, step: Step) {
    && (Erases(s, step) ==> step.t in s.items && MarkOk(s, step.t, step.mark))
    && match step
       case Flush(_, data, _) => data != []
       case Take(t) => t in s.items && s.items[t].place.Channel?
       case Put(t, saved, gone) =>
         && t in s.items && (s.items[t].place.Saving? || s.items[t].place == Recent(Ready)) && s.items[t].cbd.id == 0
         && Idle(s.disk, gone) && (saved.SavedAs? ==> saved.entry !in OnDisk(s.disk))
         && (!saved.NotSaved? ==>
               saved.entry.record.time == s.items[t].cbd.time && saved.entry.record.body == s.items[t].cbd.data)
       case GiveUp(t) => t in s.items && (s.items[t].place == Recent(Ready) || s.items[t].place == Historic(Ready))
       case Send(t, q) =>
         && t in s.items && q !in s.asked
         && (s.items[t].place == Recent(Ready) || s.items[t].place == Historic(Ready))
       case Response(t, _, _) => t in s.items && InFlight(s.items[t].place)
       case Append(t, _) => t in s.items && (s.items[t].place.Saving? || s.items[t].place.Erasing?)
       case Pop(t, now, _, scan) =>
         && t in s.items && s.items[t].place.Queue? && !TooEarly(s.items[t].cbd.time, now) && ScanOk(s, scan)
         && forall u | u in s.items && s.items[u].place.Queue? :: s.items[t].cbd.time <= s.items[u].cbd.time
       case Expire(t, now, historicWindow, _) =>
         && t in s.items && (s.items[t].place == Historic(Checking) || s.items[t].place.Erasing?)
         && OutOfWindow(s.items[t].cbd.time, now, historicWindow)
       case Read(t, _, _) => t in s.items && s.items[t].place == Historic(Checking)
       case Cancel(t) => t in s.items && s.items[t].place.Historic?
       case OverLimit(t, _) => t in s.items && s.items[t].place.Erasing?
       case TailRead(scan) => ScanOk(s, scan)
       case Restart(tail) => (set e | e in tail) == s.folder.live && NoRepeats(tail)
  }

  function Next(s: Agent, step: Step): Agent
    requires Inv(s) && Enabled(s, step)
  {
    match step
    case Flush(time, data, toChannel) => Enter(s, BucketData(0, time, data), if toChannel then Channel else Saving)
    case Take(t) => Move(s, t, s.items[t].(place := Recent(Ready)))
    case Put(t, saved, gone) =>
      var swept := Swept(s.folder, gone);
      match saved {
        case NotSaved => s.(folder := swept)
        case LeftBehind(e) => s.(folder := Added(swept, e))
        case SavedAs(e) =>
          Move(s.(disk := Save(s.disk, e), folder := Added(swept, e)), t,
               s.items[t].(cbd := s.items[t].cbd.(id := s.disk.last + 1)))
      }
    case GiveUp(t) => GoBack(s, t)
    case Send(t, q) =>
      var it := s.items[t];
      assert Sane(s, it);
      Move(s.(asked := s.asked[q := Payload(it.cbd.time, it.cbd.data, it.place.Historic?)]), t,
           it.(place := it.place.(phase := Asked(q))))
    case Response(t, discard, mark) => if discard then EraseItem(s, t, mark) else GoBack(s, t)
    case Append(t, fits) => Enqueue(s, t, fits)
    case Pop(t, _, toEraser, scan) =>
      ReadTail(Move(s, t, s.items[t].(place := if toEraser then Erasing else Historic(Checking))), scan)
    case Expire(t, _, _, mark) => EraseItem(s, t, mark)
    case Read(t, ok, mark) =>
      var cbd := s.items[t].cbd;
      if cbd.data != [] then Move(s, t, Item(cbd, Historic(Ready)))
      else if !ok then EraseItem(s, t, mark)
      else
        assert Sane(s, s.items[t]);
        Move(s, t, Item(cbd.(data := s.disk.known[cbd.id].record.body), Historic(Ready)))
    case Cancel(t) => Leave(s, t)
    case OverLimit(t, mark) => EraseItem(s, t, mark)
    case TailRead(scan) => ReadTail(s, scan)
    case Restart(tail) => s.(disk := Store(map[], tail, 0), items := map[], next := 0)
  }

  /** A recent sender hands its bucket over to be saved; a historic one starts again with it. */
  function GoBack(s: Agent, t: nat): Agent
    requires t in s.items
  {
    Move(s, t, s.items[t].(place := if s.items[t].place.Recent? then Saving else Historic(Checking)))
  }

  lemma EnterInv(s: Agent, cbd: BucketData, place: Place)
    requires Inv(s) && cbd.id == 0 && cbd.data != [] && 0 <= cbd.time < 0x1_0000_0000
    requires place.Channel? || place.Saving?
    ensures Inv(Enter(s, cbd, place))
  {
    hide Unique;
    var n := Enter(s, cbd, place);
    forall u | u in n.items ensures Sane(n, n.items[u]) { assert u in s.items ==> Sane(s, s.items[u]); }
  }

  lemma PutInv(s: Agent, t: nat, e: Entry, gone: set<string>)
    requires Inv(s) && Enabled(s, Put(t, SavedAs(e), gone))
    ensures Inv(Next(s, Put(t, SavedAs(e), gone)))
  {
    SaveUnique(s.disk, e);
    hide Swept, Added, Idle, Unique, OnDisk;
    var n := Next(s, Put(t, SavedAs(e), gone));
    forall u | u in n.items ensures Sane(n, n.items[u]) { assert Sane(s, s.items[u]); }
  }

  lemma FolderInv(s: Agent, f: Folder)
    requires Inv(s)
    ensures Inv(s.(folder := f))
  {
    hide Unique;
    var n := s.(folder := f);
    forall u | u in n.items ensures Sane(n, n.items[u]) { assert Sane(s, s.items[u]); }
  }

  lemma SendInv(s: Agent, t: nat, q: Req)
    requires Inv(s) && Enabled(s, Send(t, q))
    ensures Inv(Next(s, Send(t, q)))
  {
    hide Unique;
    var n := Next(s, Send(t, q));
    forall u | u in n.items ensures Sane(n, n.items[u]) { assert Sane(s, s.items[u]); }
  }

  /** Every id a queue entry or a sender holds is known to the disk with the same second and bytes,
      and no id has two holders: every step keeps that. */
  lemma StepInv(s: Agent, step: Step)
    requires Inv(s) && Enabled(s, step)
    ensures Inv(Next(s, step))
  {
    if step.Put? && step.saved.SavedAs? { PutInv(s, step.t, step.saved.entry, step.gone); }
    else if step.Send? { SendInv(s, step.t, step.q); }
    else { OtherStepInv(s, step); }
  }

  lemma HoldersAreSane(s: Agent, t: nat)
    requires Inv(s) && t in s.items
    ensures Sane(s, s.items[t])
  {}

  predicate HasHolder(step: Step) {
    !step.Flush? && !step.TailRead? && !step.Restart?
  }

  lemma OtherStepInv(s: Agent, step: Step)
    requires Inv(s) && Enabled(s, step) && !(step.Put? && step.saved.SavedAs?) && !step.Send?
    ensures Inv(Next(s, step))
  {
    if HasHolder(step) { HoldersAreSane(s, step.t); }
    if step.Restart? { return; }
    hide Inv, MarkedFolder, Swept, Added, Idle, ReadTail, EraseItem, TakeAfter;
    match step
    case Flush(time, data, toChannel) => EnterInv(s, BucketData(0, time, data), if toChannel then Channel else Saving);
    case Take(t) => MoveInv(s, t, s.items[t].(place := Recent(Ready)));
    case Put(t, _, _) => FolderInv(s, Next(s, step).folder);
    case GiveUp(t) => GoBackInv(s, t);
    case Response(t, discard, mark) => if discard { EraseItemInv(s, t, mark); } else { GoBackInv(s, t); }
    case Append(t, fits) => EnqueueInv(s, t, fits);
    case Pop(t, _, toEraser, scan) =>
      var it := s.items[t].(place := if toEraser then Erasing else Historic(Checking));
      MoveInv(s, t, it);
      ReadTailInv(Move(s, t, it), scan);
    case Expire(t, _, _, mark) => EraseItemInv(s, t, mark);
    case Read(t, ok, mark) =>
      var cbd := s.items[t].cbd;
      if cbd.data != [] { MoveInv(s, t, Item(cbd, Historic(Ready))); }
      else if !ok { EraseItemInv(s, t, mark); }
      else { MoveInv(s, t, Item(cbd.(data := s.disk.known[cbd.id].record.body), Historic(Ready))); }
    case Cancel(t) => LeaveInv(s, t);
    case OverLimit(t, mark) => EraseItemInv(s, t, mark);
    case TailRead(scan) => ReadTailInv(s, scan);
  }

  lemma GoBackInv(s: Agent, t: nat)
    requires Inv(s) && t in s.items
    requires InFlight(s.items[t].place) || s.items[t].place == Recent(Ready) || s.items[t].place == Historic(Ready)
    ensures Inv(GoBack(s, t))
  {
    HoldersAreSane(s, t);
    MoveInv(s, t, s.items[t].(place := if s.items[t].place.Recent? then Saving else Historic(Checking)));
  }

  // ---------- what the agent promises ----------

  /** A sender that goes to disk for its data finds its id there, with its second: the errors for an
      unknown id and for a wrong second never reach it. */
  lemma ReadNeverMisses(s: Agent, t: nat)
    requires Inv(s) && t in s.items && s.items[t].place == Historic(Checking) && s.items[t].cbd.data == []
    ensures var cbd := s.items[t].cbd;
            cbd.id in s.disk.known && s.disk.known[cbd.id].record.time == cbd.time
  {
    assert Sane(s, s.items[t]);
  }

  /** What a bucket in memory stands for: its data, or what the disk has under its id. */
  function Content(s: Agent, cbd: BucketData): seq<byte> {
    if cbd.data != [] then cbd.data
    else if cbd.id in s.disk.known then s.disk.known[cbd.id].record.body else []
  }

  /** Item `u` in memory stands for a bucket of this second with this data. */
  predicate Holds(s: Agent, u: nat, time: int, data: seq<byte>) {
    u in s.items && s.items[u].cbd.time == time && Content(s, s.items[u].cbd) == data
  }

  /** The step takes item `u` out of memory: it is erased, or neither saved nor does it fit into memory, or
      its sender stops; or everything is lost in a restart. */
  predicate Removes(s: Agent, step: Step, u: nat) {
    || (Erases(s, step) && step.t == u)
    || step == Cancel(u)
    || (step == Append(u, false) && u in s.items && s.items[u].cbd.id == 0)
    || step.Restart?
  }

  /** The step brings a bucket into memory as item `u`: of a second that is over, or unread on the disk. */
  predicate Brings(s: Agent, step: Step, u: nat, time: int, data: seq<byte>) {
    u == s.next &&
    match step
    case Flush(second, bytes, _) => time == second as int && data == bytes
    case Pop(_, _, _, scan) => ReadNext(s, scan, time, data)
    case TailRead(scan) => ReadNext(s, scan, time, data)
    case _ => false
  }

  predicate ReadNext(s: Agent, scan: TailScan, time: int, data: seq<byte>) {
    && scan.skipped < |s.disk.tail| && s.disk.tail[scan.skipped].record.time == time
    && s.disk.tail[scan.skipped].record.body == data
  }

  lemma MoveHolds(s: Agent, t: nat, it: Item, u: nat, time: int, data: seq<byte>)
    requires Inv(s) && t in s.items && it.cbd.time == s.items[t].cbd.time
    requires Content(s, it.cbd) == Content(s, s.items[t].cbd)
    ensures Holds(Move(s, t, it), u, time, data) <==> Holds(s, u, time, data)
  {
    hide Inv;
  }

  lemma EraseHolds(s: Agent, t: nat, mark: Mark, u: nat, time: int, data: seq<byte>)
    requires Inv(s) && t in s.items
    ensures Holds(EraseItem(s, t, mark), u, time, data) <==> Holds(s, u, time, data) && u != t
  {
    if u in s.items && u != t { HoldersAreSane(s, u); }
    hide AllSane, Unique, MarkedFolder;
  }

  lemma PutHolds(s: Agent, step: Step, u: nat, time: int, data: seq<byte>)
    requires Inv(s) && Enabled(s, step) && step.Put?
    ensures Holds(Next(s, step), u, time, data) <==> Holds(s, u, time, data)
  {
    if u in s.items { HoldersAreSane(s, u); }
    hide AllSane, OneHolder, Unique, Swept, Added, Idle, OnDisk;
  }

  lemma ReadTailHolds(s: Agent, scan: TailScan, u: nat, time: int, data: seq<byte>)
    requires Inv(s) && scan.skipped <= |s.disk.tail|
    ensures Holds(ReadTail(s, scan), u, time, data) <==>
              Holds(s, u, time, data) || (u == s.next && ReadNext(s, scan, time, data))
  {
    if u in s.items { HoldersAreSane(s, u); }
    hide AllSane, OneHolder, Unique, Swept;
  }

  lemma EnqueueHolds(s: Agent, t: nat, fits: bool, u: nat, time: int, data: seq<byte>)
    requires Inv(s) && t in s.items && !InFlight(s.items[t].place)
    ensures Holds(Enqueue(s, t, fits), u, time, data) <==>
              Holds(s, u, time, data) && !(u == t && !fits && s.items[t].cbd.id == 0)
  {
    HoldersAreSane(s, t);
    hide Inv;
  }

  lemma ReadContent(s: Agent, t: nat)
    requires Inv(s) && t in s.items && s.items[t].place == Historic(Checking) && s.items[t].cbd.data == []
    ensures var cbd := s.items[t].cbd;
            && cbd.id in s.disk.known
            && Content(s, cbd) == Content(s, cbd.(data := s.disk.known[cbd.id].record.body))
  {
    HoldersAreSane(s, t);
  }

  /** No bucket in memory changes or is forgotten: an item stands for the same second and the same bytes
      until it leaves, which it does for exactly the listed reasons; and one comes in for every second
      that is over and every unread bucket that is read, as exactly this bucket. */
  lemma HeldExactly(s: Agent, step: Step, u: nat, time: int, data: seq<byte>)
    requires Inv(s) && Enabled(s, step)
    ensures Holds(Next(s, step), u, time, data) <==>
              (Holds(s, u, time, data) && !Removes(s, step, u)) || Brings(s, step, u, time, data)
  {
    assert u in s.items ==> u < s.next;
    hide Inv, MarkedFolder, Swept, Added, Idle, ReadTail, EraseItem, TakeAfter, Holds, Content, ReadNext, Move, Enter;
    if Erases(s, step) {
      assert Next(s, step) == EraseItem(s, step.t, step.mark);
      EraseHolds(s, step.t, step.mark, u, time, data);
    } else if step.Flush? {
      EnterHolds(s, step.time, step.data, if step.toChannel then Channel else Saving, u, time, data);
    } else if step.Pop? {
      PopHolds(s, step, u, time, data);
    } else if step.TailRead? {
      ReadTailHolds(s, step.scan, u, time, data);
    } else {
      MovesHold(s, step, u, time, data);
    }
  }

  lemma MovesHold(s: Agent, step: Step, u: nat, time: int, data: seq<byte>)
    requires Inv(s) && Enabled(s, step)
    requires !Erases(s, step) && !step.Flush? && !step.Pop? && !step.TailRead?
    ensures Holds(Next(s, step), u, time, data) <==> Holds(s, u, time, data) && !Removes(s, step, u)
  {
    hide Inv, Swept, Added, Idle, Holds, Content, Move, Leave;
    match step
    case Take(t) => MoveHolds(s, t, s.items[t].(place := Recent(Ready)), u, time, data);
    case Put(_, _, _) => PutHolds(s, step, u, time, data);
    case GiveUp(t) => GoBackHolds(s, t, u, time, data);
    case Send(t, q) => SendHolds(s, t, q, u, time, data);
    case Response(t, _, _) => GoBackHolds(s, t, u, time, data);
    case Append(t, fits) => EnqueueHolds(s, t, fits, u, time, data);
    case Read(t, _, _) =>
      var cbd := s.items[t].cbd;
      if cbd.data != [] {
        MoveHolds(s, t, Item(cbd, Historic(Ready)), u, time, data);
      } else {
        ReadContent(s, t);
        MoveHolds(s, t, Item(cbd.(data := s.disk.known[cbd.id].record.body), Historic(Ready)), u, time, data);
      }
    case Cancel(t) => LeaveHolds(s, t, u, time, data);
    case Restart(tail) => NothingHeld(Next(s, step), u, time, data);
  }

  lemma EnterHolds(s: Agent, second: uint32, bytes: seq<byte>, place: Place, u: nat, time: int, data: seq<byte>)
    requires bytes != [] && s.next !in s.items
    ensures Holds(Enter(s, BucketData(0, second, bytes), place), u, time, data) <==>
              Holds(s, u, time, data) || (u == s.next && time == second as int && data == bytes)
  {}

  lemma GoBackHolds(s: Agent, t: nat, u: nat, time: int, data: seq<byte>)
    requires t in s.items
    ensures Holds(GoBack(s, t), u, time, data) <==> Holds(s, u, time, data)
  {}

  lemma SendHolds(s: Agent, t: nat, q: Req, u: nat, time: int, data: seq<byte>)
    requires Inv(s) && Enabled(s, Send(t, q))
    ensures Holds(Next(s, Send(t, q)), u, time, data) <==> Holds(s, u, time, data)
  {
    HoldersAreSane(s, t);
    hide Inv;
  }

  lemma PopHolds(s: Agent, step: Step, u: nat, time: int, data: seq<byte>)
    requires Inv(s) && Enabled(s, step) && step.Pop?
    ensures Holds(Next(s, step), u, time, data) <==>
              Holds(s, u, time, data) || (u == s.next && ReadNext(s, step.scan, time, data))
  {
    HoldersAreSane(s, step.t);
    var it := s.items[step.t].(place := if step.toEraser then Erasing else Historic(Checking));
    MoveInv(s, step.t, it);
    hide Inv, Idle, ReadTail, Holds, TakeAfter;
    MoveHolds(s, step.t, it, u, time, data);
    ReadTailHolds(Move(s, step.t, it), step.scan, u, time, data);
  }

  lemma LeaveHolds(s: Agent, t: nat, u: nat, time: int, data: seq<byte>)
    ensures Holds(Leave(s, t), u, time, data) <==> Holds(s, u, time, data) && u != t
  {}

  lemma NothingHeld(s: Agent, u: nat, time: int, data: seq<byte>)
    requires s.items == map[]
    ensures !Holds(s, u, time, data)
  {}

  /** The cache knows the bucket or has it unread, and a restart will find it. */
  ghost predicate Safe(s: Agent, e: Entry) {
    e in OnDisk(s.disk) && e in s.folder.live
  }

  /** The step erases the saved bucket `e`, for one of the reasons a bucket may be erased. */
  predicate ErasesEntry(s: Agent, step: Step, e: Entry) {
    Erases(s, step) && step.t in s.items
    && var it := s.items[step.t];
    && it.cbd.id in s.disk.known && s.disk.known[it.cbd.id] == e
    && match step
       case Response(_, _, _) => // acknowledged, and the request carried exactly this bucket
         && InFlight(it.place) && it.place.phase.q in s.asked
         && s.asked[it.place.phase.q] == Payload(e.record.time, e.record.body, it.place.Historic?)
       case Expire(_, now, historicWindow, _) => OutOfWindow(e.record.time, now, historicWindow)
       case OverLimit(_, _) => it.place.Erasing?
       case Read(_, ok, _) => !ok && it.cbd.data == []
       case _ => false
  }

  /** The mark of another bucket is cut at its third byte, at `e` or before it in its file. */
  predicate Tears(s: Agent, step: Step, e: Entry) {
    Erases(s, step) && step.mark.written == 3 && step.t in s.items
    && var id := s.items[step.t].cbd.id;
    id in s.disk.known && s.disk.known[id] != e && AtOrBehind(e, s.disk.known[id])
  }

  /** The tail is read past `e`, which lies in a file that could not be read. */
  predicate PassesOver(s: Agent, step: Step, e: Entry) {
    (step.Pop? || step.TailRead?) && step.scan.skipped <= |s.disk.tail|
    && e in s.disk.tail[..step.scan.skipped] && e.file in step.scan.lost
  }

  /** The step lets go of the saved bucket `e`. */
  predicate Lets(s: Agent, step: Step, e: Entry) {
    ErasesEntry(s, step, e) || Tears(s, step, e) || PassesOver(s, step, e)
  }

  lemma EraseItemKeeps(s: Agent, t: nat, mark: Mark, e: Entry)
    requires Inv(s) && t in s.items && MarkOk(s, t, mark) && Safe(s, e)
    ensures var id := s.items[t].cbd.id;
            Safe(EraseItem(s, t, mark), e)
            || (id in s.disk.known
                && (s.disk.known[id] == e || (mark.written == 3 && AtOrBehind(e, s.disk.known[id]))))
  {
    var id := s.items[t].cbd.id;
    DropKeeps(s.disk, id);
    if e in OnDisk(Drop(s.disk, id)) { IdleMeans(Drop(s.disk, id), mark.gone, e); }
    hide Idle, OnDisk, Inv;
  }

  lemma TakeAfterKeeps(d: Store, skipped: nat)
    requires skipped <= |d.tail| && forall id | id in d.known :: id <= d.last
    ensures OnDisk(TakeAfter(d, skipped)) <= OnDisk(d)
    ensures forall e | e in OnDisk(d) :: e in OnDisk(TakeAfter(d, skipped)) || e in d.tail[..skipped]
  {
    SkipKeeps(d, skipped);
    hide OnDisk;
    var k := Skip(d, skipped);
    if k.tail != [] { TakeKeeps(k); }
  }

  lemma ReadTailKeeps(s: Agent, scan: TailScan, e: Entry)
    requires Inv(s) && ScanOk(s, scan) && Safe(s, e)
    ensures Safe(ReadTail(s, scan), e) || (e in s.disk.tail[..scan.skipped] && e.file in scan.lost)
  {
    TakeAfterKeeps(s.disk, scan.skipped);
    if e in OnDisk(TakeAfter(s.disk, scan.skipped)) { IdleMeans(TakeAfter(s.disk, scan.skipped), scan.gone, e); }
    hide OnDisk, Idle, TakeAfter, Inv;
  }

  lemma PutKeeps(s: Agent, t: nat, saved: Saved, gone: set<string>, e: Entry)
    requires Inv(s) && Enabled(s, Put(t, saved, gone)) && Safe(s, e)
    ensures Safe(Next(s, Put(t, saved, gone)), e)
  {
    IdleMeans(s.disk, gone, e);
    if saved.SavedAs? { SaveKeeps(s.disk, saved.entry); }
    hide OnDisk, Idle;
  }

  lemma RestartKeeps(tail: seq<Entry>)
    ensures OnDisk(Store(map[], tail, 0)) == set e | e in tail
  {}

  function DiskAfter(s: Agent, step: Step): Store {
    if Erases(s, step) && step.t in s.items then Drop(s.disk, s.items[step.t].cbd.id)
    else match step
      case Put(_, SavedAs(e), _) => Save(s.disk, e)
      case Pop(_, _, _, scan) => if scan.skipped <= |s.disk.tail| then TakeAfter(s.disk, scan.skipped) else s.disk
      case TailRead(scan) => if scan.skipped <= |s.disk.tail| then TakeAfter(s.disk, scan.skipped) else s.disk
      case Restart(tail) => Store(map[], tail, 0)
      case _ => s.disk
  }

  function FolderAfter(s: Agent, step: Step): Folder {
    if Erases(s, step) && step.t in s.items then MarkedFolder(s, s.items[step.t].cbd.id, step.mark)
    else match step
      case Put(_, NotSaved, gone) => Swept(s.folder, gone)
      case Put(_, saved, gone) => Added(Swept(s.folder, gone), saved.entry)
      case Pop(_, _, _, scan) => Swept(s.folder, scan.gone)
      case TailRead(scan) => Swept(s.folder, scan.gone)
      case _ => s.folder
  }

  /** What a step does to the disk alone. */
  lemma DiskStep(s: Agent, step: Step)
    requires Inv(s) && Enabled(s, step)
    ensures Next(s, step).disk == DiskAfter(s, step) && Next(s, step).folder == FolderAfter(s, step)
  {
    hide Inv, Idle, TakeAfter, Swept, Added, MarkedFolder, Save, Drop;
  }

  lemma LetsGo(s: Agent, step: Step, e: Entry)
    requires Inv(s) && Enabled(s, step) && Lets(s, step, e)
    ensures !Safe(Next(s, step), e)
  {
    DiskStep(s, step);
    assert Unique(s.disk);
    hide Inv, Next, Enabled, Idle, OnDisk;
    if ErasesEntry(s, step, e) {
      DropExactly(s.disk, s.items[step.t].cbd.id);
    } else if PassesOver(s, step, e) {
      TakeAfterGone(s.disk, step.scan.skipped, e);
    }
  }

  /** A saved bucket becomes unsafe for exactly the listed reasons. A restart is not one of them. */
  lemma StepKeeps(s: Agent, step: Step, e: Entry)
    requires Inv(s) && Enabled(s, step) && Safe(s, e)
    ensures Safe(Next(s, step), e) <==> !Lets(s, step, e)
  {
    if Lets(s, step, e) {
      LetsGo(s, step, e);
    } else {
      StaysSafe(s, step, e);
    }
  }

  lemma StaysSafe(s: Agent, step: Step, e: Entry)
    requires Inv(s) && Enabled(s, step) && Safe(s, e)
    ensures Safe(Next(s, step), e) || Lets(s, step, e)
  {
    if HasHolder(step) { HoldersAreSane(s, step.t); }
    if Erases(s, step) { EraseItemKeeps(s, step.t, step.mark, e); }
    if step.Put? { PutKeeps(s, step.t, step.saved, step.gone, e); }
    if step.Pop? || step.TailRead? { ReadTailKeeps(s, step.scan, e); }
    if step.Restart? { RestartKeeps(step.tail); }
    hide Inv, OnDisk, Idle, MarkedFolder, TakeAfter, Swept, Added;
  }

  /** Only sending asks anything. */
  lemma AskStep(s: Agent, step: Step)
    requires Inv(s) && Enabled(s, step)
    ensures !step.Send? ==> Next(s, step).asked == s.asked
    ensures step.Send? ==>
      && s.items[step.t].cbd.time >= 0
      && var it := s.items[step.t];
      Next(s, step).asked == s.asked[step.q := Payload(it.cbd.time, it.cbd.data, it.place.Historic?)]
  {
    if step.Send? { HoldersAreSane(s, step.t); }
    hide Inv, Idle, TakeAfter, Swept, Added, MarkedFolder, Save, Drop;
  }

  /** Nothing comes to the disk but by being saved, and nothing to the folder but by being written. */
  lemma StepOrigins(s: Agent, step: Step, e: Entry)
    requires Inv(s) && Enabled(s, step)
    ensures var n := Next(s, step);
            && (e in OnDisk(n.disk) ==>
                  e in OnDisk(s.disk) || (step.Put? && step.saved == SavedAs(e))
                  || (step.Restart? && e in s.folder.live))
            && (e in n.folder.live ==> e in s.folder.live || Writes(step, e))
  {
    DiskStep(s, step);
    assert forall id | id in s.disk.known :: id <= s.disk.last;
    hide Inv, OnDisk, Idle, TakeAfter, Next, Save, Drop;
    if Erases(s, step) { DropKeeps(s.disk, s.items[step.t].cbd.id); }
    if step.Put? && step.saved.SavedAs? { SaveKeeps(s.disk, step.saved.entry); }
    if step.Pop? || step.TailRead? { TakeAfterKeeps(s.disk, step.scan.skipped); }
    if step.Restart? { RestartKeeps(step.tail); }
  }

  predicate Writes(step: Step, e: Entry) {
    step.Put? && !step.saved.NotSaved? && step.saved.entry == e
  }

  /** A restart will bring the bucket back though the cache has let go of it. */
  ghost predicate Stray(s: Agent, e: Entry) {
    e in s.folder.live && e !in OnDisk(s.disk)
  }

  /** An erased bucket comes back at a restart only if fewer than three bytes of its mark were written,
      one that was not saved only if its record was whole after all, and one that was passed over. */
  lemma StrayOrigins(s: Agent, step: Step, e: Entry)
    requires Inv(s) && Enabled(s, step)
    ensures Stray(Next(s, step), e) ==>
              || Stray(s, e)
              || (ErasesEntry(s, step, e) && step.mark.written < 3)
              || (step.Put? && step.saved == LeftBehind(e))
              || PassesOver(s, step, e)
  {
    if HasHolder(step) { HoldersAreSane(s, step.t); }
    assert forall id | id in s.disk.known :: id <= s.disk.last;
    hide Inv, OnDisk, Idle, TakeAfter, Next, Save, Drop;
    if Erases(s, step) { DropKeeps(s.disk, s.items[step.t].cbd.id); }
    if step.Put? && step.saved.SavedAs? { SaveKeeps(s.disk, step.saved.entry); }
    if step.Pop? || step.TailRead? { TakeAfterKeeps(s.disk, step.scan.skipped); }
    if step.Restart? { RestartKeeps(step.tail); }
    DiskStep(s, step);
  }

  /** A freshly saved bucket is safe exactly when no torn mark lies before it in its file, and only
      tearing a mark breaks a file. */
  lemma SavedIsSafe(s: Agent, step: Step, n: string)
    requires Inv(s) && Enabled(s, step)
    ensures step.Put? && step.saved.SavedAs? && step.saved.entry !in s.folder.live ==>
              (Safe(Next(s, step), step.saved.entry) <==> step.saved.entry.file !in s.folder.broken - step.gone)
    ensures n in Next(s, step).folder.broken ==>
              n in s.folder.broken
              || (Erases(s, step) && step.mark.written == 3 && s.items[step.t].cbd.id in s.disk.known
                  && s.disk.known[s.items[step.t].cbd.id].file == n)
  {
    DiskStep(s, step);
    assert forall id | id in s.disk.known :: id <= s.disk.last;
    hide Inv, OnDisk, Idle, TakeAfter, Next, Save, Drop;
    if step.Put? && step.saved.SavedAs? { SaveKeeps(s.disk, step.saved.entry); }
  }

  ghost predicate Run(s: Agent, steps: seq<Step>, t: Agent)
    decreases |steps|
  {
    if steps == [] then t == s
    else Inv(s) && Enabled(s, steps[0]) && Run(Next(s, steps[0]), steps[1..], t)
  }

  /** Somewhere in the run a step lets go of `e`. */
  ghost predicate LetGo(s: Agent, steps: seq<Step>, e: Entry)
    decreases |steps|
  {
    && steps != [] && Inv(s) && Enabled(s, steps[0])
    && (Lets(s, steps[0], e) || LetGo(Next(s, steps[0]), steps[1..], e))
  }

  /** In every run, through any number of restarts, a saved bucket is on disk and will be found until
      the run lets go of it: erased because it was acknowledged by a response to a request that carried
      it, out of the historic window, over the disk limit, or unreadable; hidden by the torn mark of a
      bucket before it in its file; or passed over because its file could not be read. */
  lemma {:induction false} SavedStays(s: Agent, steps: seq<Step>, t: Agent, e: Entry)
    requires Inv(s) && Run(s, steps, t) && Safe(s, e)
    ensures Inv(t) && (Safe(t, e) || LetGo(s, steps, e))
    decreases |steps|
  {
    hide Inv, Enabled, Next, Lets, Safe;
    if steps != [] {
      var n := Next(s, steps[0]);
      StepInv(s, steps[0]);
      StepKeeps(s, steps[0], e);
      if Safe(n, e) {
        SavedStays(n, steps[1..], t, e);
      } else {
        RunInv(n, steps[1..], t);
      }
    }
  }

  lemma {:induction false} RunInv(s: Agent, steps: seq<Step>, t: Agent)
    requires Inv(s) && Run(s, steps, t)
    ensures Inv(t)
    decreases |steps|
  {
    hide Inv, Enabled, Next;
    if steps != [] {
      StepInv(s, steps[0]);
      RunInv(Next(s, steps[0]), steps[1..], t);
    }
  }

  /** Whatever a run finds on disk was there at its start or was written in it. */
  lemma {:induction false} NothingInvented(s: Agent, steps: seq<Step>, t: Agent, e: Entry)
    requires Inv(s) && Run(s, steps, t) && (e in OnDisk(t.disk) || e in t.folder.live)
    ensures e in OnDisk(s.disk) || e in s.folder.live || exists i | 0 <= i < |steps| :: Writes(steps[i], e)
    decreases |steps|
  {
    hide Inv, Enabled, Next, OnDisk;
    if steps != [] {
      var n := Next(s, steps[0]);
      StepInv(s, steps[0]);
      StepOrigins(s, steps[0], e);
      NothingInvented(n, steps[1..], t, e);
      if i :| 0 <= i < |steps[1..]| && Writes(steps[1..][i], e) { assert Writes(steps[i + 1], e); }
    }
  }

  lemma RunNowhere(s: Agent)
    ensures Run(s, [], s)
  {}

  /** A run that goes one step further. */
  lemma {:induction false} RunFurther(s: Agent, steps: seq<Step>, t: Agent, step: Step)
    requires Run(s, steps, t) && Inv(t) && Enabled(t, step)
    ensures Run(s, steps + [step], Next(t, step)) && Inv(Next(t, step))
    decreases |steps|
  {
    StepInv(t, step);
    hide Inv, Enabled, Next;
    if steps == [] {
      RunNowhere(Next(t, step));
      assert steps + [step] == [step];
    } else {
      RunFurther(Next(s, steps[0]), steps[1..], t, step);
      assert (steps + [step])[1..] == steps[1..] + [step];
    }
  }

  lemma {:induction false} RunConcat(s: Agent, a: seq<Step>, m: Agent, b: seq<Step>, t: Agent)
    requires Run(s, a, m) && Run(m, b, t)
    ensures Run(s, a + b, t)
    decreases |a|
  {
    hide Inv, Enabled, Next;
    if a == [] {
      assert a + b == b;
    } else {
      RunConcat(Next(s, a[0]), a[1..], m, b, t);
      assert (a + b)[1..] == a[1..] + b;
    }
  }

  lemma RunOne(s: Agent, step: Step)
    requires Inv(s) && Enabled(s, step)
    ensures Inv(Next(s, step)) && Run(s, [step], Next(s, step))
  {
    StepInv(s, step);
    hide Inv, Enabled, Next;
    RunNowhere(Next(s, step));
  }
}
