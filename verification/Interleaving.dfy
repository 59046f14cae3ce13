/**
 The D-Bus thread and the reaper thread on one list of clients. A step is what happens
 between two points where the other thread can see the difference: taking or giving up the
 read-write lock, each write to shared state, and the accesses made without the lock. The
 sequence `list` is there for stating things: the program has only `head` and `next`.

 The lock is not a field: which thread holds it, and how, follows from where the threads are.
 */
module Interleaving {
  import opened Clients
  import opened Common
  import opened Mode
  import Context

  datatype Thread = Bus | Reaper

  /** A client's memory; `live` until it is freed. */
  datatype Cell = Cell(pid: int, refcount: int, live: bool)

  /** Where a thread is; rd and wr mark the places where it holds the lock. */
  datatype Place =
    | Idle
    | Stopped                              // the reaper, while the bus reloads
    | RegChecking(pid: int)                // rd
    | RegAbsent(pid: int)
    | RegReady(pid: int, id: int)
    | RegWriting(pid: int, id: int)        // wr
    | RegPointed(pid: int, id: int)        // wr, next is set
    | RegLinked                            // wr
    | RegCounted(first: bool)              // wr
    | UnregWriting(pid: int)               // wr
    | UnregSpliced(id: int)                // wr, next is still set
    | UnregCut(id: int)                    // wr
    | UnregReleased                        // wr
    | UnregCounted(last: bool)             // wr
    | Finishing                            // wr
    | Looking(pid: int)                    // rd
    | Listing(n: int)                      // rd
    | Scanning                             // rd
    | Found(id: int)
    | Expiring(pid: int)
    | RestartTested
    | RestartLocked                        // rd
    | RestartLeft                          // rd
    | RestartEntered                       // rd
    | ReloadLocked                         // wr
    | ReloadLeft                           // wr
    | Cascading(id: int, locked: bool)     // wr if locked: an unref that goes on to the next client

  datatype State = State(
    list: seq<int>,          // the clients, head first
    head: Option<int>,
    next: map<int, Option<int>>,
    heap: map<int, Cell>,
    refcount: int,           // of the context
    held: multiset<int>,     // references given out by lookups
    calls: seq<Call>,
    bus: Place,
    reaper: Place)

  datatype Action =
    // register
    | Check(pid: int) | Known | Absent | GiveUp | Create(id: int)
    | LockToInsert | SetNext | Insert | CountUp | EnterIfFirst
    // unregister
    | LockToRemove(pid: int) | NotFound | SpliceOut(k: int) | ClearNext | DropReference | CountDown | LeaveIfLast
    // lookup and unref
    | LockToLookup(pid: int) | NoReference | TakeReference(k: int) | Release(id: int) | UnrefNext
    // list_clients
    | LockToList | EndList
    // auto_expire
    | LockToScan | NoneDead | FindDead(k: int) | ReadPid(pid: int)
    // restart
    | TestCount | LockToRestart | RestartLeave | RestartEnter
    // reload, and the reaper's visits to the iGPU check and to core pinning
    | StopReaper | StartReaper | LockToReload | ReloadLeave | ReloadEnter | LockToVisit
    // the end of a locked section that changes nothing more
    | Unlock

  predicate Writes(p: Place) {
    || p.RegWriting? || p.RegPointed? || p.RegLinked? || p.RegCounted?
    || p.UnregWriting? || p.UnregSpliced? || p.UnregCut? || p.UnregReleased? || p.UnregCounted?
    || p.Finishing? || p.ReloadLocked? || p.ReloadLeft? || (p.Cascading? && p.locked)
  }

  predicate Reads(p: Place) {
    || p.RegChecking? || p.Looking? || p.Listing? || p.Scanning?
    || p.RestartLocked? || p.RestartLeft? || p.RestartEntered?
  }

  function PlaceOf(s: State, t: Thread): Place {
    if t == Bus then s.bus else s.reaper
  }

  function Other(s: State, t: Thread): Place {
    if t == Bus then s.reaper else s.bus
  }

  function Goes(s: State, t: Thread, p: Place): State {
    if t == Bus then s.(bus := p) else s.(reaper := p)
  }

  function PidAt(s: State, id: int): int {
    if id in s.heap then s.heap[id].pid else 0
  }

  predicate Listed(s: State, pid: int) {
    exists i :: 0 <= i < |s.list| && PidAt(s, s.list[i]) == pid
  }

  /** The place an action starts from, and who does it, for those that only one thread does. */
  predicate From(here: Place, t: Thread, a: Action) {
    match a
    case Check(_) => t == Bus && here == Idle
    case Known => here.RegChecking?
    case Absent => here.RegChecking?
    // the client's executable is rejected, or the daemon refuses its own request to unregister
    case GiveUp => here.RegAbsent? || here.Expiring?
    case Create(_) => here.RegAbsent?
    case LockToInsert => here.RegReady?
    case SetNext => here.RegWriting?
    case Insert => here.RegPointed?
    case CountUp => here.RegLinked?
    case EnterIfFirst => here.RegCounted?
    case LockToRemove(pid) => if t == Bus then here == Idle else here == Expiring(pid)
    case NotFound => here.UnregWriting?
    case SpliceOut(_) => here.UnregWriting?
    case ClearNext => here.UnregSpliced?
    case DropReference => here.UnregCut?
    case UnrefNext => here.Cascading?
    case CountDown => here.UnregReleased?
    case LeaveIfLast => here.UnregCounted?
    case LockToLookup(_) => t == Bus && here == Idle
    case NoReference => here.Looking?
    case TakeReference(_) => here.Looking?
    case Release(_) => t == Bus && here == Idle
    case LockToList => t == Bus && here == Idle
    case EndList => here.Listing?
    case LockToScan => t == Reaper && here == Idle
    case NoneDead => here == Scanning
    case FindDead(_) => here == Scanning
    case ReadPid(_) => here.Found?
    case TestCount => t == Bus && here == Idle
    case LockToRestart => here == RestartTested
    case RestartLeave => here == RestartLocked
    case RestartEnter => here == RestartLeft
    case StopReaper => t == Bus && here == Idle
    case StartReaper => t == Bus && here == Idle
    case LockToReload => here == Idle
    case ReloadLeave => here == ReloadLocked
    case ReloadEnter => here == ReloadLeft
    case LockToVisit => t == Reaper && here == Idle
    case Unlock => here == Finishing || here == RestartEntered || here == ReloadLocked
  }

  /** Taking the lock waits until the other thread allows it. */
  predicate LockFree(other: Place, a: Action) {
    && (a.Check? || a.LockToLookup? || a.LockToList? || a.LockToScan? || a.LockToRestart? ==> !Writes(other))
    && (a.LockToInsert? || a.LockToRemove? || a.LockToReload? || a.LockToVisit? ==> !Writes(other) && !Reads(other))
  }

  /** What the thread finds in the shared state. */
  predicate Guard(s: State, t: Thread, here: Place, a: Action)
    requires From(here, t, a)
  {
    match a
    case Known => Listed(s, here.pid)
    case Absent => !Listed(s, here.pid)
    case Create(id) => id !in s.heap
    case NotFound => !Listed(s, here.pid)
    case SpliceOut(k) => 0 <= k < |s.list| && PidAt(s, s.list[k]) == here.pid
    case NoReference => !Listed(s, here.pid)
    case TakeReference(k) => 0 <= k < |s.list| && PidAt(s, s.list[k]) == here.pid
    case Release(id) => id in s.held
    case FindDead(k) => 0 <= k < |s.list|
    // a freed client's pid reads as anything
    case ReadPid(pid) => here.id in s.heap && s.heap[here.id].live ==> pid == s.heap[here.id].pid
    case TestCount => s.refcount != 0
    case StopReaper => s.reaper == Idle
    case StartReaper => s.reaper == Stopped
    case LockToReload => t == Bus ==> s.reaper == Stopped
    case ReloadLeave => s.refcount != 0
    case Unlock => here == ReloadLocked ==> s.refcount == 0
    case _ => true
  }

  /** Where the action can happen. */
  predicate Enabled(s: State, t: Thread, a: Action) {
    From(PlaceOf(s, t), t, a) && LockFree(Other(s, t), a) && Guard(s, t, PlaceOf(s, t), a)
  }

  function NextOf(s: State, id: int): Option<int> {
    if id in s.next then s.next[id] else None
  }

  /** Where an unref leads: on to the next client if it frees one that has a next. */
  function AfterUnref(s: State, id: int, locked: bool): Place {
    if id in s.heap && s.heap[id].refcount <= 1 && NextOf(s, id).Some? then Cascading(NextOf(s, id).value, locked)
    else if locked then UnregReleased
    else Idle
  }

  function Changed(heap: map<int, Cell>, id: int, d: int): map<int, Cell> {
    if id !in heap then heap
    else
      var c := heap[id];
      heap[id := Cell(c.pid, c.refcount + d, c.live && c.refcount + d > 0)]
  }

  /** Where the thread is after the action. */
  function Where(s: State, t: Thread, here: Place, a: Action): Place
    requires From(here, t, a) && Guard(s, t, here, a)
  {
    match a
    case Check(pid) => RegChecking(pid)
    case Known => Idle
    case Absent => RegAbsent(here.pid)
    case GiveUp => Idle
    case Create(id) => RegReady(here.pid, id)
    case LockToInsert => RegWriting(here.pid, here.id)
    case SetNext => RegPointed(here.pid, here.id)
    case Insert => RegLinked
    case CountUp => RegCounted(s.refcount == 0)
    case EnterIfFirst => Finishing
    case LockToRemove(pid) => UnregWriting(pid)
    case NotFound => Idle
    case SpliceOut(k) => UnregSpliced(s.list[k])
    case ClearNext => UnregCut(here.id)
    case DropReference => AfterUnref(s, here.id, true)
    case UnrefNext => AfterUnref(s, here.id, here.locked)
    case CountDown => UnregCounted(s.refcount == 1)
    case LeaveIfLast => Finishing
    case LockToLookup(pid) => Looking(pid)
    case NoReference => Idle
    case TakeReference(_) => Idle
    case Release(id) => AfterUnref(s, id, false)
    case LockToList => Listing(s.refcount)
    case EndList => Idle
    case LockToScan => Scanning
    case NoneDead => Idle
    case FindDead(k) => Found(s.list[k])
    case ReadPid(pid) => Expiring(pid)
    case TestCount => RestartTested
    case LockToRestart => RestartLocked
    case RestartLeave => RestartLeft
    case RestartEnter => RestartEntered
    case StopReaper => Idle
    case StartReaper => Idle
    case LockToReload => ReloadLocked
    case ReloadLeave => ReloadLeft
    case ReloadEnter => Finishing
    case LockToVisit => Finishing
    case Unlock => Idle
  }

  function Creating(s: State, id: int, pid: int): State {
    s.(heap := s.heap[id := Cell(pid, 1, true)], next := s.next[id := None])
  }

  function Pointing(s: State, id: int, to: Option<int>): State {
    s.(next := s.next[id := to])
  }

  function Inserting(s: State, id: int): State {
    s.(list := [id] + s.list, head := Some(id))
  }

  /** The client before position k skips it; with k == 0, prev is the client itself, and only the head changes. */
  function Splicing(s: State, k: nat): State
    requires k < |s.list|
  {
    s.(list := Without(s.list, k),
       head := if k == 0 then NextOf(s, s.list[k]) else s.head,
       next := if k == 0 then s.next else s.next[s.list[k - 1] := NextOf(s, s.list[k])])
  }

  function Unreffing(s: State, id: int): State {
    s.(heap := Changed(s.heap, id, -1))
  }

  function Taking(s: State, id: int): State {
    s.(heap := Changed(s.heap, id, 1), held := s.held + multiset{id})
  }

  function Releasing(s: State, id: int): State {
    s.(heap := Changed(s.heap, id, -1), held := s.held - multiset{id})
  }

  function Counting(s: State, d: int): State {
    s.(refcount := s.refcount + d)
  }

  function Calling(s: State, c: Call): State {
    s.(calls := s.calls + [c])
  }

  /** What the action writes. */
  function Data(s: State, t: Thread, here: Place, a: Action): State
    requires From(here, t, a) && Guard(s, t, here, a)
  {
    match a
    case Create(id) => Creating(s, id, here.pid)
    case SetNext => Pointing(s, here.id, s.head)
    case Insert => Inserting(s, here.id)
    case CountUp => Counting(s, 1)
    case EnterIfFirst => if here.first then Calling(s, Entered) else s
    case SpliceOut(k) => Splicing(s, k)
    case ClearNext => Pointing(s, here.id, None)
    case DropReference => Unreffing(s, here.id)
    case UnrefNext => Unreffing(s, here.id)
    case CountDown => Counting(s, -1)
    case LeaveIfLast => if here.last then Calling(s, Left) else s
    case TakeReference(k) => Taking(s, s.list[k])
    case Release(id) => Releasing(s, id)
    case RestartLeave => Calling(s, Left)
    case RestartEnter => Calling(s, Entered)
    case StopReaper => s.(reaper := Stopped)
    case StartReaper => s.(reaper := Idle)
    case ReloadLeave => Calling(s, Left)
    case ReloadEnter => Calling(s, Entered)
    case _ => s
  }

  function Next(s: State, t: Thread, a: Action): State
    requires Enabled(s, t, a)
  {
    Goes(Data(s, t, PlaceOf(s, t), a), t, Where(s, t, PlaceOf(s, t), a))
  }

  // ---------------------------------------------------------------- what every step keeps

  /** Does one of the two hold the lock for writing and the other hold it at all? */
  predicate Conflict(p: Place, q: Place) {
    (Writes(p) && (Writes(q) || Reads(q))) || (Writes(q) && Reads(p))
  }

  /** One writer and nobody else, or any number of readers. */
  predicate Locked(s: State) {
    !Conflict(s.bus, s.reaper)
  }

  /** No client is listed twice, and no two listed clients have the same pid. */
  predicate ListOk(s: State) {
    && (forall i :: 0 <= i < |s.list| ==> s.list[i] in s.heap)
    && Distinct(s.list)
    && forall i, j :: 0 <= i < j < |s.list| ==> PidAt(s, s.list[i]) != PidAt(s, s.list[j])
  }

  /** How far the context's count is from the length of the list, while a writer is between the two. */
  function Bias(p: Place): int {
    match p
    case RegLinked => -1
    case UnregSpliced(_) => 1
    case UnregCut(_) => 1
    case UnregReleased => 1
    case _ => 0
  }

  predicate CountOk(s: State) {
    s.refcount == |s.list| + Bias(s.bus) + Bias(s.reaper)
  }

  /** The references to a client that a thread in the middle of something has. */
  function Owns(p: Place, id: int): int {
    match p
    case RegReady(_, x) => if x == id then 1 else 0
    case RegWriting(_, x) => if x == id then 1 else 0
    case RegPointed(_, x) => if x == id then 1 else 0
    case UnregSpliced(x) => if x == id then 1 else 0
    case UnregCut(x) => if x == id then 1 else 0
    case _ => 0
  }

  /** Everything that refers to a client. */
  function References(s: State, id: int): int {
    (if id in s.list then 1 else 0) + s.held[id] + Owns(s.bus, id) + Owns(s.reaper, id)
  }

  /** A client's count is the number of references to it, and it is freed when that reaches zero. */
  predicate OwnedOk(s: State) {
    && (forall id :: id in s.held ==> id in s.heap)
    && forall id :: id in s.heap ==>
         s.heap[id].refcount == References(s, id) && (s.heap[id].live <==> References(s, id) > 0)
  }

  function Nth(list: seq<int>, i: nat): Option<int> {
    if i < |list| then Some(list[i]) else None
  }

  /** Is the client out of the list, or not yet in it, and still has a next? */
  predicate Dangles(p: Place, id: int) {
    p == UnregSpliced(id) || (p.RegPointed? && p.id == id)
  }

  /** From the head, `next` goes through exactly the list; any other client has no next, except in passing. */
  predicate PointersOk(s: State) {
    && s.next.Keys == s.heap.Keys
    && s.head == Nth(s.list, 0)
    && (forall i {:trigger NextOf(s, s.list[i])} :: 0 <= i < |s.list| ==> NextOf(s, s.list[i]) == Nth(s.list, i + 1))
    && forall id :: id in s.heap && id !in s.list && !Dangles(s.bus, id) && !Dangles(s.reaper, id) ==>
         NextOf(s, id) == None
  }

  /** What a thread can rely on where it is. */
  predicate PlaceOk(s: State, t: Thread) {
    PlaceOkAt(s, t, PlaceOf(s, t))
  }

  /** A client that is made and not yet listed. */
  predicate NewOk(s: State, pid: int, id: int) {
    !Listed(s, pid) && id in s.heap && s.heap[id].pid == pid && id !in s.list && s.reaper != Found(id)
  }

  predicate PlaceOkAt(s: State, t: Thread, p: Place) {
    match p
    case Stopped => t == Reaper
    case RegChecking(_) => t == Bus
    case RegAbsent(pid) => t == Bus && !Listed(s, pid)
    case RegReady(pid, id) => t == Bus && NewOk(s, pid, id)
    case RegWriting(pid, id) => t == Bus && NewOk(s, pid, id)
    case RegPointed(pid, id) => t == Bus && NewOk(s, pid, id) && NextOf(s, id) == s.head
    case RegLinked => t == Bus && s.list != []
    case RegCounted(first) => t == Bus && (first <==> s.refcount == 1)
    case UnregSpliced(id) => id in s.heap && id !in s.list
    case UnregCut(id) => id in s.heap && id !in s.list && NextOf(s, id) == None
    case UnregCounted(last) => last <==> s.refcount == 0
    case Looking(_) => t == Bus
    case Listing(n) => t == Bus && n == s.refcount
    case Scanning => t == Reaper
    case Found(id) => t == Reaper && id in s.heap
    case Expiring(_) => t == Reaper
    case RestartTested => t == Bus
    case RestartLocked => t == Bus
    case RestartLeft => t == Bus
    case RestartEntered => t == Bus
    case ReloadLeft => s.refcount != 0
    case Cascading(_, _) => false
    case _ => true
  }

  predicate Inv(s: State) {
    Locked(s) && ListOk(s) && PointersOk(s) && CountOk(s) && OwnedOk(s) && PlaceOk(s, Bus) && PlaceOk(s, Reaper)
  }

  function OtherThread(t: Thread): Thread {
    if t == Bus then Reaper else Bus
  }

  // ------------------------------------------------ places alone

  /** A step that only moves the thread, or makes a call. */
  predicate Moves(a: Action) {
    !(a.Create? || a.SetNext? || a.Insert? || a.CountUp? || a.SpliceOut? || a.ClearNext? || a.DropReference?
      || a.UnrefNext? || a.CountDown? || a.TakeReference? || a.Release?)
  }

  /** How a place is reached: the other way round than Where. */
  predicate LeadsTo(a: Action, there: Place) {
    match there
    case Idle =>
      || a.Known? || a.GiveUp? || a.NotFound? || a.NoReference? || a.TakeReference? || a.Release? || a.UnrefNext?
      || a.EndList? || a.NoneDead? || a.StopReaper? || a.StartReaper? || a.Unlock?
    case Stopped => false
    case RegChecking(_) => a.Check?
    case RegAbsent(_) => a.Absent?
    case RegReady(_, _) => a.Create?
    case RegWriting(_, _) => a.LockToInsert?
    case RegPointed(_, _) => a.SetNext?
    case RegLinked => a.Insert?
    case RegCounted(_) => a.CountUp?
    case UnregWriting(_) => a.LockToRemove?
    case UnregSpliced(_) => a.SpliceOut?
    case UnregCut(_) => a.ClearNext?
    case UnregReleased => a.DropReference? || a.UnrefNext?
    case UnregCounted(_) => a.CountDown?
    case Finishing => a.EnterIfFirst? || a.LeaveIfLast? || a.ReloadEnter? || a.LockToVisit?
    case Looking(_) => a.LockToLookup?
    case Listing(_) => a.LockToList?
    case Scanning => a.LockToScan?
    case Found(_) => a.FindDead?
    case Expiring(_) => a.ReadPid?
    case RestartTested => a.TestCount?
    case RestartLocked => a.LockToRestart?
    case RestartLeft => a.RestartLeave?
    case RestartEntered => a.RestartEnter?
    case ReloadLocked => a.LockToReload?
    case ReloadLeft => a.ReloadLeave?
    case Cascading(_, _) => a.DropReference? || a.UnrefNext? || a.Release?
  }

  predicate Registers(a: Action) {
    || a.Check? || a.Known? || a.Absent? || a.GiveUp? || a.Create?
    || a.LockToInsert? || a.SetNext? || a.Insert? || a.CountUp? || a.EnterIfFirst?
  }

  predicate Unregisters(a: Action) {
    || a.LockToRemove? || a.NotFound? || a.SpliceOut? || a.ClearNext?
    || a.DropReference? || a.UnrefNext? || a.CountDown? || a.LeaveIfLast?
  }

  predicate Looks(a: Action) {
    || a.LockToLookup? || a.NoReference? || a.TakeReference? || a.Release? || a.LockToList? || a.EndList?
    || a.LockToScan? || a.NoneDead? || a.FindDead? || a.ReadPid?
  }

  lemma RegisterLeads(s: State, t: Thread, here: Place, a: Action)
    requires From(here, t, a) && Guard(s, t, here, a) && Registers(a)
    ensures LeadsTo(a, Where(s, t, here, a))
  {
  }

  lemma UnregisterLeads(s: State, t: Thread, here: Place, a: Action)
    requires From(here, t, a) && Guard(s, t, here, a) && Unregisters(a)
    ensures LeadsTo(a, Where(s, t, here, a))
  {
  }

  lemma LookLeads(s: State, t: Thread, here: Place, a: Action)
    requires From(here, t, a) && Guard(s, t, here, a) && Looks(a)
    ensures LeadsTo(a, Where(s, t, here, a))
  {
  }

  lemma RestLeads(s: State, t: Thread, here: Place, a: Action)
    requires From(here, t, a) && Guard(s, t, here, a) && !Registers(a) && !Unregisters(a) && !Looks(a)
    ensures LeadsTo(a, Where(s, t, here, a))
  {
  }

  lemma ActionLeads(s: State, t: Thread, here: Place, a: Action)
    requires From(here, t, a) && Guard(s, t, here, a)
    ensures LeadsTo(a, Where(s, t, here, a))
  {
    if Registers(a) { RegisterLeads(s, t, here, a); }
    else if Unregisters(a) { UnregisterLeads(s, t, here, a); }
    else if Looks(a) { LookLeads(s, t, here, a); }
    else { RestLeads(s, t, here, a); }
  }

  /** No count waits for the thread, and it has no reference and no pointer to see to. */
  predicate Plain(p: Place) {
    && !p.RegReady? && !p.RegWriting? && !p.RegPointed? && !p.RegLinked?
    && !p.UnregSpliced? && !p.UnregCut? && !p.UnregReleased?
  }

  lemma PlainPlace(p: Place, id: int)
    requires Plain(p)
    ensures Bias(p) == 0 && Owns(p, id) == 0 && !Dangles(p, id)
  {
  }

  lemma MovesFromPlain(here: Place, t: Thread, a: Action)
    requires From(here, t, a) && Moves(a) && !a.LockToInsert?
    ensures Plain(here)
  {
  }

  lemma MovesToPlain(there: Place, a: Action)
    requires LeadsTo(a, there) && Moves(a) && !a.LockToInsert?
    ensures Plain(there)
  {
  }

  /** Such a step neither begins nor ends anything that a count waits for, or a reference, or a pointer. */
  lemma MovesLeaveParts(s: State, t: Thread, here: Place, a: Action, id: int)
    requires From(here, t, a) && Guard(s, t, here, a) && Moves(a)
    ensures Bias(Where(s, t, here, a)) == Bias(here)
    ensures Owns(Where(s, t, here, a), id) == Owns(here, id)
    ensures Dangles(Where(s, t, here, a), id) == Dangles(here, id)
  {
    if !a.LockToInsert? {
      ActionLeads(s, t, here, a);
      MovesFromPlain(here, t, a);
      MovesToPlain(Where(s, t, here, a), a);
      PlainPlace(here, id);
      PlainPlace(Where(s, t, here, a), id);
    }
  }

  /** No step makes a conflict over the lock. */
  lemma StepKeepsLock(s: State, t: Thread, here: Place, other: Place, a: Action)
    requires From(here, t, a) && Guard(s, t, here, a) && LockFree(other, a) && !Conflict(here, other)
    ensures !Conflict(Where(s, t, here, a), other)
  {
    if Writes(here) { WriterStays(s, t, here, a); } else { ReaderOrLess(s, t, here, a); }
  }

  lemma WriterStays(s: State, t: Thread, here: Place, a: Action)
    requires From(here, t, a) && Guard(s, t, here, a) && Writes(here)
    ensures Writes(Where(s, t, here, a)) || Where(s, t, here, a) == Idle
  {
  }

  lemma ReaderOrLess(s: State, t: Thread, here: Place, a: Action)
    requires From(here, t, a) && Guard(s, t, here, a) && !Writes(here)
    ensures var there := Where(s, t, here, a);
            && (Writes(there) ==> a.LockToInsert? || a.LockToRemove? || a.LockToReload? || a.LockToVisit?)
            && (Reads(there) ==>
                  Reads(here) || a.Check? || a.LockToLookup? || a.LockToList? || a.LockToScan? || a.LockToRestart?)
  {
    if !a.UnrefNext? {
      ActionLeads(s, t, here, a);
      ReadersArrive(here, t, a, Where(s, t, here, a));
    }
  }

  lemma ReadersArrive(here: Place, t: Thread, a: Action, there: Place)
    requires From(here, t, a) && LeadsTo(a, there) && !a.UnrefNext? && !Writes(here)
    requires there.Cascading? ==> !there.locked
    ensures Writes(there) ==> a.LockToInsert? || a.LockToRemove? || a.LockToReload? || a.LockToVisit?
    ensures Reads(there) ==>
              Reads(here) || a.Check? || a.LockToLookup? || a.LockToList? || a.LockToScan? || a.LockToRestart?
  {
  }

  /** A move leads to a place whose assumptions hold. */
  lemma MovesArrive(s: State, t: Thread, here: Place, a: Action)
    requires From(here, t, a) && Guard(s, t, here, a) && Moves(a) && PlaceOkAt(s, t, here)
    requires forall i :: 0 <= i < |s.list| ==> s.list[i] in s.heap
    ensures PlaceOkAt(s, t, Where(s, t, here, a))
  {
  }

  // ------------------------------------------------ steps that write nothing the invariant is about

  /** The same data, up to the calls. */
  predicate SameData(s: State, s': State) {
    && s'.list == s.list && s'.head == s.head && s'.next == s.next
    && s'.heap == s.heap && s'.held == s.held && s'.refcount == s.refcount
  }

  /** A step that only moves its thread. */
  predicate Silent(a: Action) {
    && Moves(a) && !a.EnterIfFirst? && !a.LeaveIfLast? && !a.RestartLeave? && !a.RestartEnter?
    && !a.ReloadLeave? && !a.ReloadEnter? && !a.StopReaper? && !a.StartReaper?
  }

  lemma SilentData(s: State, t: Thread, here: Place, a: Action)
    requires From(here, t, a) && Guard(s, t, here, a) && Silent(a)
    ensures Data(s, t, here, a) == s
  {
  }

  lemma MovesLeaveData(s: State, t: Thread, a: Action)
    requires Enabled(s, t, a) && Moves(a)
    ensures SameData(s, Next(s, t, a))
    ensures PlaceOf(Next(s, t, a), t) == Where(s, t, PlaceOf(s, t), a)
    ensures !a.StopReaper? && !a.StartReaper? ==> Other(Next(s, t, a), t) == Other(s, t)
  {
    if Silent(a) { SilentData(s, t, PlaceOf(s, t), a); }
  }

  lemma SamePlace(s: State, s': State, t: Thread, p: Place)
    requires PlaceOkAt(s, t, p) && SameData(s, s')
    requires s'.reaper.Found? ==> s'.reaper == s.reaper || s'.reaper.id in s.list
    ensures PlaceOkAt(s', t, p)
  {
  }

  lemma SameReferences(s: State, s': State)
    requires OwnedOk(s) && SameData(s, s')
    requires forall id :: Owns(s'.bus, id) == Owns(s.bus, id) && Owns(s'.reaper, id) == Owns(s.reaper, id)
    ensures OwnedOk(s')
  {
    forall id ensures References(s', id) == References(s, id) {
    }
  }

  lemma SamePointers(s: State, s': State)
    requires PointersOk(s) && s'.list == s.list && s'.head == s.head && s'.next == s.next && s'.heap.Keys == s.heap.Keys
    requires forall id :: Dangles(s.bus, id) || Dangles(s.reaper, id) ==> Dangles(s'.bus, id) || Dangles(s'.reaper, id)
    ensures PointersOk(s')
  {
    forall id ensures NextOf(s', id) == NextOf(s, id) {
    }
  }

  lemma MoveKeepsInv(s: State, t: Thread, a: Action)
    requires Inv(s) && Enabled(s, t, a) && Moves(a) && !a.StopReaper? && !a.StartReaper?
    ensures Inv(Next(s, t, a))
  {
    var s', here, o := Next(s, t, a), PlaceOf(s, t), OtherThread(t);
    MovesLeaveData(s, t, a);
    StepKeepsLock(s, t, here, Other(s, t), a);
    MovesLeaveParts(s, t, here, a, 0);
    forall id { MovesLeaveParts(s, t, here, a, id); }
    MovesArrive(s, t, here, a);
    FoundIsListed(s, t, here, a);
    SamePlace(s, s', t, PlaceOf(s', t));
    SamePlace(s, s', o, PlaceOf(s', o));
    SameReferences(s, s');
    SamePointers(s, s');
  }

  lemma FoundIsListed(s: State, t: Thread, here: Place, a: Action)
    requires From(here, t, a) && Guard(s, t, here, a) && Moves(a)
    ensures Where(s, t, here, a).Found? ==> Where(s, t, here, a) == here || Where(s, t, here, a).id in s.list
  {
  }

  lemma StopKeepsInv(s: State, t: Thread, a: Action)
    requires Inv(s) && Enabled(s, t, a) && (a.StopReaper? || a.StartReaper?)
    ensures Inv(Next(s, t, a))
  {
    assert a.StopReaper? ==> Next(s, t, a) == s.(reaper := Stopped);
    assert a.StartReaper? ==> Next(s, t, a) == s.(reaper := Idle);
    RestingKeepsInv(s, PlaceOf(Next(s, t, a), Reaper));
  }

  /** Nothing depends on whether the resting reaper is stopped. */
  lemma RestingKeepsInv(s: State, p: Place)
    requires Inv(s) && (s.reaper == Idle || s.reaper == Stopped) && (p == Idle || p == Stopped)
    ensures Inv(s.(reaper := p))
  {
    var s' := s.(reaper := p);
    SamePlace(s, s', Bus, s'.bus);
    SameReferences(s, s');
    SamePointers(s, s');
  }

  // ------------------------------------------------ steps that write

  /** The two threads of a state in which one of them holds the lock for writing. */
  predicate Alone(s: State, t: Thread) {
    Inv(s) && Writes(PlaceOf(s, t))
  }

  /** What is left of the invariant when the lock is seen to. */
  predicate RestOk(s: State) {
    ListOk(s) && CountOk(s) && PlaceOk(s, Bus) && PlaceOk(s, Reaper)
  }

  lemma CreateKeepsRest(s: State, t: Thread, id: int, pid: int)
    requires Inv(s) && PlaceOf(s, t) == RegAbsent(pid) && id !in s.heap
    ensures RestOk(Goes(Creating(s, id, pid), t, RegReady(pid, id)))
  {
  }

  lemma CreateKeepsOwned(s: State, t: Thread, id: int, pid: int)
    requires Inv(s) && PlaceOf(s, t) == RegAbsent(pid) && id !in s.heap
    ensures OwnedOk(Goes(Creating(s, id, pid), t, RegReady(pid, id)))
  {
  }

  lemma CreateKeepsPointers(s: State, t: Thread, id: int, pid: int)
    requires Inv(s) && PlaceOf(s, t) == RegAbsent(pid) && id !in s.heap
    ensures PointersOk(Goes(Creating(s, id, pid), t, RegReady(pid, id)))
  {
    var s' := Goes(Creating(s, id, pid), t, RegReady(pid, id));
    forall x ensures NextOf(s', x) == if x == id then None else NextOf(s, x) {
    }
  }

  lemma SetNextKeepsRest(s: State, t: Thread, id: int, pid: int)
    requires Alone(s, t) && PlaceOf(s, t) == RegWriting(pid, id)
    ensures RestOk(Goes(Pointing(s, id, s.head), t, RegPointed(pid, id)))
    ensures OwnedOk(Goes(Pointing(s, id, s.head), t, RegPointed(pid, id)))
  {
  }

  lemma SetNextKeepsPointers(s: State, t: Thread, id: int, pid: int)
    requires Alone(s, t) && PlaceOf(s, t) == RegWriting(pid, id)
    ensures PointersOk(Goes(Pointing(s, id, s.head), t, RegPointed(pid, id)))
  {
    var s' := Goes(Pointing(s, id, s.head), t, RegPointed(pid, id));
    forall x ensures NextOf(s', x) == if x == id then s.head else NextOf(s, x) {
    }
  }

  /** The checked pid is still absent, because only one thread registers. */
  lemma InsertKeepsRest(s: State, t: Thread, id: int, pid: int)
    requires Alone(s, t) && PlaceOf(s, t) == RegPointed(pid, id)
    ensures RestOk(Goes(Inserting(s, id), t, RegLinked))
  {
  }

  lemma InsertKeepsOwned(s: State, t: Thread, id: int, pid: int)
    requires Alone(s, t) && PlaceOf(s, t) == RegPointed(pid, id)
    ensures OwnedOk(Goes(Inserting(s, id), t, RegLinked))
  {
  }

  lemma InsertKeepsPointers(s: State, t: Thread, id: int, pid: int)
    requires Alone(s, t) && PlaceOf(s, t) == RegPointed(pid, id)
    ensures PointersOk(Goes(Inserting(s, id), t, RegLinked))
  {
    var s' := Goes(Inserting(s, id), t, RegLinked);
    forall x ensures NextOf(s', x) == NextOf(s, x) {
    }
    forall i {:trigger NextOf(s', s'.list[i])} | 0 <= i < |s'.list|
      ensures NextOf(s', s'.list[i]) == Nth(s'.list, i + 1)
    {
      if i > 0 { assert NextOf(s, s.list[i - 1]) == Nth(s.list, i); }
    }
  }

  /** What is listed after taking out position k. */
  lemma SplicedListed(s: State, s': State, k: nat)
    requires ListOk(s) && k < |s.list| && s'.list == Without(s.list, k) && s'.heap == s.heap
    ensures ListOk(s') && forall p :: Listed(s', p) ==> Listed(s, p)
  {
    DistinctWithout(s.list, k);
    forall i | 0 <= i < |s'.list| ensures s'.list[i] == s.list[if i < k then i else i + 1] {
    }
  }

  lemma SpliceKeepsRest(s: State, t: Thread, pid: int, k: nat)
    requires Alone(s, t) && PlaceOf(s, t) == UnregWriting(pid) && k < |s.list|
    ensures RestOk(Goes(Splicing(s, k), t, UnregSpliced(s.list[k])))
  {
    var s' := Goes(Splicing(s, k), t, UnregSpliced(s.list[k]));
    SplicedListed(s, s', k);
    SplicedPlace(s, s', t, k);
    SplicedCount(s, t, pid, k);
  }

  lemma SplicedCount(s: State, t: Thread, pid: int, k: nat)
    requires ListOk(s) && CountOk(s) && PlaceOf(s, t) == UnregWriting(pid) && k < |s.list|
    ensures var s' := Goes(Splicing(s, k), t, UnregSpliced(s.list[k]));
            CountOk(s') && PlaceOk(s', t)
  {
    DistinctWithout(s.list, k);
  }

  /** Taking a client out does no harm to the thread that does not hold the lock. */
  lemma SplicedPlace(s: State, s': State, t: Thread, k: nat)
    requires Alone(s, t) && k < |s.list|
    requires s'.list == Without(s.list, k) && s'.heap == s.heap && s'.refcount == s.refcount
    requires s'.reaper.Found? ==> s'.reaper == s.reaper
    requires PlaceOf(s', OtherThread(t)) == Other(s, t)
    requires forall p :: Listed(s', p) ==> Listed(s, p)
    ensures PlaceOk(s', OtherThread(t))
  {
    DistinctWithout(s.list, k);
  }

  /** The reference of the list becomes one of the thread that removes the client. */
  lemma SplicedReferences(s: State, t: Thread, pid: int, k: nat, id: int)
    requires Distinct(s.list) && PlaceOf(s, t) == UnregWriting(pid) && k < |s.list|
    ensures References(Goes(Splicing(s, k), t, UnregSpliced(s.list[k])), id) == References(s, id)
  {
    DistinctWithout(s.list, k);
    assert id in Without(s.list, k) <==> id in s.list && id != s.list[k];
  }

  lemma SpliceKeepsOwned(s: State, t: Thread, pid: int, k: nat)
    requires ListOk(s) && OwnedOk(s) && PlaceOf(s, t) == UnregWriting(pid) && k < |s.list|
    ensures OwnedOk(Goes(Splicing(s, k), t, UnregSpliced(s.list[k])))
  {
    var s' := Goes(Splicing(s, k), t, UnregSpliced(s.list[k]));
    forall id { SplicedReferences(s, t, pid, k, id); }
    assert s'.heap == s.heap && s'.held == s.held;
  }

  /** After the splice the head and `next` go through the shorter list. */
  lemma SpliceKeepsPointers(s: State, t: Thread, pid: int, k: nat)
    requires Alone(s, t) && PlaceOf(s, t) == UnregWriting(pid) && k < |s.list|
    ensures PointersOk(Goes(Splicing(s, k), t, UnregSpliced(s.list[k])))
  {
    var s' := Goes(Splicing(s, k), t, UnregSpliced(s.list[k]));
    DistinctWithout(s.list, k);
    SplicedNext(s, s', k);
    forall id | id in s'.heap && id !in s'.list && !Dangles(s'.bus, id) && !Dangles(s'.reaper, id)
      ensures NextOf(s', id) == None
    {
      assert id !in s.list;
    }
  }

  lemma SplicedNext(s: State, s': State, k: nat)
    requires PointersOk(s) && Distinct(s.list) && k < |s.list|
    requires forall i :: 0 <= i < |s.list| ==> s.list[i] in s.heap
    requires s'.list == Splicing(s, k).list && s'.head == Splicing(s, k).head && s'.next == Splicing(s, k).next
    ensures s'.next.Keys == s.next.Keys && s'.head == Nth(s'.list, 0)
    ensures forall i {:trigger NextOf(s', s'.list[i])} :: 0 <= i < |s'.list| ==>
              NextOf(s', s'.list[i]) == Nth(s'.list, i + 1)
    ensures forall id :: id !in s.list || id == s.list[k] ==> NextOf(s', id) == NextOf(s, id)
  {
    assert NextOf(s, s.list[k]) == Nth(s.list, k + 1);
    if k > 0 { assert s.list[k - 1] in s.next.Keys; }
    forall id ensures NextOf(s', id) == if k > 0 && id == s.list[k - 1] then Nth(s.list, k + 1) else NextOf(s, id) {
    }
    forall i {:trigger NextOf(s', s'.list[i])} | 0 <= i < |s'.list|
      ensures NextOf(s', s'.list[i]) == Nth(s'.list, i + 1)
    {
      SplicedNextAt(s, s', k, i);
    }
  }

  lemma SplicedNextAt(s: State, s': State, k: nat, i: nat)
    requires Distinct(s.list) && k < |s.list| && s'.list == Without(s.list, k) && i < |s'.list|
    requires forall i {:trigger NextOf(s, s.list[i])} :: 0 <= i < |s.list| ==>
               NextOf(s, s.list[i]) == Nth(s.list, i + 1)
    requires forall id ::
               NextOf(s', id) == if k > 0 && id == s.list[k - 1] then Nth(s.list, k + 1) else NextOf(s, id)
    ensures NextOf(s', s'.list[i]) == Nth(s'.list, i + 1)
  {
    var j := if i < k then i else i + 1;
    assert s'.list[i] == s.list[j] && NextOf(s, s.list[j]) == Nth(s.list, j + 1);
    assert k > 0 && s.list[j] == s.list[k - 1] ==> j == k - 1;
  }

  lemma ClearKeepsRest(s: State, t: Thread, id: int)
    requires Alone(s, t) && PlaceOf(s, t) == UnregSpliced(id)
    ensures RestOk(Goes(Pointing(s, id, None), t, UnregCut(id)))
  {
  }

  lemma ClearKeepsOwned(s: State, t: Thread, id: int)
    requires Alone(s, t) && PlaceOf(s, t) == UnregSpliced(id)
    ensures OwnedOk(Goes(Pointing(s, id, None), t, UnregCut(id)))
  {
    var s' := Goes(Pointing(s, id, None), t, UnregCut(id));
    forall x ensures References(s', x) == References(s, x) {
    }
  }

  lemma ClearKeepsPointers(s: State, t: Thread, id: int)
    requires Alone(s, t) && PlaceOf(s, t) == UnregSpliced(id)
    ensures PointersOk(Goes(Pointing(s, id, None), t, UnregCut(id)))
  {
    var s' := Goes(Pointing(s, id, None), t, UnregCut(id));
    forall x ensures NextOf(s', x) == if x == id then None else NextOf(s, x) {
    }
  }

  /** A count that changes with the references stays right. */
  lemma ChangedOwned(s: State, s': State, id: int, d: int)
    requires OwnedOk(s) && id in s.heap && s'.heap == Changed(s.heap, id, d) && s.heap[id].refcount + d >= 0
    requires d > 0 ==> s.heap[id].live
    requires forall x :: x in s'.held ==> x in s.heap
    requires forall x :: References(s', x) == References(s, x) + if x == id then d else 0
    ensures OwnedOk(s')
  {
    forall x | x in s'.heap
      ensures s'.heap[x].refcount == References(s', x) && (s'.heap[x].live <==> References(s', x) > 0)
    {
      assert s.heap[x].refcount == References(s, x);
    }
  }

  /** A removed client that is freed has no next any more, so the unref stops there. */
  lemma DropKeepsRest(s: State, t: Thread, id: int)
    requires Alone(s, t) && PlaceOf(s, t) == UnregCut(id)
    ensures AfterUnref(s, id, true) == UnregReleased
    ensures RestOk(Goes(Unreffing(s, id), t, UnregReleased))
  {
  }

  lemma DropKeepsOwned(s: State, t: Thread, id: int)
    requires Alone(s, t) && PlaceOf(s, t) == UnregCut(id)
    ensures OwnedOk(Goes(Unreffing(s, id), t, UnregReleased))
  {
    var s' := Goes(Unreffing(s, id), t, UnregReleased);
    forall x ensures References(s', x) == References(s, x) + if x == id then -1 else 0 {
    }
    assert s.heap[id].refcount == References(s, id);
    ChangedOwned(s, s', id, -1);
  }

  lemma DropKeepsPointers(s: State, t: Thread, id: int)
    requires PointersOk(s) && PlaceOf(s, t) == UnregCut(id)
    ensures PointersOk(Goes(Unreffing(s, id), t, UnregReleased))
  {
    OtherwiseSamePointers(s, Unreffing(s, id), t, UnregReleased);
  }

  /** A looked-up client whose last reference is given back is out of the list and has no next. */
  lemma ReleaseStops(s: State, id: int)
    requires Inv(s) && id in s.held
    ensures AfterUnref(s, id, false) == Idle
  {
    assert s.heap[id].refcount == References(s, id);
  }

  lemma ReleaseKeepsRest(s: State, t: Thread, id: int)
    requires Inv(s) && PlaceOf(s, t) == Idle && id in s.held
    ensures RestOk(Goes(Releasing(s, id), t, Idle))
  {
  }

  lemma ReleaseKeepsOwned(s: State, t: Thread, id: int)
    requires Inv(s) && PlaceOf(s, t) == Idle && id in s.held
    ensures OwnedOk(Goes(Releasing(s, id), t, Idle))
  {
    var s' := Goes(Releasing(s, id), t, Idle);
    forall x ensures References(s', x) == References(s, x) + if x == id then -1 else 0 {
    }
    assert s.heap[id].refcount == References(s, id);
    ChangedOwned(s, s', id, -1);
  }

  lemma TakeKeepsRest(s: State, t: Thread, pid: int, id: int)
    requires Inv(s) && PlaceOf(s, t) == Looking(pid) && id in s.list
    ensures RestOk(Goes(Taking(s, id), t, Idle))
    ensures OwnedOk(Goes(Taking(s, id), t, Idle))
  {
  }

  lemma LookupKeepsPointers(s: State, t: Thread, id: int)
    requires PointersOk(s) && (PlaceOf(s, t).Looking? || PlaceOf(s, t) == Idle)
    ensures PointersOk(Goes(Taking(s, id), t, Idle)) && PointersOk(Goes(Releasing(s, id), t, Idle))
  {
    OtherwiseSamePointers(s, Taking(s, id), t, Idle);
    OtherwiseSamePointers(s, Releasing(s, id), t, Idle);
  }

  lemma CountUpKeepsRest(s: State, t: Thread)
    requires Alone(s, t) && PlaceOf(s, t) == RegLinked
    ensures RestOk(Goes(Counting(s, 1), t, RegCounted(s.refcount == 0)))
  {
  }

  lemma CountDownKeepsRest(s: State, t: Thread)
    requires Alone(s, t) && PlaceOf(s, t) == UnregReleased
    ensures RestOk(Goes(Counting(s, -1), t, UnregCounted(s.refcount == 1)))
  {
  }

  lemma CountingKeepsOwned(s: State, t: Thread, d: int, there: Place)
    requires OwnedOk(s) && forall id :: Owns(there, id) == Owns(PlaceOf(s, t), id)
    ensures OwnedOk(Goes(Counting(s, d), t, there))
  {
    var s' := Goes(Counting(s, d), t, there);
    forall x ensures References(s', x) == References(s, x) {
    }
  }

  /** Counts and references leave the pointers alone. */
  lemma OtherwiseSamePointers(s: State, data: State, t: Thread, there: Place)
    requires PointersOk(s) && data.list == s.list && data.head == s.head
    requires data.next == s.next && data.heap.Keys == s.heap.Keys
    requires data.bus == s.bus && data.reaper == s.reaper
    requires forall id :: Dangles(PlaceOf(s, t), id) ==> Dangles(there, id)
    ensures PointersOk(Goes(data, t, there))
  {
    SamePointers(s, Goes(data, t, there));
  }

  // ------------------------------------------------ every step

  lemma CreateKeepsInv(s: State, t: Thread, a: Action)
    requires Inv(s) && Enabled(s, t, a) && a.Create?
    ensures Inv(Next(s, t, a))
  {
    var here := PlaceOf(s, t);
    StepKeepsLock(s, t, here, Other(s, t), a);
    CreateKeepsRest(s, t, a.id, here.pid);
    CreateKeepsOwned(s, t, a.id, here.pid);
    CreateKeepsPointers(s, t, a.id, here.pid);
  }

  lemma SetNextKeepsInv(s: State, t: Thread, a: Action)
    requires Inv(s) && Enabled(s, t, a) && a.SetNext?
    ensures Inv(Next(s, t, a))
  {
    var here := PlaceOf(s, t);
    StepKeepsLock(s, t, here, Other(s, t), a);
    SetNextKeepsRest(s, t, here.id, here.pid);
    SetNextKeepsPointers(s, t, here.id, here.pid);
  }

  lemma InsertKeepsInv(s: State, t: Thread, a: Action)
    requires Inv(s) && Enabled(s, t, a) && a.Insert?
    ensures Inv(Next(s, t, a))
  {
    var here := PlaceOf(s, t);
    StepKeepsLock(s, t, here, Other(s, t), a);
    InsertKeepsRest(s, t, here.id, here.pid);
    InsertKeepsOwned(s, t, here.id, here.pid);
    InsertKeepsPointers(s, t, here.id, here.pid);
  }

  lemma CountUpKeepsInv(s: State, t: Thread, a: Action)
    requires Inv(s) && Enabled(s, t, a) && a.CountUp?
    ensures Inv(Next(s, t, a))
  {
    StepKeepsLock(s, t, PlaceOf(s, t), Other(s, t), a);
    CountUpKeepsRest(s, t);
    CountingKeepsOwned(s, t, 1, RegCounted(s.refcount == 0));
    OtherwiseSamePointers(s, Counting(s, 1), t, RegCounted(s.refcount == 0));
  }

  lemma SpliceKeepsInv(s: State, t: Thread, a: Action)
    requires Inv(s) && Enabled(s, t, a) && a.SpliceOut?
    ensures Inv(Next(s, t, a))
  {
    var here := PlaceOf(s, t);
    StepKeepsLock(s, t, here, Other(s, t), a);
    SpliceKeepsRest(s, t, here.pid, a.k);
    SpliceKeepsOwned(s, t, here.pid, a.k);
    SpliceKeepsPointers(s, t, here.pid, a.k);
  }

  lemma ClearKeepsInv(s: State, t: Thread, a: Action)
    requires Inv(s) && Enabled(s, t, a) && a.ClearNext?
    ensures Inv(Next(s, t, a))
  {
    var here := PlaceOf(s, t);
    StepKeepsLock(s, t, here, Other(s, t), a);
    ClearKeepsRest(s, t, here.id);
    ClearKeepsOwned(s, t, here.id);
    ClearKeepsPointers(s, t, here.id);
  }

  lemma DropKeepsInv(s: State, t: Thread, a: Action)
    requires Inv(s) && Enabled(s, t, a) && a.DropReference?
    ensures Inv(Next(s, t, a))
  {
    var here := PlaceOf(s, t);
    StepKeepsLock(s, t, here, Other(s, t), a);
    DropKeepsRest(s, t, here.id);
    DropKeepsOwned(s, t, here.id);
    DropKeepsPointers(s, t, here.id);
  }

  lemma CountDownKeepsInv(s: State, t: Thread, a: Action)
    requires Inv(s) && Enabled(s, t, a) && a.CountDown?
    ensures Inv(Next(s, t, a))
  {
    var here := PlaceOf(s, t);
    StepKeepsLock(s, t, here, Other(s, t), a);
    CountDownKeepsRest(s, t);
    CountingKeepsOwned(s, t, -1, UnregCounted(s.refcount == 1));
    OtherwiseSamePointers(s, Counting(s, -1), t, UnregCounted(s.refcount == 1));
  }

  lemma TakeKeepsInv(s: State, t: Thread, a: Action)
    requires Inv(s) && Enabled(s, t, a) && a.TakeReference?
    ensures Inv(Next(s, t, a))
  {
    var here, id := PlaceOf(s, t), s.list[a.k];
    StepKeepsLock(s, t, here, Other(s, t), a);
    TakeKeepsRest(s, t, here.pid, id);
    LookupKeepsPointers(s, t, id);
  }

  lemma ReleaseKeepsInv(s: State, t: Thread, a: Action)
    requires Inv(s) && Enabled(s, t, a) && a.Release?
    ensures Inv(Next(s, t, a))
  {
    StepKeepsLock(s, t, PlaceOf(s, t), Other(s, t), a);
    ReleaseStops(s, a.id);
    ReleaseKeepsRest(s, t, a.id);
    ReleaseKeepsOwned(s, t, a.id);
    LookupKeepsPointers(s, t, a.id);
  }

  /** No unref ever goes on to a second client. */
  lemma NeverCascades(s: State, t: Thread, a: Action)
    requires Inv(s) && Enabled(s, t, a)
    ensures !a.UnrefNext?
  {
  }

  lemma StepKeepsInv(s: State, t: Thread, a: Action)
    requires Inv(s) && Enabled(s, t, a)
    ensures Inv(Next(s, t, a))
  {
    NeverCascades(s, t, a);
    if a.Create? { CreateKeepsInv(s, t, a); }
    else if a.SetNext? { SetNextKeepsInv(s, t, a); }
    else if a.Insert? { InsertKeepsInv(s, t, a); }
    else if a.CountUp? { CountUpKeepsInv(s, t, a); }
    else if a.SpliceOut? { SpliceKeepsInv(s, t, a); }
    else if a.ClearNext? { ClearKeepsInv(s, t, a); }
    else if a.DropReference? { DropKeepsInv(s, t, a); }
    else if a.CountDown? { CountDownKeepsInv(s, t, a); }
    else if a.TakeReference? { TakeKeepsInv(s, t, a); }
    else if a.Release? { ReleaseKeepsInv(s, t, a); }
    else if a.StopReaper? || a.StartReaper? { StopKeepsInv(s, t, a); }
    else { MoveKeepsInv(s, t, a); }
  }

  // ---------------------------------------------------------------- whole runs

  datatype Step = Step(thread: Thread, action: Action)

  function Start(): State {
    State([], None, map[], map[], 0, multiset{}, [], Idle, Idle)
  }

  /** The state after a run of steps from `s`, or None when one of them cannot happen where it stands. */
  function RunFrom(s: State, steps: seq<Step>): Option<State>
    decreases |steps|
  {
    if steps == [] then Some(s)
    else
      var before := RunFrom(s, steps[..|steps| - 1]);
      var step := steps[|steps| - 1];
      if before.Some? && Enabled(before.value, step.thread, step.action)
      then Some(Next(before.value, step.thread, step.action))
      else None
  }

  /** The state after a run of the daemon. */
  function After(steps: seq<Step>): Option<State> {
    RunFrom(Start(), steps)
  }

  lemma {:induction false} RunsKeepInv(steps: seq<Step>)
    ensures After(steps).Some? ==> Inv(After(steps).value)
  {
    if steps != [] && After(steps).Some? {
      var init, last := steps[..|steps| - 1], steps[|steps| - 1];
      RunsKeepInv(init);
      StepKeepsInv(After(init).value, last.thread, last.action);
    }
  }

  /**
   In every interleaving, whenever nobody holds the lock for writing, no client and no pid
   is listed twice and the context's count is the length of the list; so a thread that is
   listing the clients has read the length it will find.
   */
  lemma {:induction false} UnwrittenListIsSound(steps: seq<Step>, s: State)
    requires After(steps) == Some(s)
    ensures !Writes(s.bus) && !Writes(s.reaper) ==> ListOk(s) && s.refcount == |s.list|
    ensures s.bus.Listing? ==> s.bus.n == |s.list|
  {
    RunsKeepInv(steps);
    UnwrittenIsSound(s);
  }

  lemma UnwrittenIsSound(s: State)
    requires Inv(s)
    ensures !Writes(s.bus) && !Writes(s.reaper) ==> ListOk(s) && s.refcount == |s.list|
    ensures s.bus.Listing? ==> s.bus.n == |s.list|
  {
  }

  /** The ids met from a client on by following `next`, at most n of them. */
  function Walk(s: State, from: Option<int>, n: nat): seq<int>
    decreases n
  {
    if n == 0 || from.None? then [] else [from.value] + Walk(s, NextOf(s, from.value), n - 1)
  }

  lemma {:induction false} WalkFrom(s: State, i: nat, n: nat)
    requires PointersOk(s) && i <= |s.list| <= i + n
    ensures Walk(s, Nth(s.list, i), n) == s.list[i..]
    decreases n
  {
    if i < |s.list| {
      assert NextOf(s, s.list[i]) == Nth(s.list, i + 1);
      WalkFrom(s, i + 1, n - 1);
      assert s.list[i..] == [s.list[i]] + s.list[i + 1..];
    }
  }

  lemma PointersGoThrough(s: State, n: nat)
    requires PointersOk(s) && n >= |s.list|
    ensures Walk(s, s.head, n) == s.list
  {
    WalkFrom(s, 0, n);
    assert s.list[0..] == s.list;
  }

  lemma NobodyCascades(s: State)
    requires PlaceOk(s, Bus) && PlaceOk(s, Reaper)
    ensures !s.bus.Cascading? && !s.reaper.Cascading?
  {
  }

  /**
   In every interleaving, even in the middle of an insertion or a removal, following the
   pointers from the head goes once through the list and ends; and no unref has ever gone on
   to the next client, so that giving up one client never takes a reference from another.
   */
  lemma {:induction false} PointersAreSound(steps: seq<Step>, s: State, n: nat)
    requires After(steps) == Some(s) && n >= |s.list|
    ensures Walk(s, s.head, n) == s.list
    ensures !s.bus.Cascading? && !s.reaper.Cascading?
  {
    RunsKeepInv(steps);
    PointersGoThrough(s, n);
    NobodyCascades(s);
  }

  lemma OwnedIsLive(s: State, id: int)
    requires ListOk(s) && OwnedOk(s)
    ensures id in s.list || id in s.held ==> id in s.heap && s.heap[id].live
    ensures id in s.heap ==>
              (s.heap[id].live <==> id in s.list || id in s.held || Owns(s.bus, id) + Owns(s.reaper, id) > 0)
  {
  }

  /**
   In every interleaving a client's memory is there exactly while somebody refers to it: the
   list, a lookup that has not given it back, or a thread in the middle of adding or removing
   it. Every listed or held client is there.
   */
  lemma {:induction false} LiveIffReferred(steps: seq<Step>, s: State, id: int)
    requires After(steps) == Some(s)
    ensures id in s.list || id in s.held ==> id in s.heap && s.heap[id].live
    ensures id in s.heap ==>
              (s.heap[id].live <==> id in s.list || id in s.held || Owns(s.bus, id) + Owns(s.reaper, id) > 0)
  {
    RunsKeepInv(steps);
    OwnedIsLive(s, id);
  }

  /**
   The reaper reads a found client's pid after it has given up the lock. The client is still
   there exactly if it is still listed, held, or not yet released by the bus that is removing it.
   */
  lemma {:induction false} FoundIsLiveIff(steps: seq<Step>, s: State, id: int)
    requires After(steps) == Some(s) && s.reaper == Found(id)
    ensures && id in s.heap
            && (s.heap[id].live <==> id in s.list || id in s.held || s.bus == UnregSpliced(id) || s.bus == UnregCut(id))
  {
    RunsKeepInv(steps);
    FoundIsOwned(s, id);
  }

  lemma FoundIsOwned(s: State, id: int)
    requires Inv(s) && s.reaper == Found(id)
    ensures && id in s.heap
            && (s.heap[id].live <==> id in s.list || id in s.held || s.bus == UnregSpliced(id) || s.bus == UnregCut(id))
  {
    OwnedIsLive(s, id);
  }

  // ---------------------------------------------------------------- enter and leave

  /** Between a change of the count, or one half of a restart or reload, and the call that follows it. */
  predicate Pending(p: Place) {
    p == RegCounted(true) || p == UnregCounted(true) || p == ReloadLeft || p == RestartLeft
  }

  /** The calls alternate, and say "entered" when there is a client, except just before a call. */
  predicate Phased(s: State) {
    && Alternates(s.calls)
    && (|s.calls| % 2 == 1 <==> (s.refcount != 0) != (Pending(s.bus) || Pending(s.reaper)))
    && (s.bus == RestartLeft || s.reaper == RestartLeft ==> s.refcount != 0)
  }

  /** A restart that leaves although the last client has gone since it tested the count. */
  predicate Stale(s: State, a: Action) {
    a.RestartLeave? && s.refcount == 0
  }

  lemma AlternatesNext(calls: seq<Call>, c: Call)
    ensures Alternates(calls + [c]) <==> Alternates(calls) && c == if |calls| % 2 == 0 then Entered else Left
  {
    var longer := calls + [c];
    assert longer[|calls|] == c;
    if Alternates(longer) {
      forall i | 0 <= i < |calls| ensures calls[i] == if i % 2 == 0 then Entered else Left {
        assert longer[i] == calls[i];
      }
    }
  }

  /** Does the action call enter or leave? */
  predicate Calls(a: Action) {
    a.EnterIfFirst? || a.LeaveIfLast? || a.RestartLeave? || a.RestartEnter? || a.ReloadLeave? || a.ReloadEnter?
  }

  lemma CountKeepsPhase(s: State, t: Thread, a: Action)
    requires Inv(s) && Phased(s) && Enabled(s, t, a) && (a.CountUp? || a.CountDown?)
    ensures Phased(Next(s, t, a))
  {
  }

  /** Without a call or a count nothing is pending before, */
  lemma QuietBefore(s: State, t: Thread, here: Place, a: Action)
    requires From(here, t, a) && !Calls(a) && !a.CountUp? && !a.CountDown?
    ensures !Pending(here)
  {
    match here
    case RegCounted(_) =>
    case UnregCounted(_) =>
    case ReloadLeft =>
    case RestartLeft =>
    case _ =>
  }

  /** and nothing after, */
  lemma QuietAfter(s: State, t: Thread, here: Place, a: Action)
    requires From(here, t, a) && Guard(s, t, here, a) && !Calls(a) && !a.CountUp? && !a.CountDown?
    ensures !Pending(Where(s, t, here, a))
  {
    ActionLeads(s, t, here, a);
    NothingPending(Where(s, t, here, a), a);
  }

  lemma NothingPending(there: Place, a: Action)
    requires LeadsTo(a, there) && !Calls(a) && !a.CountUp? && !a.CountDown?
    ensures !Pending(there)
  {
  }

  /** and the calls, the count and what is pending elsewhere stay as they are. */
  lemma QuietData(s: State, t: Thread, here: Place, a: Action)
    requires From(here, t, a) && Guard(s, t, here, a) && !Calls(a) && !a.CountUp? && !a.CountDown?
    ensures var data := Data(s, t, here, a);
            && data.calls == s.calls && data.refcount == s.refcount && data.bus == s.bus
            && (data.reaper == s.reaper || (t == Bus && !Pending(data.reaper) && !Pending(s.reaper)))
  {
    if Silent(a) { SilentData(s, t, here, a); }
  }

  lemma QuietKeepsPhase(s: State, t: Thread, a: Action)
    requires Phased(s) && Enabled(s, t, a) && !Calls(a) && !a.CountUp? && !a.CountDown?
    ensures Phased(Next(s, t, a))
  {
    QuietBefore(s, t, PlaceOf(s, t), a);
    QuietAfter(s, t, PlaceOf(s, t), a);
    QuietData(s, t, PlaceOf(s, t), a);
  }

  /** A thread with something pending, or in a restart, is the only one. */
  lemma OtherNotPending(s: State, t: Thread)
    requires Locked(s) && PlaceOk(s, Bus) && PlaceOk(s, Reaper)
    requires Writes(PlaceOf(s, t)) || PlaceOf(s, t) == RestartLocked || PlaceOf(s, t) == RestartLeft
    ensures !Pending(Other(s, t)) && Other(s, t) != RestartLeft
  {
  }

  /** The right call at the right time. */
  lemma CallKeepsPhase(s: State, t: Thread, c: Call, there: Place)
    requires Phased(s) && !Pending(Other(s, t)) && Other(s, t) != RestartLeft
    requires Pending(there) != Pending(PlaceOf(s, t)) && (there == RestartLeft ==> s.refcount != 0)
    ensures Alternates(s.calls + [c]) <==> c == if |s.calls| % 2 == 1 then Left else Entered
    ensures Alternates(s.calls + [c]) ==> Phased(Goes(Calling(s, c), t, there))
  {
    AlternatesNext(s.calls, c);
  }

  /** No call is due, and none is made. */
  lemma NoCallKeepsPhase(s: State, t: Thread, there: Place)
    requires Phased(s) && !Pending(there) && !Pending(PlaceOf(s, t)) && there != RestartLeft
    ensures Phased(Goes(s, t, there))
  {
  }

  lemma MemberKeepsPhase(s: State, t: Thread, a: Action)
    requires Inv(s) && Phased(s) && Enabled(s, t, a) && (a.EnterIfFirst? || a.LeaveIfLast?)
    ensures Phased(Next(s, t, a))
  {
    OtherNotPending(s, t);
    var here := PlaceOf(s, t);
    if here == RegCounted(true) { CallKeepsPhase(s, t, Entered, Finishing); }
    else if here == UnregCounted(true) { CallKeepsPhase(s, t, Left, Finishing); }
    else { NoCallKeepsPhase(s, t, Finishing); }
  }

  lemma ReloadLeaveKeepsPhase(s: State, t: Thread, a: Action)
    requires Inv(s) && Phased(s) && Enabled(s, t, a) && a.ReloadLeave?
    ensures Phased(Next(s, t, a))
  {
    OtherNotPending(s, t);
    CallKeepsPhase(s, t, Left, ReloadLeft);
  }

  lemma ReloadEnterKeepsPhase(s: State, t: Thread, a: Action)
    requires Inv(s) && Phased(s) && Enabled(s, t, a) && a.ReloadEnter?
    ensures Phased(Next(s, t, a))
  {
    OtherNotPending(s, t);
    CallKeepsPhase(s, t, Entered, Finishing);
  }

  lemma RestartLeaveKeepsPhase(s: State, t: Thread, a: Action)
    requires Inv(s) && Phased(s) && Enabled(s, t, a) && a.RestartLeave?
    ensures Stale(s, a) ==> !Alternates(Next(s, t, a).calls)
    ensures !Stale(s, a) ==> Phased(Next(s, t, a))
  {
    OtherNotPending(s, t);
    if s.refcount != 0 { CallKeepsPhase(s, t, Left, RestartLeft); } else { AlternatesNext(s.calls, Left); }
  }

  lemma RestartEnterKeepsPhase(s: State, t: Thread, a: Action)
    requires Inv(s) && Phased(s) && Enabled(s, t, a) && a.RestartEnter?
    ensures Phased(Next(s, t, a))
  {
    OtherNotPending(s, t);
    CallKeepsPhase(s, t, Entered, RestartEntered);
  }

  lemma OtherStepKeepsPhase(s: State, t: Thread, a: Action)
    requires Inv(s) && Phased(s) && Enabled(s, t, a) && !a.RestartLeave?
    ensures Phased(Next(s, t, a))
  {
    if a.EnterIfFirst? || a.LeaveIfLast? { MemberKeepsPhase(s, t, a); }
    else if a.RestartEnter? { RestartEnterKeepsPhase(s, t, a); }
    else if a.ReloadLeave? { ReloadLeaveKeepsPhase(s, t, a); }
    else if a.ReloadEnter? { ReloadEnterKeepsPhase(s, t, a); }
    else if a.CountUp? || a.CountDown? { CountKeepsPhase(s, t, a); }
    else { QuietKeepsPhase(s, t, a); }
  }

  lemma StepKeepsPhase(s: State, t: Thread, a: Action)
    requires Inv(s) && Phased(s) && Enabled(s, t, a)
    ensures Stale(s, a) ==> !Alternates(Next(s, t, a).calls)
    ensures !Stale(s, a) ==> Phased(Next(s, t, a))
  {
    if a.RestartLeave? { RestartLeaveKeepsPhase(s, t, a); } else { OtherStepKeepsPhase(s, t, a); }
  }

  /** Once the calls have stopped alternating they never alternate again. */
  lemma StepKeepsBroken(s: State, t: Thread, a: Action)
    requires Enabled(s, t, a) && !Alternates(s.calls)
    ensures !Alternates(Next(s, t, a).calls)
  {
    AlternatesNext(s.calls, Entered);
    AlternatesNext(s.calls, Left);
  }

  /** No restart of the run leaves with the count at zero. */
  predicate NeverStale(steps: seq<Step>) {
    steps == [] ||
    (NeverStale(steps[..|steps| - 1]) &&
     (After(steps[..|steps| - 1]).Some? ==> !Stale(After(steps[..|steps| - 1]).value, steps[|steps| - 1].action)))
  }

  /**
   Over every interleaving, enter and leave are called in strict alternation, starting with
   enter, if and only if no restart leaves with the count at zero, and then game mode is
   entered exactly when there is a client, except just before a call.
   */
  lemma {:induction false} AlternatesIff(steps: seq<Step>)
    requires After(steps).Some?
    ensures Alternates(After(steps).value.calls) <==> NeverStale(steps)
    ensures NeverStale(steps) ==> Phased(After(steps).value)
  {
    if steps == [] {
    } else {
      var init, last := steps[..|steps| - 1], steps[|steps| - 1];
      var s := After(init).value;
      AlternatesIff(init);
      RunsKeepInv(init);
      if NeverStale(init) {
        StepKeepsPhase(s, last.thread, last.action);
      } else {
        StepKeepsBroken(s, last.thread, last.action);
      }
    }
  }

  /** The reaper takes the last client away between a restart's test of the count and its locking. */
  predicate Overtakes(s: State, step: Step) {
    step == Step(Reaper, CountDown) && s.bus == RestartTested && s.refcount == 1
  }

  predicate NeverOvertaken(steps: seq<Step>) {
    steps == [] ||
    (NeverOvertaken(steps[..|steps| - 1]) &&
     (After(steps[..|steps| - 1]).Some? ==> !Overtakes(After(steps[..|steps| - 1]).value, steps[|steps| - 1])))
  }

  /** What a restart has tested still holds. */
  predicate TestHolds(s: State) {
    && (s.bus == RestartTested || s.bus == RestartLocked ==> s.refcount != 0)
    && s.reaper != RestartTested && s.reaper != RestartLocked
  }

  lemma CountKeepsTest(s: State, t: Thread, d: int, there: Place)
    requires TestHolds(s) && Locked(s) && Writes(PlaceOf(s, t)) && !there.RestartTested? && !there.RestartLocked?
    requires s.refcount + d != 0 || s.bus != RestartTested || t == Bus
    ensures TestHolds(Goes(Counting(s, d), t, there))
  {
  }

  lemma OtherKeepsTest(s: State, t: Thread, a: Action)
    requires TestHolds(s) && Enabled(s, t, a) && !a.CountUp? && !a.CountDown?
    ensures TestHolds(Next(s, t, a))
  {
    TestPlaces(s, t, PlaceOf(s, t), a);
    SameCount(s, t, PlaceOf(s, t), a);
  }

  lemma TestPlaces(s: State, t: Thread, here: Place, a: Action)
    requires From(here, t, a) && Guard(s, t, here, a)
    ensures var there := Where(s, t, here, a);
            && (there == RestartTested ==> t == Bus && s.refcount != 0)
            && (there == RestartLocked ==> here == RestartTested)
  {
    ActionLeads(s, t, here, a);
  }

  lemma SameCount(s: State, t: Thread, here: Place, a: Action)
    requires From(here, t, a) && Guard(s, t, here, a) && !a.CountUp? && !a.CountDown?
    ensures var data := Data(s, t, here, a);
            && data.refcount == s.refcount && data.bus == s.bus
            && (data.reaper == s.reaper || (data.reaper != RestartTested && data.reaper != RestartLocked))
  {
    if Silent(a) { SilentData(s, t, here, a); }
  }

  lemma StepKeepsTest(s: State, step: Step)
    requires Inv(s) && TestHolds(s) && Enabled(s, step.thread, step.action) && !Overtakes(s, step)
    ensures TestHolds(Next(s, step.thread, step.action))
  {
    var t, a := step.thread, step.action;
    if a.CountUp? { CountKeepsTest(s, t, 1, RegCounted(s.refcount == 0)); }
    else if a.CountDown? { CountKeepsTest(s, t, -1, UnregCounted(s.refcount == 1)); }
    else { OtherKeepsTest(s, t, a); }
  }

  /** Only being overtaken makes a restart stale. */
  lemma {:induction false} StaleOnlyIfOvertaken(steps: seq<Step>)
    requires After(steps).Some? && NeverOvertaken(steps)
    ensures NeverStale(steps) && TestHolds(After(steps).value)
  {
    if steps == [] {
    } else {
      var init, last := steps[..|steps| - 1], steps[|steps| - 1];
      StaleOnlyIfOvertaken(init);
      RunsKeepInv(init);
      StepKeepsTest(After(init).value, last);
    }
  }

  /** The reaper has taken the last client away since the restart under way tested the count. */
  predicate WasOvertaken(steps: seq<Step>) {
    steps != [] &&
    var init, last := steps[..|steps| - 1], steps[|steps| - 1];
    || (After(init).Some? && Overtakes(After(init).value, last))
    || (WasOvertaken(init) && !last.action.RestartLeave?)
  }

  /** An overtaken restart, told from the state alone. */
  predicate TestFails(s: State) {
    (s.bus == RestartTested || s.bus == RestartLocked) && s.refcount == 0
  }

  lemma CountingOvertakes(s: State, t: Thread, a: Action)
    requires Inv(s) && Enabled(s, t, a) && (a.CountUp? || a.CountDown?)
    ensures TestFails(Next(s, t, a)) <==> Overtakes(s, Step(t, a)) || TestFails(s)
  {
  }

  lemma OtherOvertakes(s: State, t: Thread, a: Action)
    requires Inv(s) && Enabled(s, t, a) && !a.CountUp? && !a.CountDown?
    ensures TestFails(Next(s, t, a)) <==> TestFails(s) && !a.RestartLeave?
  {
    TestPlaces(s, t, PlaceOf(s, t), a);
    SameCount(s, t, PlaceOf(s, t), a);
    TestGoesOn(PlaceOf(s, t), t, a);
  }

  /** A thread that has tested the count goes on to lock, and then to leave. */
  lemma TestGoesOn(here: Place, t: Thread, a: Action)
    requires From(here, t, a)
    ensures here == RestartTested ==> a.LockToRestart?
    ensures here == RestartLocked ==> a.RestartLeave?
  {
    match here
    case RestartTested =>
    case RestartLocked =>
    case _ =>
  }

  lemma {:induction false} OvertakenIff(steps: seq<Step>)
    requires After(steps).Some?
    ensures WasOvertaken(steps) <==> TestFails(After(steps).value)
  {
    if steps == [] {
    } else {
      var init, last := steps[..|steps| - 1], steps[|steps| - 1];
      var s := After(init).value;
      OvertakenIff(init);
      RunsKeepInv(init);
      if last.action.CountUp? || last.action.CountDown? {
        CountingOvertakes(s, last.thread, last.action);
      } else {
        OtherOvertakes(s, last.thread, last.action);
      }
    }
  }

  /** No restart that was overtaken goes on to leave. */
  predicate NeverLeavesOvertaken(steps: seq<Step>) {
    steps == [] ||
    (NeverLeavesOvertaken(steps[..|steps| - 1]) &&
     (steps[|steps| - 1].action.RestartLeave? ==> !WasOvertaken(steps[..|steps| - 1])))
  }

  /** A restart is stale exactly when it leaves after it was overtaken. */
  lemma {:induction false} StaleIffOvertaken(steps: seq<Step>)
    requires After(steps).Some?
    ensures NeverStale(steps) <==> NeverLeavesOvertaken(steps)
  {
    if steps == [] {
    } else {
      var init, last := steps[..|steps| - 1], steps[|steps| - 1];
      StaleIffOvertaken(init);
      OvertakenIff(init);
      RunsKeepInv(init);
      if last.action.RestartLeave? { LeavesAtLock(After(init).value, last.thread, last.action); }
    }
  }

  lemma LeavesAtLock(s: State, t: Thread, a: Action)
    requires Inv(s) && Enabled(s, t, a) && a.RestartLeave?
    ensures s.bus == RestartLocked
  {
  }

  // ---------------------------------------------------------------- operations without interruption

  /** One more step of a run. */
  lemma Go(s0: State, steps: seq<Step>, s: State, t: Thread, a: Action) returns (longer: seq<Step>, s': State)
    requires RunFrom(s0, steps) == Some(s) && Enabled(s, t, a)
    ensures longer == steps + [Step(t, a)] && s' == Next(s, t, a) && RunFrom(s0, longer) == Some(s')
  {
    longer, s' := steps + [Step(t, a)], Next(s, t, a);
    assert longer[..|longer| - 1] == steps;
  }

  /** When neither thread is in the middle of writing, the count is the length of the list. */
  lemma UnbiasedCount(s: State, t: Thread)
    requires CountOk(s) && !Writes(PlaceOf(s, t)) && !Writes(Other(s, t))
    ensures s.refcount == |s.list|
  {
  }

  /** The bus can take the lock for writing, now and for as long as the reaper stays where it is. */
  predicate Quiet(s: State) {
    s.bus == Idle && !Writes(s.reaper) && !Reads(s.reaper)
  }

  /** A registration up to the new client. */
  lemma RegisterBegins(s0: State, before: seq<Step>, s: State, pid: int, id: int) returns (steps: seq<Step>, s': State)
    requires RunFrom(s0, before) == Some(s) && Quiet(s) && !Listed(s, pid) && id !in s.heap
    ensures RunFrom(s0, steps) == Some(s') && s' == Creating(s, id, pid).(bus := RegReady(pid, id))
  {
    steps, s' := Go(s0, before, s, Bus, Check(pid));
    steps, s' := Go(s0, steps, s', Bus, Absent);
    steps, s' := Go(s0, steps, s', Bus, Create(id));
  }

  /** Up to the insertion. */
  lemma RegisterInserts(s0: State, before: seq<Step>, s: State, pid: int, id: int) returns (steps: seq<Step>, s': State)
    requires RunFrom(s0, before) == Some(s) && s.bus == RegReady(pid, id) && !Writes(s.reaper) && !Reads(s.reaper)
    ensures RunFrom(s0, steps) == Some(s') && s' == Inserting(Pointing(s, id, s.head), id).(bus := RegLinked)
  {
    steps, s' := Go(s0, before, s, Bus, LockToInsert);
    steps, s' := Go(s0, steps, s', Bus, SetNext);
    steps, s' := Go(s0, steps, s', Bus, Insert);
  }

  /** And the rest. */
  lemma RegisterEnds(s0: State, before: seq<Step>, s: State) returns (steps: seq<Step>, s': State)
    requires RunFrom(s0, before) == Some(s) && s.bus == RegLinked
    ensures RunFrom(s0, steps) == Some(s')
    ensures var calls := if s.refcount == 0 then s.calls + [Entered] else s.calls;
            s' == s.(refcount := s.refcount + 1, calls := calls, bus := Idle)
  {
    steps, s' := Go(s0, before, s, Bus, CountUp);
    steps, s' := Go(s0, steps, s', Bus, EnterIfFirst);
    steps, s' := Go(s0, steps, s', Bus, Unlock);
  }

  /** A registration that nobody interrupts: the new client is at the head and counted. */
  lemma RegisterAlone(s0: State, before: seq<Step>, s: State, pid: int, id: int) returns (steps: seq<Step>, s': State)
    requires RunFrom(s0, before) == Some(s) && Inv(s) && Quiet(s) && !Listed(s, pid) && id !in s.heap
    ensures RunFrom(s0, steps) == Some(s')
    ensures s'.list == [id] + s.list && s'.head == Some(id) && NextOf(s', id) == s.head
    ensures s'.heap == s.heap[id := Cell(pid, 1, true)] && s'.held == s.held && s'.refcount == s.refcount + 1
    ensures s'.calls == if s.list == [] then s.calls + [Entered] else s.calls
    ensures s'.bus == Idle && s'.reaper == s.reaper
  {
    UnbiasedCount(s, Bus);
    steps, s' := RegisterBegins(s0, before, s, pid, id);
    steps, s' := RegisterInserts(s0, steps, s', pid, id);
    steps, s' := RegisterEnds(s0, steps, s');
  }

  /** A removal up to the splice. */
  lemma UnregisterBegins(s0: State, before: seq<Step>, s: State, t: Thread, pid: int, k: nat)
    returns (steps: seq<Step>, s': State)
    requires RunFrom(s0, before) == Some(s) && k < |s.list| && PidAt(s, s.list[k]) == pid
    requires PlaceOf(s, t) == (if t == Bus then Idle else Expiring(pid)) && !Writes(Other(s, t)) && !Reads(Other(s, t))
    ensures RunFrom(s0, steps) == Some(s') && s' == Goes(Splicing(s, k), t, UnregSpliced(s.list[k]))
  {
    steps, s' := Go(s0, before, s, t, LockToRemove(pid));
    steps, s' := Go(s0, steps, s', t, SpliceOut(k));
  }

  lemma UnregisterDrops(s0: State, before: seq<Step>, s: State, t: Thread, id: int)
    returns (steps: seq<Step>, s': State)
    requires RunFrom(s0, before) == Some(s) && PlaceOf(s, t) == UnregCut(id) && NextOf(s, id) == None
    ensures RunFrom(s0, steps) == Some(s')
    ensures s'.list == s.list && s'.next == s.next && s'.heap == Changed(s.heap, id, -1) && s'.held == s.held
    ensures s'.refcount == s.refcount && s'.calls == s.calls
    ensures PlaceOf(s', t) == UnregReleased && Other(s', t) == Other(s, t)
  {
    steps, s' := Go(s0, before, s, t, DropReference);
  }

  /** Up to the release of the list's reference. */
  lemma UnregisterReleases(s0: State, before: seq<Step>, s: State, t: Thread, id: int)
    returns (steps: seq<Step>, s': State)
    requires RunFrom(s0, before) == Some(s) && PlaceOf(s, t) == UnregSpliced(id)
    ensures RunFrom(s0, steps) == Some(s')
    ensures s'.list == s.list && NextOf(s', id) == None && s'.heap == Changed(s.heap, id, -1) && s'.held == s.held
    ensures s'.refcount == s.refcount && s'.calls == s.calls
    ensures PlaceOf(s', t) == UnregReleased && Other(s', t) == Other(s, t)
  {
    steps, s' := Go(s0, before, s, t, ClearNext);
    assert NextOf(s', id) == None && s'.heap == s.heap;
    steps, s' := UnregisterDrops(s0, steps, s', t, id);
  }

  /** And the rest. */
  lemma UnregisterEnds(s0: State, before: seq<Step>, s: State, t: Thread) returns (steps: seq<Step>, s': State)
    requires RunFrom(s0, before) == Some(s) && PlaceOf(s, t) == UnregReleased
    ensures RunFrom(s0, steps) == Some(s')
    ensures s'.list == s.list && s'.head == s.head && s'.next == s.next
    ensures s'.heap == s.heap && s'.held == s.held && s'.refcount == s.refcount - 1
    ensures s'.calls == if s.refcount == 1 then s.calls + [Left] else s.calls
    ensures PlaceOf(s', t) == Idle && Other(s', t) == Other(s, t)
  {
    steps, s' := Go(s0, before, s, t, CountDown);
    steps, s' := UnregisterUnlocks(s0, steps, s', t);
  }

  lemma UnregisterUnlocks(s0: State, before: seq<Step>, s: State, t: Thread) returns (steps: seq<Step>, s': State)
    requires RunFrom(s0, before) == Some(s) && PlaceOf(s, t).UnregCounted?
    ensures RunFrom(s0, steps) == Some(s')
    ensures s' == Goes(s.(calls := if PlaceOf(s, t).last then s.calls + [Left] else s.calls), t, Idle)
  {
    steps, s' := Go(s0, before, s, t, LeaveIfLast);
    steps, s' := Go(s0, steps, s', t, Unlock);
  }

  /** A removal that nobody interrupts, by the bus or by the reaper: that client alone is out, with no next. */
  lemma UnregisterAlone(s0: State, before: seq<Step>, s: State, t: Thread, pid: int, k: nat)
    returns (steps: seq<Step>, s': State)
    requires RunFrom(s0, before) == Some(s) && Inv(s) && k < |s.list| && PidAt(s, s.list[k]) == pid
    requires PlaceOf(s, t) == (if t == Bus then Idle else Expiring(pid)) && !Writes(Other(s, t)) && !Reads(Other(s, t))
    ensures RunFrom(s0, steps) == Some(s')
    ensures s'.list == Without(s.list, k) && s'.heap == Changed(s.heap, s.list[k], -1) && s'.held == s.held
    ensures NextOf(s', s.list[k]) == None && s'.refcount == |s.list| - 1
    ensures s'.calls == if |s.list| == 1 then s.calls + [Left] else s.calls
    ensures PlaceOf(s', t) == Idle && Other(s', t) == Other(s, t)
  {
    UnbiasedCount(s, t);
    steps, s' := UnregisterBegins(s0, before, s, t, pid, k);
    steps, s' := UnregisterReleases(s0, steps, s', t, s.list[k]);
    steps, s' := UnregisterEnds(s0, steps, s', t);
  }

  /** What callers can see of the list. */
  function MembersOf(s: State): Context.Membership {
    Context.Membership(PidsIn(s), s.refcount, s.calls)
  }

  function PidsIn(s: State): (r: seq<int>)
    ensures |r| == |s.list| && forall i :: 0 <= i < |r| ==> r[i] == PidAt(s, s.list[i])
  {
    seq(|s.list|, i requires 0 <= i < |s.list| => PidAt(s, s.list[i]))
  }

  lemma PidsInserted(s: State, s': State, pid: int, id: int)
    requires ListOk(s) && id !in s.heap && s'.list == [id] + s.list && s'.heap == s.heap[id := Cell(pid, 1, true)]
    ensures PidsIn(s') == [pid] + PidsIn(s)
  {
  }

  lemma PidsSpliced(s: State, s': State, k: nat)
    requires ListOk(s) && k < |s.list| && s'.list == Without(s.list, k)
    requires forall id :: PidAt(s', id) == PidAt(s, id)
    ensures PidsIn(s') == Context.Minus(PidsIn(s), {PidAt(s, s.list[k])})
  {
    Context.MinusOne(PidsIn(s), k);
    assert PidsIn(s') == Without(PidsIn(s), k);
  }

  /**
   Without interruption the steps of a registration do to the pids, the count and the calls
   exactly what a successful GameModeContext.Register does in one step.
   */
  lemma RegisterAgrees(s0: State, before: seq<Step>, s: State, pid: int, id: int) returns (steps: seq<Step>, s': State)
    requires RunFrom(s0, before) == Some(s) && Inv(s) && Quiet(s) && pid !in PidsIn(s) && id !in s.heap
    ensures RunFrom(s0, steps) == Some(s') && MembersOf(s') == Context.WithMember(MembersOf(s), pid)
  {
    assert !Listed(s, pid);
    UnbiasedCount(s, Bus);
    steps, s' := RegisterAlone(s0, before, s, pid, id);
    PidsInserted(s, s', pid, id);
  }

  /** And those of a removal, by either thread, what a successful GameModeContext.Unregister does. */
  lemma UnregisterAgrees(s0: State, before: seq<Step>, s: State, t: Thread, pid: int)
    returns (steps: seq<Step>, s': State)
    requires RunFrom(s0, before) == Some(s) && Inv(s) && pid in PidsIn(s)
    requires PlaceOf(s, t) == (if t == Bus then Idle else Expiring(pid)) && !Writes(Other(s, t)) && !Reads(Other(s, t))
    ensures RunFrom(s0, steps) == Some(s') && MembersOf(s') == Context.WithoutMember(MembersOf(s), pid)
  {
    var k: nat :| k < |s.list| && PidAt(s, s.list[k]) == pid;
    UnbiasedCount(s, t);
    steps, s' := UnregisterAlone(s0, before, s, t, pid, k);
    PidsSpliced(s, s', k);
  }

  lemma StoppedRests(a: Action)
    ensures !From(Stopped, Reaper, a)
  {
  }

  /** The bus can stop the resting reaper, */
  lemma StopsReaper(s: State)
    requires s.bus == Idle && s.reaper == Idle
    ensures Enabled(s, Bus, StopReaper) && Next(s, Bus, StopReaper) == s.(reaper := Stopped)
  {
  }

  /** and then reload, or start it again. */
  lemma StartsReaper(s: State)
    requires s.bus == Idle && s.reaper == Stopped
    ensures Enabled(s, Bus, LockToReload)
    ensures Enabled(s, Bus, StartReaper) && Next(s, Bus, StartReaper) == s.(reaper := Idle)
  {
  }

  /**
   A lookup that nobody interrupts holds a client with the pid if there is one, and giving it back
   restores everything.
   */
  lemma LookupAndRelease(s0: State, before: seq<Step>, s: State, pid: int)
    returns (steps: seq<Step>, s': State, found: Option<int>)
    requires RunFrom(s0, before) == Some(s) && Inv(s) && Quiet(s)
    ensures RunFrom(s0, steps) == Some(s')
    ensures found.Some? <==> pid in PidsIn(s)
    ensures found.None? ==> s' == s
    ensures found.Some? ==>
              && found.value in s.list && PidAt(s, found.value) == pid
              && s' == Goes(Taking(s, found.value), Bus, Idle) && Enabled(s', Bus, Release(found.value))
              && Next(s', Bus, Release(found.value)) == s
  {
    steps, s' := Go(s0, before, s, Bus, LockToLookup(pid));
    if k :| 0 <= k < |s.list| && PidAt(s, s.list[k]) == pid {
      found := Some(s.list[k]);
      assert PidsIn(s)[k] == pid;
      steps, s' := Go(s0, steps, s', Bus, TakeReference(k));
      TakenAndGiven(s, s.list[k]);
    } else {
      found := None;
      steps, s' := Go(s0, steps, s', Bus, NoReference);
    }
  }

  /** Taking a reference to a listed client and giving it back is doing nothing. */
  lemma TakenAndGiven(s: State, id: int)
    requires Inv(s) && s.bus == Idle && id in s.list
    ensures var s' := Goes(Taking(s, id), Bus, Idle);
            Enabled(s', Bus, Release(id)) && Next(s', Bus, Release(id)) == s
  {
    var s' := Taking(s, id);
    assert s.heap[id].refcount == References(s, id);
    assert Changed(s'.heap, id, -1) == s.heap;
    assert s'.held - multiset{id} == s.held;
    assert s'.heap[id].refcount >= 2;
  }

  // ---------------------------------------------------------------- two runs

  /** A daemon with the one client 7, registered. */
  lemma Registered() returns (steps: seq<Step>, s: State)
    ensures After(steps) == Some(s) && Inv(s)
    ensures s.list == [0] && s.heap == map[0 := Cell(7, 1, true)] && s.refcount == 1 && s.held == multiset{}
    ensures s.calls == [Entered] && s.bus == Idle && s.reaper == Idle
  {
    steps, s := RegisterAlone(Start(), [], Start(), 7, 0);
    RunsKeepInv(steps);
  }

  /** The reaper finds the only client and gives up the lock. */
  lemma FindsIt(before: seq<Step>, s0: State) returns (steps: seq<Step>, s: State)
    requires After(before) == Some(s0) && s0.list == [0] && s0.reaper == Idle && !Writes(s0.bus)
    ensures After(steps) == Some(s) && s == s0.(reaper := Found(0))
  {
    steps, s := Go(Start(), before, s0, Reaper, LockToScan);
    steps, s := Go(Start(), steps, s, Reaper, FindDead(0));
  }

  /** The bus has tested the count for a restart, and the reaper has found the client dead. */
  lemma TestedAndFound() returns (steps: seq<Step>, s: State)
    ensures After(steps) == Some(s) && Inv(s)
    ensures s.list == [0] && s.heap == map[0 := Cell(7, 1, true)] && s.refcount == 1
    ensures s.calls == [Entered] && s.bus == RestartTested && s.reaper == Expiring(7)
  {
    steps, s := Registered();
    steps, s := Go(Start(), steps, s, Bus, TestCount);
    steps, s := FindsIt(steps, s);
    steps, s := Go(Start(), steps, s, Reaper, ReadPid(7));
    RunsKeepInv(steps);
  }

  /** The reaper unregisters it. */
  lemma Overtaken() returns (steps: seq<Step>, s: State)
    ensures After(steps) == Some(s) && s.list == [] && s.refcount == 0 && s.calls == [Entered, Left]
    ensures s.bus == RestartTested && s.reaper == Idle
  {
    steps, s := TestedAndFound();
    steps, s := UnregisterAlone(Start(), steps, s, Reaper, 7, 0);
  }

  /** Only now the bus gets the lock, and leaves once more. */
  lemma LeftAgain() returns (steps: seq<Step>, s: State)
    ensures After(steps) == Some(s) && s.list == [] && s.calls == [Entered, Left, Left] && s.bus == RestartLeft
  {
    steps, s := Overtaken();
    steps, s := Go(Start(), steps, s, Bus, LockToRestart);
    steps, s := Go(Start(), steps, s, Bus, RestartLeave);
  }

  /** A run in which the restart is stale: game mode is left twice and ends up entered without a client. */
  lemma StaleRestart() returns (steps: seq<Step>)
    ensures After(steps).Some? && !NeverStale(steps)
    ensures var s := After(steps).value; s.calls == [Entered, Left, Left, Entered] && s.list == []
  {
    var s;
    steps, s := LeftAgain();
    steps, s := Go(Start(), steps, s, Bus, RestartEnter);
    AlternatesIff(steps);
    assert s.calls[2] == Left;
  }

  /** A run after which the reaper is about to read the pid of a client that is not there any more. */
  lemma FoundAndFreed() returns (steps: seq<Step>, s: State)
    ensures After(steps) == Some(s) && s.reaper == Found(0) && 0 in s.heap && !s.heap[0].live
  {
    steps, s := Registered();
    steps, s := FindsIt(steps, s);
    RunsKeepInv(steps);
    steps, s := UnregisterAlone(Start(), steps, s, Bus, 7, 0);
  }
}
