/**
 The online cores over whole runs of the daemon: entering parks, leaving unparks, and a
 reload reads the online list again only after unparking.
 */
module CoreRuns {
  import opened Common
  import opened CpuCoreCtl
  import opened CpuList
  import opened CpuPark
  import opened CpuSelect

  /** The machine's online cores, the daemon's cpu info, and whether game mode is entered. */
  datatype Cores = Cores(online: set<int>, info: Option<CpuInfo>, entered: bool)

  // ---------------------------------------------------------------- looking at the machine

  /** What initialise_cpu finds under /sys besides the online cores: whether it can read those, and the rest. */
  datatype Look = Look(readable: bool, pCores: Option<string>, sys: Sysfs, garbage: set<int>)

  /** The kernel prints the online cores, all below n, as ascending runs. */
  function FilesFor(look: Look, online: set<int>, n: nat): CpuFiles {
    CpuFiles(if look.readable then Some(Render(RunsOf(online, n))) else None, look.pCores, look.sys, look.garbage)
  }

  /** The info initialise_cpu stores on a machine with these online cores. */
  function InfoAt(wanted: Wanted, look: Look, online: set<int>, n: nat): Option<CpuInfo> {
    Initialised(wanted, FilesFor(look, online, n)).1
  }

  predicate Parks(info: Option<CpuInfo>) {
    info.Some? && !info.value.pin
  }

  /** A parking info names at least one core to park. */
  predicate Prints(info: Option<CpuInfo>) {
    Parks(info) ==> Targets(info.value) != []
  }

  /** An info that was read when the machine's online cores were `online`, and that can be printed. */
  predicate Accepted(info: Option<CpuInfo>, online: set<int>) {
    && Prints(info)
    && (info.Some? ==>
          && info.value.online == online
          && 6 * info.value.numCpu <= ARG_MAX
          && forall c :: c in online ==> 0 <= c < info.value.numCpu)
  }

  /** Core numbers below n, few enough for their text to fit. */
  predicate Bounded(online: set<int>, n: nat) {
    6 * n <= ARG_MAX && forall c :: c in online ==> 0 <= c < n
  }

  /** What the kernel prints is read back as the machine's cores. */
  lemma OnlineListReadBack(online: set<int>, n: nat)
    requires n <= LONG_MAX && forall c :: c in online ==> 0 <= c < n
    ensures CoreSet(Render(RunsOf(online, n))) == online
  {
    RoundTrip(online, n);
    AscendingMembers(online, n);
  }

  /** So a new info is for exactly the machine's cores. */
  lemma InfoIsForMachine(online: set<int>, n: nat, wanted: Wanted, files: CpuFiles)
    requires Bounded(online, n) && n > 0
    requires wanted != Nothing && files.online == Some(Render(RunsOf(online, n)))
    ensures var info := InfoOf(wanted, files);
            info.online == online && info.numCpu <= n && forall c :: c in online ==> 0 <= c < info.numCpu
  {
    var info := InfoOf(wanted, files);
    OnlineListReadBack(online, n);
    MaxCoreBounds(files.online.value);
    MaxCoreListed(files.online.value);
    assert info.online == online by {
      forall c ensures c in info.online <==> c in online {
      }
    }
  }

  /**
   initialise_cpu on the machine stores nothing, or an info that is accepted exactly when it
   has something to print; with only online cores kept it always has.
   */
  lemma StoredIsAccepted(online: set<int>, n: nat, wanted: Wanted, look: Look)
    requires Bounded(online, n)
    ensures Accepted(InfoAt(wanted, look, online, n), online) <==> Prints(InfoAt(wanted, look, online, n))
    ensures var info := InfoAt(wanted, look, online, n);
            Parks(info) ==> (Prints(info) <==> !(online <= info.value.toKeep))
    ensures var info := InfoAt(wanted, look, online, n);
            info.Some? && info.value.toKeep <= online ==> Accepted(info, online)
  {
    var files := FilesFor(look, online, n);
    if InfoAt(wanted, look, online, n).Some? {
      OnlineMeansSome(online, n, wanted, files);
      InfoIsForMachine(online, n, wanted, files);
      NoTargetsIff(InfoOf(wanted, files));
    }
  }

  // ---------------------------------------------------------------- when there is something to print

  /**
   Is parking asked for without a list, and every online core kept: named by the kernel as a
   P-core or, without P-cores, not told apart from the others by sysfs?
   */
  predicate Covered(wanted: Wanted, look: Look, online: set<int>) {
    && wanted.Park? && wanted.list == ""
    && match look.pCores
       case Some(text) => online <= CoreSet(text)
       case None => LeavesNone(look.sys, look.garbage, online)
  }

  /** An info that is stored has something to print exactly when the settings and the files leave a core to park. */
  lemma PrintsIff(online: set<int>, n: nat, wanted: Wanted, look: Look)
    requires Bounded(online, n) && InfoAt(wanted, look, online, n).Some?
    ensures Prints(InfoAt(wanted, look, online, n)) <==> !Covered(wanted, look, online)
  {
    var files := FilesFor(look, online, n);
    StoredIsAccepted(online, n, wanted, look);
    OnlineMeansSome(online, n, wanted, files);
    InfoIsForMachine(online, n, wanted, files);
    if wanted.Park? && wanted.list == "" {
      if look.pCores.Some? {
        PCoresKept(online, wanted, files);
      } else {
        OnlineListReadBack(online, n);
        SysfsLeaves(online, wanted, files);
      }
    }
  }

  /** With P-cores, the kept cores cover the online ones exactly when the P-cores do. */
  lemma PCoresKept(online: set<int>, wanted: Wanted, files: CpuFiles)
    requires wanted != Nothing && wanted.list == "" && files.online.Some? && files.pCores.Some?
    requires forall c :: c in online ==> 0 <= c < InfoOf(wanted, files).numCpu
    ensures online <= InfoOf(wanted, files).toKeep <==> online <= CoreSet(files.pCores.value)
  {
  }

  lemma SysfsLeaves(online: set<int>, wanted: Wanted, files: CpuFiles)
    requires wanted != Nothing && wanted.list == "" && files.online.Some? && files.pCores.None?
    requires online == CoreSet(files.online.value) == InfoOf(wanted, files).online
    requires forall c :: c in online ==> 0 <= c < InfoOf(wanted, files).numCpu
    requires InfoOf(wanted, files).toKeep != online
    ensures online <= InfoOf(wanted, files).toKeep <==> LeavesNone(files.sys, files.garbage, online)
  {
    var info := InfoOf(wanted, files);
    LeavesNoneIff(files.online.value, online, files.garbage, files.sys, info.numCpu, info.toKeep);
  }

  /** Either nothing is stored, or there is a core to park. */
  predicate CanPark(wanted: Wanted, look: Look, online: set<int>, n: nat) {
    InfoAt(wanted, look, online, n).Some? ==> !Covered(wanted, look, online)
  }

  /** That is exactly when what is stored is as the runs below need it. */
  lemma CanParkIff(online: set<int>, n: nat, wanted: Wanted, look: Look)
    requires Bounded(online, n)
    ensures Accepted(InfoAt(wanted, look, online, n), online) <==> CanPark(wanted, look, online, n)
  {
    StoredIsAccepted(online, n, wanted, look);
    if InfoAt(wanted, look, online, n).Some? { PrintsIff(online, n, wanted, look); }
  }

  /** An info is stored only with some core beyond 0 online. */
  lemma OnlineMeansSome(online: set<int>, n: nat, wanted: Wanted, files: CpuFiles)
    requires files.online.Some? ==> files.online.value == Render(RunsOf(online, n))
    requires Initialised(wanted, files).1.Some?
    ensures n > 0 && files.online.Some? && wanted != Nothing
    ensures Initialised(wanted, files).1 == Some(InfoOf(wanted, files)) && Useful(InfoOf(wanted, files))
  {
    assert MaxCore("") == 0;
  }

  // ---------------------------------------------------------------- enter and leave

  /** park_cpu or unpark_cpu on the machine. */
  function Helper(online: set<int>, info: Option<CpuInfo>, up: bool, helper: CoreHelper): set<int> {
    if Parks(info) then AfterHelper(online, info.value, up, helper) else online
  }

  /** The cores the daemon parks. */
  function Parked(info: Option<CpuInfo>): set<int> {
    if Parks(info) then info.value.online - info.value.toKeep else {}
  }

  lemma WritingASet(online: set<int>, parked: set<int>, n: nat, refused: set<int>)
    requires forall c :: c in parked ==> 0 <= c < n
    ensures online - parked <= AfterWrites(online, Ascending(parked, n), false, refused) <= online
    ensures AfterWrites(online, Ascending(parked, n), true, refused) == online + (parked - refused)
  {
    var cores := Ascending(parked, n);
    AscendingMembers(parked, n);
    ParkedCores(online, cores, refused);
    UnparkedCores(online, cores, refused);
    forall c | c in online - parked ensures c in AfterWrites(online, cores, false, refused) {
      assert c in WriteAll(online, cores, false, refused).online;
    }
    forall c | c in AfterWrites(online, cores, false, refused) ensures c in online {
      assert c in WriteAll(online, cores, false, refused).online;
    }
    forall c ensures c in AfterWrites(online, cores, true, refused) <==> c in online + (parked - refused) {
      assert c in WriteAll(online, cores, true, refused).online <==> c in online || (c in cores && c !in refused);
    }
  }

  /** Parking: some of the targets go offline, and nothing else changes. */
  lemma ParkEffect(online: set<int>, info: Option<CpuInfo>, helper: CoreHelper, base: set<int>)
    requires Accepted(info, base)
    ensures online - Parked(info) <= Helper(online, info, false, helper) <= online
  {
    if Parks(info) {
      HelperWritesTargets(online, info.value, false, helper);
      WritingASet(online, Parked(info), info.value.numCpu, helper.refused);
    }
  }

  /**
   Exactly: a core to park is still online if and only if its write is refused, or that of
   another one before it, except core 0; every other core is as before.
   */
  lemma ParkExactly(s: Cores, helper: CoreHelper, base: set<int>)
    requires Within(s, base)
    ensures forall c :: c in EnterCores(s, helper).online <==>
              && c in s.online
              && (c in Parked(s.info) ==>
                    c in helper.refused || exists d :: d in Parked(s.info) && 0 < d < c && d in helper.refused)
  {
    if Parks(s.info) {
      var parked, n := Parked(s.info), s.info.value.numCpu;
      HelperWritesTargets(s.online, s.info.value, false, helper);
      AscendingMembers(parked, n);
      ParkedExactly(s.online, Ascending(parked, n), helper.refused);
      forall c ensures GotTo(c, Ascending(parked, n), helper.refused) <==>
                       !exists d :: d in parked && 0 < d < c && d in helper.refused {
      }
    }
  }

  /** In particular, with nothing refused, all cores to park are offline after an enter. */
  lemma ParksAll(s: Cores, helper: CoreHelper, base: set<int>)
    requires Within(s, base) && helper.refused == {}
    ensures EnterCores(s, helper).online == s.online - Parked(s.info)
  {
    ParkExactly(s, helper, base);
    SameMembers(EnterCores(s, helper).online, s.online - Parked(s.info));
  }

  /** Unparking: every target whose write is not refused comes online, and nothing else changes. */
  lemma UnparkEffect(online: set<int>, info: Option<CpuInfo>, helper: CoreHelper, base: set<int>)
    requires Accepted(info, base)
    ensures Helper(online, info, true, helper) == online + (Parked(info) - helper.refused)
  {
    if Parks(info) {
      HelperWritesTargets(online, info.value, true, helper);
      WritingASet(online, Parked(info), info.value.numCpu, helper.refused);
    }
  }

  /** Every parked core comes back: no unpark write is refused for a core that is offline. */
  predicate UnparkWorks(s: Cores, refused: set<int>) {
    forall c :: c in Parked(s.info) && c !in s.online ==> c !in refused
  }

  /**
   What holds whatever writes are refused: `base` is the set of cores that were online when
   the info was read, and only cores to park are missing from it.
   */
  predicate Within(s: Cores, base: set<int>) {
    Accepted(s.info, base) && base - Parked(s.info) <= s.online <= base
  }

  function LeaveCores(s: Cores, helper: CoreHelper): Cores {
    s.(online := Helper(s.online, s.info, true, helper), entered := false)
  }

  function EnterCores(s: Cores, helper: CoreHelper): Cores {
    s.(online := Helper(s.online, s.info, false, helper), entered := true)
  }

  lemma EnterKeepsCores(s: Cores, helper: CoreHelper, base: set<int>)
    requires Within(s, base)
    ensures Within(EnterCores(s, helper), base)
  {
    ParkEffect(s.online, s.info, helper, base);
  }

  /**
   A leave brings the cores back exactly when no unpark write of an offline core is refused,
   however many writes of earlier leaves were.
   */
  lemma LeaveRestoresIff(s: Cores, helper: CoreHelper, base: set<int>)
    requires Within(s, base)
    ensures Within(LeaveCores(s, helper), base)
    ensures LeaveCores(s, helper).online == base <==> UnparkWorks(s, helper.refused)
  {
    UnparkEffect(s.online, s.info, helper, base);
    var after := s.online + (Parked(s.info) - helper.refused);
    assert after == base <==> UnparkWorks(s, helper.refused) by {
      if after == base {
        forall c | c in Parked(s.info) && c !in s.online ensures c !in helper.refused {
          assert c in base;
        }
      }
      if UnparkWorks(s, helper.refused) {
        assert forall c :: c in base ==> c in after;
      }
    }
  }

  /** Outside game mode all cores that were read are online exactly when the last leave could bring them back. */
  predicate WholeIff(s: Cores, base: set<int>, unparked: bool) {
    !s.entered ==> (s.online == base <==> unparked)
  }

  /**
   On a machine whose core numbers are bounded, and with an info that has something to print:
   only cores to park are missing from those that were read, and none when the last leave
   brought them back.
   */
  predicate Remembered(s: Cores, base: set<int>, n: nat, unparked: bool) {
    Bounded(base, n) && Prints(s.info) ==> Within(s, base) && WholeIff(s, base, unparked)
  }

  lemma EnterKeepsHistory(s: Cores, helper: CoreHelper, base: set<int>, n: nat, unparked: bool)
    requires Remembered(s, base, n, unparked)
    ensures Remembered(EnterCores(s, helper), base, n, unparked)
  {
    if Within(s, base) { EnterKeepsCores(s, helper, base); }
  }

  lemma LeaveKeepsHistory(s: Cores, helper: CoreHelper, base: set<int>, n: nat, unparked: bool)
    requires Remembered(s, base, n, unparked)
    ensures Remembered(LeaveCores(s, helper), base, n, UnparkWorks(s, helper.refused))
  {
    if Within(s, base) { LeaveRestoresIff(s, helper, base); }
  }

  // ---------------------------------------------------------------- reload

  /**
   The machine just before a reload reads the online list again: left if there are clients, and
   then unparked once more.
   */
  function BeforeReread(s: Cores, clients: bool, leave: CoreHelper, again: CoreHelper): Cores {
    var left := if clients then LeaveCores(s, leave) else s;
    left.(online := Helper(left.online, left.info, true, again))
  }

  /** Every parked core comes back in one of the unparks of a reload. */
  predicate OneUnparkWorks(s: Cores, clients: bool, leave: CoreHelper, again: CoreHelper) {
    forall c :: c in Parked(s.info) && c !in s.online ==> (clients && c !in leave.refused) || c !in again.refused
  }

  /** Reload reads the cores that were there before exactly when one of its unparks works for each core. */
  lemma RereadIsBaseIff(s: Cores, clients: bool, leave: CoreHelper, again: CoreHelper, base: set<int>)
    requires Within(s, base)
    ensures BeforeReread(s, clients, leave, again).online <= base
    ensures BeforeReread(s, clients, leave, again).online == base <==> OneUnparkWorks(s, clients, leave, again)
  {
    if clients { LeaveRestoresIff(s, leave, base); }
    var left := if clients then LeaveCores(s, leave) else s;
    LeaveRestoresIff(left, again, base);
    UnparkEffect(s.online, s.info, leave, base);
    assert UnparkWorks(left, again.refused) <==> OneUnparkWorks(s, clients, leave, again) by {
      forall c | c in Parked(s.info) ensures c in left.online <==> c in s.online || (clients && c !in leave.refused) {
      }
    }
  }

  // ---------------------------------------------------------------- whole runs

  /**
   What happens to the cores, with the helper runs of the writes. A reload is a Reread, with the
   settings it finds and the rest of /sys, between a Leave and an Enter if there are clients.
   */
  datatype CoreOp =
    | Enter(helper: CoreHelper)
    | Leave(helper: CoreHelper)
    | Reread(again: CoreHelper, wanted: Wanted, look: Look)

  /** The cores, those that were online when the info was read, and whether the last leave brought all of them back. */
  datatype History = History(cores: Cores, base: set<int>, unparked: bool)

  /** The machine when a Reread reads its online list. */
  function Unparked(s: Cores, again: CoreHelper): set<int> {
    Helper(s.online, s.info, true, again)
  }

  /** One operation on a machine with core numbers below n. */
  function Apply(h: History, op: CoreOp, n: nat): History {
    match op
    case Enter(helper) => h.(cores := EnterCores(h.cores, helper))
    case Leave(helper) =>
      h.(cores := LeaveCores(h.cores, helper), unparked := UnparkWorks(h.cores, helper.refused))
    case Reread(again, wanted, look) =>
      var online := Unparked(h.cores, again);
      History(Cores(online, InfoAt(wanted, look, online, n), h.cores.entered), online, true)
  }

  /** Enter and leave at any time, and a Reread that finds a core to park if it stores an info to park. */
  predicate Allowed(h: History, op: CoreOp, n: nat) {
    match op
    case Enter(_) => true
    case Leave(_) => true
    case Reread(again, wanted, look) => CanPark(wanted, look, Unparked(h.cores, again), n)
  }

  /** A Reread finds all the cores: no unpark write is refused for a core that is offline. */
  predicate FindsAll(h: History, op: CoreOp) {
    op.Reread? ==> UnparkWorks(h.cores, op.again.refused)
  }

  /**
   What every operation keeps: only cores to park are missing from those last read and, outside
   game mode, some are exactly when the last leave could not bring all of them back.
   */
  predicate Sound(h: History, n: nat) {
    Bounded(h.base, n) && Within(h.cores, h.base) && WholeIff(h.cores, h.base, h.unparked)
  }

  lemma Step(h: History, op: CoreOp, n: nat)
    requires Sound(h, n) && Allowed(h, op, n)
    ensures Sound(Apply(h, op, n), n) && Apply(h, op, n).base <= h.base
    ensures Apply(h, op, n).base == h.base <==> FindsAll(h, op)
  {
    match op
    case Enter(helper) => EnterKeepsCores(h.cores, helper, h.base);
    case Leave(helper) => LeaveRestoresIff(h.cores, helper, h.base);
    case Reread(again, wanted, look) =>
      LeaveRestoresIff(h.cores, again, h.base);
      CanParkIff(Unparked(h.cores, again), n, wanted, look);
  }

  /** A reload is its operations one after the other. */
  function ReloadOps(clients: bool, leave: CoreHelper, again: CoreHelper, wanted: Wanted, look: Look,
                     enter: CoreHelper): seq<CoreOp>
  {
    if clients then [Leave(leave), Reread(again, wanted, look), Enter(enter)] else [Reread(again, wanted, look)]
  }

  function RunCores(h: History, ops: seq<CoreOp>, n: nat): History {
    if ops == [] then h else Apply(RunCores(h, ops[..|ops| - 1], n), ops[|ops| - 1], n)
  }

  /** Every operation is allowed where it happens. */
  predicate Possible(h: History, ops: seq<CoreOp>, n: nat) {
    ops == [] ||
    (Possible(h, ops[..|ops| - 1], n) && Allowed(RunCores(h, ops[..|ops| - 1], n), ops[|ops| - 1], n))
  }

  predicate AllFound(h: History, ops: seq<CoreOp>, n: nat) {
    ops == [] ||
    (AllFound(h, ops[..|ops| - 1], n) && FindsAll(RunCores(h, ops[..|ops| - 1], n), ops[|ops| - 1]))
  }

  lemma {:induction false} RunKeepsCores(h: History, ops: seq<CoreOp>, n: nat)
    requires Sound(h, n) && Possible(h, ops, n)
    ensures Sound(RunCores(h, ops, n), n) && RunCores(h, ops, n).base <= h.base
    ensures RunCores(h, ops, n).base == h.base <==> AllFound(h, ops, n)
  {
    if ops == [] {
    } else {
      var init := ops[..|ops| - 1];
      RunKeepsCores(h, init, n);
      Step(RunCores(h, init, n), ops[|ops| - 1], n);
    }
  }

  /** The daemon just started on a machine with these cores. */
  function Fresh(online: set<int>, n: nat, wanted: Wanted, look: Look): History {
    History(Cores(online, InfoAt(wanted, look, online, n), false), online, true)
  }

  /**
   Conservation over every run from a fresh start, with enters, leaves and reloads in any order
   and any writes refused: the daemon never brings up a core that was not there, and only cores
   it parks can be missing from those it last read. Those are all the cores it started with
   exactly when every reload could unpark, and outside game mode they are all online exactly
   when the last leave could.
   */
  lemma {:induction false} CoresConserved(online: set<int>, n: nat, wanted: Wanted, look: Look, ops: seq<CoreOp>)
    requires Bounded(online, n) && CanPark(wanted, look, online, n)
    requires Possible(Fresh(online, n, wanted, look), ops, n)
    ensures var h := RunCores(Fresh(online, n, wanted, look), ops, n);
            && h.base - Parked(h.cores.info) <= h.cores.online <= h.base <= online
            && (h.base == online <==> AllFound(Fresh(online, n, wanted, look), ops, n))
            && (!h.cores.entered ==> (h.cores.online == h.base <==> h.unparked))
  {
    CanParkIff(online, n, wanted, look);
    RunKeepsCores(Fresh(online, n, wanted, look), ops, n);
  }

  /**
   Refused writes do no lasting harm: after any run, the next leave brings back all cores the
   daemon last read exactly when its own unpark works.
   */
  lemma {:induction false} NextLeaveRestoresIff(online: set<int>, n: nat, wanted: Wanted, look: Look,
                                                ops: seq<CoreOp>, helper: CoreHelper)
    requires Bounded(online, n) && CanPark(wanted, look, online, n)
    requires Possible(Fresh(online, n, wanted, look), ops, n)
    ensures var h := RunCores(Fresh(online, n, wanted, look), ops, n);
            Apply(h, Leave(helper), n).cores.online == h.base <==> UnparkWorks(h.cores, helper.refused)
  {
    var h := RunCores(Fresh(online, n, wanted, look), ops, n);
    CanParkIff(online, n, wanted, look);
    RunKeepsCores(Fresh(online, n, wanted, look), ops, n);
    LeaveRestoresIff(h.cores, helper, h.base);
  }

  /** The list a reload reads in the end is that of BeforeReread, with or without clients. */
  lemma ReloadReads(h: History, clients: bool, leave: CoreHelper, again: CoreHelper, wanted: Wanted, look: Look,
                    enter: CoreHelper, n: nat)
    ensures var h' := RunCores(h, ReloadOps(clients, leave, again, wanted, look, enter), n);
            && h'.base == BeforeReread(h.cores, clients, leave, again).online
            && h'.cores.info == InfoAt(wanted, look, h'.base, n)
            && h'.cores.entered == (clients || h.cores.entered)
  {
    var ops := ReloadOps(clients, leave, again, wanted, look, enter);
    if clients {
      assert ops[..2][..1] == [Leave(leave)] && ops[..2][..1][..0] == [];
      assert RunCores(h, ops[..2][..1], n) == Apply(h, Leave(leave), n);
      assert RunCores(h, ops[..2], n) == Apply(Apply(h, Leave(leave), n), Reread(again, wanted, look), n);
    } else {
      assert ops[..0] == [];
    }
  }

  // ---------------------------------------------------------------- nothing to print

  /** The kernel's text for cores 0 to 7 */
  lemma ZeroToSeven(text: string)
    requires text == "0-7"
    ensures forall c :: c in CoreSet(text) <==> 0 <= c <= 7
  {
    var run := Run(0, 7);
    assert RenderRun(run) == text && Render([run]) == text;
    ParseOfRender([run]);
    CoresOfOne(run);
    SpanMembers(0, 8);
  }

  /** What is stored when the online list can be read and goes beyond core 0. */
  lemma SomethingStored(online: set<int>, n: nat, wanted: Wanted, look: Look, last: int)
    requires Bounded(online, n) && look.readable && wanted != Nothing
    requires last > 0 && last in online && forall c :: c in online ==> c <= last
    ensures var files := FilesFor(look, online, n);
            && InfoAt(wanted, look, online, n) == Stored(InfoOf(wanted, files)).1
            && InfoOf(wanted, files).online == online && InfoOf(wanted, files).numCpu == last + 1
  {
    var files := FilesFor(look, online, n);
    OnlineListReadBack(online, n);
    MaxCoreBounds(files.online.value);
    MaxCoreListed(files.online.value);
    assert MaxCore(files.online.value) == last;
    InfoIsForMachine(online, n, wanted, files);
  }

  lemma PCoresDecide(wanted: Wanted, files: CpuFiles)
    requires wanted != Nothing && wanted.list == "" && files.online.Some? && files.pCores.Some?
    ensures InfoOf(wanted, files).toKeep == Fit(CoreSet(files.pCores.value), InfoOf(wanted, files).numCpu)
  {
  }

  /** A parking info is stored, although the P-cores it keeps cover the online ones. */
  lemma CoveredIsSilent(online: set<int>, n: nat, look: Look, last: int, kept: set<int>, info: Option<CpuInfo>)
    requires Bounded(online, n) && look.readable && look.pCores.Some? && info == InfoAt(Park(""), look, online, n)
    requires last > 0 && last in online && forall c :: c in online ==> c <= last
    requires kept == Fit(CoreSet(look.pCores.value), last + 1) && |kept| >= 4 && online <= kept && online != kept
    ensures Parks(info) && !Prints(info) && info == Some(CpuInfo(last + 1, false, online, kept))
  {
    SomethingStored(online, n, Park(""), look, last);
    PCoresDecide(Park(""), FilesFor(look, online, n));
    var made := InfoOf(Park(""), FilesFor(look, online, n));
    assert made == CpuInfo(last + 1, false, online, kept);
    NoTargetsIff(made);
  }

  lemma FourMembers(s: set<int>)
    requires 0 in s && 1 in s && 2 in s && 3 in s
    ensures |s| >= 4
  {
    assert |s| == |s - {0}| + 1;
    assert |s - {0}| == |s - {0} - {1}| + 1;
    assert |s - {0} - {1}| == |s - {0} - {1} - {2}| + 1;
    assert 3 in s - {0} - {1} - {2};
  }

  /** Eight P-cores cover four cores online. */
  lemma EightCoverFour(online: set<int>, eight: set<int>, kept: set<int>)
    requires forall c :: c in online <==> 0 <= c <= 3
    requires forall c :: c in eight <==> 0 <= c <= 7
    requires kept == Fit(eight, 4)
    ensures |kept| >= 4 && online <= kept && online != kept
  {
    FourMembers(kept);
    forall c | c in online ensures c in kept {
      assert c in eight && InBits(c, 4);
    }
    assert InBits(7, 4) && 7 in eight;
    assert 7 in kept && 7 !in online;
  }

  /** Parking is on, and there is nothing to print: four cores online, and eight P-cores. */
  lemma EightPCores(online: set<int>, n: nat, look: Look, eight: set<int>, info: Option<CpuInfo>)
    requires Bounded(online, n) && look.readable && look.pCores.Some? && eight == CoreSet(look.pCores.value)
    requires forall c :: c in online <==> 0 <= c <= 3
    requires forall c :: c in eight <==> 0 <= c <= 7
    requires info == InfoAt(Park(""), look, online, n)
    ensures Parks(info) && !Prints(info) && info.value.online == online
  {
    var kept := Fit(eight, 4);
    EightCoverFour(online, eight, kept);
    CoveredIsSilent(online, n, look, 3, kept, info);
  }

  /** For instance with cores 0 to 3 online, and "0-7" for the P-cores. */
  lemma NothingToPrint(online: set<int>, n: nat, look: Look, info: Option<CpuInfo>)
    requires Bounded(online, n) && forall c :: c in online <==> 0 <= c <= 3
    requires look.readable && look.pCores == Some("0-7")
    requires info == InfoAt(Park(""), look, online, n)
    ensures Parks(info) && !Prints(info) && info.value.online == online
  {
    ZeroToSeven(look.pCores.value);
    EightPCores(online, n, look, CoreSet(look.pCores.value), info);
  }

  /**
   With nothing to print the helper acts on what the unset buffer reads as. If that is a core's
   number in an enter and nothing in the leave, that core is lost, although no write is refused.
   */
  lemma LostCore(s: Cores, c: nat)
    requires Parks(s.info) && !Prints(s.info) && 6 * c <= ARG_MAX
    ensures var left := LeaveCores(EnterCores(s, CoreHelper({}, Decimal(c))), CoreHelper({}, ""));
            left.online == s.online - {c}
  {
    CoreAlone(c);
    assert ParsedCores("") == [];
    SilentWrites(s.online, s.info, false, Decimal(c));
    SilentWrites(s.online - {c}, s.info, true, "");
    OneWrite(s.online, c);
  }

  lemma SilentWrites(online: set<int>, info: Option<CpuInfo>, up: bool, text: string)
    requires Parks(info) && !Prints(info) && |text| < ARG_MAX && '\0' !in text
    ensures Helper(online, info, up, CoreHelper({}, text)) == AfterWrites(online, ParsedCores(text), up, {})
  {
    UnsetReads(text);
  }

  lemma OneWrite(online: set<int>, c: int)
    ensures AfterWrites(online, [c], false, {}) == online - {c} && AfterWrites(online, [], true, {}) == online
  {
    assert [c][1..] == [];
    assert WriteAll(online - {c}, [], false, {}) == Written(online - {c}, false);
  }

  lemma UnsetReads(text: string)
    requires |text| < ARG_MAX && '\0' !in text
    ensures CText(UnsetBuffer(text)) == text
  {
    var buf := UnsetBuffer(text);
    assert buf[..|text|] == text;
    CTextOfHeld(buf, |text|);
  }

  lemma CoreAlone(c: nat)
    requires 6 * c <= ARG_MAX
    ensures ParsedCores(Decimal(c)) == [c] && |Decimal(c)| <= 5 && '\0' !in Decimal(c)
  {
    var run := Run(c, c);
    assert RenderRun(run) == Decimal(c) && Render([run]) == Decimal(c);
    ParseOfRender([run]);
    CoresOfOne(run);
    assert Pow10(5) == 100000;
    DecimalLength(c, 5);
  }

  /** Every enter and leave of which the leave can write brings back the machine's cores. */
  ghost predicate Restores(s: Cores) {
    forall enter: CoreHelper, leave: CoreHelper ::
      leave.refused == {} ==> LeaveCores(EnterCores(s, enter), leave).online == s.online
  }

  lemma AcceptedRestores(s: Cores)
    requires Accepted(s.info, s.online)
    ensures Restores(s)
  {
    forall enter: CoreHelper, leave: CoreHelper | leave.refused == {}
      ensures LeaveCores(EnterCores(s, enter), leave).online == s.online
    {
      EnterKeepsCores(s, enter, s.online);
      LeaveRestoresIff(EnterCores(s, enter), leave, s.online);
    }
  }

  /** A core beyond 0, when an info is stored. */
  lemma BeyondZero(online: set<int>, n: nat, wanted: Wanted, look: Look) returns (c: nat)
    requires Bounded(online, n) && InfoAt(wanted, look, online, n).Some?
    ensures c in online && c < n
  {
    var files := FilesFor(look, online, n);
    OnlineMeansSome(online, n, wanted, files);
    OnlineListReadBack(online, n);
    MaxCoreListed(files.online.value);
    c := MaxCore(files.online.value);
  }

  lemma SilentLoses(s: Cores, c: nat)
    requires Parks(s.info) && !Prints(s.info) && c in s.online && 6 * c <= ARG_MAX
    ensures !Restores(s)
  {
    LostCore(s, c);
    assert c !in LeaveCores(EnterCores(s, CoreHelper({}, Decimal(c))), CoreHelper({}, "")).online;
  }

  /**
   So on a fresh start an enter and a leave whose writes work are sure to bring back all cores
   exactly when nothing is stored, or there is a core to park.
   */
  lemma RestoresIff(online: set<int>, n: nat, wanted: Wanted, look: Look)
    requires Bounded(online, n)
    ensures Restores(Cores(online, InfoAt(wanted, look, online, n), false)) <==> CanPark(wanted, look, online, n)
  {
    var info := InfoAt(wanted, look, online, n);
    CanParkIff(online, n, wanted, look);
    if CanPark(wanted, look, online, n) {
      AcceptedRestores(Cores(online, info, false));
    } else {
      PrintsIff(online, n, wanted, look);
      var c := BeyondZero(online, n, wanted, look);
      SilentLoses(Cores(online, info, false), c);
    }
  }
}
