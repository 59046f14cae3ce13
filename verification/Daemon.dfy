/**
 The machine over the interleavings of the daemon's two threads: what their steps do to the
 settings and the cores is a run of enters, leaves, rereads and iGPU checks.
 */
module Daemon {
  import opened Common
  import opened CpuPark
  import opened CpuSelect
  import opened Energy
  import opened Mode
  import Context
  import CoreRuns
  import Governor
  import Interleaving

  // ---------------------------------------------------------------- deeds

  /** What a step does to the machine, with the outcome of its helpers and readings. */
  datatype Deed =
    | Enters(enter: EnterRuns)
    | Leaves(leave: LeaveRuns)
    | Rereads(settings: Settings, again: CoreHelper, look: CoreRuns.Look)
    | Checks(cpuUj: Option<nat>, igpuUj: Option<nat>, run: Governor.HelperRun)
    | Outside(governors: seq<string>)  // somebody else, at the default

  /** All the outcomes that a step might need. A reread finds `settings`; `checks` tells a check from other visits. */
  datatype World = World(
    enter: EnterRuns, leave: LeaveRuns, settings: Settings, again: CoreHelper, look: CoreRuns.Look, checks: bool,
    cpuUj: Option<nat>, igpuUj: Option<nat>, run: Governor.HelperRun, outside: Option<seq<string>>)

  /** The deeds of a step from a place. A reload rereads before it enters, or when it finds no client. */
  function DeedsAt(here: Interleaving.Place, a: Interleaving.Action, w: World): seq<Deed> {
    match a
    case EnterIfFirst => if here.RegCounted? && here.first then [Enters(w.enter)] else []
    case LeaveIfLast => if here.UnregCounted? && here.last then [Leaves(w.leave)] else []
    case RestartLeave => [Leaves(w.leave)]
    case RestartEnter => [Enters(w.enter)]
    case ReloadLeave => [Leaves(w.leave)]
    case ReloadEnter => [Rereads(w.settings, w.again, w.look), Enters(w.enter)]
    case Unlock => if here == Interleaving.ReloadLocked then [Rereads(w.settings, w.again, w.look)] else []
    case LockToVisit => if w.checks then [Checks(w.cpuUj, w.igpuUj, w.run)] else []
    case _ => if w.outside.Some? then [Outside(w.outside.value)] else []
  }

  /** The deeds of a run; `world` gives the outcomes at each of its steps. */
  function DeedsOf(steps: seq<Interleaving.Step>, world: nat -> World): seq<Deed> {
    if steps == [] then []
    else
      var init, last := steps[..|steps| - 1], steps[|steps| - 1];
      DeedsOf(init, world)
      + match Interleaving.After(init)
        case None => []
        case Some(s) => DeedsAt(Interleaving.PlaceOf(s, last.thread), last.action, world(|init|))
  }

  /** The enters and leaves among the deeds. */
  function CallsIn(deeds: seq<Deed>): seq<Call> {
    if deeds == [] then [] else CallsIn(deeds[..|deeds| - 1]) + CallOf(deeds[|deeds| - 1])
  }

  function CallOf(d: Deed): seq<Call> {
    match d
    case Enters(_) => [Entered]
    case Leaves(_) => [Left]
    case _ => []
  }

  lemma {:induction false} CallsAppend(a: seq<Deed>, b: seq<Deed>)
    ensures CallsIn(a + b) == CallsIn(a) + CallsIn(b)
  {
    if b == [] {
      AddNothing(a);
      AddNothing(CallsIn(a));
    } else {
      assert (a + b)[..|a + b| - 1] == a + b[..|b| - 1];
      CallsAppend(a, b[..|b| - 1]);
    }
  }

  lemma CallsInOne(deeds: seq<Deed>)
    requires |deeds| == 1
    ensures CallsIn(deeds) == CallOf(deeds[0])
  {
    assert deeds[..0] == [];
  }

  lemma CallsInTwo(deeds: seq<Deed>)
    requires |deeds| == 2
    ensures CallsIn(deeds) == CallOf(deeds[0]) + CallOf(deeds[1])
  {
    CallsInOne(deeds[..1]);
  }

  /** The call of an action that calls. */
  function CallAt(here: Interleaving.Place, a: Interleaving.Action): seq<Call>
    requires Interleaving.Calls(a)
  {
    match a
    case EnterIfFirst => if here.RegCounted? && here.first then [Entered] else []
    case LeaveIfLast => if here.UnregCounted? && here.last then [Left] else []
    case RestartLeave => [Left]
    case ReloadLeave => [Left]
    case _ => [Entered]
  }

  /** A step that does not call does no enter or leave, */
  lemma QuietDeeds(here: Interleaving.Place, a: Interleaving.Action, w: World)
    requires !Interleaving.Calls(a)
    ensures CallsIn(DeedsAt(here, a, w)) == []
  {
    var deeds := DeedsAt(here, a, w);
    if deeds != [] { CallsInOne(deeds); }
  }

  /** and one that calls does the one that it calls. */
  lemma CallDeeds(here: Interleaving.Place, a: Interleaving.Action, w: World)
    requires Interleaving.Calls(a)
    ensures CallsIn(DeedsAt(here, a, w)) == CallAt(here, a)
  {
    var deeds := DeedsAt(here, a, w);
    if |deeds| == 1 {
      CallsInOne(deeds);
    } else if |deeds| == 2 {
      CallsInTwo(deeds);
    }
  }

  lemma CallingCalls(s: Interleaving.State, t: Interleaving.Thread, here: Interleaving.Place, a: Interleaving.Action)
    requires Interleaving.From(here, t, a) && Interleaving.Guard(s, t, here, a) && Interleaving.Calls(a)
    ensures Interleaving.Data(s, t, here, a).calls == s.calls + CallAt(here, a)
  {
    match a
    case EnterIfFirst => AddNothing(s.calls);
    case LeaveIfLast => AddNothing(s.calls);
    case RestartLeave =>
    case RestartEnter =>
    case ReloadLeave =>
    case ReloadEnter =>
  }

  lemma CountingCalls(s: Interleaving.State, t: Interleaving.Thread, here: Interleaving.Place, a: Interleaving.Action)
    requires Interleaving.From(here, t, a) && Interleaving.Guard(s, t, here, a) && (a.CountUp? || a.CountDown?)
    ensures Interleaving.Data(s, t, here, a).calls == s.calls
  {
  }

  lemma StepCalls(s: Interleaving.State, t: Interleaving.Thread, a: Interleaving.Action, w: World)
    requires Interleaving.Enabled(s, t, a)
    ensures Interleaving.Next(s, t, a).calls == s.calls + CallsIn(DeedsAt(Interleaving.PlaceOf(s, t), a, w))
  {
    var here := Interleaving.PlaceOf(s, t);
    if Interleaving.Calls(a) {
      CallDeeds(here, a, w);
      CallingCalls(s, t, here, a);
    } else {
      QuietDeeds(here, a, w);
      AddNothing(s.calls);
      if a.CountUp? || a.CountDown? { CountingCalls(s, t, here, a); } else { Interleaving.QuietData(s, t, here, a); }
    }
  }

  /** The calls that an interleaving makes are the enters and leaves among its deeds. */
  lemma {:induction false} CallsAreDeeds(steps: seq<Interleaving.Step>, world: nat -> World)
    requires Interleaving.After(steps).Some?
    ensures Interleaving.After(steps).value.calls == CallsIn(DeedsOf(steps, world))
  {
    if steps == [] {
    } else {
      var init, last := steps[..|steps| - 1], steps[|steps| - 1];
      var s := Interleaving.After(init).value;
      var deeds := DeedsAt(Interleaving.PlaceOf(s, last.thread), last.action, world(|init|));
      CallsAreDeeds(init, world);
      StepCalls(s, last.thread, last.action, world(|init|));
      CallsAppend(DeedsOf(init, world), deeds);
    }
  }

  /** Does the step change the machine? */
  predicate Touches(here: Interleaving.Place, a: Interleaving.Action) {
    || (a.EnterIfFirst? && here.RegCounted? && here.first) || (a.LeaveIfLast? && here.UnregCounted? && here.last)
    || a.RestartLeave? || a.RestartEnter? || a.ReloadLeave? || a.ReloadEnter? || a.LockToVisit?
    || (a.Unlock? && here == Interleaving.ReloadLocked)
  }

  /**
   In every reachable state at most one thread can do something to the machine: the lock that it
   holds, or is about to take, keeps the other one from doing so.
   */
  lemma {:induction false} OneAtATime(steps: seq<Interleaving.Step>, s: Interleaving.State,
                                      a: Interleaving.Action, b: Interleaving.Action)
    requires Interleaving.After(steps) == Some(s)
    requires Interleaving.Enabled(s, Interleaving.Bus, a) && Interleaving.Enabled(s, Interleaving.Reaper, b)
    ensures !Touches(s.bus, a) || !Touches(s.reaper, b)
  {
    Interleaving.RunsKeepInv(steps);
    OneToucher(s, a, b);
  }

  /** A thread that touches the machine holds the lock, or takes it for writing. */
  lemma TouchesLocked(here: Interleaving.Place, t: Interleaving.Thread, a: Interleaving.Action)
    requires Interleaving.From(here, t, a) && Touches(here, a)
    ensures || Interleaving.Writes(here) || a.LockToVisit?
            || (Interleaving.Reads(here) && (a.RestartLeave? || a.RestartEnter?))
    ensures a.LockToVisit? ==> t == Interleaving.Reaper && here == Interleaving.Idle
  {
  }

  lemma RestartsOnBus(s: Interleaving.State, t: Interleaving.Thread, a: Interleaving.Action)
    requires Interleaving.Inv(s) && Interleaving.Enabled(s, t, a) && (a.RestartLeave? || a.RestartEnter?)
    ensures t == Interleaving.Bus
  {
  }

  lemma OneToucher(s: Interleaving.State, a: Interleaving.Action, b: Interleaving.Action)
    requires Interleaving.Inv(s)
    requires Interleaving.Enabled(s, Interleaving.Bus, a) && Interleaving.Enabled(s, Interleaving.Reaper, b)
    ensures !Touches(s.bus, a) || !Touches(s.reaper, b)
  {
    if Touches(s.bus, a) && Touches(s.reaper, b) {
      TouchesLocked(s.bus, Interleaving.Bus, a);
      TouchesLocked(s.reaper, Interleaving.Reaper, b);
      if b.RestartLeave? || b.RestartEnter? { RestartsOnBus(s, Interleaving.Reaper, b); }
    }
  }

  // ---------------------------------------------------------------- the machine

  /** The machine with what the daemon remembers, and the settings in use. */
  datatype Machine = Machine(snap: Snapshot, settings: Settings)

  predicate SamplesFit(m: Machine) {
    m.snap.igpu.lastCpu < U32 && m.snap.igpu.lastIgpu < U32
  }

  /** One deed, as the methods of GameMode do it; core numbers are below n. */
  function Do(m: Machine, d: Deed, n: nat): (r: Machine)
    requires SamplesFit(m)
    ensures SamplesFit(r)
  {
    match d
    case Enters(runs) => m.(snap := AfterEnter(m.snap, m.settings, runs))
    case Leaves(runs) => m.(snap := AfterLeave(m.snap, m.settings, runs))
    case Rereads(settings, again, look) => Machine(AfterReconfig(m.snap, settings, again, look, n), settings)
    case Checks(cpuUj, igpuUj, run) => m.(snap := AfterCheck(m.snap, m.settings, cpuUj, igpuUj, run))
    case Outside(files) => m.(snap := AfterOutside(m.snap, files))
  }

  /** Somebody else writes the governors, which is seen only at the default. */
  function AfterOutside(s: Snapshot, files: seq<string>): Snapshot {
    if s.governor.current == Governor.Default && |files| == |s.governor.files|
    then s.(governor := s.governor.(files := files), governorBaseline := files)
    else s
  }

  function DoAll(m: Machine, deeds: seq<Deed>, n: nat): (r: Machine)
    requires SamplesFit(m)
    ensures SamplesFit(r)
  {
    if deeds == [] then m else Do(DoAll(m, deeds[..|deeds| - 1], n), deeds[|deeds| - 1], n)
  }

  /** The machine after an interleaving of the two threads. */
  function MachineAfter(m: Machine, steps: seq<Interleaving.Step>, world: nat -> World, n: nat): Machine
    requires SamplesFit(m)
  {
    DoAll(m, DeedsOf(steps, world), n)
  }

  // ---------------------------------------------------------------- governor and profile

  /** What a deed does to the governor. */
  function GovernorChange(m: Machine, d: Deed): seq<Governor.Change>
    requires SamplesFit(m)
  {
    match d
    case Enters(runs) => [Governor.Enter(m.settings.governor, runs.governor)]
    case Leaves(runs) => [Governor.Leave(m.settings.governor, runs.governor)]
    case Rereads(_, _, _) => []
    case Checks(cpuUj, igpuUj, run) =>
      (match WantedLevel(m.snap.governor, m.snap.igpu, IgpuThreshold(m.settings.threshold), cpuUj, igpuUj)
       case None => []
       case Some(level) => [Governor.Switch(m.settings.governor, level, run)])
    case Outside(files) =>
      if m.snap.governor.current == Governor.Default && |files| == |m.snap.governor.files|
      then [Governor.Outside(files)] else []
  }

  function GovernorChanges(m: Machine, deeds: seq<Deed>, n: nat): seq<Governor.Change>
    requires SamplesFit(m)
  {
    if deeds == [] then []
    else
      GovernorChanges(m, deeds[..|deeds| - 1], n)
      + GovernorChange(DoAll(m, deeds[..|deeds| - 1], n), deeds[|deeds| - 1])
  }

  /** One deed is at most one change, and a possible one. */
  lemma DeedIsChange(m: Machine, d: Deed, n: nat)
    requires SamplesFit(m) && Governor.SettingInv(m.snap.governor, m.snap.governorBaseline)
    ensures var changes, r := GovernorChange(m, d), Do(m, d, n).snap;
            if changes == [] then r.governor == m.snap.governor && r.governorBaseline == m.snap.governorBaseline
            else
              && changes == [changes[0]] && Governor.Possible(m.snap.governor, changes[0])
              && r.governor == Governor.ApplyChange(m.snap.governor, changes[0])
              && r.governorBaseline == Governor.Baseline(r.governor, m.snap.governorBaseline)
  {
  }

  /**
   Over every interleaving the governor goes through a possible run of enters, leaves, iGPU
   switches and outside changes; so what is proved about those runs holds of it.
   */
  lemma {:induction false} GovernorIsRun(m: Machine, deeds: seq<Deed>, n: nat)
    requires SamplesFit(m) && Governor.SettingInv(m.snap.governor, m.snap.governorBaseline)
    ensures var changes, r := GovernorChanges(m, deeds, n), DoAll(m, deeds, n).snap;
            && Governor.PossibleRun(m.snap.governor, changes)
            && Governor.Run(m.snap.governor, m.snap.governorBaseline, changes) == (r.governor, r.governorBaseline)
            && Governor.SettingInv(r.governor, r.governorBaseline)
  {
    if deeds == [] {
    } else {
      var init, last := deeds[..|deeds| - 1], deeds[|deeds| - 1];
      var before, changes := DoAll(m, init, n), GovernorChanges(m, init, n);
      var more := GovernorChange(before, last);
      GovernorIsRun(m, init, n);
      DeedIsChange(before, last, n);
      if more == [] {
        AddNothing(changes);
      } else {
        Governor.RunOneMore(m.snap.governor, m.snap.governorBaseline, changes, more[0]);
        Governor.ChangeKeepsInv(before.snap.governor, before.snap.governorBaseline, more[0]);
      }
    }
  }

  /** What a deed does to the profile, if the machine has one. */
  function ProfileChange(m: Machine, d: Deed): seq<Governor.Change> {
    if m.snap.profile.files == [] then []
    else
      match d
      case Enters(runs) => [Governor.Enter(m.settings.profile, runs.profile)]
      case Leaves(runs) => [Governor.Leave(m.settings.profile, runs.profile)]
      case Rereads(_, _, _) => []
      case Checks(_, _, _) => []
      case Outside(_) => []
  }

  function ProfileChanges(m: Machine, deeds: seq<Deed>, n: nat): seq<Governor.Change>
    requires SamplesFit(m)
  {
    if deeds == [] then []
    else
      ProfileChanges(m, deeds[..|deeds| - 1], n)
      + ProfileChange(DoAll(m, deeds[..|deeds| - 1], n), deeds[|deeds| - 1])
  }

  lemma DeedIsProfileChange(m: Machine, d: Deed, n: nat)
    requires SamplesFit(m) && Governor.SettingInv(m.snap.profile, m.snap.profileBaseline)
    ensures var changes, r := ProfileChange(m, d), Do(m, d, n).snap;
            if changes == [] then r.profile == m.snap.profile && r.profileBaseline == m.snap.profileBaseline
            else
              && changes == [changes[0]] && Governor.Possible(m.snap.profile, changes[0])
              && r.profile == Governor.ApplyChange(m.snap.profile, changes[0])
              && r.profileBaseline == Governor.Baseline(r.profile, m.snap.profileBaseline)
  {
    if m.snap.profile.files != [] {
      match d
      case Enters(runs) => Governor.ProfileIsSetting(m.snap.profile, m.settings.profile, runs.profile);
      case Leaves(runs) => Governor.ProfileIsSetting(m.snap.profile, m.settings.profile, runs.profile);
      case _ =>
    }
  }

  /** Over every interleaving the profile, too, goes through a possible run: each enter and each leave changes it. */
  lemma {:induction false} ProfileIsRun(m: Machine, deeds: seq<Deed>, n: nat)
    requires SamplesFit(m) && Governor.SettingInv(m.snap.profile, m.snap.profileBaseline)
    ensures var changes, r := ProfileChanges(m, deeds, n), DoAll(m, deeds, n).snap;
            && Governor.PossibleRun(m.snap.profile, changes)
            && Governor.Run(m.snap.profile, m.snap.profileBaseline, changes) == (r.profile, r.profileBaseline)
            && Governor.SettingInv(r.profile, r.profileBaseline)
  {
    if deeds == [] {
    } else {
      var init, last := deeds[..|deeds| - 1], deeds[|deeds| - 1];
      var before, changes := DoAll(m, init, n), ProfileChanges(m, init, n);
      var more := ProfileChange(before, last);
      ProfileIsRun(m, init, n);
      DeedIsProfileChange(before, last, n);
      if more == [] {
        AddNothing(changes);
      } else {
        Governor.RunOneMore(m.snap.profile, m.snap.profileBaseline, changes, more[0]);
        Governor.ChangeKeepsInv(before.snap.profile, before.snap.profileBaseline, more[0]);
      }
    }
  }

  // ---------------------------------------------------------------- cores

  /** What a deed does to the cores. */
  function CoreOpOf(d: Deed): seq<CoreRuns.CoreOp> {
    match d
    case Enters(runs) => [CoreRuns.Enter(runs.cores)]
    case Leaves(runs) => [CoreRuns.Leave(runs.cores)]
    case Rereads(settings, again, look) => [CoreRuns.Reread(again, Wants(settings), look)]
    case Checks(_, _, _) => []
    case Outside(_) => []
  }

  function CoreOps(deeds: seq<Deed>): seq<CoreRuns.CoreOp> {
    if deeds == [] then [] else CoreOps(deeds[..|deeds| - 1]) + CoreOpOf(deeds[|deeds| - 1])
  }

  function HistoryOf(m: Machine): CoreRuns.History {
    CoreRuns.History(m.snap.cores, m.snap.coreBase, m.snap.unparked)
  }

  lemma RunOneMore(h: CoreRuns.History, ops: seq<CoreRuns.CoreOp>, op: CoreRuns.CoreOp, n: nat)
    ensures CoreRuns.RunCores(h, ops + [op], n) == CoreRuns.Apply(CoreRuns.RunCores(h, ops, n), op, n)
  {
    assert (ops + [op])[..|ops|] == ops;
  }

  lemma DeedIsOp(m: Machine, d: Deed, n: nat)
    requires SamplesFit(m)
    ensures if CoreOpOf(d) == [] then HistoryOf(Do(m, d, n)) == HistoryOf(m)
            else CoreOpOf(d) == [CoreOpOf(d)[0]]
                 && HistoryOf(Do(m, d, n)) == CoreRuns.Apply(HistoryOf(m), CoreOpOf(d)[0], n)
  {
  }

  /** Over every interleaving the cores go through a run of enters, leaves and rereads. */
  lemma {:induction false} CoresAreRun(m: Machine, deeds: seq<Deed>, n: nat)
    requires SamplesFit(m)
    ensures HistoryOf(DoAll(m, deeds, n)) == CoreRuns.RunCores(HistoryOf(m), CoreOps(deeds), n)
  {
    if deeds == [] {
    } else {
      var init, last := deeds[..|deeds| - 1], deeds[|deeds| - 1];
      CoresAreRun(m, init, n);
      DeedIsOp(DoAll(m, init, n), last, n);
      if CoreOpOf(last) == [] {
        AddNothing(CoreOps(init));
      } else {
        RunOneMore(HistoryOf(m), CoreOps(init), CoreOpOf(last)[0], n);
      }
    }
  }

  lemma DeedEnters(m: Machine, d: Deed, n: nat)
    requires SamplesFit(m)
    ensures Do(m, d, n).snap.cores.entered ==
            if CallOf(d) == [] then m.snap.cores.entered else CallOf(d) == [Entered]
  {
  }

  /** Game mode is entered exactly when the last call was an enter. */
  lemma {:induction false} EnteredIsLastCall(m: Machine, deeds: seq<Deed>, n: nat)
    requires SamplesFit(m) && !m.snap.cores.entered
    ensures DoAll(m, deeds, n).snap.cores.entered <==> EndsEntered(CallsIn(deeds))
  {
    if deeds == [] {
    } else {
      var init, last := deeds[..|deeds| - 1], deeds[|deeds| - 1];
      EnteredIsLastCall(m, init, n);
      DeedEnters(DoAll(m, init, n), last, n);
      LastCall(CallsIn(init), last);
    }
  }

  predicate EndsEntered(calls: seq<Call>) {
    calls != [] && calls[|calls| - 1] == Entered
  }

  lemma LastCall(calls: seq<Call>, d: Deed)
    ensures EndsEntered(calls + CallOf(d)) <==> if CallOf(d) == [] then EndsEntered(calls) else CallOf(d) == [Entered]
  {
    AddNothing(calls);
  }

  // ---------------------------------------------------------------- every interleaving

  /**
   Over every interleaving in which no overtaken restart leaves, the machine is entered exactly
   when there is a client, except just before a call.
   */
  lemma {:induction false} EnteredIffClients(m: Machine, steps: seq<Interleaving.Step>, world: nat -> World, n: nat,
                                             s: Interleaving.State)
    requires SamplesFit(m) && !m.snap.cores.entered
    requires Interleaving.After(steps) == Some(s) && Interleaving.NeverLeavesOvertaken(steps)
    ensures MachineAfter(m, steps, world, n).snap.cores.entered <==>
            (s.refcount != 0) != (Interleaving.Pending(s.bus) || Interleaving.Pending(s.reaper))
  {
    Interleaving.StaleIffOvertaken(steps);
    Interleaving.AlternatesIff(steps);
    CallsAreDeeds(steps, world);
    EnteredIsLastCall(m, DeedsOf(steps, world), n);
    LastOfAlternating(s.calls);
  }

  lemma LastOfAlternating(calls: seq<Call>)
    requires Alternates(calls)
    ensures |calls| % 2 == 1 <==> EndsEntered(calls)
  {
  }

  /** The daemon just started on a machine with these cores. */
  predicate JustStarted(m: Machine, online: set<int>, look: CoreRuns.Look, n: nat) {
    && SamplesFit(m) && CoreRuns.Bounded(online, n)
    && HistoryOf(m) == CoreRuns.Fresh(online, n, Wants(m.settings), look)
    && CoreRuns.CanPark(Wants(m.settings), look, online, n)
  }

  /**
   Over every interleaving in which the rereads can park if they are to: when no client is left
   and no call is due, the machine has all the cores last read exactly when the last leave could
   bring them back, and those are the ones it started with exactly when every reread could
   unpark; unless an overtaken restart has left.
   */
  lemma {:induction false} IdleIsWhole(m: Machine, steps: seq<Interleaving.Step>, world: nat -> World, n: nat,
                                       s: Interleaving.State, online: set<int>, look: CoreRuns.Look)
    requires JustStarted(m, online, look, n)
    requires Interleaving.After(steps) == Some(s) && Interleaving.NeverLeavesOvertaken(steps)
    requires CoreRuns.Possible(HistoryOf(m), CoreOps(DeedsOf(steps, world)), n)
    requires s.refcount == 0 && !Interleaving.Pending(s.bus) && !Interleaving.Pending(s.reaper)
    ensures var h := HistoryOf(MachineAfter(m, steps, world, n));
            && !h.cores.entered
            && (h.cores.online == h.base <==> h.unparked)
            && (h.base == online <==> CoreRuns.AllFound(HistoryOf(m), CoreOps(DeedsOf(steps, world)), n))
  {
    EnteredIffClients(m, steps, world, n, s);
    InterleavedCores(m, steps, world, n, online, look);
  }

  /** And at any time, however often an overtaken restart has left, what CoresConserved says. */
  lemma {:induction false} InterleavedCores(m: Machine, steps: seq<Interleaving.Step>, world: nat -> World, n: nat,
                                            online: set<int>, look: CoreRuns.Look)
    requires JustStarted(m, online, look, n)
    requires CoreRuns.Possible(HistoryOf(m), CoreOps(DeedsOf(steps, world)), n)
    ensures var h := HistoryOf(MachineAfter(m, steps, world, n));
            && h.base - CoreRuns.Parked(h.cores.info) <= h.cores.online <= h.base <= online
            && (h.base == online <==> CoreRuns.AllFound(HistoryOf(m), CoreOps(DeedsOf(steps, world)), n))
            && (!h.cores.entered ==> (h.cores.online == h.base <==> h.unparked))
  {
    var ops := CoreOps(DeedsOf(steps, world));
    CoresAreRun(m, DeedsOf(steps, world), n);
    CoreRuns.CoresConserved(online, n, Wants(m.settings), look, ops);
  }

  // ---------------------------------------------------------------- operations without interruption

  lemma {:induction false} DoAllAppend(m: Machine, a: seq<Deed>, b: seq<Deed>, n: nat)
    requires SamplesFit(m)
    ensures DoAll(m, a + b, n) == DoAll(DoAll(m, a, n), b, n)
  {
    if b == [] {
      AddNothing(a);
    } else {
      var init := b[..|b| - 1];
      assert (a + b)[..|a + b| - 1] == a + init;
      DoAllAppend(m, a, init, n);
    }
  }

  lemma DoOne(m: Machine, d: Deed, n: nat)
    requires SamplesFit(m)
    ensures DoAll(m, [d], n) == Do(m, d, n) && CoreOps([d]) == CoreOpOf(d)
  {
    assert [d][..0] == [];
  }

  lemma DoTwo(m: Machine, d: Deed, e: Deed, n: nat)
    requires SamplesFit(m)
    ensures DoAll(m, [d, e], n) == Do(Do(m, d, n), e, n) && CoreOps([d, e]) == CoreOpOf(d) + CoreOpOf(e)
  {
    assert [d, e][..1] == [d];
    DoOne(m, d, n);
  }

  lemma DoThree(m: Machine, d: Deed, e: Deed, f: Deed, n: nat)
    requires SamplesFit(m)
    ensures DoAll(m, [d, e, f], n) == Do(Do(Do(m, d, n), e, n), f, n)
    ensures CoreOps([d, e, f]) == CoreOpOf(d) + CoreOpOf(e) + CoreOpOf(f)
  {
    assert [d, e, f][..2] == [d, e];
    DoTwo(m, d, e, n);
  }

  /** One more step of a run, with its deeds. */
  lemma Go(before: seq<Interleaving.Step>, s: Interleaving.State, t: Interleaving.Thread, a: Interleaving.Action,
           world: nat -> World, deeds: seq<Deed>)
    returns (steps: seq<Interleaving.Step>, s': Interleaving.State)
    requires Interleaving.After(before) == Some(s) && Interleaving.Enabled(s, t, a)
    requires deeds == DeedsAt(Interleaving.PlaceOf(s, t), a, world(|before|))
    ensures steps == before + [Interleaving.Step(t, a)] && |steps| == |before| + 1
    ensures s' == Interleaving.Next(s, t, a) && Interleaving.After(steps) == Some(s')
    ensures DeedsOf(steps, world) == DeedsOf(before, world) + deeds
  {
    steps, s' := before + [Interleaving.Step(t, a)], Interleaving.Next(s, t, a);
    assert steps[..|steps| - 1] == before;
  }

  /** The deeds of a reload. */
  function ReloadDeeds(clients: bool, settings: Settings, runs: Context.ReloadRuns): seq<Deed> {
    if clients then [Leaves(runs.leave), Rereads(settings, runs.again, runs.look), Enters(runs.enter)]
    else [Rereads(settings, runs.again, runs.look)]
  }

  /** They are what GameModeContext.Reload does in one step. */
  lemma ReloadDeedsAgree(m: Machine, clients: bool, settings: Settings, runs: Context.ReloadRuns, n: nat)
    requires SamplesFit(m)
    ensures DoAll(m, ReloadDeeds(clients, settings, runs), n) ==
            Machine(Context.AfterReload(m.snap, clients, m.settings, settings, runs, n), settings)
    ensures CoreOps(ReloadDeeds(clients, settings, runs)) ==
            CoreRuns.ReloadOps(clients, runs.leave.cores, runs.again, Wants(settings), runs.look, runs.enter.cores)
  {
    var reread := Rereads(settings, runs.again, runs.look);
    if clients {
      DoThree(m, Leaves(runs.leave), reread, Enters(runs.enter), n);
    } else {
      DoOne(m, reread, n);
    }
  }

  /** A reload takes the lock, */
  lemma ReloadLocks(before: seq<Interleaving.Step>, s: Interleaving.State, t: Interleaving.Thread, world: nat -> World)
    returns (steps: seq<Interleaving.Step>, s': Interleaving.State)
    requires Interleaving.After(before) == Some(s) && world(|before|).outside.None?
    requires Interleaving.PlaceOf(s, t) == Interleaving.Idle
    requires t == Interleaving.Bus ==> s.reaper == Interleaving.Stopped
    requires !Interleaving.Writes(Interleaving.Other(s, t)) && !Interleaving.Reads(Interleaving.Other(s, t))
    ensures |steps| == |before| + 1 && Interleaving.After(steps) == Some(s')
    ensures s' == Interleaving.Goes(s, t, Interleaving.ReloadLocked)
    ensures DeedsOf(steps, world) == DeedsOf(before, world)
  {
    steps, s' := Go(before, s, t, Interleaving.LockToReload, world, []);
    AddNothing(DeedsOf(before, world));
  }

  /** rereads without clients, */
  lemma ReloadRereads(before: seq<Interleaving.Step>, s: Interleaving.State, t: Interleaving.Thread,
                      world: nat -> World)
    returns (steps: seq<Interleaving.Step>, s': Interleaving.State)
    requires Interleaving.After(before) == Some(s) && Interleaving.PlaceOf(s, t) == Interleaving.ReloadLocked
    requires s.refcount == 0
    ensures Interleaving.After(steps) == Some(s') && s' == Interleaving.Goes(s, t, Interleaving.Idle)
    ensures var w := world(|before|);
            DeedsOf(steps, world) == DeedsOf(before, world) + [Rereads(w.settings, w.again, w.look)]
  {
    var w := world(|before|);
    steps, s' := Go(before, s, t, Interleaving.Unlock, world, [Rereads(w.settings, w.again, w.look)]);
  }

  /** or leaves first, */
  lemma ReloadLeaves(before: seq<Interleaving.Step>, s: Interleaving.State, t: Interleaving.Thread, world: nat -> World)
    returns (steps: seq<Interleaving.Step>, s': Interleaving.State)
    requires Interleaving.After(before) == Some(s) && Interleaving.PlaceOf(s, t) == Interleaving.ReloadLocked
    requires s.refcount != 0
    ensures |steps| == |before| + 1 && Interleaving.After(steps) == Some(s')
    ensures s' == Interleaving.Goes(Interleaving.Calling(s, Left), t, Interleaving.ReloadLeft)
    ensures DeedsOf(steps, world) == DeedsOf(before, world) + [Leaves(world(|before|).leave)]
  {
    steps, s' := Go(before, s, t, Interleaving.ReloadLeave, world, [Leaves(world(|before|).leave)]);
  }

  /** and then rereads and enters, */
  lemma ReloadEnters(before: seq<Interleaving.Step>, s: Interleaving.State, t: Interleaving.Thread, world: nat -> World)
    returns (steps: seq<Interleaving.Step>, s': Interleaving.State)
    requires Interleaving.After(before) == Some(s) && Interleaving.PlaceOf(s, t) == Interleaving.ReloadLeft
    ensures |steps| == |before| + 1 && Interleaving.After(steps) == Some(s')
    ensures s' == Interleaving.Goes(Interleaving.Calling(s, Entered), t, Interleaving.Finishing)
    ensures var w := world(|before|);
            DeedsOf(steps, world) == DeedsOf(before, world) + [Rereads(w.settings, w.again, w.look), Enters(w.enter)]
  {
    var w := world(|before|);
    steps, s' := Go(before, s, t, Interleaving.ReloadEnter, world,
                    [Rereads(w.settings, w.again, w.look), Enters(w.enter)]);
  }

  /** and gives up the lock. */
  lemma Finishes(before: seq<Interleaving.Step>, s: Interleaving.State, t: Interleaving.Thread, world: nat -> World)
    returns (steps: seq<Interleaving.Step>, s': Interleaving.State)
    requires Interleaving.After(before) == Some(s)
    requires || Interleaving.PlaceOf(s, t) == Interleaving.Finishing
             || Interleaving.PlaceOf(s, t) == Interleaving.RestartEntered
    ensures Interleaving.After(steps) == Some(s') && s' == Interleaving.Goes(s, t, Interleaving.Idle)
    ensures DeedsOf(steps, world) == DeedsOf(before, world)
  {
    steps, s' := Go(before, s, t, Interleaving.Unlock, world, []);
    AddNothing(DeedsOf(before, world));
  }

  /** With clients: leaves, rereads, enters. */
  lemma ReloadGoesOn(before: seq<Interleaving.Step>, s: Interleaving.State, t: Interleaving.Thread,
                     world: nat -> World, leave: Deed, reread: Deed, enter: Deed)
    returns (steps: seq<Interleaving.Step>, s': Interleaving.State)
    requires Interleaving.After(before) == Some(s) && Interleaving.PlaceOf(s, t) == Interleaving.ReloadLocked
    requires s.refcount != 0
    requires var w := world(|before| + 1);
             && leave == Leaves(world(|before|).leave) && reread == Rereads(w.settings, w.again, w.look)
             && enter == Enters(w.enter)
    ensures Interleaving.After(steps) == Some(s')
    ensures s' == Interleaving.Goes(s.(calls := s.calls + [Left] + [Entered]), t, Interleaving.Idle)
    ensures DeedsOf(steps, world) == DeedsOf(before, world) + [leave, reread, enter]
  {
    steps, s' := ReloadLeaves(before, s, t, world);
    steps, s' := ReloadEnters(steps, s', t, world);
    steps, s' := Finishes(steps, s', t, world);
    AddAssociates(DeedsOf(before, world), [leave], [reread, enter]);
    assert [leave] + [reread, enter] == [leave, reread, enter];
  }

  /** The steps of a whole reload have the deeds of one. */
  lemma ReloadSteps(before: seq<Interleaving.Step>, s: Interleaving.State, t: Interleaving.Thread,
                    world: nat -> World, runs: Context.ReloadRuns, settings: Settings)
    returns (steps: seq<Interleaving.Step>, s': Interleaving.State)
    requires Interleaving.After(before) == Some(s) && world(|before|).outside.None?
    requires Interleaving.PlaceOf(s, t) == Interleaving.Idle
    requires t == Interleaving.Bus ==> s.reaper == Interleaving.Stopped
    requires !Interleaving.Writes(Interleaving.Other(s, t)) && !Interleaving.Reads(Interleaving.Other(s, t))
    requires var w := world(|before| + if s.refcount != 0 then 2 else 1);
             && runs == Context.ReloadRuns(world(|before| + 1).leave, w.again, w.look, w.enter)
             && settings == w.settings
    ensures Interleaving.After(steps) == Some(s')
    ensures s' == s.(calls := if s.refcount != 0 then s.calls + [Left] + [Entered] else s.calls)
    ensures DeedsOf(steps, world) == DeedsOf(before, world) + ReloadDeeds(s.refcount != 0, settings, runs)
  {
    steps, s' := ReloadLocks(before, s, t, world);
    var reread := Rereads(settings, runs.again, runs.look);
    if s.refcount == 0 {
      steps, s' := ReloadRereads(steps, s', t, world);
    } else {
      steps, s' := ReloadGoesOn(steps, s', t, world, Leaves(runs.leave), reread, Enters(runs.enter));
    }
  }

  /**
   A reload that nobody interrupts, by either thread, takes the machine from any reachable state to
   what GameModeContext.Reload makes of it in one step: with clients the old settings are undone
   before the new ones are read, and applied after.
   */
  lemma ReloadAgrees(before: seq<Interleaving.Step>, s: Interleaving.State, t: Interleaving.Thread,
                     world: nat -> World, m: Machine, n: nat, runs: Context.ReloadRuns, settings: Settings)
    returns (steps: seq<Interleaving.Step>, s': Interleaving.State)
    requires SamplesFit(m) && Interleaving.After(before) == Some(s) && world(|before|).outside.None?
    requires Interleaving.PlaceOf(s, t) == Interleaving.Idle
    requires t == Interleaving.Bus ==> s.reaper == Interleaving.Stopped
    requires !Interleaving.Writes(Interleaving.Other(s, t)) && !Interleaving.Reads(Interleaving.Other(s, t))
    requires var w := world(|before| + if s.refcount != 0 then 2 else 1);
             && runs == Context.ReloadRuns(world(|before| + 1).leave, w.again, w.look, w.enter)
             && settings == w.settings
    ensures Interleaving.After(steps) == Some(s')
    ensures s' == s.(calls := if s.refcount != 0 then s.calls + [Left] + [Entered] else s.calls)
    ensures var m0 := MachineAfter(m, before, world, n);
            MachineAfter(m, steps, world, n) ==
            Machine(Context.AfterReload(m0.snap, s.refcount != 0, m0.settings, settings, runs, n), settings)
  {
    var m0, reload := MachineAfter(m, before, world, n), ReloadDeeds(s.refcount != 0, settings, runs);
    steps, s' := ReloadSteps(before, s, t, world, runs, settings);
    DoAllAppend(m, DeedsOf(before, world), reload, n);
    ReloadDeedsAgree(m0, s.refcount != 0, settings, runs, n);
  }

  /** A restart up to its leave, */
  lemma RestartLocks(before: seq<Interleaving.Step>, s: Interleaving.State, world: nat -> World)
    returns (steps: seq<Interleaving.Step>, s': Interleaving.State)
    requires Interleaving.After(before) == Some(s) && world(|before|).outside.None? && world(|before| + 1).outside.None?
    requires s.bus == Interleaving.Idle && s.refcount != 0 && !Interleaving.Writes(s.reaper)
    ensures |steps| == |before| + 2 && Interleaving.After(steps) == Some(s')
    ensures s' == s.(bus := Interleaving.RestartLocked)
    ensures DeedsOf(steps, world) == DeedsOf(before, world)
  {
    AddNothing(DeedsOf(before, world));
    steps, s' := Go(before, s, Interleaving.Bus, Interleaving.TestCount, world, []);
    steps, s' := Go(steps, s', Interleaving.Bus, Interleaving.LockToRestart, world, []);
  }

  /** and its two calls. */
  lemma RestartCalls(before: seq<Interleaving.Step>, s: Interleaving.State, world: nat -> World)
    returns (steps: seq<Interleaving.Step>, s': Interleaving.State)
    requires Interleaving.After(before) == Some(s) && s.bus == Interleaving.RestartLocked
    ensures Interleaving.After(steps) == Some(s')
    ensures s' == s.(calls := s.calls + [Left] + [Entered], bus := Interleaving.RestartEntered)
    ensures DeedsOf(steps, world) ==
            DeedsOf(before, world) + [Leaves(world(|before|).leave)] + [Enters(world(|before| + 1).enter)]
  {
    steps, s' := Go(before, s, Interleaving.Bus, Interleaving.RestartLeave, world, [Leaves(world(|before|).leave)]);
    steps, s' := Go(steps, s', Interleaving.Bus, Interleaving.RestartEnter, world, [Enters(world(|before| + 1).enter)]);
  }

  /** A restart that nobody interrupts leaves and enters under the settings in use. */
  lemma RestartAgrees(before: seq<Interleaving.Step>, s: Interleaving.State, world: nat -> World, m: Machine, n: nat)
    returns (steps: seq<Interleaving.Step>, s': Interleaving.State)
    requires SamplesFit(m) && Interleaving.After(before) == Some(s)
    requires world(|before|).outside.None? && world(|before| + 1).outside.None?
    requires s.bus == Interleaving.Idle && s.refcount != 0 && !Interleaving.Writes(s.reaper)
    ensures Interleaving.After(steps) == Some(s') && s' == s.(calls := s.calls + [Left] + [Entered])
    ensures var m0 := MachineAfter(m, before, world, n);
            var left := AfterLeave(m0.snap, m0.settings, world(|before| + 2).leave);
            MachineAfter(m, steps, world, n) == m0.(snap := AfterEnter(left, m0.settings, world(|before| + 3).enter))
  {
    var start, m0 := DeedsOf(before, world), MachineAfter(m, before, world, n);
    var leave, enter := Leaves(world(|before| + 2).leave), Enters(world(|before| + 3).enter);
    steps, s' := RestartLocks(before, s, world);
    steps, s' := RestartCalls(steps, s', world);
    steps, s' := Finishes(steps, s', Interleaving.Bus, world);
    AddAssociates(start, [leave], [enter]);
    assert [leave] + [enter] == [leave, enter];
    DoAllAppend(m, start, [leave, enter], n);
    DoTwo(m0, leave, enter, n);
  }

  lemma VisitSteps(before: seq<Interleaving.Step>, s: Interleaving.State, world: nat -> World, check: Deed)
    returns (steps: seq<Interleaving.Step>, s': Interleaving.State)
    requires Interleaving.After(before) == Some(s) && world(|before|).checks
    requires check == Checks(world(|before|).cpuUj, world(|before|).igpuUj, world(|before|).run)
    requires s.reaper == Interleaving.Idle && !Interleaving.Writes(s.bus) && !Interleaving.Reads(s.bus)
    ensures Interleaving.After(steps) == Some(s') && s' == s
    ensures DeedsOf(steps, world) == DeedsOf(before, world) + [check]
  {
    steps, s' := Go(before, s, Interleaving.Reaper, Interleaving.LockToVisit, world, [check]);
    steps, s' := Finishes(steps, s', Interleaving.Reaper, world);
  }

  /** A check by the reaper that nobody interrupts is the one of GameModeContext.CheckIgpuEnergy. */
  lemma VisitAgrees(before: seq<Interleaving.Step>, s: Interleaving.State, world: nat -> World, m: Machine, n: nat)
    returns (steps: seq<Interleaving.Step>, s': Interleaving.State)
    requires SamplesFit(m) && Interleaving.After(before) == Some(s) && world(|before|).checks
    requires s.reaper == Interleaving.Idle && !Interleaving.Writes(s.bus) && !Interleaving.Reads(s.bus)
    ensures Interleaving.After(steps) == Some(s') && s' == s
    ensures var m0, w := MachineAfter(m, before, world, n), world(|before|);
            MachineAfter(m, steps, world, n) ==
            m0.(snap := AfterCheck(m0.snap, m0.settings, w.cpuUj, w.igpuUj, w.run))
  {
    var w := world(|before|);
    var check := Checks(w.cpuUj, w.igpuUj, w.run);
    steps, s' := VisitSteps(before, s, world, check);
    DoAllAppend(m, DeedsOf(before, world), [check], n);
    DoOne(MachineAfter(m, before, world, n), check, n);
  }
}
