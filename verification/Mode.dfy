/**
 Entering and leaving game mode: the part of struct GameModeContext that saves, changes and
 restores settings of the machine, and the reaper's iGPU check.
 */
module Mode {
  import opened Common
  import opened CoreRuns
  import opened CpuPark
  import opened CpuSelect
  import opened Energy
  import opened Governor
  import opened Machine

  /** What the configuration getters used here return. */
  datatype Settings = Settings(governor: Names, profile: Names, threshold: real, pinCores: string, parkCores: string)

  /** What the settings ask to do with the cores. */
  function Wants(settings: Settings): Wanted {
    WantedOf(settings.pinCores, settings.parkCores)
  }

  /** FP_INFINITE of <math.h>: a classification constant, not an infinity. */
  const FP_INFINITE: real := 1.0

  /** config_get_igpu_power_threshold */
  function IgpuThreshold(configured: real): real {
    if configured < 0.0 then FP_INFINITE else configured
  }

  /** How the helpers and energy readings of one enter turn out. */
  datatype EnterRuns = EnterRuns(
    profile: HelperRun, governor: HelperRun, cpuUj: Option<nat>, igpuUj: Option<nat>, cores: CoreHelper)

  /** How the helpers of one leave turn out. */
  datatype LeaveRuns = LeaveRuns(profile: HelperRun, governor: HelperRun, cores: CoreHelper)

  datatype Call = Entered | Left

  /** The calls strictly alternate, starting with an enter. */
  predicate Alternates(calls: seq<Call>) {
    forall i :: 0 <= i < |calls| ==> calls[i] == if i % 2 == 0 then Entered else Left
  }

  /** The iGPU heuristic's state. */
  datatype IgpuState = IgpuState(on: bool, lastCpu: nat, lastIgpu: nat)

  /** game_mode_enable_igpu_optimization */
  function EnableIgpu(g: IgpuState, threshold: real, cpuUj: Option<nat>, igpuUj: Option<nat>): IgpuState {
    if !(threshold < 10000.0) || cpuUj.None? then g
    else if igpuUj.None? then g.(lastCpu := Truncate(cpuUj.value))
    else IgpuState(true, Truncate(cpuUj.value), Truncate(igpuUj.value))
  }

  /**
   The heuristic comes on whenever both energies are read and the configured threshold is
   below 10000; a negative one counts as 1, so it does not keep it off.
   */
  lemma IgpuEnabledIff(g: IgpuState, configured: real, cpuUj: Option<nat>, igpuUj: Option<nat>)
    ensures EnableIgpu(g, IgpuThreshold(configured), cpuUj, igpuUj).on <==>
            g.on || (configured < 10000.0 && cpuUj.Some? && igpuUj.Some?)
  {
  }

  /** Did setting the governor return 0? */
  predicate SetReturnsZero(s: Setting, target: Level, run: HelperRun) {
    s.current == target || run.success
  }

  /** What a check leaves behind. */
  function CheckedIgpu(g: IgpuState, atDefault: bool, cpuUj: Option<nat>, igpuUj: Option<nat>): IgpuState {
    if atDefault || !g.on then g
    else if cpuUj.None? || igpuUj.None? then g.(on := false)
    else IgpuState(true, Truncate(cpuUj.value), Truncate(igpuUj.value))
  }

  /** The level game_mode_check_igpu_energy asks for, if it gets that far. */
  function WantedLevel(s: Setting, g: IgpuState, threshold: real, cpuUj: Option<nat>,
                       igpuUj: Option<nat>): Option<Level>
    requires g.lastCpu < U32 && g.lastIgpu < U32
  {
    if s.current == Default || !g.on || cpuUj.None? || igpuUj.None? then None
    else Choice(Delta(Truncate(cpuUj.value), g.lastCpu), Delta(Truncate(igpuUj.value), g.lastIgpu), threshold)
  }

  /**
   The settings and cores of the machine with what the daemon remembers about them, and their
   history: the settings' files at their last default, the cores online when the cpu info was
   read, and whether the last leave brought all of those back.
   */
  datatype Snapshot = Snapshot(
    governor: Setting, profile: Setting, cores: Cores, igpu: IgpuState,
    governorBaseline: seq<string>, profileBaseline: seq<string>, coreBase: set<int>, unparked: bool)

  function AfterEnter(s: Snapshot, settings: Settings, runs: EnterRuns): Snapshot {
    var governor := ApplyChange(s.governor, Governor.Enter(settings.governor, runs.governor));
    var profile := SetProfile(StoreProfile(s.profile), Desired, settings.profile, runs.profile);
    var igpu := if SetReturnsZero(s.governor, Desired, runs.governor)
                then EnableIgpu(s.igpu, IgpuThreshold(settings.threshold), runs.cpuUj, runs.igpuUj)
                else s.igpu;
    Snapshot(governor, profile, EnterCores(s.cores, runs.cores), igpu,
             Baseline(governor, s.governorBaseline), Baseline(profile, s.profileBaseline), s.coreBase, s.unparked)
  }

  function AfterLeave(s: Snapshot, settings: Settings, runs: LeaveRuns): Snapshot {
    var governor := ApplyChange(s.governor, Governor.Leave(settings.governor, runs.governor));
    var profile := SetProfile(s.profile, Default, settings.profile, runs.profile);
    Snapshot(governor, profile, LeaveCores(s.cores, runs.cores), s.igpu.(on := false),
             Baseline(governor, s.governorBaseline), Baseline(profile, s.profileBaseline), s.coreBase,
             UnparkWorks(s.cores, runs.cores.refused))
  }

  /** Unparking with the old info, and looking at the machine again under new settings. */
  function AfterReconfig(s: Snapshot, settings: Settings, again: CoreHelper, look: Look, n: nat): Snapshot {
    var online := Helper(s.cores.online, s.cores.info, true, again);
    s.(cores := Cores(online, InfoAt(Wants(settings), look, online, n), s.cores.entered),
       coreBase := online, unparked := true)
  }

  /** The reaper's iGPU check. */
  function AfterCheck(s: Snapshot, settings: Settings, cpuUj: Option<nat>, igpuUj: Option<nat>,
                      run: HelperRun): Snapshot
    requires s.igpu.lastCpu < U32 && s.igpu.lastIgpu < U32
  {
    var governor := match WantedLevel(s.governor, s.igpu, IgpuThreshold(settings.threshold), cpuUj, igpuUj)
      case None => s.governor
      case Some(level) => ApplyChange(s.governor, Switch(settings.governor, level, run));
    s.(governor := governor, igpu := CheckedIgpu(s.igpu, s.governor.current == Default, cpuUj, igpuUj),
       governorBaseline := Baseline(governor, s.governorBaseline))
  }

  /** An enter turns the heuristic on when the governor is set, both energies are read and the threshold allows it. */
  lemma EnterTurnsIgpuOn(s: Snapshot, settings: Settings, runs: EnterRuns)
    ensures var igpu := AfterEnter(s, settings, runs).igpu;
            var set_ := s.governor.current == Desired || runs.governor.success;
            var read := runs.cpuUj.Some? && runs.igpuUj.Some?;
            && (igpu.on <==> s.igpu.on || (set_ && read && settings.threshold < 10000.0))
            && (set_ && read && settings.threshold < 10000.0 ==>
                  igpu == IgpuState(true, Truncate(runs.cpuUj.value), Truncate(runs.igpuUj.value)))
  {
  }

  lemma LeaveTurnsIgpuOff(s: Snapshot, settings: Settings, runs: LeaveRuns)
    ensures !AfterLeave(s, settings, runs).igpu.on
  {
  }

  lemma CheckAsks(s: Snapshot, settings: Settings, cpu0: nat, cpu1: nat, igpu0: nat, igpu1: nat, run: HelperRun,
                  choice: Option<Level>)
    requires s.governor.current != Default && s.igpu == IgpuState(true, Truncate(cpu0), Truncate(igpu0))
    requires cpu0 <= cpu1 < cpu0 + U32 && igpu0 <= igpu1 < igpu0 + U32
    requires choice == Choice(cpu1 - cpu0, igpu1 - igpu0, IgpuThreshold(settings.threshold))
    ensures var r := AfterCheck(s, settings, Some(cpu1), Some(igpu1), run);
            && r.igpu == IgpuState(true, Truncate(cpu1), Truncate(igpu1))
            && r.governor == if choice.None? then s.governor
                             else ApplyChange(s.governor, Switch(settings.governor, choice.value, run))
  {
    ChoiceFromTrueCounters(cpu0, cpu1, igpu0, igpu1, IgpuThreshold(settings.threshold));
  }

  /**
   A check in game mode asks for the iGPU governor exactly when since the last check the iGPU has
   used more than the threshold's share of the cpu's energy, and a negative threshold counts as 1;
   else for the desired one. It asks for neither when the cpu has used nothing.
   */
  lemma CheckFollowsEnergy(s: Snapshot, settings: Settings, cpu0: nat, cpu1: nat, igpu0: nat, igpu1: nat,
                           run: HelperRun, favoured: bool)
    requires s.governor.current != Default && s.igpu == IgpuState(true, Truncate(cpu0), Truncate(igpu0))
    requires cpu0 <= cpu1 < cpu0 + U32 && igpu0 <= igpu1 < igpu0 + U32
    requires var share := if settings.threshold < 0.0 then 1.0 else settings.threshold;
             favoured == ((igpu1 - igpu0) as real > share * (cpu1 - cpu0) as real)
    ensures var r := AfterCheck(s, settings, Some(cpu1), Some(igpu1), run);
            && r.igpu == IgpuState(true, Truncate(cpu1), Truncate(igpu1))
            && r.governor == if cpu1 == cpu0 then s.governor
                             else ApplyChange(s.governor, Switch(settings.governor,
                                                                 if favoured then IgpuDesired else Desired, run))
  {
    var cpu, igpu, share := cpu1 - cpu0, igpu1 - igpu0, IgpuThreshold(settings.threshold);
    var choice := Choice(cpu, igpu, share);
    ChoiceIff(cpu, igpu, share);
    assert choice == if cpu == 0 then None else Some(if favoured then IgpuDesired else Desired);
    CheckAsks(s, settings, cpu0, cpu1, igpu0, igpu1, run, choice);
  }

  /** A check that cannot read an energy turns the heuristic off; at the default or turned off it does nothing. */
  lemma CheckWithoutEnergy(s: Snapshot, settings: Settings, cpuUj: Option<nat>, igpuUj: Option<nat>, run: HelperRun)
    requires s.igpu.lastCpu < U32 && s.igpu.lastIgpu < U32
    requires s.governor.current == Default || !s.igpu.on || cpuUj.None? || igpuUj.None?
    ensures var r := AfterCheck(s, settings, cpuUj, igpuUj, run);
            && r.governor == s.governor
            && (s.governor.current == Default || !s.igpu.on ==> r.igpu == s.igpu)
            && (s.governor.current != Default ==> !r.igpu.on)
  {
  }

  // ---------------------------------------------------------------- entering and leaving

  /** A machine outside game mode with both settings at their defaults and all cores that were read. */
  predicate AtRest(s: Snapshot) {
    && s.governor.current == Default && s.profile.current == Default && !s.cores.entered
    && Within(s.cores, s.coreBase) && s.cores.online == s.coreBase
  }

  /** Nothing goes wrong in an enter and a leave: helpers succeed, write all files, and no core is refused. */
  predicate Smooth(s: Snapshot, settings: Settings, enter: EnterRuns, leave: LeaveRuns) {
    && enter.governor.success && enter.profile.success && leave.governor.success && leave.profile.success
    && Covers(leave.governor.written, |s.governor.files|) && Covers(leave.profile.written, |s.profile.files|)
    && leave.cores.refused == {} && settings.governor.default == "" && settings.profile.default == ""
  }

  /**
   Leaving undoes entering: without configured defaults and with nothing going wrong the cores come
   back, and each setting's files do exactly if they were uniform.
   */
  lemma LeaveUndoesEnter(s: Snapshot, settings: Settings, enter: EnterRuns, leave: LeaveRuns)
    requires AtRest(s) && Smooth(s, settings, enter, leave)
    ensures var left := AfterLeave(AfterEnter(s, settings, enter), settings, leave);
            && left.governor.current == Default && left.profile.current == Default && !left.cores.entered
            && left.cores.online == s.cores.online
            && (left.governor.files == s.governor.files <==> Uniform(s.governor.files))
            && (left.profile.files == s.profile.files <==> Uniform(s.profile.files))
  {
    SettingComesBack(s.governor, settings.governor, enter.governor, leave.governor);
    ProfileComesBack(s.profile, settings.profile, enter.profile, leave.profile);
    EnterKeepsCores(s.cores, enter.cores, s.coreBase);
    LeaveRestoresIff(EnterCores(s.cores, enter.cores), leave.cores, s.coreBase);
  }

  lemma SettingComesBack(s: Setting, names: Names, enter: HelperRun, leave: HelperRun)
    requires s.current == Default && enter.success && leave.success && names.default == ""
    requires Covers(leave.written, |s.files|)
    ensures var left := ApplyChange(ApplyChange(s, Governor.Enter(names, enter)), Governor.Leave(names, leave));
            left.current == Default && (left.files == s.files <==> Uniform(s.files))
  {
    var entered := ApplyChange(s, Governor.Enter(names, enter));
    EnterEndsIff(s, names, enter);
    ChangeKeepsInv(s, s.files, Governor.Enter(names, enter));
    FilesRestoredIff(entered, s.files, names, leave);
  }

  lemma ProfileComesBack(s: Setting, names: Names, enter: HelperRun, leave: HelperRun)
    requires s.current == Default && enter.success && leave.success && names.default == ""
    requires Covers(leave.written, |s.files|)
    ensures var left := SetProfile(SetProfile(StoreProfile(s), Desired, names, enter), Default, names, leave);
            left.current == Default && (left.files == s.files <==> Uniform(s.files))
  {
    if s.files != [] {
      ProfileIsSetting(s, names, enter);
      var entered := ApplyChange(s, Governor.Enter(names, enter));
      ProfileIsSetting(entered, names, leave);
      SettingComesBack(s, names, enter, leave);
    }
  }

  // ---------------------------------------------------------------- runs of the iGPU check

  /** A run of checks in game mode that can read both energies. */
  function Checks(g: IgpuState, samples: seq<(nat, nat)>): (r: IgpuState)
    ensures g.lastCpu < U32 && g.lastIgpu < U32 ==> r.lastCpu < U32 && r.lastIgpu < U32
  {
    if samples == [] then g
    else
      CheckedIgpu(Checks(g, samples[..|samples| - 1]), false,
                  Some(samples[|samples| - 1].0), Some(samples[|samples| - 1].1))
  }

  /** The two energies that a check compares. */
  datatype Counter = CpuUj | IgpuUj

  function Last(g: IgpuState, c: Counter): nat {
    match c case CpuUj => g.lastCpu case IgpuUj => g.lastIgpu
  }

  function Read(sample: (nat, nat), c: Counter): nat {
    match c case CpuUj => sample.0 case IgpuUj => sample.1
  }

  /** The differences of one energy that the checks of a run work with, added up. */
  function Total(g: IgpuState, c: Counter, samples: seq<(nat, nat)>): nat
    requires g.lastCpu < U32 && g.lastIgpu < U32
  {
    if samples == [] then 0
    else
      Total(g, c, samples[..|samples| - 1])
      + Delta(Truncate(Read(samples[|samples| - 1], c)), Last(Checks(g, samples[..|samples| - 1]), c))
  }

  /** The counter before a run and at each of its checks. */
  function Counters(start: nat, c: Counter, samples: seq<(nat, nat)>): (r: seq<nat>)
    ensures |r| == |samples| + 1
    ensures r[|samples|] == if samples == [] then start else Read(samples[|samples| - 1], c)
  {
    if samples == [] then [start]
    else Counters(start, c, samples[..|samples| - 1]) + [Read(samples[|samples| - 1], c)]
  }

  /** What the checks add up from the stored samples is the sum of deltas of the counters. */
  lemma {:induction false} TotalIsSum(g: IgpuState, c: Counter, start: nat, samples: seq<(nat, nat)>)
    requires g.on && g.lastCpu < U32 && g.lastIgpu < U32 && Last(g, c) == Truncate(start)
    ensures Checks(g, samples).on
    ensures Last(Checks(g, samples), c) == Truncate(Counters(start, c, samples)[|samples|])
    ensures Total(g, c, samples) == SumOfDeltas(Counters(start, c, samples))
  {
    if samples == [] {
    } else {
      var init := samples[..|samples| - 1];
      TotalIsSum(g, c, start, init);
      SumOneMore(Counters(start, c, init), Read(samples[|samples| - 1], c));
    }
  }

  /**
   Over a whole run of the reaper's checks, starting from the stored samples, the differences of
   either energy add up to all that was used exactly when no two samples are 2^32 or more apart.
   */
  lemma {:induction false} ChecksTelescopeIff(g: IgpuState, c: Counter, start: nat, samples: seq<(nat, nat)>)
    requires g.on && g.lastCpu < U32 && g.lastIgpu < U32
    requires Last(g, c) == Truncate(start) && Increasing(Counters(start, c, samples))
    ensures var counters := Counters(start, c, samples);
            Total(g, c, samples) + counters[0] == counters[|samples|] <==>
            forall i :: 0 <= i < |counters| - 1 ==> counters[i + 1] < counters[i] + U32
  {
    TotalIsSum(g, c, start, samples);
    DeltasTelescopeIff(Counters(start, c, samples));
  }

  class GameMode {
    const machine: Computer
    var settings: Settings
    var currentGovernor: Level
    var initialCpuMode: string
    var currentProfile: Level
    var initialProfile: string
    var igpu: IgpuState
    var cpu: Option<CpuInfo>

    // History: the calls made, the settings' files at their last default, the cores online when
    // the cpu info was read, and whether the last leave brought all of those back.
    ghost var calls: seq<Call>
    ghost var governorBaseline: seq<string>
    ghost var profileBaseline: seq<string>
    ghost var coreBase: set<int>
    ghost var unparked: bool

    /** Is game mode entered? */
    ghost predicate Active()
      reads this`calls
    {
      |calls| % 2 == 1
    }

    function GovernorSetting(): Setting
      reads this`currentGovernor, this`initialCpuMode, machine`governors
    {
      Setting(currentGovernor, initialCpuMode, machine.governors)
    }

    function ProfileSetting(): Setting
      reads this`currentProfile, this`initialProfile, machine`profile
    {
      Setting(currentProfile, initialProfile, machine.profile)
    }

    ghost function CoreState(): Cores
      reads this`cpu, this`calls, machine`online
    {
      Cores(machine.online, cpu, Active())
    }

    ghost function State(): Snapshot
      reads this, machine
    {
      Snapshot(GovernorSetting(), ProfileSetting(), CoreState(), igpu,
               governorBaseline, profileBaseline, coreBase, unparked)
    }

    /** What every operation keeps. */
    ghost predicate Valid()
      reads this, machine
    {
      && Alternates(calls)
      && igpu.lastCpu < U32 && igpu.lastIgpu < U32
      && SettingInv(GovernorSetting(), governorBaseline)
      && SettingInv(ProfileSetting(), profileBaseline)
      && CoresOk()
    }

    /** The cores are as their history says. */
    ghost predicate CoresOk()
      reads this`cpu, this`calls, this`coreBase, this`unparked, machine`online
    {
      Remembered(CoreState(), coreBase, machine.possible, unparked)
    }

    /** The part of game_mode_context_init that this class is about. */
    constructor (machine: Computer, settings: Settings, look: Look)
      ensures Valid() && fresh(this) && this.machine == machine && this.settings == settings
      ensures cpu == InfoAt(Wants(settings), look, machine.online, machine.possible)
      ensures calls == [] && unparked && coreBase == machine.online
      ensures currentGovernor == Default && currentProfile == Default && !igpu.on
    {
      var files := FilesFor(look, machine.online, machine.possible);
      var _, info := InitialiseCpu(settings.pinCores, settings.parkCores, files);
      if Bounded(machine.online, machine.possible) {
        StoredIsAccepted(machine.online, machine.possible, Wants(settings), look);
      }
      this.machine, this.settings, this.cpu := machine, settings, info;
      currentGovernor, initialCpuMode := Default, "";
      currentProfile, initialProfile := Default, "";
      igpu := IgpuState(false, 0, 0);
      calls, governorBaseline, profileBaseline := [], machine.governors, machine.profile;
      coreBase, unparked := machine.online, true;
    }

    /** game_mode_store_governor */
    method StoreGovernor()
      requires Valid()
      modifies this`initialCpuMode
      ensures Valid() && GovernorSetting() == Store(old(GovernorSetting()))
    {
      if currentGovernor != Default { return; }
      var initial := GetGovState(machine.governors);
      initialCpuMode := Cut(initial);
    }

    /** game_mode_set_governor; away from Default only after a store at Default. */
    method SetGovernor(target: Level, run: HelperRun) returns (ret: int)
      requires Valid()
      requires currentGovernor == Default ==> initialCpuMode == GovState(machine.governors) || target == Default
      modifies this`currentGovernor, machine`governors, this`governorBaseline
      ensures Valid()
      ensures var governor := Set(old(GovernorSetting()), target, settings.governor, run);
              State() == old(State()).(governor := governor,
                                       governorBaseline := Baseline(governor, old(governorBaseline)))
      ensures ret == 0 <==> SetReturnsZero(old(GovernorSetting()), target, run)
    {
      if currentGovernor == target { return 0; }
      var name := NameFor(target, settings.governor, initialCpuMode);
      machine.governors := Overwritten(machine.governors, run.written, name);
      if run.success { currentGovernor := target; }
      governorBaseline := Baseline(GovernorSetting(), governorBaseline);
      return if run.success then 0 else -1;
    }

    /** game_mode_store_profile */
    method StoreProfileState()
      requires Valid()
      modifies this`initialProfile
      ensures Valid() && ProfileSetting() == StoreProfile(old(ProfileSetting()))
    {
      if machine.profile == [] || currentProfile != Default { return; }
      var initial := GetGovState(machine.profile);
      initialProfile := Cut(initial);
    }

    /** game_mode_set_profile */
    method SetProfileState(target: Level, run: HelperRun)
      requires Valid()
      requires currentProfile == Default ==>
                 initialProfile == GovState(machine.profile) || target == Default || machine.profile == []
      modifies this`currentProfile, machine`profile, this`profileBaseline
      ensures Valid()
      ensures var profile := SetProfile(old(ProfileSetting()), target, settings.profile, run);
              State() == old(State()).(profile := profile, profileBaseline := Baseline(profile, old(profileBaseline)))
    {
      if currentProfile == target { return; }
      if machine.profile == [] { return; }
      var name := NameFor(target, settings.profile, initialProfile);
      machine.profile := Overwritten(machine.profile, run.written, name);
      if run.success { currentProfile := target; }
      profileBaseline := Baseline(ProfileSetting(), profileBaseline);
    }

    /** game_mode_check_igpu_energy */
    method CheckIgpuEnergy(cpuUj: Option<nat>, igpuUj: Option<nat>, run: HelperRun)
      requires Valid()
      modifies this`igpu, this`currentGovernor, machine`governors, this`governorBaseline
      ensures Valid()
      ensures State() == AfterCheck(old(State()), settings, cpuUj, igpuUj, run)
    {
      if currentGovernor == Default { return; }
      if !igpu.on { return; }
      if cpuUj.None? || igpuUj.None? {
        igpu := igpu.(on := false);
        return;
      }
      var cpuDelta := Delta(Truncate(cpuUj.value), igpu.lastCpu);
      var igpuDelta := Delta(Truncate(igpuUj.value), igpu.lastIgpu);
      igpu := IgpuState(true, Truncate(cpuUj.value), Truncate(igpuUj.value));
      if cpuDelta == 0 { return; }
      var ratio := igpuDelta as real / cpuDelta as real;
      if ratio > IgpuThreshold(settings.threshold) {
        var _ := SetGovernor(IgpuDesired, run);
      } else {
        var _ := SetGovernor(Desired, run);
      }
    }

    /** game_mode_context_enter */
    method Enter(runs: EnterRuns)
      requires Valid() && !Active()
      modifies this, machine
      ensures Valid() && calls == old(calls) + [Entered]
      ensures settings == old(settings) && State() == AfterEnter(old(State()), settings, runs)
    {
      EnterSettings(runs);
      Park(runs.cores);
    }

    /** The two settings and the iGPU heuristic; the cores are not touched yet. */
    method EnterSettings(runs: EnterRuns)
      requires Valid() && !Active()
      modifies this`initialProfile, this`initialCpuMode, this`currentProfile, this`currentGovernor, this`igpu
      modifies this`profileBaseline, this`governorBaseline, machine`profile, machine`governors
      ensures Valid()
      ensures State() == AfterEnter(old(State()), settings, runs).(cores := old(CoreState()))
    {
      EnterProfile(runs.profile);
      EnterGovernor(runs.governor, runs.cpuUj, runs.igpuUj);
    }

    /** game_mode_context_store_defaults: both are saved before either changes. */
    method StoreDefaults()
      requires Valid()
      modifies this`initialProfile, this`initialCpuMode
      ensures Valid()
      ensures State() == old(State()).(profile := StoreProfile(old(ProfileSetting())),
                                       governor := Store(old(GovernorSetting())))
      ensures currentProfile == Default && machine.profile != [] ==> initialProfile == GovState(machine.profile)
      ensures currentGovernor == Default ==> initialCpuMode == GovState(machine.governors)
    {
      StoreProfileState();
      StoreGovernor();
      WriteBackIff(machine.profile);
      WriteBackIff(machine.governors);
    }

    /** Saving both, and setting the profile first: it can restrict the governor. */
    method EnterProfile(run: HelperRun)
      requires Valid()
      modifies this`initialProfile, this`initialCpuMode, this`currentProfile, machine`profile, this`profileBaseline
      ensures Valid()
      ensures var profile := SetProfile(StoreProfile(old(ProfileSetting())), Desired, settings.profile, run);
              State() == old(State()).(profile := profile, profileBaseline := Baseline(profile, old(profileBaseline)),
                                       governor := Store(old(GovernorSetting())))
      ensures currentGovernor == Default ==> initialCpuMode == GovState(machine.governors)
    {
      StoreDefaults();
      SetProfileState(Desired, run);
    }

    /** Setting the governor, and then the iGPU heuristic. */
    method EnterGovernor(run: HelperRun, cpuUj: Option<nat>, igpuUj: Option<nat>)
      requires Valid()
      requires currentGovernor == Default ==> initialCpuMode == GovState(machine.governors)
      modifies this`currentGovernor, machine`governors, this`governorBaseline, this`igpu
      ensures Valid()
      ensures var governor := Set(old(GovernorSetting()), Desired, settings.governor, run);
              State() == old(State()).(governor := governor,
                                       governorBaseline := Baseline(governor, old(governorBaseline)),
                                       igpu := if SetReturnsZero(old(GovernorSetting()), Desired, run)
                                               then EnableIgpu(old(igpu), IgpuThreshold(settings.threshold),
                                                               cpuUj, igpuUj)
                                               else old(igpu))
    {
      var ret := SetGovernor(Desired, run);
      if ret == 0 {
        igpu := EnableIgpu(igpu, IgpuThreshold(settings.threshold), cpuUj, igpuUj);
      }
    }

    /** game_mode_park_cpu, the last thing an enter changes. */
    method Park(helper: CoreHelper)
      requires Valid() && !Active()
      modifies this`calls, machine`online
      ensures Valid() && calls == old(calls) + [Entered]
      ensures State() == old(State()).(cores := EnterCores(old(CoreState()), helper))
    {
      ghost var cores := CoreState();
      EnterKeepsHistory(cores, helper, coreBase, machine.possible, unparked);
      calls := calls + [Entered];
      ParkOrUnpark(machine, cpu, false, helper);
      assert CoreState() == EnterCores(cores, helper);
    }

    /** game_mode_unpark_cpu in a leave. */
    method Unpark(helper: CoreHelper)
      requires Valid() && Active()
      modifies this`calls, this`unparked, machine`online
      ensures Valid() && calls == old(calls) + [Left]
      ensures State() == old(State()).(cores := LeaveCores(old(CoreState()), helper),
                                       unparked := UnparkWorks(old(CoreState()), helper.refused))
    {
      ghost var cores := CoreState();
      ghost var left := LeaveCores(cores, helper);
      LeaveKeepsHistory(cores, helper, coreBase, machine.possible, unparked);
      unparked := UnparkWorks(cores, helper.refused);
      calls := calls + [Left];
      ParkOrUnpark(machine, cpu, true, helper);
      assert CoreState() == left;
    }

    /** game_mode_context_leave */
    method Leave(runs: LeaveRuns)
      requires Valid() && Active()
      modifies this, machine
      ensures Valid() && calls == old(calls) + [Left]
      ensures settings == old(settings) && State() == AfterLeave(old(State()), settings, runs)
    {
      SetProfileState(Default, runs.profile);
      Unpark(runs.cores);
      var _ := SetGovernor(Default, runs.governor);
      igpu := igpu.(on := false);
    }

    /**
     config_reload and game_mode_reconfig_cpu: unpark once more with the old info, and only
     then read the machine's online cores under the new settings.
     */
    method Reconfigure(settings: Settings, again: CoreHelper, look: Look)
      requires Valid() && !Active()
      modifies this`settings, this`cpu, this`coreBase, this`unparked, machine`online
      ensures Valid() && this.settings == settings
      ensures State() == AfterReconfig(old(State()), settings, again, look, machine.possible)
    {
      this.settings := settings;
      ParkOrUnpark(machine, cpu, true, again);
      Reread(look);
    }

    /** game_mode_initialise_cpu on the machine as it is. */
    method Reread(look: Look)
      requires !Active()
      modifies this`cpu, this`coreBase, this`unparked
      ensures cpu == InfoAt(Wants(settings), look, machine.online, machine.possible)
      ensures coreBase == machine.online && unparked && CoresOk()
    {
      var files := FilesFor(look, machine.online, machine.possible);
      var _, info := InitialiseCpu(settings.pinCores, settings.parkCores, files);
      cpu, coreBase, unparked := info, machine.online, true;
      if Bounded(coreBase, machine.possible) {
        StoredIsAccepted(machine.online, machine.possible, Wants(settings), look);
      }
    }
  }
}
