/** What the configuration comes to: who may register, and what is written to the machine and its tasks. */
module Configured {
  import opened Common
  import opened Config
  import opened Context
  import opened CpuList
  import opened Governor
  import opened Mode
  import CpuSelect

  // ---------------------------------------------------------------- who may register

  /** Some entry of a list is a substring of the executable. */
  ghost predicate Named(entries: seq<string>, executable: string) {
    exists e, before, after :: e in entries && executable == before + e + after
  }

  lemma NamedIff(entries: seq<string>, executable: string)
    ensures Blacklisted(entries, executable) <==> Named(entries, executable)
    ensures Admits(entries, executable) <==> entries == [] || Named(entries, executable)
  {
    if Blacklisted(entries, executable) {
      var e :| e in entries && Occurs(e, executable);
      OccursIff(e, executable);
      var before, after :| executable == before + e + after;
    }
    if Named(entries, executable) {
      var e, before, after :| e in entries && executable == before + e + after;
      OccursIff(e, executable);
    }
  }

  /** A supervisor's executable is found, named by the whitelist if there is one, and not by the blacklist. */
  ghost predicate MaySupervise(v: Values, executable: Option<string>) {
    && executable.Some?
    && (ListOf(v, SupervisorWhitelist) == [] || Named(ListOf(v, SupervisorWhitelist), executable.value))
    && !Named(ListOf(v, SupervisorBlacklist), executable.value)
  }

  /** A client may play under the same rule with its own two lists. */
  ghost predicate MayPlay(v: Values, executable: Option<string>) {
    && executable.Some?
    && (ListOf(v, Whitelist) == [] || Named(ListOf(v, Whitelist), executable.value))
    && !Named(ListOf(v, Blacklist), executable.value)
  }

  lemma SupervisorGateIff(v: Values, executable: Option<string>)
    ensures SupervisorGate(v, executable) ==
            if MaySupervise(v, executable) then 0 else if executable.None? then -1 else -2
  {
    if executable.Some? {
      NamedIff(ListOf(v, SupervisorWhitelist), executable.value);
      NamedIff(ListOf(v, SupervisorBlacklist), executable.value);
    }
  }

  lemma ClientRejectedIff(v: Values, executable: Option<string>)
    ensures ClientRejected(v, executable) <==> !MayPlay(v, executable)
  {
    if executable.Some? {
      NamedIff(ListOf(v, Whitelist), executable.value);
      NamedIff(ListOf(v, Blacklist), executable.value);
    }
  }

  /** A request for oneself needs that no supervisor is required, one for another that it may supervise. */
  ghost predicate MayAsk(v: Values, client: int, requester: int, requesterExe: Option<string>) {
    if requester == client then LongOf(v, RequireSupervisor) == 0 else MaySupervise(v, requesterExe)
  }

  /**
   A registration succeeds exactly when the requester may ask, the pid is new, the client may play
   and there is memory. It is refused with -2 exactly when the requester's executable is found, or
   not needed, and it may not ask; in every other case it fails with -1.
   */
  lemma RegisterVerdictIff(v: Values, known: seq<int>, client: int, requester: int,
                           requesterExe: Option<string>, clientExe: Option<string>, memory: bool)
    ensures var ret := RegisterVerdict(v, known, client, requester, requesterExe, clientExe, memory);
            var asks := MayAsk(v, client, requester, requesterExe);
            && (ret == 0 <==> asks && client !in known && MayPlay(v, clientExe) && memory)
            && (ret == -2 <==> !asks && (requester == client || requesterExe.Some?))
            && (ret == 0 || ret == -1 || ret == -2)
  {
    SupervisorGateIff(v, requesterExe);
    ClientRejectedIff(v, clientExe);
  }

  /** And a removal exactly when the requester may ask and the pid is registered. */
  lemma UnregisterVerdictIff(v: Values, known: seq<int>, client: int, requester: int, requesterExe: Option<string>)
    ensures var ret := UnregisterVerdict(v, known, client, requester, requesterExe);
            var asks := MayAsk(v, client, requester, requesterExe);
            && (ret == 0 <==> asks && client in known)
            && (ret == -2 <==> !asks && (requester == client || requesterExe.Some?))
            && (ret == 0 || ret == -1 || ret == -2)
  {
    SupervisorGateIff(v, requesterExe);
  }

  // ---------------------------------------------------------------- what the configured names come to

  /** A string of the configuration, or another where it is empty. */
  function Or(configured: string, otherwise: string): string {
    if configured != "" then configured else otherwise
  }

  /**
   An enter from the default whose helpers do all their work writes `desiredgov` into every
   governor file and `desiredprof` into the profile, or "performance".
   */
  lemma EnterWrites(v: Values, s: Snapshot, runs: EnterRuns)
    requires s.governor.current == Default && s.profile.current == Default
    requires runs.governor.success && Covers(runs.governor.written, |s.governor.files|)
    requires runs.profile.success && Covers(runs.profile.written, |s.profile.files|)
    ensures var entered := AfterEnter(s, SettingsOf(v), runs);
            && entered.governor.files == All(Or(StringOf(v, DesiredGov), "performance"), |s.governor.files|)
            && entered.profile.files == All(Or(StringOf(v, DesiredProf), "performance"), |s.profile.files|)
  {
    var settings := SettingsOf(v);
    EnterEndsIff(s.governor, settings.governor, runs.governor);
    EnterEndsIff(s.profile, settings.profile, runs.profile);
    if s.profile.files == [] {
      assert All(Or(StringOf(v, DesiredProf), "performance"), 0) == [];
    } else {
      ProfileIsSetting(s.profile, settings.profile, runs.profile);
    }
  }

  /** A leave likewise `defaultgov` and `defaultprof`, or what was saved. */
  lemma LeaveWrites(v: Values, s: Snapshot, runs: LeaveRuns)
    requires s.governor.current != Default && s.profile.current != Default
    requires runs.governor.success && Covers(runs.governor.written, |s.governor.files|)
    requires runs.profile.success && Covers(runs.profile.written, |s.profile.files|)
    ensures var left := AfterLeave(s, SettingsOf(v), runs);
            && left.governor.files == All(Or(StringOf(v, DefaultGov), s.governor.initial), |s.governor.files|)
            && left.profile.files == All(Or(StringOf(v, DefaultProf), s.profile.initial), |s.profile.files|)
  {
    var settings := SettingsOf(v);
    LeaveEndsIff(s.governor, settings.governor, runs.governor);
    LeaveEndsIff(s.profile, settings.profile, runs.profile);
    if s.profile.files == [] {
      assert All(Or(StringOf(v, DefaultProf), s.profile.initial), 0) == [];
    } else {
      ProfileIsSetting(s.profile, settings.profile, runs.profile);
    }
  }

  /** A switch to the iGPU governor `igpu_desiredgov`, or "powersave". */
  lemma SwitchWrites(v: Values, s: Setting, run: HelperRun)
    requires s.current == Desired && run.success && Covers(run.written, |s.files|)
    ensures ApplyChange(s, Switch(SettingsOf(v).governor, IgpuDesired, run)).files ==
            All(Or(StringOf(v, IgpuDesiredGov), "powersave"), |s.files|)
  {
    SwitchEndsIff(s, SettingsOf(v).governor, true, run);
  }

  /** What is configured about the cores is what initialise_cpu gets, pinning before parking. */
  lemma CoresConfigured(v: Values)
    ensures SettingsOf(v).pinCores == StringOf(v, PinCores) && SettingsOf(v).parkCores == StringOf(v, ParkCores)
    ensures Wants(SettingsOf(v)) == CpuSelect.WantedOf(StringOf(v, PinCores), StringOf(v, ParkCores))
  {
  }

  /** The level of i/o priority: the words and an empty text give 0, */
  lemma IoprioWords(v: Values)
    requires StringOf(v, Ioprio) == "off" || StringOf(v, Ioprio) == "default" || StringOf(v, Ioprio) == ""
    ensures IoprioOf(v) == 0
  {
  }

  /** and a number is cut to 0 to 7. */
  lemma IoprioNumber(v: Values, n: nat)
    requires StringOf(v, Ioprio) == Decimal(n) && n < 0x8000_0000
    ensures IoprioOf(v) as int == if n <= 7 then n else 7
  {
    NumberText(n, StringOf(v, Ioprio));
    assert ToInt(n) == n;
  }

  lemma NumberText(n: nat, text: string)
    requires text == Decimal(n) && n < 0x8000_0000
    ensures Strtol(text).value == n && text != "off" && text != "default"
  {
    StrtolOfDecimal(n, "");
    assert text + "" == text;
    assert IsDigit(text[0]);
  }

  /** With nothing configured tasks are not reniced, games may ask for themselves, and no executable is refused. */
  lemma NothingConfigured(range: bool, client: int, executable: string)
    ensures var v := Config.Fresh(range);
            && NiceOf(v) == 0 && v.threshold == 0.3
            && MayAsk(v, client, client, None) && MaySupervise(v, Some(executable)) && MayPlay(v, Some(executable))
  {
  }
}
