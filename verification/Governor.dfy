/**
 Saving, changing and restoring the cpu governor and the platform profile. Both work the
 same way: the current value is saved only while the setting is at its default, and the
 mode changes only when the root helper succeeds.

 A setting is the contents of its files: one scaling_governor file per policy, or the one
 platform_profile file. A helper may write any of them before it ends, however it ends, and
 nothing else writes them while game mode has changed the setting.
 */
module Governor {

  /** enum GameModeGovernor; enum GameModeProfile has the first two. */
  datatype Level = Default | Desired | IgpuDesired

  /** The names found in the configuration; an empty string means "not configured". */
  datatype Names = Names(default: string, desired: string, igpu: string)

  /**
   A run of the helper: the positions of the files it has written by its end, and whether
   run_external_process takes it for a success. A helper that skips a file it cannot open, is
   killed when its time is up, or cannot be forked counts as a success all the same.
   */
  datatype HelperRun = HelperRun(written: set<nat>, success: bool)

  /** One setting: the daemon's mode and saved name (char[64]), and the contents of its files. */
  datatype Setting = Setting(current: Level, initial: string, files: seq<string>)

  // ---------------------------------------------------------------- reading

  function Cut(s: string): (r: string)
    ensures |r| <= 63
  {
    if |s| <= 63 then s else s[..63]
  }

  /** get_gov_state from a policy file on, with `governor` read so far. */
  function ReadOn(governor: string, files: seq<string>): string
    decreases |files|
  {
    if files == [] then governor
    else if files[0] == "" then ReadOn(governor, files[1..])
    else if governor != "" && governor != files[0] then "malformed"
    else ReadOn(Cut(files[0]), files[1..])
  }

  function GovState(files: seq<string>): string {
    ReadOn("", files)
  }

  /** get_gov_state, and with a single file get_profile_state. */
  method GetGovState(files: seq<string>) returns (governor: string)
    ensures governor == GovState(files)
  {
    governor := "";
    for i := 0 to |files|
      invariant ReadOn(governor, files[i..]) == GovState(files)
    {
      assert files[i..][1..] == files[i + 1..];
      if files[i] != "" {
        if governor != "" && governor != files[i] { return "malformed"; }
        governor := Cut(files[i]);
      }
    }
  }

  /** All files say the same, and it fits the saved name. */
  predicate Uniform(files: seq<string>) {
    && (forall i, j :: 0 <= i < |files| && 0 <= j < |files| ==> files[i] == files[j])
    && (forall i :: 0 <= i < |files| ==> |files[i]| <= 63)
  }

  function All(name: string, n: nat): (r: seq<string>)
    ensures |r| == n && forall i :: 0 <= i < n ==> r[i] == name
  {
    seq(n, _ => name)
  }

  /** The files after a helper has put a name into some of them. */
  function Overwritten(files: seq<string>, written: set<nat>, name: string): (r: seq<string>)
    ensures |r| == |files|
    ensures forall i :: 0 <= i < |r| ==> r[i] == if i in written then name else files[i]
  {
    seq(|files|, i requires 0 <= i < |files| => if i in written then name else files[i])
  }

  /** Is every file written? */
  predicate Covers(written: set<nat>, n: nat) {
    forall i :: 0 <= i < n ==> i in written
  }

  /** How one file of the helper's loop fares. */
  datatype Attempt = CannotOpen | CannotWrite | Writes

  function Reached(attempts: seq<Attempt>): (r: set<nat>)
    ensures forall i :: i in r <==> 0 <= i < |attempts| && attempts[i].Writes?
  {
    set i: nat | i < |attempts| && attempts[i].Writes?
  }

  /** set_gov_state, the helper's own loop: a file that cannot be opened is skipped, and is no failure. */
  method SetGovState(files: array<string>, value: string, attempts: seq<Attempt>) returns (success: bool)
    requires |attempts| == files.Length
    modifies files
    ensures files[..] == Overwritten(old(files[..]), Reached(attempts), value)
    ensures success <==> CannotWrite !in attempts
  {
    success := true;
    for i := 0 to files.Length
      invariant success <==> CannotWrite !in attempts[..i]
      invariant forall k :: 0 <= k < i ==> files[k] == if attempts[k].Writes? then value else old(files[k])
      invariant forall k :: i <= k < files.Length ==> files[k] == old(files[k])
    {
      match attempts[i]
      case CannotOpen =>
      case CannotWrite => success := false;
      case Writes => files[i] := value;
    }
    assert attempts[..files.Length] == attempts;
  }

  lemma {:induction false} ReadOnCases(governor: string, files: seq<string>)
    requires |governor| <= 63
    ensures |ReadOn(governor, files)| <= 63
    ensures (forall i :: 0 <= i < |files| ==> files[i] == governor) ==> ReadOn(governor, files) == governor
    decreases |files|
  {
    if files == [] {
    } else {
      ReadOnCases(if files[0] == "" then governor else Cut(files[0]), files[1..]);
    }
  }

  /** Two names that differ read as "malformed", wherever they are and whatever is empty between them. */
  lemma {:induction false} MixedIsMalformed(governor: string, files: seq<string>, i: nat, j: nat)
    requires i < j < |files| && files[i] != "" && files[j] != "" && files[i] != files[j]
    requires forall k :: 0 <= k < |files| ==> |files[k]| <= 63
    ensures ReadOn(governor, files) == "malformed"
    decreases |files|
  {
    var next := if files[0] == "" then governor else files[0];
    if i > 0 {
      MixedIsMalformed(next, files[1..], i - 1, j - 1);
    } else {
      OtherIsMalformed(next, files[1..], j - 1);
    }
  }

  lemma {:induction false} OtherIsMalformed(governor: string, files: seq<string>, j: nat)
    requires j < |files| && governor != "" && files[j] != "" && files[j] != governor
    requires forall k :: 0 <= k < |files| ==> |files[k]| <= 63
    ensures ReadOn(governor, files) == "malformed"
    decreases |files|
  {
    if j == 0 {
    } else {
      OtherIsMalformed(governor, files[1..], j - 1);
    }
  }

  /** Writing back what was read reproduces the files exactly when they were uniform. */
  lemma WriteBackIff(files: seq<string>)
    ensures |GovState(files)| <= 63
    ensures All(GovState(files), |files|) == files <==> Uniform(files)
  {
    ReadOnCases("", files);
    if Uniform(files) && files != [] {
      ReadOnCases(files[0], files[1..]);
      assert forall i :: 0 <= i < |files[1..]| ==> files[1..][i] == files[0];
      assert GovState(files) == files[0] by {
        if files[0] == "" { assert forall i :: 0 <= i < |files| ==> files[i] == ""; }
      }
    }
  }

  // ---------------------------------------------------------------- saving and setting

  /** game_mode_store_governor */
  function Store(s: Setting): Setting {
    if s.current != Default then s else s.(initial := Cut(GovState(s.files)))
  }

  /** The name given to the helper. */
  function NameFor(target: Level, names: Names, initial: string): string {
    match target
    case Default => if names.default != "" then names.default else initial
    case Desired => if names.desired != "" then names.desired else "performance"
    case IgpuDesired => if names.igpu != "" then names.igpu else "powersave"
  }

  /** game_mode_set_governor; `run` says what the helper, if it is run, does. */
  function Set(s: Setting, target: Level, names: Names, run: HelperRun): Setting {
    if s.current == target then s
    else
      s.(current := if run.success then target else s.current,
         files := Overwritten(s.files, run.written, NameFor(target, names, s.initial)))
  }

  /** game_mode_store_profile and game_mode_set_profile do nothing without a profile file. */
  function StoreProfile(s: Setting): Setting {
    if s.files == [] then s else Store(s)
  }

  function SetProfile(s: Setting, target: Level, names: Names, run: HelperRun): Setting {
    if s.files == [] then s else Set(s, target, names, run)
  }

  // ---------------------------------------------------------------- whole runs

  /** What can happen to a setting; the names are those configured at that moment. */
  datatype Change =
    | Enter(names: Names, run: HelperRun)                 // save, then set Desired
    | Leave(names: Names, run: HelperRun)                 // set Default
    | Switch(names: Names, target: Level, run: HelperRun)   // the reaper's choice, only away from Default
    | Outside(files: seq<string>)                   // somebody else, only at Default

  predicate Possible(s: Setting, c: Change) {
    match c
    case Enter(_, _) => true
    case Leave(_, _) => true
    case Switch(_, target, _) => s.current != Default && target != Default
    case Outside(files) => s.current == Default && |files| == |s.files|
  }

  function ApplyChange(s: Setting, c: Change): Setting {
    match c
    case Enter(names, run) => Set(Store(s), Desired, names, run)
    case Leave(names, run) => Set(s, Default, names, run)
    case Switch(names, target, run) => Set(s, target, names, run)
    case Outside(files) => s.(files := files)
  }

  /** The files at the last moment the mode was Default, given those before the change. */
  function Baseline(s: Setting, before: seq<string>): seq<string> {
    if s.current == Default then s.files else before
  }

  predicate SettingInv(s: Setting, baseline: seq<string>) {
    && |s.files| == |baseline|
    && (s.current == Default ==> baseline == s.files)
    && (s.current != Default ==> s.initial == GovState(baseline))
  }

  lemma ChangeKeepsInv(s: Setting, baseline: seq<string>, c: Change)
    requires SettingInv(s, baseline) && Possible(s, c)
    ensures SettingInv(ApplyChange(s, c), Baseline(ApplyChange(s, c), baseline))
  {
    WriteBackIff(s.files);
  }

  predicate PossibleRun(s: Setting, cs: seq<Change>)
    decreases |cs|
  {
    cs == [] || (Possible(s, cs[0]) && PossibleRun(ApplyChange(s, cs[0]), cs[1..]))
  }

  /** The setting and its baseline at the end of a run. */
  function Run(s: Setting, baseline: seq<string>, cs: seq<Change>): (Setting, seq<string>)
    decreases |cs|
  {
    if cs == [] then (s, baseline)
    else
      var s' := ApplyChange(s, cs[0]);
      Run(s', Baseline(s', baseline), cs[1..])
  }

  lemma {:induction false} RunOneMore(s: Setting, baseline: seq<string>, cs: seq<Change>, c: Change)
    ensures var (s', baseline') := Run(s, baseline, cs);
            && Run(s, baseline, cs + [c]) == (ApplyChange(s', c), Baseline(ApplyChange(s', c), baseline'))
            && (PossibleRun(s, cs + [c]) <==> PossibleRun(s, cs) && Possible(s', c))
    decreases |cs|
  {
    if cs == [] {
      assert ([c])[1..] == [];
    } else {
      var next := ApplyChange(s, cs[0]);
      assert (cs + [c])[1..] == cs[1..] + [c];
      RunOneMore(next, Baseline(next, baseline), cs[1..], c);
    }
  }

  /**
   Over every run of enters, leaves, iGPU switches and (at the default) outside changes,
   with helpers failing at will: away from the default, the saved name is what was read
   from the files at the last moment the setting was at its default.
   */
  lemma {:induction false} SavedIsBaseline(s: Setting, baseline: seq<string>, cs: seq<Change>)
    requires SettingInv(s, baseline) && PossibleRun(s, cs)
    ensures var (s', baseline') := Run(s, baseline, cs); SettingInv(s', baseline')
    decreases |cs|
  {
    if cs == [] {
    } else {
      ChangeKeepsInv(s, baseline, cs[0]);
      var s' := ApplyChange(s, cs[0]);
      SavedIsBaseline(s', Baseline(s', baseline), cs[1..]);
    }
  }

  /** A fresh daemon (mode Default, nothing saved) satisfies the invariant. */
  lemma FreshSetting(files: seq<string>)
    ensures SettingInv(Setting(Default, "", files), files)
  {
  }

  /**
   However the helper of an enter ends, from the default: it ends at Desired with the desired name,
   or "performance", in every file exactly when the helper counts as a success and wrote every
   file with another name; what the files said before is saved in any case.
   */
  lemma EnterEndsIff(s: Setting, names: Names, run: HelperRun)
    requires s.current == Default
    ensures var name := if names.desired != "" then names.desired else "performance";
            var entered := ApplyChange(s, Enter(names, run));
            && entered.initial == GovState(s.files)
            && (entered.current == Desired && entered.files == All(name, |s.files|) <==>
                  run.success && forall i :: 0 <= i < |s.files| && s.files[i] != name ==> i in run.written)
  {
    var name := NameFor(Desired, names, s.initial);
    var files, all := ApplyChange(s, Enter(names, run)).files, All(name, |s.files|);
    WriteBackIff(s.files);
    assert files == all <==> forall i :: 0 <= i < |s.files| ==> files[i] == all[i];
  }

  /** A switch by the reaper likewise, to the iGPU governor, or "powersave", or back. */
  lemma SwitchEndsIff(s: Setting, names: Names, igpu: bool, run: HelperRun)
    requires s.current == if igpu then Desired else IgpuDesired
    ensures var name := if igpu then (if names.igpu != "" then names.igpu else "powersave")
                        else (if names.desired != "" then names.desired else "performance");
            var target := if igpu then IgpuDesired else Desired;
            var switched := ApplyChange(s, Switch(names, target, run));
            && switched.initial == s.initial
            && (switched.current == target && switched.files == All(name, |s.files|) <==>
                  run.success && forall i :: 0 <= i < |s.files| && s.files[i] != name ==> i in run.written)
  {
    var target := if igpu then IgpuDesired else Desired;
    var name := NameFor(target, names, s.initial);
    var files, all := ApplyChange(s, Switch(names, target, run)).files, All(name, |s.files|);
    assert files == all <==> forall i :: 0 <= i < |s.files| ==> files[i] == all[i];
  }

  /**
   However the helper of a leave ends: the setting ends at its default with the chosen name
   in every file exactly when the helper counts as a success and wrote every file that did not
   have the name already. After a failure the mode stays, so the leave can be tried again.
   */
  lemma LeaveEndsIff(s: Setting, names: Names, run: HelperRun)
    requires s.current != Default
    ensures var name := if names.default != "" then names.default else s.initial;
            var left := ApplyChange(s, Leave(names, run));
            left.current == Default && left.files == All(name, |s.files|) <==>
            run.success && forall i :: 0 <= i < |s.files| && s.files[i] != name ==> i in run.written
    ensures !run.success ==>
              var left := ApplyChange(s, Leave(names, run));
              left.current == s.current && left.initial == s.initial
  {
    var name := NameFor(Default, names, s.initial);
    var left := ApplyChange(s, Leave(names, run));
    var all := All(name, |s.files|);
    assert left.files == all <==> forall i :: 0 <= i < |s.files| ==> left.files[i] == all[i];
  }

  /**
   Without a configured default a leave ends at the default with the files as they last were
   there, exactly when it counts as a success, the files it wrote read like all of them did, and
   the others are as they were. So for a helper that writes all, exactly when they were uniform.
   */
  lemma FilesRestoredIff(s: Setting, baseline: seq<string>, names: Names, run: HelperRun)
    requires SettingInv(s, baseline) && s.current != Default && names.default == ""
    ensures var left := ApplyChange(s, Leave(names, run));
            left.current == Default && left.files == baseline <==>
            run.success && forall i :: 0 <= i < |baseline| ==>
                             baseline[i] == if i in run.written then GovState(baseline) else s.files[i]
    ensures Covers(run.written, |baseline|) ==>
              var left := ApplyChange(s, Leave(names, run));
              left.current == Default && left.files == baseline <==> run.success && Uniform(baseline)
  {
    WriteBackIff(baseline);
    var left := ApplyChange(s, Leave(names, run));
    assert left.files == baseline <==> forall i :: 0 <= i < |baseline| ==> left.files[i] == baseline[i];
    if Covers(run.written, |baseline|) { assert left.files == All(GovState(baseline), |baseline|); }
  }

  /** Reading back a name that was written to every file. */
  lemma {:induction false} ReadBack(name: string, n: nat)
    requires |name| <= 63
    ensures GovState(All(name, n)) == if n == 0 then "" else name
  {
    ReadOnCases("", All(name, n));
    if n > 0 {
      ReadOnCases(name, All(name, n)[1..]);
      ReadOnCases("", All(name, n)[1..]);
    }
  }

  /**
   After a leave without a configured default, the next enter saves the same name again
   exactly when the leave failed, or the files it left read as that name. They do when it wrote
   all of them; when it wrote none, only if they read the same anyway.
   */
  lemma SavedAgainIff(s: Setting, baseline: seq<string>, names: Names, run: HelperRun, again: Names, next: HelperRun)
    requires SettingInv(s, baseline) && s.current != Default && names.default == ""
    ensures var left := ApplyChange(s, Leave(names, run));
            ApplyChange(left, Enter(again, next)).initial == s.initial <==>
            !run.success || GovState(Overwritten(s.files, run.written, s.initial)) == s.initial
    ensures Covers(run.written, |s.files|) ==> GovState(Overwritten(s.files, run.written, s.initial)) == s.initial
    ensures run.written == {} ==> Overwritten(s.files, run.written, s.initial) == s.files
  {
    var files := Overwritten(s.files, run.written, s.initial);
    WriteBackIff(baseline);
    WriteBackIff(files);
    ReadBack(s.initial, |s.files|);
    assert |s.files| == 0 ==> s.initial == "";
    if Covers(run.written, |s.files|) { assert files == All(s.initial, |s.files|); }
  }

  /** Files that fit read as a proper name exactly when some file says it and the others say it or nothing. */
  lemma {:induction false} ReadsAsIff(governor: string, files: seq<string>, name: string)
    requires name != "" && name != "malformed" && (forall i :: 0 <= i < |files| ==> |files[i]| <= 63)
    ensures ReadOn(governor, files) == name <==>
            && (governor == name || (governor == "" && name in files))
            && forall i :: 0 <= i < |files| ==> files[i] == "" || files[i] == name
    decreases |files|
  {
    if files == [] {
    } else {
      ReadsAsIff(if files[0] == "" then governor else files[0], files[1..], name);
      assert files == [files[0]] + files[1..];
    }
  }

  /**
   So a leave that counts as a success but wrote only some files lets the next enter save the
   same name exactly when it wrote all those that say something else, and one says the name.
   */
  lemma PartlyRestoredIff(s: Setting, baseline: seq<string>, names: Names, run: HelperRun,
                          again: Names, next: HelperRun)
    requires SettingInv(s, baseline) && s.current != Default && names.default == "" && run.success
    requires s.initial != "" && s.initial != "malformed" && forall i :: 0 <= i < |s.files| ==> |s.files[i]| <= 63
    ensures var left := ApplyChange(s, Leave(names, run));
            ApplyChange(left, Enter(again, next)).initial == s.initial <==>
            && (forall i :: 0 <= i < |s.files| && s.files[i] != "" && s.files[i] != s.initial ==> i in run.written)
            && exists i :: 0 <= i < |s.files| && (i in run.written || s.files[i] == s.initial)
  {
    var files := Overwritten(s.files, run.written, s.initial);
    WriteBackIff(baseline);
    SavedAgainIff(s, baseline, names, run, again, next);
    ReadsAsIff("", files, s.initial);
    if s.initial in files {
      var k :| 0 <= k < |files| && files[k] == s.initial;
      assert k in run.written || s.files[k] == s.initial;
    }
    if i :| 0 <= i < |s.files| && (i in run.written || s.files[i] == s.initial) {
      assert files[i] == s.initial;
    }
    forall i | 0 <= i < |s.files|
      ensures files[i] == "" || files[i] == s.initial <==>
              i in run.written || s.files[i] == "" || s.files[i] == s.initial
    {
    }
  }

  /** For instance, killed before it wrote anything, when all files hold another name than the saved one. */
  lemma KilledLeaveForgets(s: Setting, names: Names, again: Names, run: HelperRun)
    requires s.current != Default && s.files != [] && Uniform(s.files)
    ensures var left := ApplyChange(s, Leave(names, HelperRun({}, true)));
            && left.current == Default && left.files == s.files
            && ApplyChange(left, Enter(again, run)).initial == s.files[0]
  {
    WriteBackIff(s.files);
    assert All(GovState(s.files), |s.files|)[0] == s.files[0];
    assert Overwritten(s.files, {}, NameFor(Default, names, s.initial)) == s.files;
  }

  /** With a profile file present the profile is a setting like the governor. */
  lemma ProfileIsSetting(s: Setting, names: Names, run: HelperRun)
    requires s.files != []
    ensures SetProfile(StoreProfile(s), Desired, names, run) == ApplyChange(s, Enter(names, run))
    ensures SetProfile(s, Default, names, run) == ApplyChange(s, Leave(names, run))
  {
  }
}
