/**
 The configuration: values from four files are layered, scalars overwrite and lists merge.
 Lists are fixed arrays of 32 strings of at most 255 characters.

 A file is the sequence of (section, name, value) lines its parser calls the handler with.
 errno is state: get_long_value and get_float_value reject their value when errno is ERANGE,
 strtol and strtof set it but never clear it, and only a failed fopen overwrites it.
 */
module Config {
  import opened Common
  import opened CpuList

  const CONFIG_LIST_MAX: nat := 32
  const CONFIG_VALUE_MAX: nat := 256

  // ---------------------------------------------------------------- fixed-size lists

  /** The entries of a list: the slots before the first empty one. */
  function Entries(slots: seq<string>): seq<string> {
    if slots == [] || slots[0] == "" then [] else [slots[0]] + Entries(slots[1..])
  }

  /** Every slot after an empty slot is empty, and no slot is too long. */
  predicate Packed(slots: seq<string>) {
    && (forall i, j :: 0 <= i < j < |slots| && slots[j] != "" ==> slots[i] != "")
    && (forall i :: 0 <= i < |slots| ==> |slots[i]| < CONFIG_VALUE_MAX)
  }

  /** Is a value kept when there is room for it? */
  predicate Storable(value: string) {
    value != "" && |value| < CONFIG_VALUE_MAX
  }

  /** A list with a value added; a value that is empty, too long or one too many changes nothing. */
  function Appended(entries: seq<string>, value: string): seq<string> {
    if |entries| < CONFIG_LIST_MAX && Storable(value) then entries + [value] else entries
  }

  lemma {:induction false} EntriesAre(slots: seq<string>, n: nat)
    requires n <= |slots|
    requires forall i :: 0 <= i < n ==> slots[i] != ""
    requires n < |slots| ==> slots[n] == ""
    ensures Entries(slots) == slots[..n]
  {
    if n == 0 {
    } else {
      EntriesAre(slots[1..], n - 1);
      assert slots[..n] == [slots[0]] + slots[1..][..n - 1];
    }
  }

  /** append_value_to_list */
  method AppendValueToList(value: string, list: array<string>) returns (ok: bool)
    requires list.Length == CONFIG_LIST_MAX && Packed(list[..])
    modifies list
    ensures Packed(list[..])
    ensures Entries(list[..]) == Appended(Entries(old(list[..])), value)
    ensures ok <==> |Entries(old(list[..]))| < CONFIG_LIST_MAX && |value| < CONFIG_VALUE_MAX
  {
    var i := 0;
    while i < CONFIG_LIST_MAX && list[i] != ""
      invariant 0 <= i <= CONFIG_LIST_MAX
      invariant forall k :: 0 <= k < i ==> list[k] != ""
    {
      i := i + 1;
    }
    EntriesAre(list[..], i);
    if i < CONFIG_LIST_MAX {
      list[i] := value;
      if |list[i]| >= CONFIG_VALUE_MAX {
        list[i] := "";
        EntriesAre(list[..], i);
        return false;
      }
      EntriesAre(list[..], if value == "" then i else i + 1);
    } else {
      return false;
    }
    return true;
  }

  /** strstr(haystack, needle) != NULL */
  predicate Occurs(needle: string, haystack: string) {
    needle <= haystack || (haystack != [] && Occurs(needle, haystack[1..]))
  }

  /** The needle is found wherever it stands. */
  lemma {:induction false} OccursIn(before: string, needle: string, after: string)
    ensures Occurs(needle, before + needle + after)
    decreases |before|
  {
    var haystack := before + needle + after;
    if before == [] {
      assert haystack[..|needle|] == needle;
    } else {
      assert haystack[1..] == before[1..] + needle + after;
      OccursIn(before[1..], needle, after);
    }
  }

  lemma {:induction false} OccursAt(needle: string, haystack: string) returns (before: string, after: string)
    requires Occurs(needle, haystack)
    ensures haystack == before + needle + after
  {
    if needle <= haystack {
      before, after := [], haystack[|needle|..];
    } else {
      before, after := OccursAt(needle, haystack[1..]);
      before := [haystack[0]] + before;
    }
  }

  /** That is, it is a substring. */
  lemma OccursIff(needle: string, haystack: string)
    ensures Occurs(needle, haystack) <==> exists before, after :: haystack == before + needle + after
  {
    if Occurs(needle, haystack) {
      var before, after := OccursAt(needle, haystack);
    }
    if before, after :| haystack == before + needle + after {
      OccursIn(before, needle, after);
    }
  }

  /** config_string_list_contains: is some entry a substring of the executable? */
  method ListContains(executable: string, list: array<string>) returns (found: bool)
    requires list.Length == CONFIG_LIST_MAX && Packed(list[..])
    ensures found <==> exists e :: e in Entries(list[..]) && Occurs(e, executable)
  {
    var i := 0;
    while i < CONFIG_LIST_MAX && list[i] != ""
      invariant 0 <= i <= CONFIG_LIST_MAX
      invariant forall k :: 0 <= k < i ==> list[k] != "" && !Occurs(list[k], executable)
    {
      if Occurs(list[i], executable) {
        EntriesHave(list[..], i);
        return true;
      }
      i := i + 1;
    }
    EntriesAre(list[..], i);
    return false;
  }

  lemma {:induction false} EntriesHave(slots: seq<string>, n: nat)
    requires n < |slots| && forall i :: 0 <= i <= n ==> slots[i] != ""
    ensures slots[n] in Entries(slots)
  {
    if n == 0 {
    } else {
      EntriesHave(slots[1..], n - 1);
    }
  }

  /** Does a whitelist admit the executable? An empty one admits everything. */
  predicate Admits(whitelist: seq<string>, executable: string) {
    whitelist == [] || exists e :: e in whitelist && Occurs(e, executable)
  }

  /** config_get_client_whitelisted and config_get_supervisor_whitelisted */
  method Whitelisted(executable: string, list: array<string>) returns (found: bool)
    requires list.Length == CONFIG_LIST_MAX && Packed(list[..])
    ensures found <==> Admits(Entries(list[..]), executable)
  {
    found := true;
    if list[0] != "" {
      found := ListContains(executable, list);
    }
  }

  // ---------------------------------------------------------------- the values

  datatype LongField =
    | ReaperFrequency | Renice | InhibitScreensaver | DisableSplitlock | GpuDevice | NvCoreClockOffset
    | NvMemClockOffset | NvPowermizerMode | NvPerProfileEditable | RequireSupervisor | ScriptTimeout

  datatype StringField =
    | DefaultGov | DesiredGov | DefaultProf | DesiredProf | IgpuDesiredGov | SoftRealtime | Ioprio
    | ApplyGpuOptimisations | AmdPerformanceLevel | ParkCores | PinCores | X3dDesired | X3dDefault

  datatype ListField =
    | Whitelist | Blacklist | SupervisorWhitelist | SupervisorBlacklist | StartScripts | EndScripts

  /** Where a line puts its value. */
  datatype Target =
    | Long(long: LongField)
    | String(string_: StringField)
    | X3dMode(mode: StringField)
    | Threshold
    | List(list: ListField)
    | Ignored

  datatype FloatParse = Valid(r: real) | Invalid | Range

  /** One line of a file; `float` is what strtof makes of the value. */
  datatype Line = Line(section: string, name: string, value: string, float: FloatParse)

  function LongDefault(f: LongField): int {
    match f
    case ReaperFrequency => 5
    case InhibitScreensaver => 1
    case DisableSplitlock => 1
    case NvPowermizerMode => -1
    case NvPerProfileEditable => 1
    case NvCoreClockOffset => -1
    case NvMemClockOffset => -1
    case ScriptTimeout => 10
    case _ => 0
  }

  function FilterTarget(name: string): Target {
    if name == "whitelist" then List(Whitelist)
    else if name == "blacklist" then List(Blacklist)
    else Ignored
  }

  function GeneralTarget(name: string): Target {
    if name == "reaper_freq" then Long(ReaperFrequency)
    else if name == "defaultgov" then String(DefaultGov)
    else if name == "desiredgov" then String(DesiredGov)
    else if name == "defaultprof" then String(DefaultProf)
    else if name == "desiredprof" then String(DesiredProf)
    else if name == "igpu_desiredgov" then String(IgpuDesiredGov)
    else if name == "igpu_power_threshold" then Threshold
    else if name == "softrealtime" then String(SoftRealtime)
    else if name == "renice" then Long(Renice)
    else if name == "ioprio" then String(Ioprio)
    else if name == "inhibit_screensaver" then Long(InhibitScreensaver)
    else if name == "disable_splitlock" then Long(DisableSplitlock)
    else Ignored
  }

  function GpuTarget(name: string): Target {
    if name == "apply_gpu_optimisations" then String(ApplyGpuOptimisations)
    else if name == "gpu_device" then Long(GpuDevice)
    else if name == "nv_core_clock_mhz_offset" then Long(NvCoreClockOffset)
    else if name == "nv_mem_clock_mhz_offset" then Long(NvMemClockOffset)
    else if name == "nv_powermizer_mode" then Long(NvPowermizerMode)
    else if name == "nv_per_profile_editable" then Long(NvPerProfileEditable)
    else if name == "amd_performance_level" then String(AmdPerformanceLevel)
    else Ignored
  }

  function CpuTarget(name: string): Target {
    if name == "park_cores" then String(ParkCores)
    else if name == "pin_cores" then String(PinCores)
    else if name == "amd_x3d_mode_desired" then X3dMode(X3dDesired)
    else if name == "amd_x3d_mode_default" then X3dMode(X3dDefault)
    else Ignored
  }

  function SupervisorTarget(name: string): Target {
    if name == "supervisor_whitelist" then List(SupervisorWhitelist)
    else if name == "supervisor_blacklist" then List(SupervisorBlacklist)
    else if name == "require_supervisor" then Long(RequireSupervisor)
    else Ignored
  }

  function CustomTarget(name: string): Target {
    if name == "start" then List(StartScripts)
    else if name == "end" then List(EndScripts)
    else if name == "script_timeout" then Long(ScriptTimeout)
    else Ignored
  }

  /** The dispatch of inih_handler. */
  function TargetOf(section: string, name: string): Target {
    if section == "filter" then FilterTarget(name)
    else if section == "general" then GeneralTarget(name)
    else if section == "gpu" then GpuTarget(name)
    else if section == "cpu" then CpuTarget(name)
    else if section == "supervisor" then SupervisorTarget(name)
    else if section == "custom" then CustomTarget(name)
    else Ignored
  }

  /** The section and name of each number, the other way round than the dispatch. */
  function KeyOfLong(f: LongField): (string, string) {
    match f
    case ReaperFrequency => ("general", "reaper_freq")
    case Renice => ("general", "renice")
    case InhibitScreensaver => ("general", "inhibit_screensaver")
    case DisableSplitlock => ("general", "disable_splitlock")
    case GpuDevice => ("gpu", "gpu_device")
    case NvCoreClockOffset => ("gpu", "nv_core_clock_mhz_offset")
    case NvMemClockOffset => ("gpu", "nv_mem_clock_mhz_offset")
    case NvPowermizerMode => ("gpu", "nv_powermizer_mode")
    case NvPerProfileEditable => ("gpu", "nv_per_profile_editable")
    case RequireSupervisor => ("supervisor", "require_supervisor")
    case ScriptTimeout => ("custom", "script_timeout")
  }

  function KeyOfString(f: StringField): (string, string) {
    match f
    case DefaultGov => ("general", "defaultgov")
    case DesiredGov => ("general", "desiredgov")
    case DefaultProf => ("general", "defaultprof")
    case DesiredProf => ("general", "desiredprof")
    case IgpuDesiredGov => ("general", "igpu_desiredgov")
    case SoftRealtime => ("general", "softrealtime")
    case Ioprio => ("general", "ioprio")
    case ApplyGpuOptimisations => ("gpu", "apply_gpu_optimisations")
    case AmdPerformanceLevel => ("gpu", "amd_performance_level")
    case ParkCores => ("cpu", "park_cores")
    case PinCores => ("cpu", "pin_cores")
    case X3dDesired => ("cpu", "amd_x3d_mode_desired")
    case X3dDefault => ("cpu", "amd_x3d_mode_default")
  }

  function KeyOfList(f: ListField): (string, string) {
    match f
    case Whitelist => ("filter", "whitelist")
    case Blacklist => ("filter", "blacklist")
    case SupervisorWhitelist => ("supervisor", "supervisor_whitelist")
    case SupervisorBlacklist => ("supervisor", "supervisor_blacklist")
    case StartScripts => ("custom", "start")
    case EndScripts => ("custom", "end")
  }

  function KeyOf(t: Target): (string, string) {
    match t
    case Long(f) => KeyOfLong(f)
    case String(f) => KeyOfString(f)
    case X3dMode(f) => KeyOfString(f)
    case Threshold => ("general", "igpu_power_threshold")
    case List(f) => KeyOfList(f)
    case Ignored => ("", "")
  }

  lemma LongReached(f: LongField)
    ensures TargetOf(KeyOfLong(f).0, KeyOfLong(f).1) == Long(f)
  {
    match f case _ =>
  }

  lemma StringReached(f: StringField)
    ensures TargetOf(KeyOfString(f).0, KeyOfString(f).1) ==
            if f.X3dDesired? || f.X3dDefault? then X3dMode(f) else String(f)
  {
    match f case _ =>
  }

  lemma ListReached(f: ListField)
    ensures TargetOf(KeyOfList(f).0, KeyOfList(f).1) == List(f)
  {
    match f case _ =>
  }

  /** No other key reaches a field. */
  lemma KeyIsUnique(section: string, name: string)
    ensures TargetOf(section, name) != Ignored ==> KeyOf(TargetOf(section, name)) == (section, name)
  {
    GeneralKey(name);
    GpuKey(name);
    OtherKeys(name);
  }

  lemma GeneralKey(name: string)
    ensures GeneralTarget(name) != Ignored ==> KeyOf(GeneralTarget(name)) == ("general", name)
  {
  }

  lemma GpuKey(name: string)
    ensures GpuTarget(name) != Ignored ==> KeyOf(GpuTarget(name)) == ("gpu", name)
  {
  }

  lemma OtherKeys(name: string)
    ensures FilterTarget(name) != Ignored ==> KeyOf(FilterTarget(name)) == ("filter", name)
    ensures CpuTarget(name) != Ignored ==> KeyOf(CpuTarget(name)) == ("cpu", name)
    ensures SupervisorTarget(name) != Ignored ==> KeyOf(SupervisorTarget(name)) == ("supervisor", name)
    ensures CustomTarget(name) != Ignored ==> KeyOf(CustomTarget(name)) == ("custom", name)
  {
  }

  /** A line of a home or local file in section [gpu] is not looked at. */
  predicate Refused(line: Line, protected_: bool) {
    line.section == "gpu" && !protected_
  }

  /** Where a line of a file puts its value. */
  function Dest(line: Line, protected_: bool): Target {
    if Refused(line, protected_) then Ignored else TargetOf(line.section, line.name)
  }

  function CutValue(value: string): (r: string)
    ensures r <= value && |r| == if |value| < 256 then |value| else 255
  {
    if |value| < CONFIG_VALUE_MAX then value else value[..CONFIG_VALUE_MAX - 1]
  }

  /** Does the whole string read as a number? */
  predicate IsNumber(value: string) {
    value != "" && Scan(value).rest == ""
  }

  predicate IsX3dMode(value: string) {
    value == "frequency" || value == "cache"
  }

  /** Does converting the line's value for a target set errno to ERANGE? */
  predicate SetsRange(target: Target, line: Line) {
    match target
    case Long(_) => OutOfRange(line.value)
    case Threshold => line.float.Range?
    case _ => false
  }

  /**
   What loading knows: the fields assigned so far (the others have their defaults) and
   whether errno is ERANGE.
   */
  datatype Values = Values(
    longs: map<LongField, int>,
    strings: map<StringField, string>,
    threshold: real,
    lists: map<ListField, seq<string>>,
    range: bool)

  function LongOf(v: Values, f: LongField): int {
    if f in v.longs then v.longs[f] else LongDefault(f)
  }

  function StringOf(v: Values, f: StringField): string {
    if f in v.strings then v.strings[f] else ""
  }

  function ListOf(v: Values, f: ListField): seq<string> {
    if f in v.lists then v.lists[f] else []
  }

  /** The assignment of a line's value to its target. */
  function Assign(v: Values, target: Target, line: Line): Values {
    var range := v.range || SetsRange(target, line);
    match target
    case Long(f) =>
      if range || !IsNumber(line.value) then v.(range := range)
      else v.(longs := v.longs[f := Scan(line.value).value])
    case Threshold =>
      if range || !line.float.Valid? then v.(range := range) else v.(threshold := line.float.r)
    case String(f) => v.(strings := v.strings[f := CutValue(line.value)])
    case X3dMode(f) => if IsX3dMode(line.value) then v.(strings := v.strings[f := line.value]) else v
    case List(f) => v.(lists := v.lists[f := Appended(ListOf(v, f), line.value)])
    case Ignored => v
  }

  /** What loading meets, in order: a line of some file, or a file that cannot be opened. */
  datatype Event = Read(line: Line, protected_: bool) | Absent

  function Meet(v: Values, e: Event): Values {
    match e
    case Read(line, p) => Assign(v, Dest(line, p), line)
    case Absent => v.(range := false)
  }

  function Load(v: Values, es: seq<Event>): Values {
    if es == [] then v else Meet(Load(v, es[..|es| - 1]), es[|es| - 1])
  }

  /** The values load_config_files starts from, with errno as it is found. */
  function Fresh(range: bool): Values {
    Values(map[], map[], 0.3, NoEntries(), range)
  }

  function NoEntries(): map<ListField, seq<string>> {
    map[Whitelist := [], Blacklist := [], SupervisorWhitelist := [], SupervisorBlacklist := [],
        StartScripts := [], EndScripts := []]
  }

  lemma UpdatedMap<K, V>(before: map<K, V>, now: map<K, V>, k: K, v: V)
    requires k in before && now.Keys == before.Keys && now[k] == v
    requires forall x :: x in now && x != k ==> now[x] == before[x]
    ensures now == before[k := v]
  {
  }

  lemma EveryList(f: ListField)
    ensures f in NoEntries()
  {
    match f case _ =>
  }

  predicate Cleared(slots: seq<string>) {
    forall i :: 0 <= i < |slots| ==> slots[i] == ""
  }

  function ListFields(): seq<ListField> {
    [Whitelist, Blacklist, StartScripts, EndScripts, SupervisorWhitelist, SupervisorBlacklist]
  }

  lemma EveryField(f: ListField)
    ensures exists k :: 0 <= k < |ListFields()| && ListFields()[k] == f
  {
    var fs := ListFields();
    assert fs[0] == Whitelist && fs[1] == Blacklist && fs[2] == StartScripts && fs[3] == EndScripts;
    assert fs[4] == SupervisorWhitelist && fs[5] == SupervisorBlacklist;
  }

  // ---------------------------------------------------------------- the loader

  /** A file at one of the locations: no path to it, cannot be opened, or its lines. */
  datatype File = NoPath | CannotOpen | Lines(lines: seq<Line>)

  datatype Location = Location(file: File, protected_: bool)

  function EventsAt(l: Location): seq<Event> {
    match l.file
    case NoPath => []
    case CannotOpen => [Absent]
    case Lines(lines) => seq(|lines|, i requires 0 <= i < |lines| => Read(lines[i], l.protected_))
  }

  /** What loading meets at the locations, in order. */
  function Events(ls: seq<Location>): seq<Event> {
    if ls == [] then [] else Events(ls[..|ls| - 1]) + EventsAt(ls[|ls| - 1])
  }

  lemma {:induction false} LoadAppend(v: Values, a: seq<Event>, b: seq<Event>)
    ensures Load(v, a + b) == Load(Load(v, a), b)
  {
    if b == [] {
      assert a + b == a;
    } else {
      assert (a + b)[..|a + b| - 1] == a + b[..|b| - 1];
      LoadAppend(v, a, b[..|b| - 1]);
    }
  }

  /** Six separate empty lists. */
  method EmptyLists() returns (lists: map<ListField, array<string>>)
    ensures lists.Keys == NoEntries().Keys
    ensures forall f, g :: f in lists && g in lists && f != g ==> lists[f] != lists[g]
    ensures forall f :: f in lists ==> fresh(lists[f]) && lists[f].Length == CONFIG_LIST_MAX && Cleared(lists[f][..])
  {
    lists := map[];
    var fields := ListFields();
    for k := 0 to |fields|
      invariant forall f :: f in lists <==> f in fields[..k]
      invariant forall f, g :: f in lists && g in lists && f != g ==> lists[f] != lists[g]
      invariant forall f :: f in lists ==>
                  fresh(lists[f]) && lists[f].Length == CONFIG_LIST_MAX && Cleared(lists[f][..])
    {
      var list := new string[CONFIG_LIST_MAX](_ => "");
      assert fields[..k + 1] == fields[..k] + [fields[k]];
      lists := lists[fields[k] := list];
    }
    forall f ensures f in lists && f in NoEntries() {
      EveryField(f);
      EveryList(f);
    }
  }

  /** struct GameModeConfig */
  class GameModeConfig {
    var longs: map<LongField, int>
    var strings: map<StringField, string>
    var threshold: real
    const lists: map<ListField, array<string>>
    var range: bool          // errno == ERANGE
    var loadProtected: bool

    ghost function Arrays(): set<object> {
      set f | f in lists :: lists[f] as object
    }

    ghost predicate Valid()
      reads this, Arrays()
    {
      && lists.Keys == NoEntries().Keys
      && (forall f, g :: f in lists && g in lists && f != g ==> lists[f] != lists[g])
      && (forall f :: f in lists ==> lists[f].Length == CONFIG_LIST_MAX && Packed(lists[f][..]))
    }

    /** The entries of the lists at present. */
    ghost function ListsNow(): map<ListField, seq<string>>
      reads Arrays()
    {
      map f | f in lists :: Entries(lists[f][..])
    }

    /** The values at present. */
    ghost function Current(): Values
      reads this, Arrays()
    {
      Values(longs, strings, threshold, ListsNow(), range)
    }

    constructor ()
      ensures Valid() && fresh(Arrays()) && ListsNow() == NoEntries()
    {
      range, loadProtected, threshold := false, false, 0.0;
      longs, strings := map[], map[];
      var empty := EmptyLists();
      lists := empty;
      new;
      NothingListed();
    }

    /** Cleared lists have no entries. */
    lemma NothingListed()
      requires Valid() && forall f :: f in lists ==> Cleared(lists[f][..])
      ensures ListsNow() == NoEntries()
    {
      forall f | f in lists ensures Entries(lists[f][..]) == [] {
        EntriesAre(lists[f][..], 0);
      }
    }

    /** get_long_value, then the assignment to the field. */
    method SetLong(f: LongField, value: string)
      modifies this`range, this`longs
      ensures range == (old(range) || OutOfRange(value))
      ensures longs == if range || !IsNumber(value) then old(longs) else old(longs)[f := Scan(value).value]
    {
      var parsed := Strtol(value);
      if OutOfRange(value) { range := true; }
      if range { return; }
      if !(value != "" && parsed.rest == "") { return; }
      longs := longs[f := parsed.value];
    }

    /** append_value_to_list on one of the lists. */
    method AppendTo(f: ListField, value: string)
      requires Valid() && f in lists
      modifies lists[f]
      ensures Valid()
      ensures ListsNow() == old(ListsNow())[f := Appended(old(ListsNow())[f], value)]
    {
      ghost var before := ListsNow();
      var _ := AppendValueToList(value, lists[f]);
      forall g | g in lists && g != f ensures lists[g][..] == old(lists[g][..]) {
        assert lists[g] != lists[f];
      }
      ghost var now := ListsNow();
      assert forall g :: g in now && g != f ==> now[g] == before[g];
      UpdatedMap(before, now, f, Appended(before[f], value));
    }

    /** The part of inih_handler after the dispatch. */
    method Store(target: Target, line: Line)
      requires Valid()
      modifies this, Arrays()
      ensures Valid() && loadProtected == old(loadProtected)
      ensures Current() == Assign(old(Current()), target, line)
    {
      match target
      case Long(f) =>
        SetLong(f, line.value);
      case Threshold =>
        if line.float.Range? { range := true; }
        if !range && line.float.Valid? { threshold := line.float.r; }
      case String(f) =>
        strings := strings[f := CutValue(line.value)];
      case X3dMode(f) =>
        if IsX3dMode(line.value) { strings := strings[f := line.value]; }
      case List(f) =>
        EveryList(f);
        AppendTo(f, line.value);
      case Ignored =>
    }

    /** inih_handler */
    method Handler(line: Line)
      requires Valid()
      modifies this, Arrays()
      ensures Valid() && loadProtected == old(loadProtected)
      ensures Current() == Meet(old(Current()), Read(line, loadProtected))
    {
      var target := Dest(line, loadProtected);
      Store(target, line);
    }

    /** memset of a list */
    method ClearList(list: array<string>)
      modifies list
      ensures Cleared(list[..])
    {
      for i := 0 to list.Length
        invariant forall k :: 0 <= k < i ==> list[k] == ""
      {
        list[i] := "";
      }
    }

    /** The memset of the lists in load_config_files. */
    method ClearLists()
      requires Valid()
      modifies Arrays()
      ensures Valid() && ListsNow() == NoEntries()
    {
      var fields := ListFields();
      for k := 0 to |fields|
        invariant forall j :: 0 <= j < k ==> Cleared(lists[fields[j]][..])
        invariant forall f :: f in lists ==> Packed(lists[f][..])
      {
        ClearList(lists[fields[k]]);
      }
      forall f | f in lists ensures Cleared(lists[f][..]) {
        EveryField(f);
      }
      NothingListed();
    }

    /** ini_parse_file on one file: the handler is called with each line. */
    method ParseFile(lines: seq<Line>)
      requires Valid()
      modifies this, Arrays()
      ensures Valid()
      ensures Current() == Load(old(Current()), EventsAt(Location(Lines(lines), old(loadProtected))))
    {
      ghost var start, es := Current(), EventsAt(Location(Lines(lines), loadProtected));
      for i := 0 to |lines|
        invariant Valid() && loadProtected == old(loadProtected)
        invariant Current() == Load(start, es[..i])
      {
        Handler(lines[i]);
        LoadOneMore(start, es, i);
      }
      assert es[..|lines|] == es;
    }

    /** One round of the loop of load_config_files. */
    method LoadFile(location: Location)
      requires Valid()
      modifies this, Arrays()
      ensures Valid() && Current() == Load(old(Current()), EventsAt(location))
    {
      match location.file
      case NoPath =>
      case CannotOpen => range := false;
      case Lines(lines) =>
        loadProtected := location.protected_;
        ParseFile(lines);
    }

    /** load_config_files; `locations` are the system, administrator, home and local directories. */
    method LoadConfigFiles(locations: seq<Location>)
      requires Valid()
      modifies this, Arrays()
      ensures Valid() && Current() == Load(Fresh(old(range)), Events(locations))
    {
      longs, strings, threshold := map[], map[], 0.3;
      ClearLists();
      ghost var start := Fresh(range);
      for i := 0 to |locations|
        invariant Valid() && Current() == Load(start, Events(locations[..i]))
      {
        EventsOneMore(locations, i);
        LoadAppend(start, Events(locations[..i]), EventsAt(locations[i]));
        LoadFile(locations[i]);
      }
      assert locations[..|locations|] == locations;
    }
  }

  lemma LoadOneMore(v: Values, es: seq<Event>, i: nat)
    requires i < |es|
    ensures Load(v, es[..i + 1]) == Meet(Load(v, es[..i]), es[i])
  {
    assert es[..i + 1][..i] == es[..i];
  }

  lemma EventsOneMore(ls: seq<Location>, i: nat)
    requires i < |ls|
    ensures Events(ls[..i + 1]) == Events(ls[..i]) + EventsAt(ls[i])
  {
    assert ls[..i + 1][..i] == ls[..i];
  }

  // ---------------------------------------------------------------- layering, declaratively

  /** Where the last event puts its value. */
  function LastDest(es: seq<Event>): Target
    requires es != []
  {
    match es[|es| - 1]
    case Read(line, p) => Dest(line, p)
    case Absent => Ignored
  }

  function LastValue(es: seq<Event>): string
    requires es != []
  {
    match es[|es| - 1]
    case Read(line, _) => line.value
    case Absent => ""
  }

  /** What strtof makes of the last event's value. */
  function LastFloat(es: seq<Event>): FloatParse
    requires es != []
  {
    match es[|es| - 1]
    case Read(line, _) => line.float
    case Absent => Invalid
  }

  /** Has some number overflowed, with no failed open since? */
  predicate Stale(range: bool, es: seq<Event>) {
    if es == [] then range
    else
      match es[|es| - 1]
      case Absent => false
      case Read(line, _) => Stale(range, es[..|es| - 1]) || SetsRange(LastDest(es), line)
  }

  /** The last event assigns number `f`: its line is for it, reads as a number, and errno is clean. */
  predicate AssignsLong(range: bool, es: seq<Event>, f: LongField) {
    es != [] && LastDest(es) == Long(f) && IsNumber(LastValue(es)) && !Stale(range, es)
  }

  /** The last event assigns the threshold: its line is for it, reads as a float, and errno is clean. */
  predicate AssignsThreshold(range: bool, es: seq<Event>) {
    es != [] && LastDest(es) == Threshold && LastFloat(es).Valid? && !Stale(range, es)
  }

  /** The last event assigns string `f`: its line is for it and, for an x3d mode, names one. */
  predicate AssignsString(es: seq<Event>, f: StringField) {
    es != [] && (LastDest(es) == String(f) || (LastDest(es) == X3dMode(f) && IsX3dMode(LastValue(es))))
  }

  /** The values offered to list `f` that an unbounded list would keep. */
  function Offered(es: seq<Event>, f: ListField): seq<string> {
    if es == [] then []
    else
      Offered(es[..|es| - 1], f)
      + if LastDest(es) == List(f) && Storable(LastValue(es)) then [LastValue(es)] else []
  }

  lemma AssignCases(v: Values, target: Target, line: Line)
    ensures var v' := Assign(v, target, line);
            && v'.range == (v.range || SetsRange(target, line))
            && (forall f :: LongOf(v', f) == if target == Long(f) && IsNumber(line.value) && !v'.range
                                             then Scan(line.value).value else LongOf(v, f))
            && (forall f :: StringOf(v', f) == if target == String(f) || (target == X3dMode(f) && IsX3dMode(line.value))
                                               then CutValue(line.value) else StringOf(v, f))
            && (forall f :: ListOf(v', f) == if target == List(f) then Appended(ListOf(v, f), line.value)
                                             else ListOf(v, f))
            && v'.threshold == if target == Threshold && line.float.Valid? && !v'.range then line.float.r
                               else v.threshold
  {
  }

  /** One more event, for a number, a string and a list. */
  lemma LoadStep(v: Values, es: seq<Event>)
    requires es != [] && Load(v, es[..|es| - 1]).range == Stale(v.range, es[..|es| - 1])
    ensures var before, now := Load(v, es[..|es| - 1]), Load(v, es);
            && now.range == Stale(v.range, es)
            && (forall f :: LongOf(now, f) == if AssignsLong(v.range, es, f) then Scan(LastValue(es)).value
                                              else LongOf(before, f))
            && (forall f :: StringOf(now, f) == if AssignsString(es, f) then CutValue(LastValue(es))
                                                else StringOf(before, f))
            && (forall f :: ListOf(now, f) == if LastDest(es) == List(f) then Appended(ListOf(before, f), LastValue(es))
                                              else ListOf(before, f))
            && now.threshold == if AssignsThreshold(v.range, es) then LastFloat(es).r else before.threshold
  {
    match es[|es| - 1]
    case Absent =>
    case Read(line, p) => AssignCases(Load(v, es[..|es| - 1]), Dest(line, p), line);
  }

  lemma {:induction false} RangeIsStale(v: Values, es: seq<Event>)
    ensures Load(v, es).range == Stale(v.range, es)
  {
    if es == [] {
    } else {
      RangeIsStale(v, es[..|es| - 1]);
      LoadStep(v, es);
    }
  }

  /** A number ends as its last assignment over all files in order, or as its default. */
  lemma {:induction false} LongIsLastAssignment(range: bool, es: seq<Event>, f: LongField, n: nat)
    requires n <= |es|
    requires forall m :: n < m <= |es| ==> !AssignsLong(range, es[..m], f)
    ensures AssignsLong(range, es[..n], f) ==> LongOf(Load(Fresh(range), es), f) == Scan(LastValue(es[..n])).value
    ensures n == 0 ==> LongOf(Load(Fresh(range), es), f) == LongDefault(f)
  {
    assert es[..|es|] == es;
    if es == [] {
    } else {
      var init := es[..|es| - 1];
      RangeIsStale(Fresh(range), init);
      LoadStep(Fresh(range), es);
      if n < |es| {
        forall m | n < m <= |init| ensures !AssignsLong(range, init[..m], f) {
          assert init[..m] == es[..m];
        }
        assert init[..n] == es[..n];
        LongIsLastAssignment(range, init, f, n);
      }
    }
  }

  /** The iGPU threshold ends as its last assignment over all files in order, or as 0.3. */
  lemma {:induction false} ThresholdIsLastAssignment(range: bool, es: seq<Event>, n: nat)
    requires n <= |es|
    requires forall m :: n < m <= |es| ==> !AssignsThreshold(range, es[..m])
    ensures AssignsThreshold(range, es[..n]) ==> Load(Fresh(range), es).threshold == LastFloat(es[..n]).r
    ensures n == 0 ==> Load(Fresh(range), es).threshold == 0.3
  {
    assert es[..|es|] == es;
    if es == [] {
    } else {
      var init := es[..|es| - 1];
      RangeIsStale(Fresh(range), init);
      LoadStep(Fresh(range), es);
      if n < |es| {
        forall m | n < m <= |init| ensures !AssignsThreshold(range, init[..m]) {
          assert init[..m] == es[..m];
        }
        assert init[..n] == es[..n];
        ThresholdIsLastAssignment(range, init, n);
      }
    }
  }

  /** Is the last event a line that reads as number `f`? */
  predicate NamesLong(es: seq<Event>, f: LongField) {
    es != [] && LastDest(es) == Long(f) && IsNumber(LastValue(es))
  }

  /** An event that names no number leaves it alone. */
  lemma UnnamedKeeps(range: bool, es: seq<Event>, f: LongField)
    requires es != [] && !NamesLong(es, f)
    ensures LongOf(Load(Fresh(range), es), f) == LongOf(Load(Fresh(range), es[..|es| - 1]), f)
  {
    RangeIsStale(Fresh(range), es[..|es| - 1]);
    LoadStep(Fresh(range), es);
  }

  /** One that names it assigns it exactly unless an overflow is in the way, or there is nothing to change. */
  lemma NamedAssignsIff(range: bool, es: seq<Event>, f: LongField)
    requires NamesLong(es, f)
    ensures LongOf(Load(Fresh(range), es), f) == Scan(LastValue(es)).value <==>
            !Stale(range, es) || LongOf(Load(Fresh(range), es[..|es| - 1]), f) == Scan(LastValue(es)).value
  {
    RangeIsStale(Fresh(range), es[..|es| - 1]);
    LoadStep(Fresh(range), es);
  }

  /** The first n events end with the last line that names number `f`. */
  predicate LastNames(es: seq<Event>, f: LongField, n: nat) {
    0 < n <= |es| && NamesLong(es[..n], f) && forall m :: n < m <= |es| ==> !NamesLong(es[..m], f)
  }

  lemma LastNamesBefore(es: seq<Event>, init: seq<Event>, f: LongField, n: nat)
    requires LastNames(es, f, n) && n < |es| && init == es[..|es| - 1]
    ensures LastNames(init, f, n) && init[..n] == es[..n] && init[..n - 1] == es[..n - 1] && !NamesLong(es, f)
  {
    assert es[..|es|] == es && init[..n] == es[..n];
    forall m | n < m <= |init| ensures !NamesLong(init[..m], f) {
      assert init[..m] == es[..m];
    }
  }

  /**
   Exactly when a number ends as the last line that names it says: when no overflow, without a
   failed open since, is in the way there, or the value was the same before.
   */
  lemma {:induction false} LastNumberIff(range: bool, es: seq<Event>, f: LongField, n: nat)
    requires LastNames(es, f, n)
    ensures LongOf(Load(Fresh(range), es), f) == Scan(LastValue(es[..n])).value <==>
            || !Stale(range, es[..n])
            || LongOf(Load(Fresh(range), es[..n - 1]), f) == Scan(LastValue(es[..n])).value
  {
    if n == |es| {
      assert es[..n] == es;
      NamedAssignsIff(range, es, f);
    } else {
      var init := es[..|es| - 1];
      LastNamesBefore(es, init, f, n);
      LastNumberIff(range, init, f, n);
      UnnamedKeeps(range, es, f);
    }
  }

  /** A string ends as its last assignment over all files in order, cut to 255 characters, or empty. */
  lemma {:induction false} StringIsLastAssignment(range: bool, es: seq<Event>, f: StringField, n: nat)
    requires n <= |es|
    requires forall m :: n < m <= |es| ==> !AssignsString(es[..m], f)
    ensures AssignsString(es[..n], f) ==> StringOf(Load(Fresh(range), es), f) == CutValue(LastValue(es[..n]))
    ensures n == 0 ==> StringOf(Load(Fresh(range), es), f) == ""
  {
    assert es[..|es|] == es;
    if es == [] {
    } else {
      var init := es[..|es| - 1];
      RangeIsStale(Fresh(range), init);
      LoadStep(Fresh(range), es);
      if n < |es| {
        forall m | n < m <= |init| ensures !AssignsString(init[..m], f) {
          assert init[..m] == es[..m];
        }
        assert init[..n] == es[..n];
        StringIsLastAssignment(range, init, f, n);
      }
    }
  }

  /** A list ends as the first 32 of the storable values offered to it, in order. */
  lemma {:induction false} ListIsFirst32(range: bool, es: seq<Event>, f: ListField)
    ensures ListOf(Load(Fresh(range), es), f) ==
            if |Offered(es, f)| <= CONFIG_LIST_MAX then Offered(es, f) else Offered(es, f)[..CONFIG_LIST_MAX]
  {
    if es == [] {
      EveryList(f);
    } else {
      ListIsFirst32(range, es[..|es| - 1], f);
      RangeIsStale(Fresh(range), es[..|es| - 1]);
      LoadStep(Fresh(range), es);
    }
  }

  /** The fields of section [gpu]. */
  predicate GpuLong(f: LongField) {
    || f.GpuDevice? || f.NvCoreClockOffset? || f.NvMemClockOffset?
    || f.NvPowermizerMode? || f.NvPerProfileEditable?
  }

  predicate GpuString(f: StringField) {
    f.ApplyGpuOptimisations? || f.AmdPerformanceLevel?
  }

  predicate ForGpu(t: Target) {
    (t.Long? && GpuLong(t.long)) || (t.String? && GpuString(t.string_)) || (t.X3dMode? && GpuString(t.mode))
  }

  lemma GeneralIsNotGpu(name: string)
    ensures !ForGpu(GeneralTarget(name))
  {
  }

  lemma OthersAreNotGpu(name: string)
    ensures !ForGpu(FilterTarget(name)) && !ForGpu(CpuTarget(name))
    ensures !ForGpu(SupervisorTarget(name)) && !ForGpu(CustomTarget(name))
  {
  }

  /** Only section [gpu] reaches those fields, and only from a protected file. */
  lemma GpuDestIsProtected(line: Line, protected_: bool)
    ensures ForGpu(Dest(line, protected_)) ==> line.section == "gpu" && protected_
  {
    GeneralIsNotGpu(line.name);
    OthersAreNotGpu(line.name);
  }

  /** Whatever unprotected files contain, the [gpu] fields stay what the files before them made them. */
  lemma {:induction false} GpuFieldsProtected(v: Values, es: seq<Event>)
    requires forall e :: e in es ==> e.Read? ==> !e.protected_
    ensures forall f :: GpuLong(f) ==> LongOf(Load(v, es), f) == LongOf(v, f)
    ensures forall f :: GpuString(f) ==> StringOf(Load(v, es), f) == StringOf(v, f)
  {
    if es == [] {
    } else {
      var last := es[|es| - 1];
      assert last in es;
      GpuFieldsProtected(v, es[..|es| - 1]);
      match last
      case Absent =>
      case Read(line, p) =>
        GpuDestIsProtected(line, p);
        AssignCases(Load(v, es[..|es| - 1]), Dest(line, p), line);
    }
  }

  lemma EventsLast(ls: seq<Location>, l: Location)
    ensures Events(ls + [l]) == Events(ls) + EventsAt(l)
  {
    assert (ls + [l])[..|ls|] == ls;
  }

  lemma {:induction false} EventsAppend(a: seq<Location>, b: seq<Location>)
    ensures Events(a + b) == Events(a) + Events(b)
  {
    if b == [] {
      AddNothing(a);
      AddNothing(Events(a));
    } else {
      var init, last := b[..|b| - 1], b[|b| - 1];
      SplitLast(b);
      AddAssociates(a, init, [last]);
      EventsAppend(a, init);
      EventsLast(init, last);
      EventsLast(a + init, last);
      AddAssociates(Events(a), Events(init), EventsAt(last));
    }
  }

  lemma {:induction false} UnprotectedEvents(ls: seq<Location>)
    requires forall l :: l in ls ==> !l.protected_
    ensures forall e :: e in Events(ls) ==> e.Read? ==> !e.protected_
  {
    if ls == [] {
    } else {
      assert ls[|ls| - 1] in ls;
      UnprotectedEvents(ls[..|ls| - 1]);
    }
  }

  /** Every [gpu] field is a function of the protected locations alone. */
  lemma GpuFromProtectedFiles(range: bool, system: seq<Location>, user: seq<Location>, f: LongField, g: StringField)
    requires forall l :: l in user ==> !l.protected_
    requires GpuLong(f) && GpuString(g)
    ensures LongOf(Load(Fresh(range), Events(system + user)), f) == LongOf(Load(Fresh(range), Events(system)), f)
    ensures StringOf(Load(Fresh(range), Events(system + user)), g) == StringOf(Load(Fresh(range), Events(system)), g)
  {
    EventsAppend(system, user);
    UnprotectedEvents(user);
    LoadAppend(Fresh(range), Events(system), Events(user));
    GpuFieldsProtected(Load(Fresh(range), Events(system)), Events(user));
  }

  /** No number of `es` overflows. */
  ghost predicate NoOverflow(es: seq<Event>) {
    forall e :: e in es && e.Read? ==> !SetsRange(Dest(e.line, e.protected_), e.line)
  }

  /** When no number overflows, errno does not get in the way of any assignment. */
  lemma {:induction false} NeverStale(es: seq<Event>)
    requires NoOverflow(es)
    ensures !Stale(false, es)
  {
    if es == [] {
    } else {
      assert es[|es| - 1] in es;
      NeverStale(es[..|es| - 1]);
    }
  }

  /**
   But one number that overflows stops every later number of the same file: whatever its
   value, a renice after a reaper_freq beyond the range of long stays at its default.
   */
  lemma OverflowStopsLaterNumbers(big: nat, renice: nat, x: FloatParse)
    requires big > LONG_MAX && renice <= LONG_MAX
    ensures var es := [Read(Line("general", "reaper_freq", Decimal(big), x), true),
                       Read(Line("general", "renice", Decimal(renice), x), true)];
            IsNumber(Decimal(renice)) && LongOf(Load(Fresh(false), es), Renice) == LongDefault(Renice)
  {
    var l1, l2 := Line("general", "reaper_freq", Decimal(big), x), Line("general", "renice", Decimal(renice), x);
    NumberLines(l1, l2);
    DecimalIsNumber(big);
    DecimalIsNumber(renice);
    LoadTwo(l1, l2);
  }

  lemma NumberLines(l1: Line, l2: Line)
    requires l1.section == "general" && l1.name == "reaper_freq"
    requires l2.section == "general" && l2.name == "renice"
    ensures Dest(l1, true) == Long(ReaperFrequency) && Dest(l2, true) == Long(Renice)
  {
  }

  lemma DecimalIsNumber(n: nat)
    ensures IsNumber(Decimal(n)) && Scan(Decimal(n)).value == n
    ensures OutOfRange(Decimal(n)) <==> n > LONG_MAX
  {
    ScanOfDecimal(n, "");
    assert Decimal(n) + "" == Decimal(n);
  }

  lemma LoadTwo(l1: Line, l2: Line)
    ensures Load(Fresh(false), [Read(l1, true), Read(l2, true)]) ==
            Assign(Assign(Fresh(false), Dest(l1, true), l1), Dest(l2, true), l2)
  {
    var es := [Read(l1, true), Read(l2, true)];
    assert es[..1] == [Read(l1, true)] && es[..1][..0] == [];
    assert Load(Fresh(false), es[..1]) == Meet(Fresh(false), Read(l1, true));
  }

  /** With a file that cannot be opened in between, the later number counts after all. */
  lemma FailedOpenAllowsNumbers(big: nat, renice: nat, x: FloatParse)
    requires big > LONG_MAX && renice <= LONG_MAX
    ensures var es := [Read(Line("general", "reaper_freq", Decimal(big), x), true), Absent,
                       Read(Line("general", "renice", Decimal(renice), x), true)];
            LongOf(Load(Fresh(false), es), Renice) == renice
  {
    var l1, l2 := Line("general", "reaper_freq", Decimal(big), x), Line("general", "renice", Decimal(renice), x);
    NumberLines(l1, l2);
    DecimalIsNumber(renice);
    LoadAround(l1, l2);
  }

  lemma LoadAround(l1: Line, l2: Line)
    ensures Load(Fresh(false), [Read(l1, true), Absent, Read(l2, true)]) ==
            Assign(Meet(Assign(Fresh(false), Dest(l1, true), l1), Absent), Dest(l2, true), l2)
  {
    var es := [Read(l1, true), Absent, Read(l2, true)];
    assert es[..2] == [Read(l1, true), Absent] && es[..2][..1] == [Read(l1, true)] && es[..2][..1][..0] == [];
    assert Load(Fresh(false), es[..2][..1]) == Meet(Fresh(false), Read(l1, true));
    assert Load(Fresh(false), es[..2]) == Meet(Load(Fresh(false), es[..2][..1]), Absent);
  }

  /** The event is a line that reads as number `f`. */
  predicate Reads(e: Event, f: LongField) {
    e.Read? && Dest(e.line, e.protected_) == Long(f) && IsNumber(e.line.value)
  }

  lemma PrefixReads(a: seq<Event>, b: seq<Event>, f: LongField, j: nat, es: seq<Event>)
    requires j < |b| && es == (a + b)[..|a| + j + 1]
    ensures NamesLong(es, f) <==> Reads(b[j], f)
    ensures b[j].Read? ==> LastValue(es) == b[j].line.value
  {
    assert es[|es| - 1] == b[j];
  }

  lemma LastReads(a: seq<Event>, b: seq<Event>, f: LongField, i: nat, es: seq<Event>, n: nat)
    requires es == a + b && n == |a| + i + 1
    requires i < |b| && Reads(b[i], f) && forall j :: i < j < |b| ==> !Reads(b[j], f)
    ensures LastNames(es, f, n) && LastValue(es[..n]) == b[i].line.value
  {
    PrefixReads(a, b, f, i, es[..n]);
    forall m | n < m <= |es| ensures !NamesLong(es[..m], f) {
      PrefixReads(a, b, f, m - 1 - |a|, es[..m]);
    }
  }

  lemma LastReadDecides(es: seq<Event>, f: LongField, n: nat, value: string)
    requires LastNames(es, f, n) && LastValue(es[..n]) == value && !Stale(false, es[..n])
    ensures LongOf(Load(Fresh(false), es), f) == Scan(value).value
  {
    LastNumberIff(false, es, f, n);
  }

  /** Of files that name a number the later one decides, and in a file the later line. */
  lemma LaterLineDecides(first: seq<Location>, last: Location, f: LongField, i: nat)
    requires last.file.Lines? && i < |last.file.lines| && NoOverflow(Events(first + [last]))
    requires Reads(Read(last.file.lines[i], last.protected_), f)
    requires forall j :: i < j < |last.file.lines| ==> !Reads(Read(last.file.lines[j], last.protected_), f)
    ensures LongOf(Load(Fresh(false), Events(first + [last])), f) == Scan(last.file.lines[i].value).value
  {
    EventsLast(first, last);
    var es, n := Events(first + [last]), |Events(first)| + i + 1;
    LastReads(Events(first), EventsAt(last), f, i, es, n);
    NotStaleAt(es, n);
    LastReadDecides(es, f, n, last.file.lines[i].value);
  }

  lemma NotStaleAt(es: seq<Event>, n: nat)
    requires NoOverflow(es) && n <= |es|
    ensures !Stale(false, es[..n])
  {
    assert forall e :: e in es[..n] ==> e in es;
    NeverStale(es[..n]);
  }
}
