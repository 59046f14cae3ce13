/**
 Nice levels and i/o priorities of a client's tasks. One function applies and, told what it
 expects to find, also undoes; a task that is not at the expected value is left alone.
 */
module Priority {
  import opened Common

  /** The tasks of the system by thread id; an id that is missing has exited. */
  class Tasks {
    var nice: map<int, int>
    var ioprio: map<int, bv32>  // class in the bits from 13 up, level below

    constructor (nice: map<int, int>, ioprio: map<int, bv32>)
      ensures this.nice == nice && this.ioprio == ioprio
    {
      this.nice, this.ioprio := nice, ioprio;
    }
  }

  // ---------------------------------------------------------------- renice

  const RENICE_INVALID := -128

  /** config_get_renice_value: 0 for "do not renice" and for any value outside 1..20. */
  function ConfigRenice(value: int): (r: int)
    ensures 0 <= r <= 20
    ensures r == value <==> 0 <= value <= 20
  {
    if (value < 1 || value > 20) && value != 0 then 0 else value
  }

  /** Moves the listed tasks found at `from` to `to`, except the refused ones. */
  function MoveNice(nice: map<int, int>, tids: seq<int>, from: int, to: int, refused: set<int>): map<int, int> {
    map t | t in nice :: if t in tids && nice[t] == from && t !in refused then to else nice[t]
  }

  /** What game_mode_apply_renice makes of the nice levels; `tids` is None when /proc/<pid>/task is gone. */
  function NiceAfter(nice: map<int, int>, tids: Option<seq<int>>, renice: int, expected: int,
                     refused: set<int>): map<int, int> {
    if expected == RENICE_INVALID || renice == 0 || tids.None? then nice
    else if expected != 0 then MoveNice(nice, tids.value, -renice, 0, refused)
    else MoveNice(nice, tids.value, 0, -renice, refused)
  }

  /** One more task in the directory: it is moved if it is found at `from` when its turn comes. */
  lemma MoveNiceStep(start: map<int, int>, seen: seq<int>, tid: int, from: int, to: int, refused: set<int>)
    ensures var m := MoveNice(start, seen, from, to, refused);
            MoveNice(start, seen + [tid], from, to, refused) ==
            if tid in m && m[tid] == from && tid !in refused then m[tid := to] else m
  {
  }

  /** game_mode_apply_renice */
  method ApplyRenice(tasks: Tasks, tids: Option<seq<int>>, configured: int, expected: int, refused: set<int>)
    modifies tasks`nice
    ensures tasks.nice == NiceAfter(old(tasks.nice), tids, configured, expected, refused)
  {
    if expected == RENICE_INVALID { return; }
    var renice, found := configured, expected;
    if renice == 0 { return; }
    renice := -renice;
    if found != 0 {
      found := renice;
      renice := 0;
    }
    if tids.None? { return; }
    var list := tids.value;
    ghost var start := tasks.nice;
    for i := 0 to |list|
      invariant tasks.nice == MoveNice(start, list[..i], found, renice, refused)
    {
      var tid := list[i];
      assert list[..i + 1] == list[..i] + [tid];
      MoveNiceStep(start, list[..i], tid, found, renice, refused);
      if tid !in tasks.nice {
        // it has exited
      } else if tasks.nice[tid] != found {
        // somebody else changed it, or it began elsewhere
      } else if tid !in refused {
        tasks.nice := tasks.nice[tid := renice];
      }
    }
    assert list[..|list|] == list;
  }

  /** Applying and then removing, with the tasks that refuse each of the two. */
  function NiceCycle(nice: map<int, int>, tids: seq<int>, r: int, refused1: set<int>,
                     refused2: set<int>): (m: map<int, int>)
    ensures m.Keys == nice.Keys
  {
    NiceAfter(NiceAfter(nice, Some(tids), r, 0, refused1), Some(tids), r, r, refused2)
  }

  /** Remove undoes apply on a task, exactly unless it started at -r or only the removal was refused. */
  lemma NiceCycleIff(nice: map<int, int>, tids: seq<int>, value: int, t: int, refused1: set<int>, refused2: set<int>)
    requires t in nice && t in tids
    ensures var r := ConfigRenice(value);
            NiceCycle(nice, tids, r, refused1, refused2)[t] == nice[t] <==>
            r == 0 || if t in refused2 then nice[t] != 0 || t in refused1 else nice[t] != -r
    ensures nice[t] != 0 && nice[t] != -ConfigRenice(value) ==>
              NiceAfter(nice, Some(tids), ConfigRenice(value), 0, refused1)[t] == nice[t]
  {
    var r := ConfigRenice(value);
    var applied := NiceAfter(nice, Some(tids), r, 0, refused1);
    if r != 0 {
      assert applied[t] == if nice[t] == 0 && t !in refused1 then -r else nice[t];
    }
  }

  /**
   A client's whole registration: registering applies under the first configuration, each
   reload removes under the old one before it applies under the new, unregistering removes.
   */
  function NiceSession(nice: map<int, int>, tids: seq<int>, values: seq<int>): (m: map<int, int>)
    ensures m.Keys == nice.Keys
    decreases |values|
  {
    if values == [] then nice
    else NiceSession(NiceCycle(nice, tids, ConfigRenice(values[0]), {}, {}), tids, values[1..])
  }

  /** Over any number of reloads a task ends where it began exactly unless it began at some configured -r. */
  lemma {:induction false} NiceSessionIff(nice: map<int, int>, tids: seq<int>, values: seq<int>, t: int)
    requires t in nice && t in tids
    ensures NiceSession(nice, tids, values)[t] == nice[t] <==>
            nice[t] == 0 || forall v :: v in values ==> nice[t] != -ConfigRenice(v)
    ensures NiceSession(nice, tids, values)[t] in {nice[t], 0}
    decreases |values|
  {
    if values == [] {
    } else {
      var next := NiceCycle(nice, tids, ConfigRenice(values[0]), {}, {});
      NiceCycleIff(nice, tids, values[0], t, {}, {});
      CycleEndsAt(nice, tids, ConfigRenice(values[0]), t);
      NiceSessionIff(next, tids, values[1..], t);
      assert forall v :: v in values <==> v == values[0] || v in values[1..];
    }
  }

  lemma CycleEndsAt(nice: map<int, int>, tids: seq<int>, r: int, t: int)
    requires t in nice && t in tids && 0 <= r <= 20
    ensures NiceCycle(nice, tids, r, {}, {})[t] == if nice[t] == -r then 0 else nice[t]
  {
    var applied := NiceAfter(nice, Some(tids), r, 0, {});
    assert r != 0 ==> applied[t] == if nice[t] == 0 then -r else nice[t];
  }

  // ---------------------------------------------------------------- ioprio

  const IOPRIO_DONT_SET: bv32 := 0xFFFF_FFFE
  const IOPRIO_DEFAULT: bv32 := 4
  const IOPRIO_CLASS_BE: bv32 := 2

  /** IOPRIO_PRIO_DATA */
  function PrioData(mask: bv32): bv32 {
    mask & 0x1FFF
  }

  /** IOPRIO_PRIO_VALUE(IOPRIO_CLASS_BE, data) */
  function PrioValue(data: bv32): bv32 {
    (IOPRIO_CLASS_BE << 13) | data
  }

  /** The level of a value, or of -2, which stands for no value, cut to 13 bits. */
  function Level(ioprio: map<int, bv32>, t: int): bv32 {
    PrioData(if t in ioprio then ioprio[t] else IOPRIO_DONT_SET)
  }

  /** game_mode_get_ioprio; ioprio_get fails for a task that has exited and for the `unreadable` ones. */
  function Reported(ioprio: map<int, bv32>, unreadable: set<int>, t: int): bv32 {
    if t in unreadable then PrioData(IOPRIO_DONT_SET) else Level(ioprio, t)
  }

  /** Encoding twice is encoding once, a level survives encoding, and -2 never reads as -2. */
  lemma PrioBits(x: bv32)
    ensures PrioValue(PrioValue(x)) == PrioValue(x)
    ensures x <= 7 ==> PrioData(PrioValue(x)) == x
    ensures PrioData(x) != IOPRIO_DONT_SET && PrioData(IOPRIO_DONT_SET) == 8190
  {
  }

  /** CLAMP of common-helpers.h, from its MIN and MAX */
  function Clamp(l: int, u: int, value: int): int {
    Max(Min(l, u), Min(Max(l, u), value))
  }

  function Min(a: int, b: int): int { if a < b then a else b }

  function Max(a: int, b: int): int { if a > b then a else b }

  /** The ioprio setting after the special words: "off" is -2, "default" is -1, else atoi. */
  datatype IoprioSetting = Off | ResetDefault | Number(n: int)

  /** config_get_ioprio_value; "off" is clamped like any other number and ends up as 0. */
  function ConfigIoprio(s: IoprioSetting): (r: int)
    ensures 0 <= r <= 7
    ensures s.Number? && 0 <= s.n <= 7 ==> r == s.n
    ensures s.Off? || s.ResetDefault? ==> r == 0
  {
    var value := match s case Off => -2 case ResetDefault => -1 case Number(n) => n;
    if value == -1 then 0 else Clamp(0, 7, value)
  }

  /** The system calls of one run that fail: reads of some tasks, writes of some. */
  datatype IoprioFaults = IoprioFaults(unreadable: set<int>, refused: set<int>)

  /** Moves the listed tasks reported at level `from` to best-effort level `to`, except the refused ones. */
  function MoveIoprio(ioprio: map<int, bv32>, tids: seq<int>, from: bv32, to: bv32,
                      faults: IoprioFaults): map<int, bv32> {
    map t | t in ioprio :: if t in tids && Reported(ioprio, faults.unreadable, t) == from && t !in faults.refused
                           then PrioValue(to) else ioprio[t]
  }

  /** What game_mode_apply_ioprio makes of the i/o priorities. */
  function IoprioAfter(ioprio: map<int, bv32>, tids: Option<seq<int>>, configured: bv32, expected: bv32,
                       faults: IoprioFaults): map<int, bv32> {
    if expected == IOPRIO_DONT_SET || configured == IOPRIO_DONT_SET || tids.None? then ioprio
    else if expected != IOPRIO_DEFAULT then MoveIoprio(ioprio, tids.value, configured, IOPRIO_DEFAULT, faults)
    else MoveIoprio(ioprio, tids.value, IOPRIO_DEFAULT, configured, faults)
  }

  /**
   A task whose value cannot be read is never written, as 8190 is no level to change from;
   so no value is made up for a task that has exited, either.
   */
  lemma UnreadableNeverWritten(ioprio: map<int, bv32>, tids: Option<seq<int>>, configured: bv32, expected: bv32,
                               faults: IoprioFaults, t: int)
    requires configured <= 7 || configured == IOPRIO_DONT_SET
    ensures t in ioprio && t in faults.unreadable ==>
            IoprioAfter(ioprio, tids, configured, expected, faults)[t] == ioprio[t]
    ensures t !in ioprio ==> t !in IoprioAfter(ioprio, tids, configured, expected, faults)
  {
    PrioBits(configured);
  }

  /** One more task in the directory: it is moved if it is reported at `from` when its turn comes. */
  lemma MoveIoprioStep(start: map<int, bv32>, seen: seq<int>, tid: int, from: bv32, to: bv32, faults: IoprioFaults)
    requires from <= 7
    ensures var m := MoveIoprio(start, seen, from, to, faults);
            MoveIoprio(start, seen + [tid], from, to, faults) ==
            if Reported(m, faults.unreadable, tid) == from && tid !in faults.refused then m[tid := PrioValue(to)] else m
  {
    PrioBits(from);
    PrioBits(to);
  }

  /** game_mode_apply_ioprio; the value to set is encoded again each time round the loop. */
  method ApplyIoprio(tasks: Tasks, tids: Option<seq<int>>, configured: bv32, expectedLevel: bv32, faults: IoprioFaults)
    requires configured <= 7 || configured == IOPRIO_DONT_SET
    modifies tasks`ioprio
    ensures tasks.ioprio == IoprioAfter(old(tasks.ioprio), tids, configured, expectedLevel, faults)
  {
    var expected, ioprio := expectedLevel, configured;
    if expected == IOPRIO_DONT_SET { return; }
    if ioprio == IOPRIO_DONT_SET { return; }
    if expected != IOPRIO_DEFAULT {
      expected := ioprio;
      ioprio := IOPRIO_DEFAULT;
    }
    if tids.None? { return; }
    var list := tids.value;
    ghost var start, target := tasks.ioprio, ioprio;
    PrioBits(target);
    for i := 0 to |list|
      invariant ioprio == target || ioprio == PrioValue(target)
      invariant tasks.ioprio == MoveIoprio(start, list[..i], expected, target, faults)
    {
      var tid := list[i];
      assert list[..i + 1] == list[..i] + [tid];
      MoveIoprioStep(start, list[..i], tid, expected, target, faults);
      var current := Reported(tasks.ioprio, faults.unreadable, tid);
      if current == IOPRIO_DONT_SET {
        // couldn't get the value
      } else if current != expected {
        // not at the value to change from
      } else {
        ioprio := PrioValue(ioprio);
        if tid !in faults.refused {
          tasks.ioprio := tasks.ioprio[tid := ioprio];
        }
      }
    }
    assert list[..|list|] == list;
  }

  /** Applying and then removing, with nothing refused and the same tasks unreadable both times. */
  function IoprioCycle(ioprio: map<int, bv32>, tids: seq<int>, c: bv32, unreadable: set<int>): (m: map<int, bv32>)
    ensures m.Keys == ioprio.Keys
  {
    var faults := IoprioFaults(unreadable, {});
    IoprioAfter(IoprioAfter(ioprio, Some(tids), c, IOPRIO_DEFAULT, faults), Some(tids), c, c, faults)
  }

  /**
   Remove undoes apply on a task's level exactly unless it could be read and started at a
   configured level other than 4.
   */
  lemma IoprioCycleIff(ioprio: map<int, bv32>, tids: seq<int>, c: bv32, unreadable: set<int>, t: int)
    requires t in ioprio && t in tids && c <= 7
    ensures Level(IoprioCycle(ioprio, tids, c, unreadable), t) ==
            if Level(ioprio, t) == c && t !in unreadable then IOPRIO_DEFAULT else Level(ioprio, t)
    ensures Level(IoprioCycle(ioprio, tids, c, unreadable), t) == Level(ioprio, t) <==>
            c == IOPRIO_DEFAULT || Level(ioprio, t) != c || t in unreadable
  {
    var applied := IoprioAfter(ioprio, Some(tids), c, IOPRIO_DEFAULT, IoprioFaults(unreadable, {}));
    PrioBits(c);
    PrioBits(IOPRIO_DEFAULT);
    assert Level(applied, t) == if Level(ioprio, t) == IOPRIO_DEFAULT && t !in unreadable then c else Level(ioprio, t);
  }

  function IoprioSession(ioprio: map<int, bv32>, tids: seq<int>, levels: seq<bv32>,
                         unreadable: set<int>): (m: map<int, bv32>)
    ensures m.Keys == ioprio.Keys
    decreases |levels|
  {
    if levels == [] then ioprio
    else IoprioSession(IoprioCycle(ioprio, tids, levels[0], unreadable), tids, levels[1..], unreadable)
  }

  /**
   Over any number of reloads a task's level ends where it began exactly unless it could be
   read and began at a configured level other than 4.
   */
  lemma {:induction false} IoprioSessionIff(ioprio: map<int, bv32>, tids: seq<int>, levels: seq<bv32>,
                                            unreadable: set<int>, t: int)
    requires t in ioprio && t in tids
    requires forall c :: c in levels ==> c <= 7
    ensures Level(IoprioSession(ioprio, tids, levels, unreadable), t) == Level(ioprio, t) <==>
            Level(ioprio, t) == IOPRIO_DEFAULT || Level(ioprio, t) !in levels || t in unreadable
    ensures Level(IoprioSession(ioprio, tids, levels, unreadable), t) in {Level(ioprio, t), IOPRIO_DEFAULT}
    decreases |levels|
  {
    if levels == [] {
    } else {
      assert levels[0] in levels && forall c :: c in levels[1..] ==> c in levels;
      IoprioCycleIff(ioprio, tids, levels[0], unreadable, t);
      IoprioSessionIff(IoprioCycle(ioprio, tids, levels[0], unreadable), tids, levels[1..], unreadable, t);
      assert levels == [levels[0]] + levels[1..];
    }
  }
}
