/**
 Core parking: the daemon prints the cores to park into a fixed buffer, the root helper
 cpucorectl parses the text and writes each core's state. Both may stop part-way.
 */
module CpuPark {
  import opened Common
  import opened CpuCoreCtl
  import opened CpuList
  import opened Machine

  /** linux/limits.h */
  const ARG_MAX: nat := 131072

  /** struct GameModeCPUInfo; `pin` is park_or_pin == IS_CPU_PIN. */
  datatype CpuInfo = CpuInfo(numCpu: nat, pin: bool, online: set<int>, toKeep: set<int>)

  /** The runs of cores that park_cpu and unpark_cpu print. */
  function Targets(info: CpuInfo): seq<Run> {
    RunsOf(info.online - info.toKeep, info.numCpu)
  }

  function Front<T>(s: seq<T>): seq<T> {
    if s == [] then [] else s[..|s| - 1]
  }

  function Take(s: string, n: nat): string {
    if |s| <= n then s else s[..n]
  }

  // ---------------------------------------------------------------- printing into the buffer

  /** The buffer starts with the C string `text`. */
  ghost predicate Holds(buf: array<char>, text: string)
    reads buf
  {
    |text| < buf.Length && buf[..|text|] == text && buf[|text|] == '\0'
  }

  /** snprintf(buf + pos, buf.Length - pos, text) */
  method Snprintf(buf: array<char>, pos: nat, text: string) returns (ret: nat)
    requires pos < buf.Length
    modifies buf
    ensures ret == |text|
    ensures Holds(buf, Take(old(buf[..pos]) + text, buf.Length - 1))
  {
    var n := if |text| < buf.Length - pos then |text| else buf.Length - pos - 1;
    forall i | 0 <= i < n { buf[pos + i] := text[i]; }
    buf[pos + n] := '\0';
    ret := |text|;
    ghost var whole := old(buf[..pos]) + text;
    assert buf[..pos + n] == whole[..pos + n];
  }

  /** The printing loop between two cores: the text in the buffer and the run not yet printed. */
  datatype Printer = Printer(text: string, open: Option<Run>)

  /** The text once the open run is printed too. */
  function Flush(q: Printer): string {
    if q.open.None? then q.text
    else q.text + (if q.text == "" then "" else ",") + RenderRun(q.open.value)
  }

  /** log_state: appends one run, after a comma unless it is the first. */
  method LogState(buf: array<char>, pos: nat, first: int, last: int) returns (ok: bool, next: nat)
    requires pos < buf.Length
    modifies buf
    ensures var text := Flush(Printer(old(buf[..pos]), Some(Run(first, last))));
            && (ok <==> |text| < buf.Length)
            && (ok ==> next == |text| && buf[..next] == text)
            && Holds(buf, Take(text, buf.Length - 1))
  {
    next := pos;
    if next != 0 {
      var ret := Snprintf(buf, next, ",");
      if ret >= buf.Length - next { return false, next; }
      next := next + ret;
      assert buf[..next] == old(buf[..pos]) + ",";
    } else {
      assert buf[..next] == old(buf[..pos]) + "";
    }
    var text := if first == last then PrintLong(first) else PrintLong(first) + "-" + PrintLong(last);
    var ret := Snprintf(buf, next, text);
    if ret >= buf.Length - next { return false, next; }
    return true, next + ret;
  }

  function NextPrinter(q: Printer, cpu: int): Printer {
    if q.open.None? then q.(open := Some(Run(cpu, cpu)))
    else if q.open.value.last + 1 == cpu then q.(open := Some(Run(q.open.value.first, cpu)))
    else Printer(Flush(q), Some(Run(cpu, cpu)))
  }

  function PrinterAt(p: set<int>, n: nat): Printer {
    if n == 0 then Printer("", None)
    else if n - 1 in p then NextPrinter(PrinterAt(p, n - 1), n - 1)
    else PrinterAt(p, n - 1)
  }

  lemma {:induction false} PrintedGrows(p: set<int>, m: nat, n: nat)
    requires m <= n
    ensures |PrinterAt(p, m).text| <= |PrinterAt(p, n).text|
  {
    if m < n { PrintedGrows(p, m, n - 1); }
  }

  /** The printer's state as a function of the runs seen so far: all but the last are printed. */
  function PrinterOf(runs: seq<Run>): Printer {
    if runs == [] then Printer("", None)
    else Printer(Render(runs[..|runs| - 1]), Some(runs[|runs| - 1]))
  }

  lemma FlushIsRender(runs: seq<Run>)
    ensures Flush(PrinterOf(runs)) == Render(runs)
  {
    if |runs| == 1 {
      assert runs[..0] == [];
    }
  }

  lemma PrinterOfAddCore(runs: seq<Run>, x: int)
    ensures PrinterOf(AddCore(runs, x)) == NextPrinter(PrinterOf(runs), x)
  {
    FlushIsRender(runs);
    if runs != [] && runs[|runs| - 1].last + 1 == x {
      var init := runs[..|runs| - 1];
      assert (init + [Run(runs[|runs| - 1].first, x)])[..|init|] == init;
    } else {
      assert (runs + [Run(x, x)])[..|runs|] == runs;
    }
  }

  lemma {:induction false} PrinterAtIsPrinterOf(p: set<int>, n: nat)
    ensures PrinterAt(p, n) == PrinterOf(RunsOf(p, n))
  {
    if n == 0 {
    } else {
      PrinterAtIsPrinterOf(p, n - 1);
      var before := RunsOf(p, n - 1);
      if n - 1 in p { PrinterOfAddCore(before, n - 1); }
    }
  }

  /** The loop variables first and last; -1 when there is no run yet. */
  function OpenRun(first: int, last: int): Option<Run> {
    if first == -1 then None else Some(Run(first, last))
  }

  /** The loop body for a core to park; it fails when the run before it does not fit. */
  method PrintCore(buf: array<char>, pos: nat, first: int, last: int, cpu: nat)
    returns (ok: bool, pos': nat, first': int, last': int)
    requires pos < buf.Length
    modifies buf
    ensures var next := NextPrinter(Printer(old(buf[..pos]), OpenRun(first, last)), cpu);
            && (ok <==> |next.text| < buf.Length)
            && (ok ==> pos' < buf.Length && Printer(buf[..pos'], OpenRun(first', last')) == next)
    ensures first == -1 ==> buf[..] == old(buf[..])
    ensures first' != -1
  {
    pos', first', last' := pos, first, last;
    if first == -1 {
      return true, pos, cpu, cpu;
    } else if last + 1 == cpu {
      return true, pos, first, cpu;
    }
    ok, pos' := LogState(buf, pos, first, last);
    first', last' := cpu, cpu;
  }

  /**
   The loop that game_mode_park_cpu and game_mode_unpark_cpu share. `run` is false when one
   of the checked log_state calls failed, so that the helper is not started. The result of
   the last log_state call is not checked: the helper is then given a cut-off text.
   */
  method PrintCores(info: CpuInfo, buf: array<char>) returns (run: bool)
    requires buf.Length > 0
    modifies buf
    ensures run <==> |Render(Front(Targets(info)))| < buf.Length
    ensures run && Targets(info) != [] ==> Holds(buf, Take(Render(Targets(info)), buf.Length - 1))
    ensures Targets(info) == [] ==> buf[..] == old(buf[..])
  {
    var first, last := -1, -1;
    var pos: nat := 0;
    ghost var p := info.online - info.toKeep;
    for cpu := 0 to info.numCpu
      invariant pos < buf.Length
      invariant PrinterAt(p, cpu) == Printer(buf[..pos], OpenRun(first, last))
      invariant first == -1 ==> buf[..] == old(buf[..])
    {
      if cpu in info.online && cpu !in info.toKeep {
        var ok;
        ok, pos, first, last := PrintCore(buf, pos, first, last, cpu);
        if !ok {
          PrintedGrows(p, cpu + 1, info.numCpu);
          PrinterAtEnd(info);
          return false;
        }
      }
    }
    PrinterAtEnd(info);
    if first != -1 {
      var _, _ := LogState(buf, pos, first, last);
    }
    return true;
  }

  /** After the last core all runs but the last are printed. */
  lemma PrinterAtEnd(info: CpuInfo)
    ensures var q := PrinterAt(info.online - info.toKeep, info.numCpu);
            && q.text == Render(Front(Targets(info)))
            && (q.open.None? <==> Targets(info) == [])
            && Flush(q) == Render(Targets(info))
  {
    PrinterAtIsPrinterOf(info.online - info.toKeep, info.numCpu);
    FlushIsRender(Targets(info));
  }

  // ---------------------------------------------------------------- park and unpark

  /**
   How one start of the core helper turns out: the cores whose state it cannot write (all of
   them when it does not start or is killed first), and what the argument buffer, which is
   never cleared, reads as when nothing is printed into it.
   */
  datatype CoreHelper = CoreHelper(refused: set<int>, unset: string)

  /** The C string at the start of a buffer. */
  function CText(s: seq<char>): string {
    if s == [] || s[0] == '\0' then [] else [s[0]] + CText(s[1..])
  }

  /** What is in the argument buffer before anything is printed. */
  function UnsetBuffer(unset: string): (r: seq<char>)
    ensures |r| == ARG_MAX
  {
    seq(ARG_MAX, i => if 0 <= i < |unset| then unset[i] else '\0')
  }

  /** The argument the helper is started with; None when printing failed and it is not started. */
  function HelperText(info: CpuInfo, unset: string): Option<string> {
    if |Render(Front(Targets(info)))| >= ARG_MAX then None
    else if Targets(info) == [] then Some(CText(UnsetBuffer(unset)))
    else Some(Take(Render(Targets(info)), ARG_MAX - 1))
  }

  /** The cores online after park_cpu (`up` false) or unpark_cpu (`up` true). */
  function AfterHelper(online: set<int>, info: CpuInfo, up: bool, helper: CoreHelper): set<int> {
    match HelperText(info, helper.unset)
    case None => online
    case Some(text) => AfterWrites(online, ParsedCores(text), up, helper.refused)
  }

  lemma {:induction false} CTextOfHeld(s: seq<char>, n: nat)
    requires n < |s| && s[n] == '\0' && '\0' !in s[..n]
    ensures CText(s) == s[..n]
  {
    if n == 0 {
    } else {
      assert s[0] in s[..n];
      assert s[1..][..n - 1] == s[..n][1..];
      CTextOfHeld(s[1..], n - 1);
    }
  }

  lemma {:induction false} RenderHasNoNul(runs: seq<Run>)
    ensures '\0' !in Render(runs)
  {
    if runs == [] {
    } else {
      RenderHasNoNul(runs[..|runs| - 1]);
    }
  }

  /** game_mode_park_cpu (`up` false) and game_mode_unpark_cpu (`up` true) */
  method ParkOrUnpark(machine: Computer, cpu: Option<CpuInfo>, up: bool, helper: CoreHelper)
    modifies machine`online
    ensures machine.online == if cpu.None? || cpu.value.pin then old(machine.online)
                              else AfterHelper(old(machine.online), cpu.value, up, helper)
  {
    if cpu.None? || cpu.value.pin { return; }
    var unset := helper.unset;
    var buf := new char[ARG_MAX](i => if 0 <= i < |unset| then unset[i] else '\0');
    assert buf[..] == UnsetBuffer(unset);
    var run := PrintCores(cpu.value, buf);
    if !run { return; }
    var cpulist := CText(buf[..]);
    if Targets(cpu.value) != [] {
      ghost var text := Take(Render(Targets(cpu.value)), ARG_MAX - 1);
      RenderHasNoNul(Targets(cpu.value));
      CTextOfHeld(buf[..], |text|);
      assert buf[..][..|text|] == text;
    }
    var _ := SetState(machine, cpulist, if up then '1' else '0', helper.refused);
  }

  /** With at most 21845 cores the text always fits, so the helper is told exactly the targets. */
  lemma HelperTextFits(info: CpuInfo)
    requires Targets(info) != [] && 6 * info.numCpu <= ARG_MAX
    ensures forall unset :: HelperText(info, unset) == Some(Render(Targets(info)))
    ensures ParsedCores(Render(Targets(info))) == Ascending(info.online - info.toKeep, info.numCpu)
  {
    var p := info.online - info.toKeep;
    RoundTrip(p, info.numCpu);
    CoresOfRunsOf(p, info.numCpu);
    AscendingMembers(p, info.numCpu);
    assert Pow10(5) == 100000 by { assert Pow10(3) == 1000; }
    RenderLength(Targets(info), 5);
    SplitLast(Targets(info));
    if |Targets(info)| > 1 { RenderAppend(Front(Targets(info)), Targets(info)[|Targets(info)| - 1]); }
  }

  /** So the helper writes the state of every target, in increasing order. */
  lemma HelperWritesTargets(online: set<int>, info: CpuInfo, up: bool, helper: CoreHelper)
    requires Targets(info) != [] && 6 * info.numCpu <= ARG_MAX
    ensures AfterHelper(online, info, up, helper) ==
            AfterWrites(online, Ascending(info.online - info.toKeep, info.numCpu), up, helper.refused)
  {
    HelperTextFits(info);
  }
}
