/** The root helper util/cpucorectl.c: writes the state of every core in a text, core by core. */
module CpuCoreCtl {
  import opened Common
  import opened CpuList
  import opened Machine

  /** What writing core states one after the other ends in. */
  datatype Written = Written(online: set<int>, stopped: bool)

  /**
   Writes the state of `cores` one after the other. A refused write of core 0 is skipped;
   parking stops at any other refused core, unparking carries on.
   */
  function WriteAll(online: set<int>, cores: seq<int>, up: bool, refused: set<int>): Written
    decreases |cores|
  {
    if cores == [] then Written(online, false)
    else if cores[0] in refused then
      if cores[0] != 0 && !up then Written(online, true) else WriteAll(online, cores[1..], up, refused)
    else WriteAll(if up then online + {cores[0]} else online - {cores[0]}, cores[1..], up, refused)
  }

  /** The cores online at the end. */
  function AfterWrites(online: set<int>, cores: seq<int>, up: bool, refused: set<int>): set<int> {
    WriteAll(online, cores, up, refused).online
  }

  /** Writing one list and then, unless that stopped, another. */
  lemma {:induction false} WriteAllAppend(online: set<int>, a: seq<int>, b: seq<int>, up: bool, refused: set<int>)
    ensures var w := WriteAll(online, a, up, refused);
            WriteAll(online, a + b, up, refused) == if w.stopped then w else WriteAll(w.online, b, up, refused)
    decreases |a|
  {
    if a == [] {
      assert a + b == b;
    } else {
      assert (a + b)[1..] == a[1..] + b;
      var next := if a[0] in refused then online else if up then online + {a[0]} else online - {a[0]};
      WriteAllAppend(next, a[1..], b, up, refused);
    }
  }

  lemma WriteOneMore(online: set<int>, lo: int, cpu: int, up: bool, refused: set<int>)
    requires lo <= cpu
    requires !WriteAll(online, Span(lo, cpu), up, refused).stopped
    ensures var w := WriteAll(online, Span(lo, cpu), up, refused).online;
            WriteAll(online, Span(lo, cpu + 1), up, refused) ==
            if cpu !in refused then Written(if up then w + {cpu} else w - {cpu}, false)
            else Written(w, cpu != 0 && !up)
  {
    WriteAllAppend(online, Span(lo, cpu), [cpu], up, refused);
  }

  /** The inner loop of set_state, over one parsed run. */
  method WriteRun(machine: Computer, from: int, to: int, state: char, refused: set<int>) returns (stopped: bool)
    requires from <= to
    requires state == '0' || state == '1'
    modifies machine`online
    ensures Written(machine.online, stopped) == WriteAll(old(machine.online), Span(from, to + 1), state == '1', refused)
  {
    ghost var start, up := machine.online, state == '1';
    for cpu := from to to + 1
      invariant Written(machine.online, false) == WriteAll(start, Span(from, cpu), up, refused)
    {
      WriteOneMore(start, from, cpu, up, refused);
      StopsForGood(start, from, cpu + 1, to + 1, up, refused);
      if cpu in refused {
        if cpu != 0 {
          if state == '0' { return true; }
        }
      } else {
        machine.online := if state == '1' then machine.online + {cpu} else machine.online - {cpu};
      }
    }
    return false;
  }

  lemma {:induction false} StopsForGood(online: set<int>, lo: int, mid: int, hi: int, up: bool, refused: set<int>)
    requires lo <= mid <= hi
    ensures var w := WriteAll(online, Span(lo, mid), up, refused);
            w.stopped ==> WriteAll(online, Span(lo, hi), up, refused) == w
    decreases hi - mid
  {
    if mid < hi {
      StopsForGood(online, lo, mid, hi - 1, up, refused);
      WriteAllAppend(online, Span(lo, hi - 1), [hi - 1], up, refused);
    }
  }

  /** set_state: `refused` are the cores whose online file cannot be written. */
  method SetState(machine: Computer, cpulist: string, state: char, refused: set<int>) returns (ret: int)
    requires state == '0' || state == '1'
    modifies machine`online
    ensures Written(machine.online, ret == -1) ==
            WriteAll(old(machine.online), ParsedCores(cpulist), state == '1', refused)
    ensures ret == -1 || ret == 1
  {
    var list := cpulist;
    ghost var up := state == '1';
    ghost var goal := WriteAll(machine.online, ParsedCores(list), up, refused);
    var parsed := ParseCpulist(list);
    while parsed.Some?
      invariant parsed == ParseCpulist(list)
      invariant WriteAll(machine.online, ParsedCores(list), up, refused) == goal
      decreases |list|
    {
      var Parsed(run, rest) := parsed.value;
      ParsedCoresStep(list);
      CoresOfOne(run);
      WriteAllAppend(machine.online, CoresOf([run]), ParsedCores(rest), up, refused);
      var stopped := WriteRun(machine, run.first, run.last, state, refused);
      if stopped { return -1; }
      list := rest;
      parsed := ParseCpulist(list);
    }
    ret := 1;
  }

  /** Unparking puts every listed core online except the refused ones. */
  lemma {:induction false} UnparkedCores(online: set<int>, cores: seq<int>, refused: set<int>)
    ensures forall c :: c in WriteAll(online, cores, true, refused).online
                        <==> c in online || (c in cores && c !in refused)
    decreases |cores|
  {
    if cores == [] {
    } else {
      UnparkedCores(if cores[0] in refused then online else online + {cores[0]}, cores[1..], refused);
    }
  }

  /** Parking takes only listed, unrefused cores offline, and all of them unless it stops. */
  lemma {:induction false} ParkedCores(online: set<int>, cores: seq<int>, refused: set<int>)
    ensures forall c :: c in WriteAll(online, cores, false, refused).online ==> c in online
    ensures forall c :: c in online && (c !in cores || c in refused) ==>
            c in WriteAll(online, cores, false, refused).online
    ensures WriteAll(online, cores, false, refused).stopped <==> exists c :: c in cores && c in refused && c != 0
    ensures !WriteAll(online, cores, false, refused).stopped ==>
              forall c :: c in cores && c !in refused ==> c !in WriteAll(online, cores, false, refused).online
    decreases |cores|
  {
    if cores == [] {
    } else {
      ParkedCores(if cores[0] in refused then online else online - {cores[0]}, cores[1..], refused);
    }
  }

  /** A write of core c is got to when no core before it, except 0, is refused. */
  predicate GotTo(c: int, cores: seq<int>, refused: set<int>) {
    forall d :: d in cores && 0 < d < c ==> d !in refused
  }

  /** Parking an ascending list takes offline exactly the cores that are got to and not refused. */
  lemma {:induction false} ParkedExactly(online: set<int>, cores: seq<int>, refused: set<int>)
    requires forall i, j :: 0 <= i < j < |cores| ==> cores[i] < cores[j]
    requires forall c :: c in cores ==> c >= 0
    ensures forall c :: c in AfterWrites(online, cores, false, refused) <==>
                        c in online && !(c in cores && c !in refused && GotTo(c, cores, refused))
    decreases |cores|
  {
    if cores == [] {
    } else {
      var first, rest := cores[0], cores[1..];
      assert cores == [first] + rest;
      assert forall c :: c in cores <==> c == first || c in rest;
      assert first in cores && forall c :: c in rest ==> first < c;
      forall c ensures GotTo(c, cores, refused) <==> GotTo(c, rest, refused) && !(0 < first < c && first in refused) {
        GotToRest(c, first, rest, refused);
      }
      if !(first in refused && first != 0) {
        ParkedExactly(if first in refused then online else online - {first}, rest, refused);
      }
    }
  }

  lemma GotToRest(c: int, first: int, rest: seq<int>, refused: set<int>)
    ensures GotTo(c, [first] + rest, refused) <==> GotTo(c, rest, refused) && !(0 < first < c && first in refused)
  {
    assert forall d :: d in [first] + rest <==> d == first || d in rest;
  }
}
