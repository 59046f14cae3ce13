/**
 The integrated-GPU heuristic: RAPL energy counters are cut to 32 bits and compared by
 differences, so the counters may wrap between two samples.
 */
module Energy {
  import opened Common
  import opened Governor

  const U32: nat := 0x1_0000_0000

  /** What get_energy_uj stores of a counter. */
  function Truncate(counter: nat): nat {
    counter % U32
  }

  /** The uint32_t difference of two stored samples. */
  function Delta(now: nat, last: nat): nat
    requires now < U32 && last < U32
  {
    (now - last) % U32
  }

  /** The difference is the true increase exactly when that is below 2^32, across any wrap. */
  lemma DeltaExactIff(before: nat, after: nat)
    requires before <= after
    ensures Delta(Truncate(after), Truncate(before)) == (after - before) % U32 <= after - before
    ensures Delta(Truncate(after), Truncate(before)) == after - before <==> after - before < U32
  {
    var a, b := after / U32, before / U32;
    var r, q := after % U32, before % U32;
    var d := (after - before) % U32;
    var e := (after - before) / U32;
    assert r - q == d + (e - a + b) * U32;
  }

  predicate Increasing(counters: seq<nat>) {
    forall i :: 0 <= i < |counters| - 1 ==> counters[i] <= counters[i + 1]
  }

  /** The sum of the differences between successive stored samples. */
  function SumOfDeltas(counters: seq<nat>): nat {
    if |counters| < 2 then 0
    else
      SumOfDeltas(counters[..|counters| - 1])
      + Delta(Truncate(counters[|counters| - 1]), Truncate(counters[|counters| - 2]))
  }

  lemma SumOneMore(counters: seq<nat>, next: nat)
    requires counters != []
    ensures SumOfDeltas(counters + [next]) ==
            SumOfDeltas(counters) + Delta(Truncate(next), Truncate(counters[|counters| - 1]))
  {
    assert (counters + [next])[..|counters|] == counters;
  }

  /**
   Over a whole run of samples the differences add up to the total increase exactly when
   no two successive samples are 2^32 or more apart; otherwise they add up to less.
   */
  lemma {:induction false} DeltasTelescopeIff(counters: seq<nat>)
    requires counters != [] && Increasing(counters)
    ensures counters[0] <= counters[|counters| - 1]
    ensures SumOfDeltas(counters) <= counters[|counters| - 1] - counters[0]
    ensures SumOfDeltas(counters) == counters[|counters| - 1] - counters[0] <==>
            forall i :: 0 <= i < |counters| - 1 ==> counters[i + 1] - counters[i] < U32
  {
    if |counters| == 1 {
    } else {
      var init, n := counters[..|counters| - 1], |counters|;
      DeltasTelescopeIff(init);
      DeltaExactIff(counters[n - 2], counters[n - 1]);
      assert forall i :: 0 <= i < n - 2 ==> init[i + 1] - init[i] == counters[i + 1] - counters[i];
    }
  }

  /**
   game_mode_check_igpu_energy once both counters are read: no choice when the cpu used no
   energy, else the iGPU governor when the iGPU's share exceeds the threshold.
   */
  function Choice(cpuDelta: nat, igpuDelta: nat, threshold: real): Option<Level> {
    if cpuDelta == 0 then None
    else if igpuDelta as real / cpuDelta as real > threshold then Some(IgpuDesired)
    else Some(Desired)
  }

  /** Without division: the iGPU is favoured exactly when it used more than the threshold's share of the cpu's. */
  lemma ChoiceIff(cpuDelta: nat, igpuDelta: nat, threshold: real)
    ensures Choice(cpuDelta, igpuDelta, threshold) == Some(IgpuDesired) <==>
            cpuDelta > 0 && igpuDelta as real > threshold * cpuDelta as real
    ensures Choice(cpuDelta, igpuDelta, threshold) == Some(Desired) <==>
            cpuDelta > 0 && igpuDelta as real <= threshold * cpuDelta as real
    ensures Choice(cpuDelta, igpuDelta, threshold) == None <==> cpuDelta == 0
  {
    if cpuDelta > 0 {
      var cpu, igpu := cpuDelta as real, igpuDelta as real;
      assert igpu == (igpu / cpu) * cpu;
      if igpu / cpu > threshold { Scaled(igpu / cpu, threshold, cpu); } else { ScaledBack(igpu / cpu, threshold, cpu); }
    }
  }

  lemma Scaled(a: real, b: real, c: real)
    requires a > b && c > 0.0
    ensures a * c > b * c
  {
  }

  lemma ScaledBack(a: real, b: real, c: real)
    requires a <= b && c > 0.0
    ensures a * c <= b * c
  {
  }

  /** The choice is the one the untruncated counters call for, wherever they wrapped. */
  lemma ChoiceFromTrueCounters(cpu0: nat, cpu1: nat, igpu0: nat, igpu1: nat, threshold: real)
    requires cpu0 <= cpu1 < cpu0 + U32 && igpu0 <= igpu1 < igpu0 + U32
    ensures Choice(Delta(Truncate(cpu1), Truncate(cpu0)), Delta(Truncate(igpu1), Truncate(igpu0)), threshold)
         == Choice(cpu1 - cpu0, igpu1 - igpu0, threshold)
  {
    DeltaExactIff(cpu0, cpu1);
    DeltaExactIff(igpu0, igpu1);
  }
}
