/**
 Choosing the cores that stay in use: from a list in the configuration, or from what sysfs
 says about P-cores, L3 cache sizes and maximum frequencies.
 */
module CpuSelect {
  import opened Common
  import opened CpuList
  import opened CpuPark

  // ---------------------------------------------------------------- cpu_set_t

  /** The bits in a cpu_set_t of CPU_ALLOC_SIZE(n) bytes; CPU_SET_S ignores any other bit. */
  function Bits(n: nat): nat {
    (n + 63) / 64 * 64
  }

  predicate InBits(c: int, n: nat) {
    0 <= c < Bits(n)
  }

  /** The members of `s` that a cpu_set_t for n cpus can hold. */
  function Fit(s: set<int>, n: nat): (r: set<int>)
    ensures forall c :: c in r <==> c in s && InBits(c, n)
  {
    set c | c in s && InBits(c, n)
  }

  // ---------------------------------------------------------------- walking a list

  /** The cores a text names. */
  function CoreSet(cpulist: string): set<int> {
    set c | c in ParsedCores(cpulist)
  }

  function RunSet(r: Run): (s: set<int>)
    ensures forall c :: c in s <==> r.first <= c <= r.last
  {
    set c {:trigger Member(c, r)} | r.first <= c <= r.last && Member(c, r)
  }

  predicate Member(c: int, r: Run) {
    r.first <= c <= r.last
  }

  lemma CoreSetStep(list: string)
    ensures ParseCpulist(list).Some? ==>
              CoreSet(list) == RunSet(ParseCpulist(list).value.run) + CoreSet(ParseCpulist(list).value.rest)
    ensures ParseCpulist(list).None? ==> CoreSet(list) == {}
  {
    ParsedCoresStep(list);
    if ParseCpulist(list).Some? {
      var run := ParseCpulist(list).value.run;
      CoresOfOne(run);
      SpanMembers(run.first, run.last + 1);
    } else {
      assert ParsedCores(list) == [];
    }
  }

  lemma {:induction false} SpanMembers(lo: int, hi: int)
    ensures forall c :: c in Span(lo, hi) <==> lo <= c < hi
    decreases hi - lo
  {
    if lo < hi { SpanMembers(lo, hi - 1); }
  }

  /** The inner loop of set_online_from_list, check_pe_cores and walk_string, over one parsed run. */
  method AddRun(run: Run, n: nat, start: set<int>) returns (s: set<int>)
    requires run.first <= run.last
    ensures s == start + Fit(RunSet(run), n)
  {
    s := start;
    for cpu := run.first to run.last + 1
      invariant cpu > run.first ==> s == start + Fit(RunSet(Run(run.first, cpu - 1)), n)
      invariant cpu == run.first ==> s == start
    {
      if InBits(cpu, n) { s := s + {cpu}; }
    }
  }

  /** The loop of set_online_from_list, check_pe_cores and walk_string: adds every listed core. */
  method AddListed(cpulist: string, n: nat, start: set<int>) returns (s: set<int>)
    ensures s == start + Fit(CoreSet(cpulist), n)
  {
    s := start;
    var list := cpulist;
    var parsed := ParseCpulist(list);
    while parsed.Some?
      invariant parsed == ParseCpulist(list)
      invariant s + Fit(CoreSet(list), n) == start + Fit(CoreSet(cpulist), n)
      decreases |list|
    {
      var Parsed(run, rest) := parsed.value;
      CoreSetStep(list);
      assert Fit(CoreSet(list), n) == Fit(RunSet(run), n) + Fit(CoreSet(rest), n);
      s := AddRun(run, n, s);
      list := rest;
      parsed := ParseCpulist(list);
    }
    CoreSetStep(list);
  }

  /** What naming the cores `named` in the configuration makes of a set of cores. */
  function Mark(s: set<int>, named: set<int>, pin: bool): set<int> {
    if pin then s + named else s - named
  }

  /** The inner loop of walk_string, over one parsed run: only online cores count. */
  method ApplyRun(run: Run, pin: bool, online: set<int>, start: set<int>) returns (s: set<int>)
    requires run.first <= run.last
    ensures s == Mark(start, online * RunSet(run), pin)
  {
    s := start;
    for cpu := run.first to run.last + 1
      invariant cpu > run.first ==> s == Mark(start, online * RunSet(Run(run.first, cpu - 1)), pin)
      invariant cpu == run.first ==> s == start
    {
      if cpu in online { s := if pin then s + {cpu} else s - {cpu}; }
    }
  }

  /** The second loop of walk_string: cores named by the configuration, if they are online. */
  method ApplyListed(cpulist: string, pin: bool, online: set<int>, start: set<int>) returns (s: set<int>)
    ensures s == Mark(start, online * CoreSet(cpulist), pin)
  {
    s := start;
    var list := cpulist;
    var parsed := ParseCpulist(list);
    while parsed.Some?
      invariant parsed == ParseCpulist(list)
      invariant Mark(s, online * CoreSet(list), pin) == Mark(start, online * CoreSet(cpulist), pin)
      decreases |list|
    {
      var Parsed(run, rest) := parsed.value;
      CoreSetStep(list);
      MarkTwice(s, online, RunSet(run), CoreSet(rest), pin);
      s := ApplyRun(run, pin, online, s);
      list := rest;
      parsed := ParseCpulist(list);
    }
    CoreSetStep(list);
  }

  lemma MarkTwice(s: set<int>, online: set<int>, a: set<int>, b: set<int>, pin: bool)
    ensures Mark(Mark(s, online * a, pin), online * b, pin) == Mark(s, online * (a + b), pin)
  {
  }

  /** walk_string */
  method WalkString(cpulist: string, configList: string, pin: bool, n: nat) returns (online: set<int>, toKeep: set<int>)
    ensures online == Fit(CoreSet(cpulist), n)
    ensures toKeep == if pin then online * CoreSet(configList) else online - CoreSet(configList)
  {
    online := AddListed(cpulist, n, {});
    toKeep := ApplyListed(configList, pin, online, if pin then {} else online);
  }

  // ---------------------------------------------------------------- the L3 cache filter

  const ULL_RANGE: nat := 0x1_0000_0000_0000_0000

  /** A cache/index3/size file: the number strtoull reads and the text after it. */
  datatype CacheFile = CacheFile(number: nat, suffix: string)

  /** The size in bytes, computed in 64 bits; a size with an unknown suffix counts as 0. */
  function CacheSize(f: CacheFile): nat {
    if f.suffix == "" then f.number
    else if f.suffix[0] == 'K' then f.number * 1024 % ULL_RANGE
    else if f.suffix[0] == 'M' then f.number * 1024 * 1024 % ULL_RANGE
    else if f.suffix[0] == 'G' then f.number * 1024 * 1024 * 1024 % ULL_RANGE
    else 0
  }

  /** The cache pass so far. */
  datatype CachePass = CachePass(maxCache: nat, cores: set<int>)

  function CacheStep(s: CachePass, cpu: int, size: nat, n: nat): CachePass {
    var top := if size > s.maxCache then size else s.maxCache;
    var cores := if size > s.maxCache then {} else s.cores;
    CachePass(top, if size == top && InBits(cpu, n) then cores + {cpu} else cores)
  }

  /** 1024 of one unit are one of the next, also when the size wraps; no suffix is bytes. */
  lemma CacheUnits(n: nat, k: string, m: string, g: string, other: string)
    requires k != "" && k[0] == 'K' && m != "" && m[0] == 'M' && g != "" && g[0] == 'G'
    requires other != "" && other[0] != 'K' && other[0] != 'M' && other[0] != 'G'
    ensures CacheSize(CacheFile(n, m)) == CacheSize(CacheFile(1024 * n, k))
    ensures CacheSize(CacheFile(n, g)) == CacheSize(CacheFile(1024 * n, m))
    ensures n * 1024 < ULL_RANGE ==> CacheSize(CacheFile(n, k)) == CacheSize(CacheFile(1024 * n, "")) == 1024 * n
    ensures CacheSize(CacheFile(n, other)) == 0
  {
  }

  // ---------------------------------------------------------------- the frequency filter

  /** (freq * 10) / 100 in 64 bits */
  function Cutoff(freq: nat): nat {
    freq * 10 % ULL_RANGE / 100
  }

  /** The frequency pass so far. */
  datatype FreqPass = FreqPass(maxFreq: nat, cores: set<int>)

  function FreqStep(s: FreqPass, cpu: int, freq: nat, n: nat): FreqPass {
    var reset := freq > s.maxFreq && s.maxFreq < freq - Cutoff(freq);
    var top := if freq > s.maxFreq then freq else s.maxFreq;
    var cores := if reset then {} else s.cores;
    FreqPass(top, if (freq + Cutoff(freq)) % ULL_RANGE >= top && InBits(cpu, n) then cores + {cpu} else cores)
  }

  // ---------------------------------------------------------------- both in one pass

  /** What sysfs says: the readable cache size files and maximum frequencies, by core. */
  datatype Sysfs = Sysfs(cache: map<int, CacheFile>, freqs: map<int, nat>)

  datatype Pass = Pass(cache: CachePass, freq: FreqPass)

  function Step(s: Pass, cpu: int, sys: Sysfs, n: nat): Pass {
    Pass(if cpu in sys.cache then CacheStep(s.cache, cpu, CacheSize(sys.cache[cpu]), n) else s.cache,
         if cpu in sys.freqs then FreqStep(s.freq, cpu, sys.freqs[cpu], n) else s.freq)
  }

  function Steps(s: Pass, cores: seq<int>, sys: Sysfs, n: nat): Pass {
    if cores == [] then s
    else Step(Steps(s, cores[..|cores| - 1], sys, n), cores[|cores| - 1], sys, n)
  }

  lemma {:induction false} StepsAppend(s: Pass, a: seq<int>, b: seq<int>, sys: Sysfs, n: nat)
    ensures Steps(s, a + b, sys, n) == Steps(Steps(s, a, sys, n), b, sys, n)
  {
    if b == [] {
      assert a + b == a;
    } else {
      assert (a + b)[..|a + b| - 1] == a + b[..|b| - 1];
      StepsAppend(s, a, b[..|b| - 1], sys, n);
    }
  }

  /** The L3 cache check of one core. */
  method CheckCache(cpu: int, size: nat, n: nat, maxBefore: nat, before: set<int>)
    returns (maxCache: nat, toKeep: set<int>)
    ensures CachePass(maxCache, toKeep) == CacheStep(CachePass(maxBefore, before), cpu, size, n)
  {
    maxCache, toKeep := maxBefore, before;
    if size > maxCache {
      maxCache := size;
      toKeep := {};
    }
    if size == maxCache && InBits(cpu, n) { toKeep := toKeep + {cpu}; }
  }

  /** The frequency check of one core. */
  method CheckFreq(cpu: int, freq: nat, n: nat, maxBefore: nat, before: set<int>)
    returns (maxFreq: nat, freqCores: set<int>)
    ensures FreqPass(maxFreq, freqCores) == FreqStep(FreqPass(maxBefore, before), cpu, freq, n)
  {
    maxFreq, freqCores := maxBefore, before;
    var cutoff := Cutoff(freq);
    if freq > maxFreq {
      if maxFreq < freq - cutoff { freqCores := {}; }
      maxFreq := freq;
    }
    if (freq + cutoff) % ULL_RANGE >= maxFreq && InBits(cpu, n) { freqCores := freqCores + {cpu}; }
  }

  /** The inner loop of walk_sysfs, over one parsed run. */
  method WalkSysfsRun(from: int, to: int, start: Pass, sys: Sysfs, n: nat)
    returns (maxCache: nat, toKeep: set<int>, maxFreq: nat, freqCores: set<int>)
    requires from <= to
    ensures Pass(CachePass(maxCache, toKeep), FreqPass(maxFreq, freqCores)) == Steps(start, Span(from, to + 1), sys, n)
  {
    maxCache, toKeep := start.cache.maxCache, start.cache.cores;
    maxFreq, freqCores := start.freq.maxFreq, start.freq.cores;
    for cpu := from to to + 1
      invariant Pass(CachePass(maxCache, toKeep), FreqPass(maxFreq, freqCores)) == Steps(start, Span(from, cpu), sys, n)
    {
      StepsOne(start, from, cpu, sys, n);
      if cpu in sys.cache {
        maxCache, toKeep := CheckCache(cpu, CacheSize(sys.cache[cpu]), n, maxCache, toKeep);
      }
      if cpu in sys.freqs {
        maxFreq, freqCores := CheckFreq(cpu, sys.freqs[cpu], n, maxFreq, freqCores);
      }
    }
  }

  lemma StepsOne(s: Pass, from: int, cpu: int, sys: Sysfs, n: nat)
    requires from <= cpu
    ensures Steps(s, Span(from, cpu + 1), sys, n) == Step(Steps(s, Span(from, cpu), sys, n), cpu, sys, n)
  {
    assert Span(from, cpu + 1)[..cpu - from] == Span(from, cpu);
  }

  /** The cores left by the cache pass, or if those are none or all, by the frequency pass. */
  function SysfsKeeps(cpulist: string, online: set<int>, garbage: set<int>, sys: Sysfs, n: nat): set<int> {
    var pass := Steps(Pass(CachePass(0, {}), FreqPass(0, garbage)), ParsedCores(cpulist), sys, n);
    if pass.cache.cores == online || pass.cache.cores == {} then pass.freq.cores else pass.cache.cores
  }

  /**
   walk_sysfs: the cache filter decides unless it keeps nothing or everything. `garbage` is
   what the allocation left in freq_cores, which is never cleared before the pass.
   */
  method WalkSysfs(cpulist: string, online: set<int>, garbage: set<int>, sys: Sysfs, n: nat) returns (toKeep: set<int>)
    ensures toKeep == SysfsKeeps(cpulist, online, garbage, sys, n)
  {
    toKeep := {};
    var freqCores := garbage;
    var maxCache: nat, maxFreq: nat := 0, 0;
    ghost var goal := Steps(Pass(CachePass(0, {}), FreqPass(0, garbage)), ParsedCores(cpulist), sys, n);
    var list := cpulist;
    var parsed := ParseCpulist(list);
    while parsed.Some?
      invariant parsed == ParseCpulist(list)
      invariant goal ==
                Steps(Pass(CachePass(maxCache, toKeep), FreqPass(maxFreq, freqCores)), ParsedCores(list), sys, n)
      decreases |list|
    {
      var Parsed(run, rest) := parsed.value;
      var now := Pass(CachePass(maxCache, toKeep), FreqPass(maxFreq, freqCores));
      ParsedCoresStep(list);
      CoresOfOne(run);
      StepsAppend(now, CoresOf([run]), ParsedCores(rest), sys, n);
      maxCache, toKeep, maxFreq, freqCores := WalkSysfsRun(run.first, run.last, now, sys, n);
      list := rest;
      parsed := ParseCpulist(list);
    }
    if online == toKeep || toKeep == {} {
      toKeep := freqCores;
    }
  }

  // ---------------------------------------------------------------- what the filters keep

  /** The cache pass keeps exactly the readable cores whose cache is the largest. */
  lemma {:induction false} CacheKeepsLargest(start: Pass, cores: seq<int>, sys: Sysfs, n: nat)
    requires start.cache == CachePass(0, {})
    ensures var s := Steps(start, cores, sys, n).cache;
            && (forall c :: c in cores && c in sys.cache ==> CacheSize(sys.cache[c]) <= s.maxCache)
            && (s.maxCache > 0 ==> exists c :: c in cores && c in sys.cache && CacheSize(sys.cache[c]) == s.maxCache)
            && (forall c :: c in s.cores <==>
                            c in cores && InBits(c, n) && c in sys.cache && CacheSize(sys.cache[c]) == s.maxCache)
  {
    if cores == [] {
    } else {
      CacheKeepsLargest(start, cores[..|cores| - 1], sys, n);
      SplitLast(cores);
    }
  }

  /** A reading that the 64-bit cutoff arithmetic handles without wrapping. */
  predicate NoWrap(freq: nat) {
    freq * 10 < ULL_RANGE
  }

  /** `a` is within a tenth of `b`, the way the pass compares an old maximum with a new one. */
  predicate Near(a: nat, b: nat) {
    a >= b - b / 10
  }

  /** A chain of readings from `a` to `top`, each near the next. */
  ghost predicate IsChain(chain: seq<nat>, a: nat, top: nat, readings: set<nat>) {
    && chain != [] && chain[0] == a && chain[|chain| - 1] == top
    && (forall v :: v in chain ==> v in readings)
    && (forall i :: 0 <= i < |chain| - 1 ==> Near(chain[i], chain[i + 1]))
  }

  ghost predicate Linked(a: nat, top: nat, readings: set<nat>) {
    exists chain :: IsChain(chain, a, top, readings)
  }

  function Readings(cores: seq<int>, freqs: map<int, nat>): (r: set<nat>)
    ensures forall c :: c in cores && c in freqs ==> freqs[c] in r
  {
    set c | c in cores && c in freqs :: freqs[c]
  }

  lemma LinkedExtend(a: nat, top: nat, next: nat, readings: set<nat>, more: set<nat>)
    requires Linked(a, top, readings) && Near(top, next)
    requires readings <= more && next in more
    ensures Linked(a, next, more)
  {
    var chain :| IsChain(chain, a, top, readings);
    assert IsChain(chain + [next], a, next, more);
  }

  lemma LinkedMore(a: nat, top: nat, readings: set<nat>, more: set<nat>)
    requires Linked(a, top, readings) && readings <= more
    ensures Linked(a, top, more)
  {
    var chain :| IsChain(chain, a, top, readings);
    assert IsChain(chain, a, top, more);
  }

  lemma LinkedNew(f: nat, top: nat, readings: set<nat>)
    requires f in readings && top in readings && f <= top <= f + f / 10
    ensures Linked(f, top, readings)
  {
    assert IsChain([f, top], f, top, readings);
  }

  /** The pass knows the maximum, and keeps every core whose frequency plus a tenth reaches it. */
  ghost predicate FreqKept(s: FreqPass, cores: seq<int>, freqs: map<int, nat>, n: nat) {
    && (forall c :: c in cores && c in freqs ==> freqs[c] <= s.maxFreq)
    && (forall c :: c in cores && c in freqs && InBits(c, n) && freqs[c] + freqs[c] / 10 >= s.maxFreq ==> c in s.cores)
  }

  /** Every kept core is tied to the maximum by a chain of readings. */
  ghost predicate FreqTied(s: FreqPass, cores: seq<int>, freqs: map<int, nat>) {
    s.maxFreq > 0 ==>
      && s.maxFreq in Readings(cores, freqs)
      && forall c :: c in s.cores ==> c in cores && c in freqs && Linked(freqs[c], s.maxFreq, Readings(cores, freqs))
  }

  /** What the frequency pass has established after some cores. */
  ghost predicate FreqInv(s: FreqPass, cores: seq<int>, freqs: map<int, nat>, n: nat) {
    FreqKept(s, cores, freqs, n) && FreqTied(s, cores, freqs)
  }

  /**
   Whatever the order of the cores and whatever freq_cores held before: every core whose
   frequency plus a tenth reaches the maximum is kept, and every kept core is tied to the
   maximum by a chain of readings. One positive reading is enough for the second part.
   */
  lemma {:induction false} FreqKeeps(start: Pass, cores: seq<int>, sys: Sysfs, n: nat)
    requires start.freq.maxFreq == 0
    requires forall c :: c in sys.freqs ==> NoWrap(sys.freqs[c])
    ensures FreqInv(Steps(start, cores, sys, n).freq, cores, sys.freqs, n)
  {
    if cores == [] {
    } else {
      var before, cpu := cores[..|cores| - 1], cores[|cores| - 1];
      FreqKeeps(start, before, sys, n);
      SplitLast(cores);
      FreqInvStep(Steps(start, before, sys, n).freq, before, cpu, sys.freqs, n);
    }
  }

  lemma FreqInvStep(s: FreqPass, cores: seq<int>, cpu: int, freqs: map<int, nat>, n: nat)
    requires FreqInv(s, cores, freqs, n)
    requires forall c :: c in freqs ==> NoWrap(freqs[c])
    ensures FreqInv(if cpu in freqs then FreqStep(s, cpu, freqs[cpu], n) else s, cores + [cpu], freqs, n)
  {
    if cpu in freqs {
      assert Cutoff(freqs[cpu]) == freqs[cpu] / 10;
      FreqKeptStep(s, cores, cpu, freqs, n);
      FreqTiedStep(s, cores, cpu, freqs, n);
    } else if s.maxFreq > 0 {
      forall c | c in s.cores ensures Linked(freqs[c], s.maxFreq, Readings(cores + [cpu], freqs)) {
        LinkedMore(freqs[c], s.maxFreq, Readings(cores, freqs), Readings(cores + [cpu], freqs));
      }
    }
  }

  lemma FreqKeptStep(s: FreqPass, cores: seq<int>, cpu: int, freqs: map<int, nat>, n: nat)
    requires cpu in freqs && NoWrap(freqs[cpu]) && Cutoff(freqs[cpu]) == freqs[cpu] / 10
    requires FreqKept(s, cores, freqs, n)
    ensures FreqKept(FreqStep(s, cpu, freqs[cpu], n), cores + [cpu], freqs, n)
  {
  }

  lemma FreqTiedStep(s: FreqPass, cores: seq<int>, cpu: int, freqs: map<int, nat>, n: nat)
    requires cpu in freqs && NoWrap(freqs[cpu]) && Cutoff(freqs[cpu]) == freqs[cpu] / 10
    requires FreqTied(s, cores, freqs)
    ensures FreqTied(FreqStep(s, cpu, freqs[cpu], n), cores + [cpu], freqs)
  {
    var few, all := Readings(cores, freqs), Readings(cores + [cpu], freqs);
    var s', f := FreqStep(s, cpu, freqs[cpu], n), freqs[cpu];
    assert cpu in cores + [cpu] && f in all;
    if s'.maxFreq > 0 {
      forall c | c in s'.cores ensures c in cores + [cpu] && c in freqs && Linked(freqs[c], s'.maxFreq, all) {
        if c !in s.cores || s.maxFreq == 0 || (f > s.maxFreq && s.maxFreq < f - f / 10) {
          LinkedNew(f, s'.maxFreq, all);
        } else if f > s.maxFreq {
          LinkedExtend(freqs[c], s.maxFreq, f, few, all);
        } else {
          LinkedMore(freqs[c], s.maxFreq, few, all);
        }
      }
    }
  }

  /** Also when the arithmetic wraps, the cutoff is at most a tenth. */
  lemma CutoffIsSmall(f: nat)
    ensures Cutoff(f) <= f / 10
  {
    assert f * 10 % ULL_RANGE <= f * 10;
  }

  /** The pass forgets what freq_cores held exactly when some reading is positive. */
  lemma {:induction false} GarbageCleared(c0: CachePass, g1: set<int>, g2: set<int>, cores: seq<int>,
                                          sys: Sysfs, n: nat)
    ensures var s1 := Steps(Pass(c0, FreqPass(0, g1)), cores, sys, n).freq;
            var s2 := Steps(Pass(c0, FreqPass(0, g2)), cores, sys, n).freq;
            && s1.maxFreq == s2.maxFreq
            && (s1.maxFreq > 0 <==> exists c :: c in cores && c in sys.freqs && sys.freqs[c] > 0)
            && (s1.maxFreq > 0 ==> s1.cores == s2.cores)
            && (s1.maxFreq == 0 ==> g1 <= s1.cores)
  {
    if cores == [] {
    } else {
      GarbageCleared(c0, g1, g2, cores[..|cores| - 1], sys, n);
      SplitLast(cores);
      var cpu := cores[|cores| - 1];
      if cpu in sys.freqs { CutoffIsSmall(sys.freqs[cpu]); }
    }
  }

  /** The largest reading, or 0. */
  function Top(cores: seq<int>, freqs: map<int, nat>): nat {
    if cores == [] then 0
    else
      var top, cpu := Top(cores[..|cores| - 1], freqs), cores[|cores| - 1];
      if cpu in freqs && freqs[cpu] > top then freqs[cpu] else top
  }

  /** Is the reading at position j a maximum so far beyond the ones before that the pass starts over? */
  predicate StartsOver(cores: seq<int>, freqs: map<int, nat>, j: nat)
    requires j < |cores|
  {
    var top := Top(cores[..j], freqs);
    cores[j] in freqs && top < freqs[cores[j]] && top < freqs[cores[j]] - freqs[cores[j]] / 10
  }

  /** Does the core at position i come within a tenth of the maximum then, with no starting over since? */
  predicate Stays(cores: seq<int>, freqs: map<int, nat>, n: nat, i: nat)
    requires i < |cores|
  {
    && cores[i] in freqs && InBits(cores[i], n)
    && freqs[cores[i]] + freqs[cores[i]] / 10 >= Top(cores[..i + 1], freqs)
    && forall j :: i < j < |cores| ==> !StartsOver(cores, freqs, j)
  }

  /** Some position lets the pass keep the core. */
  predicate StaysSomewhere(c: int, cores: seq<int>, freqs: map<int, nat>, n: nat) {
    exists i :: 0 <= i < |cores| && cores[i] == c && Stays(cores, freqs, n, i)
  }

  /** The two predicates on a list with its last core taken off. */
  lemma OneCoreLess(cores: seq<int>, freqs: map<int, nat>, n: nat)
    requires cores != []
    ensures var init, last := cores[..|cores| - 1], |cores| - 1;
            && (forall j :: 0 <= j < last ==> (StartsOver(cores, freqs, j) <==> StartsOver(init, freqs, j)))
            && (forall i :: 0 <= i < last ==>
                 (Stays(cores, freqs, n, i) <==> Stays(init, freqs, n, i) && !StartsOver(cores, freqs, last)))
  {
    var init, last := cores[..|cores| - 1], |cores| - 1;
    assert forall j :: 0 <= j <= last ==> cores[..j] == init[..j];
    forall i | 0 <= i < last
      ensures Stays(cores, freqs, n, i) <==> Stays(init, freqs, n, i) && !StartsOver(cores, freqs, last)
    {
      assert cores[..i + 1] == init[..i + 1] && cores[i] == init[i];
      if Stays(cores, freqs, n, i) {
        assert !StartsOver(cores, freqs, last);
        forall j | i < j < |init| ensures !StartsOver(init, freqs, j) {
          assert StartsOver(cores, freqs, j) <==> StartsOver(init, freqs, j);
        }
      }
      if Stays(init, freqs, n, i) && !StartsOver(cores, freqs, last) {
        forall j | i < j < |cores| ensures !StartsOver(cores, freqs, j) {
          if j < last { assert StartsOver(cores, freqs, j) <==> StartsOver(init, freqs, j); }
        }
      }
    }
  }

  /**
   Exactly which cores the pass keeps: those that stay somewhere, and what freq_cores held
   before if the pass never starts over.
   */
  lemma {:induction false} KeptIff(start: Pass, cores: seq<int>, sys: Sysfs, n: nat)
    requires start.freq.maxFreq == 0
    requires forall c :: c in sys.freqs ==> NoWrap(sys.freqs[c])
    ensures var s := Steps(start, cores, sys, n).freq;
            && s.maxFreq == Top(cores, sys.freqs)
            && forall c :: c in s.cores <==>
                 || StaysSomewhere(c, cores, sys.freqs, n)
                 || (c in start.freq.cores && forall j :: 0 <= j < |cores| ==> !StartsOver(cores, sys.freqs, j))
  {
    if cores == [] {
    } else {
      var init, last := cores[..|cores| - 1], |cores| - 1;
      KeptIff(start, init, sys, n);
      OneCoreLess(cores, sys.freqs, n);
      var before, now := Steps(start, init, sys, n).freq, Steps(start, cores, sys, n).freq;
      KeptStep(before, cores, sys.freqs, n);
      forall c ensures StaysSomewhere(c, cores, sys.freqs, n) <==>
                       || (StaysSomewhere(c, init, sys.freqs, n) && !StartsOver(cores, sys.freqs, last))
                       || (c == cores[last] && Stays(cores, sys.freqs, n, last)) {
        SomewhereOneLess(c, cores, sys.freqs, n);
      }
    }
  }

  lemma SomewhereOneLess(c: int, cores: seq<int>, freqs: map<int, nat>, n: nat)
    requires cores != []
    ensures var init, last := cores[..|cores| - 1], |cores| - 1;
            StaysSomewhere(c, cores, freqs, n) <==>
            || (StaysSomewhere(c, init, freqs, n) && !StartsOver(cores, freqs, last))
            || (c == cores[last] && Stays(cores, freqs, n, last))
  {
    var init, last := cores[..|cores| - 1], |cores| - 1;
    OneCoreLess(cores, freqs, n);
    if StaysSomewhere(c, cores, freqs, n) {
      var i :| 0 <= i < |cores| && cores[i] == c && Stays(cores, freqs, n, i);
      if i < last { assert init[i] == c && Stays(init, freqs, n, i); }
    }
    if StaysSomewhere(c, init, freqs, n) && !StartsOver(cores, freqs, last) {
      var i :| 0 <= i < |init| && init[i] == c && Stays(init, freqs, n, i);
      assert cores[i] == c && Stays(cores, freqs, n, i);
    }
  }

  /** What the last core does to the set. */
  lemma KeptStep(s: FreqPass, cores: seq<int>, freqs: map<int, nat>, n: nat)
    requires cores != [] && s.maxFreq == Top(cores[..|cores| - 1], freqs)
    requires forall c :: c in freqs ==> NoWrap(freqs[c])
    ensures var last := |cores| - 1;
            var s' := if cores[last] in freqs then FreqStep(s, cores[last], freqs[cores[last]], n) else s;
            && s'.maxFreq == Top(cores, freqs)
            && forall c :: c in s'.cores <==>
                 (c in s.cores && !StartsOver(cores, freqs, last)) || (c == cores[last] && Stays(cores, freqs, n, last))
  {
    var last := |cores| - 1;
    assert cores[..last + 1] == cores;
    if cores[last] in freqs {
      var f := freqs[cores[last]];
      assert NoWrap(f);
      CutoffIsTenth(f);
      assert StartsOver(cores, freqs, last) <==> f > s.maxFreq && s.maxFreq < f - f / 10;
      assert Stays(cores, freqs, n, last) <==> InBits(cores[last], n) && f + f / 10 >= Top(cores, freqs);
    }
  }

  lemma CutoffIsTenth(f: nat)
    requires NoWrap(f)
    ensures Cutoff(f) == f / 10 && (f + Cutoff(f)) % ULL_RANGE == f + f / 10
  {
  }

  /** All kept cores are read and come within a tenth of the maximum. */
  predicate AllWithinTenth(s: FreqPass, freqs: map<int, nat>) {
    forall c :: c in s.cores ==> c in freqs && freqs[c] + freqs[c] / 10 >= s.maxFreq
  }

  /**
   With a positive reading, all kept cores are within a tenth of the maximum exactly when
   every core that stays somewhere is within a tenth of the largest reading, which the
   readings alone decide.
   */
  lemma WithinTenthIff(start: Pass, cores: seq<int>, sys: Sysfs, n: nat)
    requires start.freq.maxFreq == 0 && Top(cores, sys.freqs) > 0
    requires forall c :: c in sys.freqs ==> NoWrap(sys.freqs[c])
    ensures AllWithinTenth(Steps(start, cores, sys, n).freq, sys.freqs) <==>
            forall i :: 0 <= i < |cores| && Stays(cores, sys.freqs, n, i) ==>
              sys.freqs[cores[i]] + sys.freqs[cores[i]] / 10 >= Top(cores, sys.freqs)
  {
    KeptIff(start, cores, sys, n);
    SomeStartOver(cores, sys.freqs);
    forall i | 0 <= i < |cores| && Stays(cores, sys.freqs, n, i)
      ensures cores[i] in Steps(start, cores, sys, n).freq.cores
    {
      assert StaysSomewhere(cores[i], cores, sys.freqs, n);
    }
  }

  /** The first positive reading makes the pass start over. */
  lemma {:induction false} SomeStartOver(cores: seq<int>, freqs: map<int, nat>)
    requires Top(cores, freqs) > 0
    ensures exists j :: 0 <= j < |cores| && StartsOver(cores, freqs, j)
  {
    var init, last := cores[..|cores| - 1], |cores| - 1;
    if Top(init, freqs) > 0 {
      SomeStartOver(init, freqs);
      OneCoreLess(cores, freqs, 0);
    } else {
      assert StartsOver(cores, freqs, last);
    }
  }

  /** It need not be so: of readings 100, 110, 121 all three are kept, and 100 is too low for 121. */
  lemma KeptFarBelowMaximum(garbage: set<int>)
    ensures var sys := Sysfs(map[], map[0 := 100, 1 := 110, 2 := 121]);
            var s := Steps(Pass(CachePass(0, {}), FreqPass(0, garbage)), [0, 1, 2], sys, 3).freq;
            s == FreqPass(121, {0, 1, 2}) && !AllWithinTenth(s, sys.freqs)
  {
    var sys := Sysfs(map[], map[0 := 100, 1 := 110, 2 := 121]);
    var start := Pass(CachePass(0, {}), FreqPass(0, garbage));
    assert [0, 1, 2][..2] == [0, 1] && [0, 1][..1] == [0] && [0][..0] == [];
    assert Steps(start, [0], sys, 3).freq == FreqPass(100, {0});
    assert Steps(start, [0, 1], sys, 3).freq == FreqPass(110, {0, 1});
  }

  // ---------------------------------------------------------------- game_mode_initialise_cpu

  function LowerCase(c: char): char {
    if 'A' <= c <= 'Z' then (c as int + 32) as char else c
  }

  function Lower(s: string): string {
    if s == [] then []
    else [LowerCase(s[0])] + Lower(s[1..])
  }

  predicate SaysNo(s: string) {
    Lower(s) == "no" || Lower(s) == "false" || s == "0"
  }

  predicate SaysYes(s: string) {
    Lower(s) == "yes" || Lower(s) == "true" || s == "1"
  }

  predicate Letter(c: char, lower: char, upper: char) {
    c == lower || c == upper
  }

  /** The words are read in any case. */
  lemma SaysIff(s: string)
    ensures SaysNo(s) <==>
            || s == "0"
            || (|s| == 2 && Letter(s[0], 'n', 'N') && Letter(s[1], 'o', 'O'))
            || (|s| == 5 && Letter(s[0], 'f', 'F') && Letter(s[1], 'a', 'A') && Letter(s[2], 'l', 'L')
                         && Letter(s[3], 's', 'S') && Letter(s[4], 'e', 'E'))
    ensures SaysYes(s) <==>
            || s == "1"
            || (|s| == 3 && Letter(s[0], 'y', 'Y') && Letter(s[1], 'e', 'E') && Letter(s[2], 's', 'S'))
            || (|s| == 4 && Letter(s[0], 't', 'T') && Letter(s[1], 'r', 'R') && Letter(s[2], 'u', 'U')
                         && Letter(s[3], 'e', 'E'))
  {
    LowerAt(s);
    assert Lower(s) == "no" <==> |s| == 2 && Lower(s)[0] == 'n' && Lower(s)[1] == 'o';
    assert Lower(s) == "yes" <==> |s| == 3 && Lower(s)[0] == 'y' && Lower(s)[1] == 'e' && Lower(s)[2] == 's';
    assert Lower(s) == "true" <==>
           |s| == 4 && Lower(s)[0] == 't' && Lower(s)[1] == 'r' && Lower(s)[2] == 'u' && Lower(s)[3] == 'e';
    assert Lower(s) == "false" <==>
           |s| == 5 && Lower(s)[0] == 'f' && Lower(s)[1] == 'a' && Lower(s)[2] == 'l' && Lower(s)[3] == 's'
           && Lower(s)[4] == 'e';
  }

  lemma {:induction false} LowerAt(s: string)
    ensures |Lower(s)| == |s| && forall i :: 0 <= i < |s| ==> Lower(s)[i] == LowerCase(s[i])
  {
    if s == [] {
    } else {
      LowerAt(s[1..]);
    }
  }

  /** What the two settings ask for; an empty list means "find out from sysfs". */
  datatype Wanted = Nothing | Park(list: string) | Pin(list: string)

  /** Pinning is the default; note that pin_cores=no alone asks for pinning to the list "no". */
  function WantedOf(pinCores: string, parkCores: string): Wanted {
    if pinCores != "" && !SaysNo(pinCores) then Pin(if SaysYes(pinCores) then "" else pinCores)
    else if parkCores == "" then Pin(pinCores)
    else if SaysNo(parkCores) then (if pinCores != "" then Nothing else Pin(pinCores))
    else Park(if SaysYes(parkCores) then "" else parkCores)
  }

  /** The largest core number a text names, or 0. */
  function MaxCore(s: string): (m: nat)
    decreases |s|
  {
    match ParseCpulist(s)
    case None => 0
    case Some(p) => if p.run.last > MaxCore(p.rest) then p.run.last else MaxCore(p.rest)
  }

  /** num_cpu: one more than the largest core number. */
  function CpuCount(s: string): nat {
    MaxCore(s) + 1
  }

  lemma {:induction false} MaxCoreBounds(s: string)
    ensures forall c :: c in CoreSet(s) ==> c <= MaxCore(s)
    decreases |s|
  {
    CoreSetStep(s);
    match ParseCpulist(s)
    case None =>
    case Some(p) => MaxCoreBounds(p.rest);
  }

  /** It is 0 or one of them. */
  lemma {:induction false} MaxCoreListed(s: string)
    ensures MaxCore(s) == 0 || MaxCore(s) in CoreSet(s)
    decreases |s|
  {
    CoreSetStep(s);
    match ParseCpulist(s)
    case None =>
    case Some(p) => MaxCoreListed(p.rest);
  }

  method FindMax(buf: string) returns (max: int)
    ensures max == MaxCore(buf)
  {
    max := 0;
    var s := buf;
    var parsed := ParseCpulist(s);
    while parsed.Some?
      invariant parsed == ParseCpulist(s)
      invariant 0 <= max && MaxCore(buf) == if max > MaxCore(s) then max else MaxCore(s)
      decreases |s|
    {
      if parsed.value.run.last > max { max := parsed.value.run.last; }
      s := parsed.value.rest;
      parsed := ParseCpulist(s);
    }
  }

  /** What the files under /sys say; a missing file is None. */
  datatype CpuFiles = CpuFiles(online: Option<string>, pCores: Option<string>, sys: Sysfs, garbage: set<int>)

  /** The cores a list in the configuration leaves in use. */
  function ListKeeps(online: set<int>, list: string, pin: bool): set<int> {
    if pin then online * CoreSet(list) else online - CoreSet(list)
  }

  /** The cores to keep: by the list in the configuration, else the P-cores, else what sysfs says. */
  function KeepsOf(wanted: Wanted, files: CpuFiles, online: set<int>, n: nat): set<int>
    requires files.online.Some? && wanted != Nothing
  {
    if wanted.list != "" then ListKeeps(online, wanted.list, wanted.Pin?)
    else if files.pCores.Some? then Fit(CoreSet(files.pCores.value), n)
    else SysfsKeeps(files.online.value, online, files.garbage, files.sys, n)
  }

  /** The info for n cores. */
  function InfoFor(wanted: Wanted, files: CpuFiles, n: nat): CpuInfo
    requires files.online.Some? && wanted != Nothing
  {
    var online := Fit(CoreSet(files.online.value), n);
    CpuInfo(n, wanted.Pin?, online, KeepsOf(wanted, files, online, n))
  }

  /** The info for the cores that the online list names. */
  function InfoOf(wanted: Wanted, files: CpuFiles): CpuInfo
    requires files.online.Some? && wanted != Nothing
  {
    InfoFor(wanted, files, CpuCount(files.online.value))
  }

  /** The middle of game_mode_initialise_cpu: the online cores and those to keep. */
  method ChooseCores(wanted: Wanted, files: CpuFiles, n: nat) returns (online: set<int>, toKeep: set<int>)
    requires files.online.Some? && wanted != Nothing
    ensures online == Fit(CoreSet(files.online.value), n) && toKeep == KeepsOf(wanted, files, online, n)
  {
    if wanted.list != "" {
      online, toKeep := WalkString(files.online.value, wanted.list, wanted.Pin?, n);
    } else {
      online := AddListed(files.online.value, n, {});
      if files.pCores.Some? {
        toKeep := AddListed(files.pCores.value, n, {});
      } else {
        toKeep := WalkSysfs(files.online.value, online, files.garbage, files.sys, n);
      }
    }
  }

  /** The new info. */
  method NewInfo(wanted: Wanted, files: CpuFiles, n: nat) returns (info: CpuInfo)
    requires files.online.Some? && wanted != Nothing && n == CpuCount(files.online.value)
    ensures info == InfoOf(wanted, files)
  {
    var online, toKeep := ChooseCores(wanted, files, n);
    info := CpuInfo(n, wanted.Pin?, online, toKeep);
  }

  /** Is the info worth storing: at least four cores are kept, and parking keeps not simply all? */
  predicate Useful(info: CpuInfo) {
    |info.toKeep| >= 4 && (!info.pin ==> info.online != info.toKeep)
  }

  /** The return value and what is stored, once there is a new info. */
  function Stored(made: CpuInfo): (int, Option<CpuInfo>) {
    if Useful(made) then (0, Some(made)) else (-1, None)
  }

  /** The return value of game_mode_initialise_cpu and what it stores. */
  function Initialised(wanted: Wanted, files: CpuFiles): (int, Option<CpuInfo>) {
    if wanted == Nothing || (files.online.Some? && MaxCore(files.online.value) == 0) then (0, None)
    else if files.online.None? then (-1, None)
    else Stored(InfoOf(wanted, files))
  }

  /**
   game_mode_initialise_cpu, on an info pointer that is still NULL. It stores an info exactly
   when one is wanted, there is more than core 0, and the info is useful.
   */
  method InitialiseCpu(pinCores: string, parkCores: string, files: CpuFiles) returns (ret: int, info: Option<CpuInfo>)
    ensures (ret, info) == Initialised(WantedOf(pinCores, parkCores), files)
  {
    ret, info := InitialiseWanted(WantedOf(pinCores, parkCores), files);
  }

  /** Whatever is stored is for exactly the cores that the kernel lists, and keeps at least four. */
  lemma StoredForListed(pinCores: string, parkCores: string, files: CpuFiles)
    ensures var info := Initialised(WantedOf(pinCores, parkCores), files).1;
            info.Some? ==>
              && files.online.Some? && |info.value.toKeep| >= 4
              && forall c :: c in info.value.online <==> c in CoreSet(files.online.value) && c >= 0
  {
    if files.online.Some? { MaxCoreBounds(files.online.value); }
  }

  /** Parking a list keeps the online cores that it does not name, pinning one those that it does. */
  lemma ListIsStored(pinCores: string, parkCores: string, files: CpuFiles)
    ensures var info := Initialised(WantedOf(pinCores, parkCores), files).1;
            info.Some? && AsksToPark(pinCores, parkCores) && !SaysYes(parkCores) ==>
              !info.value.pin && info.value.toKeep == info.value.online - CoreSet(parkCores)
    ensures var info := Initialised(WantedOf(pinCores, parkCores), files).1;
            info.Some? && pinCores != "" && !SaysNo(pinCores) && !SaysYes(pinCores) ==>
              info.value.pin && info.value.toKeep == info.value.online * CoreSet(pinCores)
    ensures var info := Initialised(WantedOf(pinCores, parkCores), files).1;
            info.Some? && SaysNo(pinCores) && parkCores == "" ==>
              info.value.pin && info.value.toKeep == info.value.online * CoreSet(pinCores)
  {
  }

  /** Parking is asked for by park_cores, unless pin_cores asks for pinning. */
  predicate AsksToPark(pinCores: string, parkCores: string) {
    (pinCores == "" || SaysNo(pinCores)) && parkCores != "" && !SaysNo(parkCores)
  }

  /** Nobody asks for a list: parking or pinning is just turned on, or pinning is the default. */
  predicate AsksForNoList(pinCores: string, parkCores: string) {
    || SaysYes(pinCores)
    || (AsksToPark(pinCores, parkCores) && SaysYes(parkCores))
    || (pinCores == "" && (parkCores == "" || SaysNo(parkCores)))
  }

  /** Without a list the P-cores that fit are kept or, when the kernel does not list any, what sysfs tells. */
  lemma NoListIsStored(pinCores: string, parkCores: string, files: CpuFiles, info: CpuInfo)
    requires AsksForNoList(pinCores, parkCores)
    requires Initialised(WantedOf(pinCores, parkCores), files).1 == Some(info)
    ensures info.pin == !AsksToPark(pinCores, parkCores) && files.online.Some?
    ensures info.numCpu == CpuCount(files.online.value)
    ensures info.toKeep ==
            if files.pCores.Some? then Fit(CoreSet(files.pCores.value), info.numCpu)
            else SysfsKeeps(files.online.value, info.online, files.garbage, files.sys, info.numCpu)
  {
    WantsNoList(pinCores, parkCores);
    NoListDecides(WantedOf(pinCores, parkCores), files, info);
  }

  lemma WantsNoList(pinCores: string, parkCores: string)
    requires AsksForNoList(pinCores, parkCores)
    ensures WantedOf(pinCores, parkCores) == if AsksToPark(pinCores, parkCores) then Park("") else Pin("")
  {
    SaysIff(pinCores);
    SaysIff(parkCores);
  }

  lemma NoListDecides(wanted: Wanted, files: CpuFiles, info: CpuInfo)
    requires wanted != Nothing && wanted.list == "" && Initialised(wanted, files).1 == Some(info)
    ensures info.pin == wanted.Pin? && files.online.Some? && info.numCpu == CpuCount(files.online.value)
    ensures info.toKeep ==
            if files.pCores.Some? then Fit(CoreSet(files.pCores.value), info.numCpu)
            else SysfsKeeps(files.online.value, info.online, files.garbage, files.sys, info.numCpu)
  {
  }

  /**
   And sysfs tells the cores with the largest L3 cache if the caches differ, else those that the
   frequency filter keeps.
   */
  lemma SysfsIsStored(pinCores: string, parkCores: string, files: CpuFiles, info: CpuInfo, online: set<int>)
    requires AsksForNoList(pinCores, parkCores) && files.pCores.None?
    requires Initialised(WantedOf(pinCores, parkCores), files).1 == Some(info)
    requires online == CoreSet(files.online.value) && forall c :: c in online ==> c >= 0
    ensures CachesDiffer(files.sys, online) ==>
              forall c :: c in info.toKeep <==> HasLargestCache(c, files.sys, online)
    ensures !CachesDiffer(files.sys, online) ==> info.toKeep == FrequencyKeeps(files)
  {
    NoListIsStored(pinCores, parkCores, files, info);
    StoredForListed(pinCores, parkCores, files);
    MaxCoreBounds(files.online.value);
    SameMembers(info.online, online);
    SysfsIsLargest(files.online.value, files.garbage, files.sys, info.numCpu, info.toKeep);
  }

  /** The core has a readable L3 cache, and no online core has a larger one. */
  predicate HasLargestCache(c: int, sys: Sysfs, online: set<int>) {
    && c in online && c in sys.cache
    && forall d :: d in online && d in sys.cache ==> CacheSize(sys.cache[d]) <= CacheSize(sys.cache[c])
  }

  /** What the frequency pass over the listed cores keeps; KeptIff says exactly which those are. */
  function FrequencyKeeps(files: CpuFiles): set<int>
    requires files.online.Some?
  {
    var start := Pass(CachePass(0, {}), FreqPass(0, files.garbage));
    Steps(start, ParsedCores(files.online.value), files.sys, CpuCount(files.online.value)).freq.cores
  }

  lemma SysfsIsLargest(cpulist: string, garbage: set<int>, sys: Sysfs, n: nat, kept: set<int>)
    requires forall c :: c in CoreSet(cpulist) ==> InBits(c, n)
    requires kept == SysfsKeeps(cpulist, CoreSet(cpulist), garbage, sys, n)
    ensures CachesDiffer(sys, CoreSet(cpulist)) ==> forall c :: c in kept <==> HasLargestCache(c, sys, CoreSet(cpulist))
    ensures !CachesDiffer(sys, CoreSet(cpulist)) ==>
              kept == Steps(Pass(CachePass(0, {}), FreqPass(0, garbage)), ParsedCores(cpulist), sys, n).freq.cores
  {
    var start, cores, online := Pass(CachePass(0, {}), FreqPass(0, garbage)), ParsedCores(cpulist), CoreSet(cpulist);
    CacheDiffersIff(start, cores, online, sys, n, Steps(start, cores, sys, n).cache.cores);
    LargestKept(start, cores, online, sys, n);
  }

  lemma LargestKept(start: Pass, cores: seq<int>, online: set<int>, sys: Sysfs, n: nat)
    requires start.cache == CachePass(0, {})
    requires forall c :: c in online <==> c in cores
    requires forall c :: c in cores ==> InBits(c, n)
    ensures forall c :: c in Steps(start, cores, sys, n).cache.cores <==> HasLargestCache(c, sys, online)
  {
    var s := Steps(start, cores, sys, n).cache;
    CacheKeepsLargest(start, cores, sys, n);
    forall c | HasLargestCache(c, sys, online) ensures c in s.cores {
      if s.maxCache > 0 {
        var d :| d in cores && d in sys.cache && CacheSize(sys.cache[d]) == s.maxCache;
        assert d in online;
      }
    }
  }

  /**
   Something is stored exactly when the settings do not both say no, the kernel lists a core beyond
   0, at least four cores are to be kept, and parking leaves some online core or keeps another.
   */
  lemma StoredIff(pinCores: string, parkCores: string, files: CpuFiles)
    ensures var made := Initialised(WantedOf(pinCores, parkCores), files);
            var asked := !(SaysNo(pinCores) && SaysNo(parkCores));
            && (made.1.Some? <==>
                  && asked && files.online.Some? && (exists c :: c in CoreSet(files.online.value) && c > 0)
                  && var info := InfoOf(WantedOf(pinCores, parkCores), files);
                     |info.toKeep| >= 4 && (AsksToPark(pinCores, parkCores) ==> info.toKeep != info.online))
            && (made.0 == 0 <==>
                  || made.1.Some? || !asked
                  || (files.online.Some? && forall c :: c in CoreSet(files.online.value) ==> c <= 0))
            && (made.0 == 0 || made.0 == -1)
  {
    SaysIff(pinCores);
    SaysIff(parkCores);
    if files.online.Some? {
      MaxCoreBounds(files.online.value);
      MaxCoreListed(files.online.value);
    }
  }

  /** The rest of it, once the settings are understood. */
  method InitialiseWanted(wanted: Wanted, files: CpuFiles) returns (ret: int, info: Option<CpuInfo>)
    ensures (ret, info) == Initialised(wanted, files)
  {
    if wanted.Nothing? { return 0, None; }
    if files.online.None? { return -1, None; }
    var max := FindMax(files.online.value);
    if max == 0 { return 0, None; }
    var made := NewInfo(wanted, files, max + 1);
    ret, info := StoreIfUseful(made);
  }

  /** The last part of game_mode_initialise_cpu. */
  method StoreIfUseful(made: CpuInfo) returns (ret: int, info: Option<CpuInfo>)
    ensures (ret, info) == Stored(made)
  {
    if !made.pin && made.online == made.toKeep { return -1, None; }
    if |made.toKeep| == 0 { return -1, None; }
    if |made.toKeep| < 4 { return -1, None; }
    return 0, Some(made);
  }

  /** Neither pass adds a core that is not in the online list. */
  lemma {:induction false} StepsWithin(s: Pass, cores: seq<int>, sys: Sysfs, n: nat, all: set<int>)
    requires s.cache.cores <= all && s.freq.cores <= all
    requires forall i :: 0 <= i < |cores| && InBits(cores[i], n) ==> cores[i] in all
    ensures Steps(s, cores, sys, n).cache.cores <= all && Steps(s, cores, sys, n).freq.cores <= all
  {
    if cores == [] {
    } else {
      StepsWithin(s, cores[..|cores| - 1], sys, n, all);
    }
  }

  /** Some of the cores has a positive frequency. */
  predicate SomeFrequency(sys: Sysfs, cores: set<int>) {
    exists c :: c in cores && c in sys.freqs && sys.freqs[c] > 0
  }

  /** Some of the cores has a readable L3 cache, and another has not, or one of another size. */
  predicate CachesDiffer(sys: Sysfs, cores: set<int>) {
    exists c, d :: && c in cores && d in cores && c in sys.cache
                   && (d !in sys.cache || CacheSize(sys.cache[d]) != CacheSize(sys.cache[c]))
  }

  lemma SameMembers(a: set<int>, b: set<int>)
    requires forall c :: c in a <==> c in b
    ensures a == b
  {
    assert forall c :: c in a ==> c in b;
    assert forall c :: c in b ==> c in a;
  }

  /** The cache filter keeps some cores and not all exactly when the caches differ. */
  lemma CacheDiffersIff(start: Pass, cores: seq<int>, all: set<int>, sys: Sysfs, n: nat, kept: set<int>)
    requires start.cache == CachePass(0, {})
    requires forall c :: c in all <==> c in cores
    requires forall c :: c in cores ==> InBits(c, n)
    requires kept == Steps(start, cores, sys, n).cache.cores
    ensures (kept != all && kept != {}) <==> CachesDiffer(sys, all)
  {
    var s := Steps(start, cores, sys, n).cache;
    CacheKeepsLargest(start, cores, sys, n);
    if CachesDiffer(sys, all) {
      var c, d :| && c in all && d in all && c in sys.cache
                  && (d !in sys.cache || CacheSize(sys.cache[d]) != CacheSize(sys.cache[c]));
      SomeKept(s, c, cores, sys, n);
      assert c !in kept || d !in kept;
    } else if c :| c in kept {
      forall d ensures d in kept <==> d in all {
        if d in all { assert c in all; }
      }
      SameMembers(kept, all);
    } else {
      SameMembers(kept, {});
    }
  }

  /** A readable core makes the cache filter keep something. */
  lemma SomeKept(s: CachePass, c: int, cores: seq<int>, sys: Sysfs, n: nat)
    requires c in cores && c in sys.cache && InBits(c, n)
    requires CacheSize(sys.cache[c]) <= s.maxCache
    requires s.maxCache > 0 ==>
               exists d :: d in cores && InBits(d, n) && d in sys.cache && CacheSize(sys.cache[d]) == s.maxCache
    requires forall d :: d in s.cores <==>
                           d in cores && InBits(d, n) && d in sys.cache && CacheSize(sys.cache[d]) == s.maxCache
    ensures s.cores != {}
  {
    if s.maxCache > 0 {
      var d :| d in cores && InBits(d, n) && d in sys.cache && CacheSize(sys.cache[d]) == s.maxCache;
      assert d in s.cores;
    } else {
      assert c in s.cores;
    }
  }

  /** Without a positive frequency the pass keeps what freq_cores held, and the cores that read as 0. */
  lemma {:induction false} ZeroKept(start: Pass, cores: seq<int>, sys: Sysfs, n: nat)
    requires start.freq.maxFreq == 0
    requires forall c :: c in cores && c in sys.freqs ==> sys.freqs[c] == 0
    ensures var s := Steps(start, cores, sys, n).freq;
            && s.maxFreq == 0
            && forall c :: c in s.cores <==> c in start.freq.cores || (c in cores && c in sys.freqs && InBits(c, n))
  {
    if cores == [] {
    } else {
      var init := cores[..|cores| - 1];
      SplitLast(cores);
      assert forall c :: c in init ==> c in cores;
      ZeroKept(start, init, sys, n);
    }
  }

  /** Does the cache filter decide: does it keep some of the online cores, and not all? */
  predicate CacheDecides(cpulist: string, online: set<int>, sys: Sysfs, n: nat) {
    var kept := Steps(Pass(CachePass(0, {}), FreqPass(0, {})), ParsedCores(cpulist), sys, n).cache.cores;
    kept != online && kept != {}
  }

  /** For a list of cores that fit, that is exactly when their caches differ. */
  lemma CacheDecidesIff(cpulist: string, sys: Sysfs, n: nat)
    requires forall c :: c in CoreSet(cpulist) ==> InBits(c, n)
    ensures CacheDecides(cpulist, CoreSet(cpulist), sys, n) <==> CachesDiffer(sys, CoreSet(cpulist))
  {
    var start := Pass(CachePass(0, {}), FreqPass(0, {}));
    var kept := Steps(start, ParsedCores(cpulist), sys, n).cache.cores;
    CacheDiffersIff(start, ParsedCores(cpulist), CoreSet(cpulist), sys, n, kept);
  }

  /** What sysfs keeps: with neither the caches nor a positive frequency to go by, also what freq_cores held. */
  lemma SysfsKept(cpulist: string, online: set<int>, garbage: set<int>, sys: Sysfs, n: nat, kept: set<int>)
    requires online == Fit(CoreSet(cpulist), n) && kept == SysfsKeeps(cpulist, online, garbage, sys, n)
    ensures CacheDecides(cpulist, online, sys, n) ==> kept <= online && kept != online
    ensures SomeFrequency(sys, CoreSet(cpulist)) ==> kept <= online
    ensures !CacheDecides(cpulist, online, sys, n) && !SomeFrequency(sys, CoreSet(cpulist)) ==>
              forall c :: c in kept <==> c in garbage || (c in online && c in sys.freqs)
  {
    var cores := ParsedCores(cpulist);
    var empty, start := Pass(CachePass(0, {}), FreqPass(0, {})), Pass(CachePass(0, {}), FreqPass(0, garbage));
    StepsWithin(empty, cores, sys, n, online);
    SameCache(start, empty, cores, sys, n);
    GarbageCleared(CachePass(0, {}), garbage, {}, cores, sys, n);
    if !SomeFrequency(sys, CoreSet(cpulist)) {
      forall c | c in cores && c in sys.freqs ensures sys.freqs[c] == 0 {
        assert c in CoreSet(cpulist);
      }
      ZeroKept(start, cores, sys, n);
    }
  }

  lemma SysfsWithinIff(cpulist: string, online: set<int>, garbage: set<int>, sys: Sysfs, n: nat, kept: set<int>)
    requires online == Fit(CoreSet(cpulist), n) && kept == SysfsKeeps(cpulist, online, garbage, sys, n)
    ensures kept <= online <==>
            CacheDecides(cpulist, online, sys, n) || SomeFrequency(sys, CoreSet(cpulist)) || garbage <= online
  {
    SysfsKept(cpulist, online, garbage, sys, n, kept);
    if !CacheDecides(cpulist, online, sys, n) && !SomeFrequency(sys, CoreSet(cpulist)) {
      OnlyIf(kept, garbage, online, set c | c in online && c in sys.freqs);
    }
  }

  lemma OnlyIf(kept: set<int>, garbage: set<int>, online: set<int>, read: set<int>)
    requires read <= online && forall c :: c in kept <==> c in garbage || c in read
    ensures kept <= online <==> garbage <= online
  {
    assert forall c :: c in garbage ==> c in kept;
    assert forall c :: c in kept ==> c in garbage || c in online;
  }

  /** Is there nothing by which sysfs could tell the cores apart, while leftover bits or readings of 0 keep each? */
  predicate LeavesNone(sys: Sysfs, garbage: set<int>, online: set<int>) {
    !CachesDiffer(sys, online) && forall c :: c in online ==> if c in sys.freqs then sys.freqs[c] == 0 else c in garbage
  }

  /** Unless sysfs keeps just the online cores, that is exactly when it keeps all of them. */
  lemma LeavesNoneIff(cpulist: string, online: set<int>, garbage: set<int>, sys: Sysfs, n: nat, kept: set<int>)
    requires online == CoreSet(cpulist) && forall c :: c in online ==> InBits(c, n)
    requires kept == SysfsKeeps(cpulist, online, garbage, sys, n) && kept != online
    ensures online <= kept <==> LeavesNone(sys, garbage, online)
  {
    SameMembers(online, Fit(CoreSet(cpulist), n));
    CacheDecidesIff(cpulist, sys, n);
    SysfsKept(cpulist, online, garbage, sys, n, kept);
    if CachesDiffer(sys, online) || SomeFrequency(sys, online) {
      assert !(online <= kept);
    } else {
      assert online <= kept <==> forall c :: c in online ==> c in garbage || c in sys.freqs;
    }
  }

  /**
   Exactly when only online cores are kept: always by a list in the configuration; by the
   P-cores, which the kernel lists whether they are online or not, if those that fit are; and
   by sysfs if the cache filter decides, some frequency is positive, or the leftover bits are
   online cores.
   */
  lemma KeepsWithinOnlineIff(wanted: Wanted, files: CpuFiles)
    requires files.online.Some? && wanted != Nothing
    ensures var info := InfoOf(wanted, files);
            info.toKeep <= info.online <==>
            || wanted.list != ""
            || (files.pCores.Some? && Fit(CoreSet(files.pCores.value), info.numCpu) <= info.online)
            || (files.pCores.None? &&
                  (|| CacheDecides(files.online.value, info.online, files.sys, info.numCpu)
                   || SomeFrequency(files.sys, CoreSet(files.online.value))
                   || files.garbage <= info.online))
  {
    if wanted.list == "" && files.pCores.None? {
      var info := InfoOf(wanted, files);
      SysfsWithinIff(files.online.value, info.online, files.garbage, files.sys, info.numCpu, info.toKeep);
    }
  }

  /** The two passes do not look at each other. */
  lemma {:induction false} SameCache(s: Pass, t: Pass, cores: seq<int>, sys: Sysfs, n: nat)
    requires s.cache == t.cache
    ensures Steps(s, cores, sys, n).cache == Steps(t, cores, sys, n).cache
  {
    if cores == [] {
    } else {
      SameCache(s, t, cores[..|cores| - 1], sys, n);
    }
  }

  /** There is nothing to park exactly when every online core is kept. */
  lemma NoTargetsIff(info: CpuInfo)
    requires forall c :: c in info.online ==> 0 <= c < info.numCpu
    ensures Targets(info) == [] <==> info.online <= info.toKeep
  {
    var parked := info.online - info.toKeep;
    RunsOfEmpty(parked, info.numCpu);
    if Targets(info) == [] {
      assert forall c :: c in info.online ==> c !in parked;
    }
  }
}
