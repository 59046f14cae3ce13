/**
 The text form of a set of cpu cores, "1,3-5": the parser step shared by the daemon and
 the root helper, the run-length text the daemon prints, and the round trip between them.

 A C string is a Dafny string without its terminator; a `char *` cursor into it is the
 suffix that the cursor points at, so "end of string" is the empty suffix.
 */
module CpuList {
  import opened Common

  const LONG_MAX: int := 0x7FFF_FFFF_FFFF_FFFF
  const LONG_MIN: int := -0x8000_0000_0000_0000

  // ---------------------------------------------------------------- strtol

  predicate IsDigit(c: char) {
    '0' <= c <= '9'
  }

  predicate IsSpace(c: char) {
    c == ' ' || '\t' <= c <= '\r'
  }

  /** How many decimal digits the string starts with. */
  function DigitRun(s: string): (n: nat)
    ensures n <= |s|
    ensures forall i :: 0 <= i < n ==> IsDigit(s[i])
    ensures n < |s| ==> !IsDigit(s[n])
  {
    if s == [] || !IsDigit(s[0]) then 0 else 1 + DigitRun(s[1..])
  }

  /** The number a string of digits denotes. */
  function DigitsValue(ds: string): nat
    requires forall c :: c in ds ==> IsDigit(c)
  {
    if ds == [] then 0
    else
      assert IsDigit(ds[|ds| - 1]);
      10 * DigitsValue(ds[..|ds| - 1]) + (ds[|ds| - 1] as int - '0' as int)
  }

  function SkipSpaces(s: string): (r: string)
    ensures |r| <= |s|
  {
    if s != [] && IsSpace(s[0]) then SkipSpaces(s[1..]) else s
  }

  /** A number read from the start of a string, and the text after it; `rest == s` when there was none. */
  datatype Number = Number(value: int, rest: string)

  /** Optional spaces, an optional sign and digits. */
  function Scan(s: string): (r: Number)
    ensures |r.rest| <= |s|
    ensures |r.rest| == |s| ==> r.rest == s && r.value == 0
  {
    var body := SkipSpaces(s);
    var signed := body != [] && (body[0] == '-' || body[0] == '+');
    var digits := if signed then body[1..] else body;
    var n := DigitRun(digits);
    if n == 0 then Number(0, s)
    else
      var v: int := DigitsValue(digits[..n]);
      Number(if signed && body[0] == '-' then -v else v, digits[n..])
  }

  function Saturate(v: int): int {
    if v > LONG_MAX then LONG_MAX else if v < LONG_MIN then LONG_MIN else v
  }

  /** strtol(s, &end, 10) */
  function Strtol(s: string): (r: Number)
    ensures |r.rest| <= |s|
    ensures |r.rest| == |s| ==> r.rest == s && r.value == 0
  {
    Number(Saturate(Scan(s).value), Scan(s).rest)
  }

  /** Does strtol set errno to ERANGE? */
  predicate OutOfRange(s: string) {
    Saturate(Scan(s).value) != Scan(s).value
  }

  // ---------------------------------------------------------------- parse_cpulist

  /** A run of cores first..last, both included. */
  datatype Run = Run(first: int, last: int)

  /** What one successful parse_cpulist call yields: the run, and the cursor it returns. */
  datatype Parsed = Parsed(run: Run, rest: string)

  /**
   One call of parse_cpulist: None is a NULL return. After a range "a-b" one character is
   skipped whatever it is; after a single number only ',' is.
   */
  function ParseCpulist(s: string): (r: Option<Parsed>)
    ensures r.Some? ==> |r.value.rest| < |s| && r.value.run.first <= r.value.run.last
  {
    if s == [] then None
    else
      var from := Strtol(s);
      if |from.rest| == |s| then None
      else if from.rest == [] then Some(Parsed(Run(from.value, from.value), []))
      else if from.rest[0] == ',' then Some(Parsed(Run(from.value, from.value), from.rest[1..]))
      else if from.rest[0] != '-' then None
      else
        var tail := from.rest[1..];
        var to := Strtol(tail);
        if |to.rest| == |tail| || to.value < from.value then None
        else Some(Parsed(Run(from.value, to.value), if to.rest == [] then [] else to.rest[1..]))
  }

  /** The runs that `while ((list = parse_cpulist(list, &from, &to)))` goes through. */
  function ParsedRuns(s: string): seq<Run>
    decreases |s|
  {
    match ParseCpulist(s)
    case None => []
    case Some(p) => [p.run] + ParsedRuns(p.rest)
  }

  /** The cores that `for (cpu = from; cpu < to + 1; cpu++)` goes through, run after run. */
  function CoresOf(runs: seq<Run>): seq<int> {
    if runs == [] then [] else Span(runs[0].first, runs[0].last + 1) + CoresOf(runs[1..])
  }

  function ParsedCores(s: string): seq<int> {
    CoresOf(ParsedRuns(s))
  }

  // ---------------------------------------------------------------- printing

  /** The decimal digits of a number. */
  function Decimal(n: nat): (s: string)
    ensures s != []
    ensures forall c :: c in s ==> IsDigit(c)
  {
    if n < 10 then [('0' as int + n) as char]
    else Decimal(n / 10) + [('0' as int + n % 10) as char]
  }

  predicate ValidRun(r: Run) {
    0 <= r.first <= r.last <= LONG_MAX
  }

  /** "%ld" */
  function PrintLong(v: int): (s: string)
    ensures s != []
  {
    if v < 0 then "-" + Decimal(-v) else Decimal(v)
  }

  function RenderRun(r: Run): (s: string)
    ensures s != []
  {
    if r.first == r.last then PrintLong(r.first)
    else PrintLong(r.first) + "-" + PrintLong(r.last)
  }

  /** Runs separated by commas. */
  function Render(runs: seq<Run>): (s: string)
    ensures s == [] <==> runs == []
  {
    if runs == [] then []
    else if |runs| == 1 then RenderRun(runs[0])
    else Render(runs[..|runs| - 1]) + "," + RenderRun(runs[|runs| - 1])
  }

  /** Appends core `x` to ascending runs: it extends the last run or starts a new one. */
  function AddCore(runs: seq<Run>, x: int): (r: seq<Run>)
    ensures r != [] && r[|r| - 1].last == x
  {
    if runs != [] && runs[|runs| - 1].last + 1 == x then
      runs[..|runs| - 1] + [Run(runs[|runs| - 1].first, x)]
    else runs + [Run(x, x)]
  }

  /** The maximal runs of consecutive members of `p` below `n`, in increasing order. */
  function RunsOf(p: set<int>, n: nat): (runs: seq<Run>)
    ensures forall r :: r in runs ==> 0 <= r.first <= r.last < n
  {
    if n == 0 then []
    else if n - 1 in p then AddCore(RunsOf(p, n - 1), n - 1)
    else RunsOf(p, n - 1)
  }

  /** The members of `p` below `n` in increasing order. */
  function Ascending(p: set<int>, n: nat): seq<int> {
    if n == 0 then []
    else if n - 1 in p then Ascending(p, n - 1) + [n - 1]
    else Ascending(p, n - 1)
  }

  // ---------------------------------------------------------------- the round trip

  lemma {:induction false} DecimalValue(n: nat)
    ensures DigitsValue(Decimal(n)) == n
  {
    if n >= 10 {
      DecimalValue(n / 10);
      var s := Decimal(n);
      assert s[..|s| - 1] == Decimal(n / 10);
    }
  }

  lemma {:induction false} DigitRunOfPrefix(ds: string, rest: string)
    requires forall c :: c in ds ==> IsDigit(c)
    requires rest == [] || !IsDigit(rest[0])
    ensures DigitRun(ds + rest) == |ds|
  {
    if ds == [] {
      assert ds + rest == rest;
    } else {
      assert (ds + rest)[1..] == ds[1..] + rest;
      DigitRunOfPrefix(ds[1..], rest);
    }
  }

  /** A printed number is read back, and the scan stops right after it. */
  lemma ScanOfDecimal(n: nat, rest: string)
    requires rest == [] || !IsDigit(rest[0])
    ensures Scan(Decimal(n) + rest) == Number(n, rest)
  {
    var ds := Decimal(n);
    var s := ds + rest;
    assert IsDigit(ds[0]) && s[0] == ds[0];
    DigitRunOfPrefix(ds, rest);
    assert s[..|ds|] == ds && s[|ds|..] == rest;
    DecimalValue(n);
  }

  lemma StrtolOfDecimal(n: nat, rest: string)
    requires n <= LONG_MAX
    requires rest == [] || !IsDigit(rest[0])
    ensures Strtol(Decimal(n) + rest) == Number(n, rest)
  {
    ScanOfDecimal(n, rest);
  }

  /** One parse step reads back one printed run, whether or not another run follows. */
  lemma ParseOfRun(r: Run, more: string)
    requires ValidRun(r)
    ensures ParseCpulist(RenderRun(r)) == Some(Parsed(r, []))
    ensures ParseCpulist(RenderRun(r) + "," + more) == Some(Parsed(r, more))
  {
    ParseOfRunThen(r, []);
    assert RenderRun(r) + [] == RenderRun(r);
    ParseOfRunThen(r, "," + more);
    assert RenderRun(r) + "," + more == RenderRun(r) + ("," + more);
    assert ("," + more)[1..] == more;
  }

  lemma ParseOfRunThen(r: Run, rest: string)
    requires ValidRun(r)
    requires rest == [] || rest[0] == ','
    ensures ParseCpulist(RenderRun(r) + rest) == Some(Parsed(r, if rest == [] then [] else rest[1..]))
  {
    if r.first == r.last {
      ParseOfSingle(r.first, rest);
    } else {
      ParseOfRange(r.first, r.last, rest);
      ConcatRange(Decimal(r.first), Decimal(r.last), rest);
    }
  }

  lemma ConcatRange(a: string, b: string, rest: string)
    ensures a + "-" + b + rest == a + ("-" + (b + rest))
  {
  }

  lemma ParseOfSingle(a: nat, rest: string)
    requires a <= LONG_MAX
    requires rest == [] || rest[0] == ','
    ensures ParseCpulist(Decimal(a) + rest) == Some(Parsed(Run(a, a), if rest == [] then [] else rest[1..]))
  {
    StrtolOfDecimal(a, rest);
  }

  lemma ParseOfRange(a: nat, b: nat, rest: string)
    requires a <= b <= LONG_MAX
    requires rest == [] || rest[0] == ','
    ensures ParseCpulist(Decimal(a) + ("-" + (Decimal(b) + rest)))
         == Some(Parsed(Run(a, b), if rest == [] then [] else rest[1..]))
  {
    var tail := Decimal(b) + rest;
    var s := Decimal(a) + ("-" + tail);
    StrtolOfDecimal(a, "-" + tail);
    StrtolOfDecimal(b, rest);
    assert Strtol(s).rest[0] == '-' && Strtol(s).rest[1..] == tail;
  }

  /** Render, unfolded from the left as the parser consumes it. */
  lemma {:induction false} RenderFromLeft(r: Run, runs: seq<Run>)
    requires runs != []
    ensures Render([r] + runs) == RenderRun(r) + "," + Render(runs)
  {
    var init, last := runs[..|runs| - 1], runs[|runs| - 1];
    RenderAppend([r] + init, last);
    SplitLast(runs);
    AddAssociates([r], init, [last]);
    if init == [] {
      AddNothing([r]);
    } else {
      RenderFromLeft(r, init);
      RenderAppend(init, last);
      AddAssociates(RenderRun(r) + ",", Render(init), "," + RenderRun(last));
    }
  }

  lemma RenderAppend(runs: seq<Run>, last: Run)
    requires runs != []
    ensures Render(runs + [last]) == Render(runs) + ("," + RenderRun(last))
  {
    assert (runs + [last])[..|runs|] == runs;
  }

  /** Parsing a rendered list of runs gives back exactly those runs. */
  lemma {:induction false} ParseOfRender(runs: seq<Run>)
    requires forall r :: r in runs ==> ValidRun(r)
    ensures ParsedRuns(Render(runs)) == runs
  {
    if |runs| == 1 {
      ParseOfRun(runs[0], []);
      assert runs == [runs[0]];
    } else if |runs| >= 2 {
      assert runs == [runs[0]] + runs[1..];
      RenderFromLeft(runs[0], runs[1..]);
      ParseOfRun(runs[0], Render(runs[1..]));
      ParseOfRender(runs[1..]);
    }
  }

  lemma {:induction false} CoresOfAppend(a: seq<Run>, b: seq<Run>)
    ensures CoresOf(a + b) == CoresOf(a) + CoresOf(b)
  {
    if a == [] {
      assert a + b == b;
    } else {
      assert (a + b)[1..] == a[1..] + b;
      CoresOfAppend(a[1..], b);
    }
  }

  lemma ParsedCoresStep(s: string)
    ensures ParseCpulist(s).Some? ==>
              ParsedCores(s) == CoresOf([ParseCpulist(s).value.run]) + ParsedCores(ParseCpulist(s).value.rest)
  {
    if ParseCpulist(s).Some? {
      CoresOfAppend([ParseCpulist(s).value.run], ParsedRuns(ParseCpulist(s).value.rest));
    }
  }

  lemma CoresOfAddCore(runs: seq<Run>, x: int)
    requires runs != [] ==> runs[|runs| - 1].first <= runs[|runs| - 1].last
    ensures CoresOf(AddCore(runs, x)) == CoresOf(runs) + [x]
  {
    if runs != [] && runs[|runs| - 1].last + 1 == x {
      GrowLastRun(runs, x);
    } else {
      StartRun(runs, x);
    }
  }

  lemma StartRun(runs: seq<Run>, x: int)
    ensures CoresOf(runs + [Run(x, x)]) == CoresOf(runs) + [x]
  {
    CoresOfAppend(runs, [Run(x, x)]);
    CoresOfOne(Run(x, x));
  }

  lemma GrowLastRun(runs: seq<Run>, x: int)
    requires runs != [] && runs[|runs| - 1].first <= runs[|runs| - 1].last == x - 1
    ensures CoresOf(runs[..|runs| - 1] + [Run(runs[|runs| - 1].first, x)]) == CoresOf(runs) + [x]
  {
    CoresOfLast(runs);
    Grown(runs[..|runs| - 1], runs[|runs| - 1], x, CoresOf(runs));
  }

  lemma Grown(init: seq<Run>, last: Run, x: int, cores: seq<int>)
    requires last.first <= last.last == x - 1 && cores == CoresOf(init) + CoresOf([last])
    ensures CoresOf(init + [Run(last.first, x)]) == cores + [x]
  {
    CoresOfAppend(init, [Run(last.first, x)]);
    CoresOfOne(last);
    CoresOfOne(Run(last.first, x));
    AddAssociates(CoresOf(init), CoresOf([last]), [x]);
  }

  lemma CoresOfLast(runs: seq<Run>)
    requires runs != []
    ensures CoresOf(runs) == CoresOf(runs[..|runs| - 1]) + CoresOf([runs[|runs| - 1]])
  {
    SplitLast(runs);
    CoresOfAppend(runs[..|runs| - 1], [runs[|runs| - 1]]);
  }

  lemma CoresOfOne(r: Run)
    ensures CoresOf([r]) == Span(r.first, r.last + 1)
    ensures r.first <= r.last ==> Span(r.first, r.last + 1) == Span(r.first, r.last) + [r.last]
    ensures r.first == r.last ==> CoresOf([r]) == [r.last]
  {
    assert CoresOf([r]) == Span(r.first, r.last + 1) + CoresOf([]);
  }

  /** The runs of a set enumerate the set, each member once and in increasing order. */
  lemma {:induction false} CoresOfRunsOf(p: set<int>, n: nat)
    ensures CoresOf(RunsOf(p, n)) == Ascending(p, n)
  {
    if n == 0 {
    } else {
      CoresOfRunsOf(p, n - 1);
      var before := RunsOf(p, n - 1);
      if n - 1 in p { CoresOfAddCore(before, n - 1); }
    }
  }

  /** Printing the cores of `p` below `n` and parsing the text visits exactly those cores, ascending. */
  lemma RoundTrip(p: set<int>, n: nat)
    requires n <= LONG_MAX
    ensures forall r :: r in RunsOf(p, n) ==> ValidRun(r)
    ensures ParsedCores(Render(RunsOf(p, n))) == Ascending(p, n)
  {
    ParseOfRender(RunsOf(p, n));
    CoresOfRunsOf(p, n);
  }

  // ---------------------------------------------------------------- the length of the text

  function Pow10(d: nat): (r: nat)
    ensures r >= 1
  {
    if d == 0 then 1 else 10 * Pow10(d - 1)
  }

  lemma {:induction false} DecimalLength(n: nat, d: nat)
    requires d >= 1 && n < Pow10(d)
    ensures |Decimal(n)| <= d
  {
    if n >= 10 {
      assert Pow10(1) == 10;
      DecimalLength(n / 10, d - 1);
    }
  }

  /** With at most d digits a core, the text costs at most d + 1 characters a core. */
  lemma {:induction false} RenderLength(runs: seq<Run>, d: nat)
    requires d >= 1
    requires forall r :: r in runs ==> ValidRun(r) && r.last < Pow10(d)
    ensures runs != [] ==> |Render(runs)| + 1 <= (d + 1) * |CoresOf(runs)|
  {
    if runs == [] {
    } else {
      var init, last := runs[..|runs| - 1], runs[|runs| - 1];
      SplitLast(runs);
      assert last in runs;
      RenderLength(init, d);
      RunLength(last, d);
      var k := last.last + 1 - last.first;
      CoresOfAppend(init, [last]);
      CoresOfOne(last);
      if init != [] { RenderAppend(init, last); }
      RunCost(d, k, |CoresOf(init)|, |CoresOf(runs)|, |Render(init)|, |RenderRun(last)|);
    }
  }

  lemma RunLength(r: Run, d: nat)
    requires d >= 1 && ValidRun(r) && r.last < Pow10(d)
    ensures |RenderRun(r)| <= if r.first == r.last then d else 2 * d + 1
  {
    DecimalLength(r.first, d);
    DecimalLength(r.last, d);
  }

  /** The arithmetic of one more run of k cores, after m cores that took `text` characters. */
  lemma RunCost(d: nat, k: nat, m: nat, total: nat, text: nat, run: nat)
    requires k >= 1 && total == m + k && run <= if k == 1 then d else 2 * d + 1
    requires m == 0 || text + 1 <= (d + 1) * m
    ensures (if m == 0 then 0 else text + 1) + run + 1 <= (d + 1) * total
  {
    assert (d + 1) * (m + k) == (d + 1) * m + (d + 1) * k;
    if k == 1 {
      assert (d + 1) * k == (d + 1) * 1;
    } else {
      assert (d + 1) * k == (d + 1) * 2 + (d + 1) * (k - 2);
    }
  }

  /** Ascending lists exactly the members of `p` below `n`, each once, in increasing order. */
  lemma {:induction false} AscendingMembers(p: set<int>, n: nat)
    ensures forall x :: x in Ascending(p, n) <==> x in p && 0 <= x < n
    ensures forall i, j :: 0 <= i < j < |Ascending(p, n)| ==> Ascending(p, n)[i] < Ascending(p, n)[j]
    ensures |Ascending(p, n)| <= n
  {
    if n == 0 {
    } else {
      AscendingMembers(p, n - 1);
      var before := Ascending(p, n - 1);
      assert forall i :: 0 <= i < |before| ==> before[i] in before;
    }
  }

  lemma RunsOfEmpty(p: set<int>, n: nat)
    ensures RunsOf(p, n) == [] <==> forall i :: 0 <= i < n ==> i !in p
  {
    CoresOfRunsOf(p, n);
    AscendingMembers(p, n);
    if RunsOf(p, n) != [] {
      var r := RunsOf(p, n)[0];
      assert r in RunsOf(p, n);
      assert CoresOf(RunsOf(p, n))[0] == r.first;
      assert r.first in Ascending(p, n);
    }
  }
}
