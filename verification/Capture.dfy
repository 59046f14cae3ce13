/** run_external_process: running a helper and capturing its standard output in a fixed buffer. */
module Capture {
  import opened Common
  import opened Governor

  const EXTERNAL_BUFFER_MAX: nat := 1024

  /**
   What one round of select and read meets. A read yields some of the child's remaining
   output, at least one character and at most as many as asked for, or none at its end.
   */
  datatype Round = Interrupted | SelectFailed | TimedOut | ReadFailed | Readable(offered: nat)

  /** How many characters the read asks for when `have` are in the buffer. */
  function Asked(have: nat): (n: nat)
    requires have < EXTERNAL_BUFFER_MAX
    ensures 1 <= n < EXTERNAL_BUFFER_MAX
    ensures have < EXTERNAL_BUFFER_MAX - 1 ==> have + n < EXTERNAL_BUFFER_MAX
  {
    if have < EXTERNAL_BUFFER_MAX - 1 then EXTERNAL_BUFFER_MAX - have - 1 else EXTERNAL_BUFFER_MAX - 1
  }

  function Min(a: nat, b: nat): nat {
    if a < b then a else b
  }

  /** How many characters a read yields. */
  function Yield(offered: nat, asked: nat, left: nat): nat {
    Min(if offered == 0 then 1 else offered, Min(asked, left))
  }

  /** How much of the output the reads before round i have taken out of the pipe. */
  function Delivered(rounds: seq<Round>, total: nat, i: nat): (r: nat)
    requires i <= |rounds|
    ensures r <= total
  {
    if i == 0 then 0
    else
      var before := Delivered(rounds, total, i - 1);
      if rounds[i - 1].Readable?
      then before + Yield(rounds[i - 1].offered, Asked(Min(before, EXTERNAL_BUFFER_MAX - 1)), total - before)
      else before
  }

  /** Round i meets a failure, a timeout, or the end of the output. */
  predicate Ends(rounds: seq<Round>, total: nat, i: nat)
    requires i < |rounds|
  {
    match rounds[i]
    case Interrupted => false
    case SelectFailed => true
    case TimedOut => true
    case ReadFailed => true
    case Readable(_) => Delivered(rounds, total, i) == total
  }

  /** Round i is the first to. */
  predicate EndsFirst(rounds: seq<Round>, total: nat, i: nat)
    requires i < |rounds|
  {
    Ends(rounds, total, i) && forall j :: 0 <= j < i ==> !Ends(rounds, total, j)
  }

  /** The end of the output is met before anything fails. */
  predicate Captured(rounds: seq<Round>, total: nat) {
    exists i :: 0 <= i < |rounds| && rounds[i].Readable? && EndsFirst(rounds, total, i)
  }

  predicate Broken(rounds: seq<Round>, total: nat) {
    exists i :: 0 <= i < |rounds| && (rounds[i].SelectFailed? || rounds[i].ReadFailed?) && EndsFirst(rounds, total, i)
  }

  predicate OutOfTime(rounds: seq<Round>, total: nat) {
    || (forall i :: 0 <= i < |rounds| ==> !Ends(rounds, total, i))
    || exists i :: 0 <= i < |rounds| && rounds[i].TimedOut? && EndsFirst(rounds, total, i)
  }

  /**
   read_child_stdout; when the rounds run out so has the time. It succeeds exactly when the end
   of the output comes first, and then holds exactly the first 1023 characters of the whole
   output, or all of it, then a NUL.
   */
  method ReadChildStdout(rounds: seq<Round>, output: string, buffer: array<char>) returns (ret: int)
    requires buffer.Length == EXTERNAL_BUFFER_MAX
    modifies buffer
    ensures ret == 0 <==> Captured(rounds, |output|)
    ensures ret == -1 <==> Broken(rounds, |output|)
    ensures ret == -2 <==> OutOfTime(rounds, |output|)
    ensures ret == 0 || ret == -1 || ret == -2
    ensures ret == 0 ==>
              var n := Min(|output|, EXTERNAL_BUFFER_MAX - 1);
              buffer[..n] == output[..n] && buffer[n] == '\0'
  {
    var have: nat, full := 0, false;
    var used: nat := 0;  // how much of the child's output the pipe has delivered
    for i := 0 to |rounds|
      invariant 0 <= have < EXTERNAL_BUFFER_MAX && used <= |output|
      invariant full <==> have == EXTERNAL_BUFFER_MAX - 1
      invariant have == Min(used, EXTERNAL_BUFFER_MAX - 1)
      invariant buffer[..have] == output[..have]
      invariant used == Delivered(rounds, |output|, i)
      invariant forall j :: 0 <= j < i ==> !Ends(rounds, |output|, j)
    {
      if Ends(rounds, |output|, i) { OneEnd(rounds, |output|, i); }
      match rounds[i]
      case Interrupted =>
      case SelectFailed => return -1;
      case TimedOut => return -2;
      case ReadFailed => return -1;
      case Readable(offered) =>
        var asked := if !full then EXTERNAL_BUFFER_MAX - have - 1 else EXTERNAL_BUFFER_MAX - 1;
        assert asked > 0;  // so that a read of nothing does mean the end
        var n := Yield(offered, asked, |output| - used);
        if !full {
          ReadInto(buffer, have, output[used..used + n]);
        }
        if n == 0 {
          buffer[have] := '\0';
          return 0;
        }
        used := used + n;
        if !full {
          have := have + n;
          if have == EXTERNAL_BUFFER_MAX - 1 { full := true; }
        }
    }
    return -2;
  }

  /** read(2) into a place in the buffer */
  method ReadInto(buffer: array<char>, at: nat, text: string)
    requires at + |text| <= buffer.Length
    modifies buffer
    ensures buffer[..at + |text|] == old(buffer[..at]) + text
  {
    forall k | 0 <= k < |text| { buffer[at + k] := text[k]; }
  }

  /** There is only one first end, so it decides. */
  lemma OneEnd(rounds: seq<Round>, total: nat, i: nat)
    requires i < |rounds| && EndsFirst(rounds, total, i)
    ensures Captured(rounds, total) <==> rounds[i].Readable?
    ensures Broken(rounds, total) <==> rounds[i].SelectFailed? || rounds[i].ReadFailed?
    ensures OutOfTime(rounds, total) <==> rounds[i].TimedOut?
  {
    assert forall j :: 0 <= j < |rounds| && EndsFirst(rounds, total, j) ==> i == j;
  }

  function Readables(rounds: seq<Round>): nat {
    if rounds == [] then 0
    else Readables(rounds[..|rounds| - 1]) + if rounds[|rounds| - 1].Readable? then 1 else 0
  }

  /** Every readable round delivers something until all is delivered. */
  lemma {:induction false} DeliveredAtLeast(rounds: seq<Round>, total: nat, i: nat)
    requires i <= |rounds|
    ensures Delivered(rounds, total, i) == total || Delivered(rounds, total, i) >= Readables(rounds[..i])
  {
    if i == 0 {
    } else {
      DeliveredAtLeast(rounds, total, i - 1);
      assert rounds[..i][..i - 1] == rounds[..i - 1];
    }
  }

  lemma {:induction false} LastReadable(rounds: seq<Round>) returns (i: nat)
    requires Readables(rounds) > 0
    ensures i < |rounds| && rounds[i].Readable? && Readables(rounds[..i]) == Readables(rounds) - 1
  {
    var init := rounds[..|rounds| - 1];
    if rounds[|rounds| - 1].Readable? {
      i := |rounds| - 1;
    } else {
      i := LastReadable(init);
      assert init[..i] == rounds[..i];
    }
  }

  lemma {:induction false} SomeEndsFirst(rounds: seq<Round>, total: nat, i: nat) returns (k: nat)
    requires i < |rounds| && Ends(rounds, total, i)
    ensures k <= i && EndsFirst(rounds, total, k)
  {
    if j :| 0 <= j < i && Ends(rounds, total, j) {
      k := SomeEndsFirst(rounds, total, j);
    } else {
      k := i;
    }
  }

  /** More readable rounds than there are characters, and none that fails, always capture the output. */
  lemma EnoughReads(rounds: seq<Round>, total: nat)
    requires Readables(rounds) > total
    requires forall i :: 0 <= i < |rounds| ==> rounds[i].Readable? || rounds[i].Interrupted?
    ensures Captured(rounds, total)
  {
    var i := LastReadable(rounds);
    DeliveredAtLeast(rounds, total, i);
    var k := SomeEndsFirst(rounds, total, i);
  }

  // ---------------------------------------------------------------- the whole run

  /** How the child ended. */
  datatype Status = Exited(code: int) | Signalled

  /** One call: no pipe, no child, or a child with what is read from it, how it ends, and whether waitpid works. */
  datatype Spawn = NoPipe | NoFork | Child(rounds: seq<Round>, output: string, status: Status, waited: bool)

  /** What the caller sees: the return value and, if it passed a buffer, the text in it; None when it is not touched. */
  datatype Reply = Reply(ret: int, text: Option<string>)

  /**
   run_external_process. A child that is still running when the time is up is killed. The
   call fails when a child exits with a non-zero code or cannot be waited for, but not when
   it is killed, and not when there is no child at all.
   */
  method RunExternalProcess(spawn: Spawn) returns (reply: Reply)
    ensures reply.ret == 0 <==>
            spawn.NoFork? || (spawn.Child? && spawn.waited && (spawn.status.Signalled? || spawn.status.code == 0))
    ensures forall written :: reply.ret == 0 <==> HelperRunOf(spawn, written).success
    ensures spawn.Child? <==> reply.text.Some?
    ensures spawn.Child? ==>
              var kept := spawn.output[..Min(|spawn.output|, EXTERNAL_BUFFER_MAX - 1)];
              reply.text == Some(if Captured(spawn.rounds, |spawn.output|) then kept else "")
  {
    if spawn.NoPipe? { return Reply(-1, None); }
    if spawn.NoFork? { return Reply(0, None); }
    var internal := new char[EXTERNAL_BUFFER_MAX];
    var ret := ReadChildStdout(spawn.rounds, spawn.output, internal);
    var text := "";
    if ret == 0 {
      text := internal[..Min(|spawn.output|, EXTERNAL_BUFFER_MAX - 1)];
    }
    if !spawn.waited { return Reply(-1, Some(text)); }
    if spawn.status.Exited? && spawn.status.code != 0 { return Reply(-1, Some(text)); }
    return Reply(0, Some(text));
  }

  /**
   What a call comes to for a setting, if the child wrote these files before its end: the daemon
   sees a success also when no helper ran to its end.
   */
  function HelperRunOf(spawn: Spawn, written: set<nat>): HelperRun {
    match spawn
    case NoPipe => HelperRun({}, false)
    case NoFork => HelperRun({}, true)
    case Child(_, _, status, waited) => HelperRun(written, waited && (status.Exited? ==> status.code == 0))
  }
}
