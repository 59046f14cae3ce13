/**
 The priorities of one client's tasks from its registration to its removal, through any number
 of reloads that find any clients registered and any new configuration.
 */
module Sessions {
  import opened Common
  import opened Config
  import opened Context
  import opened Priority

  /** A reload: the configuration it reads, and the clients registered at the time. */
  datatype Reloading = Reloading(values: Values, pids: seq<int>)

  /** From a client's registration on: the reloads in turn, and its removal. */
  function UntilRemoved(t: Levels, v: Values, reloads: seq<Reloading>, client: int, runs: int -> TaskRuns): Levels
    decreases |reloads|
  {
    if reloads == [] then Removed(t, v, runs(client))
    else
      var r := reloads[0];
      var again := AppliedToAll(RemovedFromAll(t, v, r.pids, runs), r.values, r.pids, runs);
      UntilRemoved(again, r.values, reloads[1..], client, runs)
  }

  /** A whole registration: GameModeContext.Register, each Reload and Unregister say what they do in these terms. */
  function Session(t: Levels, v: Values, reloads: seq<Reloading>, client: int, runs: int -> TaskRuns): Levels {
    UntilRemoved(Applied(t, v, runs(client)), v, reloads, client, runs)
  }

  /** The client is registered all the time. */
  predicate Stays(reloads: seq<Reloading>, client: int) {
    forall i :: 0 <= i < |reloads| ==> client in reloads[i].pids
  }

  // ---------------------------------------------------------------- nice levels

  /** The task is the client's, and nobody else's, and its nice level can be set. */
  ghost predicate NiceIsOf(task: int, tids: seq<int>, client: int, runs: int -> TaskRuns) {
    && runs(client).forNice == Some(tids) && task in tids && task !in runs(client).refusedNice
    && forall p :: p != client && runs(p).forNice.Some? ==> task !in runs(p).forNice.value
  }

  function Lowered(x: int, r: int): int {
    if x == 0 then -r else x
  }

  function Raised(x: int, r: int): int {
    if x == -r then 0 else x
  }

  lemma NiceOneClient(t: Levels, v: Values, task: int, tids: seq<int>, client: int, p: int, runs: int -> TaskRuns)
    requires NiceIsOf(task, tids, client, runs) && task in t.nice
    ensures task in Applied(t, v, runs(p)).nice && task in Removed(t, v, runs(p)).nice
    ensures Applied(t, v, runs(p)).nice[task] == if p == client then Lowered(t.nice[task], NiceOf(v)) else t.nice[task]
    ensures Removed(t, v, runs(p)).nice[task] == if p == client then Raised(t.nice[task], NiceOf(v)) else t.nice[task]
  {
  }

  lemma {:induction false} NiceAllClients(t: Levels, v: Values, task: int, tids: seq<int>, client: int,
                                          pids: seq<int>, runs: int -> TaskRuns)
    requires NiceIsOf(task, tids, client, runs) && task in t.nice
    ensures task in AppliedToAll(t, v, pids, runs).nice && task in RemovedFromAll(t, v, pids, runs).nice
    ensures AppliedToAll(t, v, pids, runs).nice[task] ==
            if client in pids then Lowered(t.nice[task], NiceOf(v)) else t.nice[task]
    ensures RemovedFromAll(t, v, pids, runs).nice[task] ==
            if client in pids then Raised(t.nice[task], NiceOf(v)) else t.nice[task]
  {
    if pids == [] {
    } else {
      var init, last := pids[..|pids| - 1], pids[|pids| - 1];
      assert client in pids <==> client in init || client == last;
      NiceAllClients(t, v, task, tids, client, init, runs);
      NiceOneClient(AppliedToAll(t, v, init, runs), v, task, tids, client, last, runs);
      NiceOneClient(RemovedFromAll(t, v, init, runs), v, task, tids, client, last, runs);
    }
  }

  /** No configuration of a registration has this level. */
  predicate NiceClear(x: int, v: Values, reloads: seq<Reloading>) {
    x != -NiceOf(v) && forall i :: 0 <= i < |reloads| ==> x != -NiceOf(reloads[i].values)
  }

  lemma NiceClearFirst(x: int, v: Values, reloads: seq<Reloading>)
    requires reloads != []
    ensures NiceClear(x, v, reloads) <==> x != -NiceOf(v) && NiceClear(x, reloads[0].values, reloads[1..])
  {
    var rest := reloads[1..];
    assert forall i :: 0 < i < |reloads| ==> reloads[i] == rest[i - 1];
  }

  /** While the client is registered, with x for the level its task would go back to. */
  lemma {:induction false} NiceUntilRemoved(t: Levels, v: Values, reloads: seq<Reloading>, task: int, tids: seq<int>,
                                            client: int, runs: int -> TaskRuns, x: int)
    requires NiceIsOf(task, tids, client, runs) && Stays(reloads, client)
    requires task in t.nice && t.nice[task] == Lowered(x, NiceOf(v))
    ensures var after := UntilRemoved(t, v, reloads, client, runs).nice;
            && task in after && (after[task] == x || after[task] == 0)
            && (after[task] == x <==>
                x == 0 || NiceClear(x, v, reloads))
    decreases |reloads|
  {
    if reloads == [] {
      NiceOneClient(t, v, task, tids, client, client, runs);
    } else {
      var r, rest := reloads[0], reloads[1..];
      NiceAllClients(t, v, task, tids, client, r.pids, runs);
      var removed := RemovedFromAll(t, v, r.pids, runs);
      NiceAllClients(removed, r.values, task, tids, client, r.pids, runs);
      var again := AppliedToAll(removed, r.values, r.pids, runs);
      NiceClearFirst(x, v, reloads);
      NiceUntilRemoved(again, r.values, rest, task, tids, client, runs, Raised(Lowered(x, NiceOf(v)), NiceOf(v)));
    }
  }

  /** The renice values of a whole registration, as configured. */
  function Renices(v: Values, reloads: seq<Reloading>): (r: seq<int>)
    ensures |r| == |reloads| + 1 && r[0] == LongOf(v, Renice)
    ensures forall i :: 0 <= i < |reloads| ==> r[i + 1] == LongOf(reloads[i].values, Renice)
  {
    [LongOf(v, Renice)] + seq(|reloads|, i requires 0 <= i < |reloads| => LongOf(reloads[i].values, Renice))
  }

  /**
   What the daemon does to a task between its client's registration and removal, with reloads
   that find other clients too, is NiceSession under the values configured meanwhile; so
   NiceSessionIff says exactly when the task has its level back.
   */
  lemma {:induction false} SessionIsNiceSession(t: Levels, v: Values, reloads: seq<Reloading>, task: int,
                                                tids: seq<int>, client: int, runs: int -> TaskRuns)
    requires NiceIsOf(task, tids, client, runs) && Stays(reloads, client) && task in t.nice
    ensures var after := Session(t, v, reloads, client, runs).nice;
            task in after && after[task] == NiceSession(t.nice, tids, Renices(v, reloads))[task]
  {
    var x, values := t.nice[task], Renices(v, reloads);
    NiceOneClient(t, v, task, tids, client, client, runs);
    NiceUntilRemoved(Applied(t, v, runs(client)), v, reloads, task, tids, client, runs, x);
    NoneOfRenices(x, v, reloads);
    NiceSessionIff(t.nice, tids, values, task);
  }

  lemma NoneOfRenices(x: int, v: Values, reloads: seq<Reloading>)
    ensures (forall n :: n in Renices(v, reloads) ==> x != -ConfigRenice(n)) <==> NiceClear(x, v, reloads)
  {
    var values := Renices(v, reloads);
    if forall n :: n in values ==> x != -ConfigRenice(n) {
      assert values[0] in values;
      forall i | 0 <= i < |reloads| ensures x != -NiceOf(reloads[i].values) {
        assert values[i + 1] in values;
      }
    }
    if NiceClear(x, v, reloads) {
      forall n | n in values ensures x != -ConfigRenice(n) {
        var k :| 0 <= k < |values| && values[k] == n;
        assert k > 0 ==> n == LongOf(reloads[k - 1].values, Renice);
      }
    }
  }

  // ---------------------------------------------------------------- i/o priorities

  /** The task is the client's, and nobody else's, and its i/o priority can be set. */
  ghost predicate IoprioIsOf(task: int, tids: seq<int>, unreadable: set<int>, client: int, runs: int -> TaskRuns) {
    && runs(client).forIoprio == Some(tids) && task in tids
    && runs(client).ioprioFaults.unreadable == unreadable && task !in runs(client).ioprioFaults.refused
    && forall p :: p != client && runs(p).forIoprio.Some? ==> task !in runs(p).forIoprio.value
  }

  /** The level a configured c leaves the task at, and the one its removal does. */
  function Moved(x: bv32, c: bv32, readable: bool): bv32 {
    if x == IOPRIO_DEFAULT && readable then c else x
  }

  function MovedBack(x: bv32, c: bv32, readable: bool): bv32 {
    if x == c && readable then IOPRIO_DEFAULT else x
  }

  lemma IoprioOneClient(t: Levels, v: Values, task: int, tids: seq<int>, unreadable: set<int>,
                        client: int, p: int, runs: int -> TaskRuns)
    requires IoprioIsOf(task, tids, unreadable, client, runs) && task in t.ioprio
    ensures task in Applied(t, v, runs(p)).ioprio && task in Removed(t, v, runs(p)).ioprio
    ensures var x := Level(t.ioprio, task);
            && Level(Applied(t, v, runs(p)).ioprio, task) ==
               (if p == client then Moved(x, IoprioOf(v), task !in unreadable) else x)
            && Level(Removed(t, v, runs(p)).ioprio, task) ==
               (if p == client then MovedBack(x, IoprioOf(v), task !in unreadable) else x)
  {
    PrioBits(IoprioOf(v));
    PrioBits(IOPRIO_DEFAULT);
  }

  lemma {:induction false} IoprioAllClients(t: Levels, v: Values, task: int, tids: seq<int>, unreadable: set<int>,
                                            client: int, pids: seq<int>, runs: int -> TaskRuns)
    requires IoprioIsOf(task, tids, unreadable, client, runs) && task in t.ioprio
    ensures task in AppliedToAll(t, v, pids, runs).ioprio && task in RemovedFromAll(t, v, pids, runs).ioprio
    ensures var x := Level(t.ioprio, task);
            && Level(AppliedToAll(t, v, pids, runs).ioprio, task) ==
               (if client in pids then Moved(x, IoprioOf(v), task !in unreadable) else x)
            && Level(RemovedFromAll(t, v, pids, runs).ioprio, task) ==
               (if client in pids then MovedBack(x, IoprioOf(v), task !in unreadable) else x)
  {
    if pids == [] {
    } else {
      var init, last := pids[..|pids| - 1], pids[|pids| - 1];
      assert client in pids <==> client in init || client == last;
      IoprioAllClients(t, v, task, tids, unreadable, client, init, runs);
      IoprioOneClient(AppliedToAll(t, v, init, runs), v, task, tids, unreadable, client, last, runs);
      IoprioOneClient(RemovedFromAll(t, v, init, runs), v, task, tids, unreadable, client, last, runs);
    }
  }

  /** No configuration of a registration has this level. */
  predicate IoprioClear(x: bv32, v: Values, reloads: seq<Reloading>) {
    x != IoprioOf(v) && forall i :: 0 <= i < |reloads| ==> x != IoprioOf(reloads[i].values)
  }

  lemma IoprioClearFirst(x: bv32, v: Values, reloads: seq<Reloading>)
    requires reloads != []
    ensures IoprioClear(x, v, reloads) <==> x != IoprioOf(v) && IoprioClear(x, reloads[0].values, reloads[1..])
  {
    var rest := reloads[1..];
    assert forall i :: 0 < i < |reloads| ==> reloads[i] == rest[i - 1];
  }

  lemma IoprioReloaded(t: Levels, v: Values, r: Reloading, task: int, tids: seq<int>, unreadable: set<int>,
                       client: int, runs: int -> TaskRuns, x: bv32) returns (again: Levels)
    requires IoprioIsOf(task, tids, unreadable, client, runs) && client in r.pids
    requires task in t.ioprio && Level(t.ioprio, task) == Moved(x, IoprioOf(v), task !in unreadable)
    ensures again == AppliedToAll(RemovedFromAll(t, v, r.pids, runs), r.values, r.pids, runs) && task in again.ioprio
    ensures var back := MovedBack(x, IoprioOf(v), task !in unreadable);
            Level(again.ioprio, task) == Moved(back, IoprioOf(r.values), task !in unreadable)
  {
    IoprioAllClients(t, v, task, tids, unreadable, client, r.pids, runs);
    var removed := RemovedFromAll(t, v, r.pids, runs);
    IoprioAllClients(removed, r.values, task, tids, unreadable, client, r.pids, runs);
    again := AppliedToAll(removed, r.values, r.pids, runs);
  }

  /** While the client is registered, with x for the level its task would go back to. */
  lemma {:induction false} IoprioUntilRemoved(t: Levels, v: Values, reloads: seq<Reloading>, task: int, tids: seq<int>,
                                              unreadable: set<int>, client: int, runs: int -> TaskRuns, x: bv32)
    requires IoprioIsOf(task, tids, unreadable, client, runs) && Stays(reloads, client)
    requires task in t.ioprio && Level(t.ioprio, task) == Moved(x, IoprioOf(v), task !in unreadable)
    ensures var after := UntilRemoved(t, v, reloads, client, runs).ioprio;
            && task in after && (Level(after, task) == x || Level(after, task) == IOPRIO_DEFAULT)
            && (Level(after, task) == x <==>
                x == IOPRIO_DEFAULT || task in unreadable || IoprioClear(x, v, reloads))
    decreases |reloads|
  {
    if reloads == [] {
      IoprioOneClient(t, v, task, tids, unreadable, client, client, runs);
    } else {
      var r, rest, back := reloads[0], reloads[1..], MovedBack(x, IoprioOf(v), task !in unreadable);
      var again := IoprioReloaded(t, v, r, task, tids, unreadable, client, runs, x);
      IoprioClearFirst(x, v, reloads);
      IoprioUntilRemoved(again, r.values, rest, task, tids, unreadable, client, runs, back);
    }
  }

  /** The levels of a whole registration, as configured. */
  function Ioprios(v: Values, reloads: seq<Reloading>): (r: seq<bv32>)
    ensures |r| == |reloads| + 1 && r[0] == IoprioOf(v)
    ensures forall i :: 0 <= i < |reloads| ==> r[i + 1] == IoprioOf(reloads[i].values)
  {
    [IoprioOf(v)] + seq(|reloads|, i requires 0 <= i < |reloads| => IoprioOf(reloads[i].values))
  }

  /** The same for i/o priorities and IoprioSession. */
  lemma {:induction false} SessionIsIoprioSession(t: Levels, v: Values, reloads: seq<Reloading>, task: int,
                                                  tids: seq<int>, unreadable: set<int>,
                                                  client: int, runs: int -> TaskRuns)
    requires IoprioIsOf(task, tids, unreadable, client, runs) && Stays(reloads, client) && task in t.ioprio
    ensures var after := Session(t, v, reloads, client, runs).ioprio;
            && task in after
            && Level(after, task) == Level(IoprioSession(t.ioprio, tids, Ioprios(v, reloads), unreadable), task)
  {
    var x, levels := Level(t.ioprio, task), Ioprios(v, reloads);
    IoprioOneClient(t, v, task, tids, unreadable, client, client, runs);
    IoprioUntilRemoved(Applied(t, v, runs(client)), v, reloads, task, tids, unreadable, client, runs, x);
    NoneOfIoprios(x, v, reloads);
    IoprioSessionIff(t.ioprio, tids, levels, unreadable, task);
  }

  lemma NoneOfIoprios(x: bv32, v: Values, reloads: seq<Reloading>)
    ensures forall c :: c in Ioprios(v, reloads) ==> c <= 7
    ensures x !in Ioprios(v, reloads) <==> IoprioClear(x, v, reloads)
  {
    var levels := Ioprios(v, reloads);
    forall k | 0 <= k < |levels| ensures levels[k] == if k == 0 then IoprioOf(v) else IoprioOf(reloads[k - 1].values) {
    }
    if x !in levels {
      assert levels[0] in levels;
      forall i | 0 <= i < |reloads| ensures x != IoprioOf(reloads[i].values) {
        assert levels[i + 1] in levels;
      }
    }
  }
}
