/**
 The daemon as its callers see it: clients register and unregister, ask for the status,
 restart game mode and reload the configuration, and the reaper expires dead clients. Each
 operation is one step here; the module Interleaving takes them apart.
 */
module Context {
  import opened Clients
  import opened Common
  import opened Config
  import opened CoreRuns
  import opened CpuList
  import opened CpuPark
  import opened Governor
  import opened Mode
  import opened Priority

  // ---------------------------------------------------------------- what the configuration says

  function SettingsOf(v: Values): Settings {
    Settings(
      Names(StringOf(v, DefaultGov), StringOf(v, DesiredGov), StringOf(v, IgpuDesiredGov)),
      Names(StringOf(v, DefaultProf), StringOf(v, DesiredProf), ""),
      v.threshold, StringOf(v, PinCores), StringOf(v, ParkCores))
  }

  function NiceOf(v: Values): (r: int)
    ensures 0 <= r <= 20
  {
    ConfigRenice(LongOf(v, Renice))
  }

  /** A long cut to an int. */
  function ToInt(n: int): int {
    (n + 0x8000_0000) % 0x1_0000_0000 - 0x8000_0000
  }

  function IoprioOf(v: Values): (r: bv32)
    ensures r <= 7
  {
    var text := StringOf(v, Ioprio);
    var setting := if text == "off" then IoprioSetting.Off
                   else if text == "default" then IoprioSetting.ResetDefault
                   else IoprioSetting.Number(ToInt(Strtol(text).value));
    ConfigIoprio(setting) as bv32
  }

  predicate Blacklisted(entries: seq<string>, executable: string) {
    exists e :: e in entries && Occurs(e, executable)
  }

  /** The check of a requester other than the client; None when its executable is not found. */
  function SupervisorGate(v: Values, requester: Option<string>): int {
    if requester.None? then -1
    else if !Admits(ListOf(v, SupervisorWhitelist), requester.value) then -2
    else if Blacklisted(ListOf(v, SupervisorBlacklist), requester.value) then -2
    else 0
  }

  /** The check at the start of register and unregister. */
  function RequesterGate(v: Values, client: int, requester: int, requesterExe: Option<string>): int {
    if requester != client then SupervisorGate(v, requesterExe)
    else if LongOf(v, RequireSupervisor) != 0 then -2
    else 0
  }

  /** The check of the client's own executable. */
  predicate ClientRejected(v: Values, client: Option<string>) {
    || client.None?
    || !Admits(ListOf(v, Whitelist), client.value)
    || Blacklisted(ListOf(v, Blacklist), client.value)
  }

  /** What register returns, given the pids already registered. */
  function RegisterVerdict(v: Values, known: seq<int>, client: int, requester: int,
                           requesterExe: Option<string>, clientExe: Option<string>, memory: bool): int
  {
    var gate := RequesterGate(v, client, requester, requesterExe);
    if gate != 0 then gate
    else if client in known || ClientRejected(v, clientExe) || !memory then -1
    else 0
  }

  function UnregisterVerdict(v: Values, known: seq<int>, client: int, requester: int,
                             requesterExe: Option<string>): int {
    var gate := RequesterGate(v, client, requester, requesterExe);
    if gate != 0 then gate else if client in known then 0 else -1
  }

  // ---------------------------------------------------------------- pids and tasks

  /** The pids that are not in `gone`, in order. */
  function Minus(pids: seq<int>, gone: set<int>): seq<int> {
    if pids == [] then []
    else (if pids[0] in gone then [] else [pids[0]]) + Minus(pids[1..], gone)
  }

  /** The pids that are in `wanted`, in order. */
  function Only(pids: seq<int>, wanted: set<int>): seq<int> {
    if pids == [] then []
    else (if pids[0] in wanted then [pids[0]] else []) + Only(pids[1..], wanted)
  }

  lemma {:induction false} MinusSplit(a: seq<int>, b: seq<int>, gone: set<int>)
    ensures Minus(a + b, gone) == Minus(a, gone) + Minus(b, gone)
    ensures Only(a + b, gone) == Only(a, gone) + Only(b, gone)
  {
    if a == [] {
      AddNothing(b);
      AddNothing(Minus(b, gone));
      AddNothing(Only(b, gone));
    } else {
      TailOfSum(a, b);
      MinusSplit(a[1..], b, gone);
      var out, in_ := if a[0] in gone then [] else [a[0]], if a[0] in gone then [a[0]] else [];
      AddAssociates(out, Minus(a[1..], gone), Minus(b, gone));
      AddAssociates(in_, Only(a[1..], gone), Only(b, gone));
    }
  }

  lemma {:induction false} MinusNone(pids: seq<int>, gone: set<int>)
    requires forall i :: 0 <= i < |pids| ==> pids[i] !in gone
    ensures Minus(pids, gone) == pids && Only(pids, gone) == []
  {
    if pids == [] {
    } else {
      MinusNone(pids[1..], gone);
      assert Only(pids, gone) == [] + Only(pids[1..], gone);
      assert pids == [pids[0]] + pids[1..];
    }
  }

  /** Taking out the first dead pid, and the rest of the dead ones afterwards. */
  lemma MinusFirst(pids: seq<int>, dead: set<int>, k: nat)
    requires k < |pids| && pids[k] in dead && forall i :: 0 <= i < k ==> pids[i] !in dead
    ensures Minus(pids, dead) == Minus(Without(pids, k), dead)
    ensures Only(pids, dead) == [pids[k]] + Only(Without(pids, k), dead)
  {
    assert pids == pids[..k] + ([pids[k]] + pids[k + 1..]);
    MinusSplit(pids[..k], [pids[k]] + pids[k + 1..], dead);
    MinusSplit([pids[k]], pids[k + 1..], dead);
    MinusSplit(pids[..k], pids[k + 1..], dead);
    MinusNone(pids[..k], dead);
  }

  /** Taking out the one pid at position k. */
  lemma MinusOne(pids: seq<int>, k: nat)
    requires Distinct(pids) && k < |pids|
    ensures Minus(pids, {pids[k]}) == Without(pids, k)
  {
    DistinctWithout(pids, k);
    MinusNone(Without(pids, k), {pids[k]});
    MinusFirst(pids, {pids[k]}, k);
  }

  lemma TakenPids(nodes: seq<Client>, k: nat)
    requires k < |nodes| && Distinct(PidsOf(nodes))
    ensures PidsOf(Without(nodes, k)) == Minus(PidsOf(nodes), {nodes[k].pid})
  {
    MinusOne(PidsOf(nodes), k);
    PidsWithout(nodes, k);
  }

  /** The nice levels and i/o priorities of all tasks. */
  datatype Levels = Levels(nice: map<int, int>, ioprio: map<int, bv32>)

  /** How setting the priorities of one client turns out: its tasks as listed, and the calls that fail. */
  datatype TaskRuns = TaskRuns(forNice: Option<seq<int>>, forIoprio: Option<seq<int>>, refusedNice: set<int>,
                               ioprioFaults: IoprioFaults)

  function Applied(t: Levels, v: Values, runs: TaskRuns): Levels {
    Levels(
      NiceAfter(t.nice, runs.forNice, NiceOf(v), 0, runs.refusedNice),
      IoprioAfter(t.ioprio, runs.forIoprio, IoprioOf(v), IOPRIO_DEFAULT, runs.ioprioFaults))
  }

  function Removed(t: Levels, v: Values, runs: TaskRuns): Levels {
    Levels(
      NiceAfter(t.nice, runs.forNice, NiceOf(v), NiceOf(v), runs.refusedNice),
      IoprioAfter(t.ioprio, runs.forIoprio, IoprioOf(v), IoprioOf(v), runs.ioprioFaults))
  }

  function AppliedToAll(t: Levels, v: Values, pids: seq<int>, runs: int -> TaskRuns): Levels {
    if pids == [] then t
    else Applied(AppliedToAll(t, v, pids[..|pids| - 1], runs), v, runs(pids[|pids| - 1]))
  }

  function RemovedFromAll(t: Levels, v: Values, pids: seq<int>, runs: int -> TaskRuns): Levels {
    if pids == [] then t
    else Removed(RemovedFromAll(t, v, pids[..|pids| - 1], runs), v, runs(pids[|pids| - 1]))
  }

  /** The pids after one round of expiry; with require_supervisor set the daemon refuses itself. */
  function Round(pids: seq<int>, dead: set<int>, required: bool): seq<int> {
    if required || Only(pids, dead) == [] then pids else Minus(pids, {Only(pids, dead)[0]})
  }

  function Rounds(pids: seq<int>, dead: set<int>, required: bool, n: nat): seq<int>
    decreases n
  {
    if n == 0 then pids else Rounds(Round(pids, dead, required), dead, required, n - 1)
  }

  /** A list with a dead pid has a first one. */
  lemma {:induction false} FirstOfOnly(pids: seq<int>, dead: set<int>) returns (k: nat)
    requires Only(pids, dead) != []
    ensures k < |pids| && pids[k] in dead && forall i :: 0 <= i < k ==> pids[i] !in dead
  {
    if pids[0] in dead {
      k := 0;
    } else {
      AddNothing(Only(pids[1..], dead));
      k := FirstOfOnly(pids[1..], dead);
      k := k + 1;
    }
  }

  /** A round takes away exactly the first dead pid. */
  lemma RoundTakesFirst(pids: seq<int>, dead: set<int>) returns (k: nat)
    requires Distinct(pids) && Only(pids, dead) != []
    ensures k < |pids| && Round(pids, dead, false) == Without(pids, k)
    ensures Only(pids, dead) == [pids[k]] + Only(Without(pids, k), dead)
  {
    k := FirstOfOnly(pids, dead);
    MinusFirst(pids, dead, k);
    MinusOne(pids, k);
  }

  /** As many rounds as there are dead clients find none left. */
  lemma {:induction false} EnoughRounds(pids: seq<int>, dead: set<int>)
    requires Distinct(pids)
    ensures Only(Rounds(pids, dead, false, |Only(pids, dead)|), dead) == []
    decreases |Only(pids, dead)|
  {
    if Only(pids, dead) != [] {
      var k := RoundTakesFirst(pids, dead);
      DistinctWithout(pids, k);
      EnoughRounds(Without(pids, k), dead);
    }
  }

  lemma {:induction false} RefusedRounds(pids: seq<int>, dead: set<int>, n: nat)
    ensures Rounds(pids, dead, true, n) == pids
  {
    if n == 0 {
    } else {
      RefusedRounds(pids, dead, n - 1);
    }
  }

  /**
   Expiry ends exactly when require_supervisor is unset or nobody is dead: with it set, the
   daemon's own request to unregister a dead client is refused, and every round is the same.
   */
  lemma ExpiryEndsIff(pids: seq<int>, dead: set<int>, required: bool)
    requires Distinct(pids)
    ensures (exists n: nat :: Only(Rounds(pids, dead, required, n), dead) == []) <==>
            !required || Only(pids, dead) == []
  {
    if required {
      forall n: nat ensures Rounds(pids, dead, required, n) == pids {
        RefusedRounds(pids, dead, n);
      }
      assert Rounds(pids, dead, required, 0) == pids;
    } else {
      EnoughRounds(pids, dead);
    }
  }

  lemma RemovedOneMore(t: Levels, v: Values, done: seq<int>, next: seq<int>, runs: int -> TaskRuns)
    requires |next| == 1
    ensures RemovedFromAll(t, v, done + next, runs) == Removed(RemovedFromAll(t, v, done, runs), v, runs(next[0]))
  {
    assert (done + next)[..|done|] == done;
  }

  lemma AppliedOneMore(t: Levels, v: Values, done: seq<int>, next: seq<int>, runs: int -> TaskRuns)
    requires |next| == 1
    ensures AppliedToAll(t, v, done + next, runs) == Applied(AppliedToAll(t, v, done, runs), v, runs(next[0]))
  {
    assert (done + next)[..|done|] == done;
  }

  lemma PrefixOneMore<T>(s: seq<T>, i: nat)
    requires i < |s|
    ensures s[..i + 1] == s[..i] + [s[i]]
  {
  }

  /** The registered pids, the context's count and the calls made. */
  datatype Membership = Membership(pids: seq<int>, count: int, calls: seq<Call>)

  /** A registration: a new pid at the head, counted, and an enter for the first. */
  function WithMember(m: Membership, pid: int): Membership {
    Membership([pid] + m.pids, m.count + 1, if m.count == 0 then m.calls + [Entered] else m.calls)
  }

  /** A removal: that pid is out, counted, and a leave for the last. */
  function WithoutMember(m: Membership, pid: int): Membership {
    Membership(Minus(m.pids, {pid}), m.count - 1, if m.count == 1 then m.calls + [Left] else m.calls)
  }

  /** How the helpers of one reload turn out, and what it finds under /sys besides the online cores. */
  datatype ReloadRuns = ReloadRuns(leave: LeaveRuns, again: CoreHelper, look: Look, enter: EnterRuns)

  /** The machine after a reload: left before and entered again after it if there are clients. */
  function AfterReload(s: Snapshot, clients: bool, before: Settings, now: Settings, runs: ReloadRuns,
                       n: nat): Snapshot
  {
    var left := if clients then AfterLeave(s, before, runs.leave) else s;
    var again := AfterReconfig(left, now, runs.again, runs.look, n);
    if clients then AfterEnter(again, now, runs.enter) else again
  }

  // ---------------------------------------------------------------- the daemon

  /** struct GameModeContext, its list of clients apart and its settings apart. */
  class GameModeContext {
    const registry: Registry
    const mode: GameMode
    const tasks: Tasks
    var values: Values

    /** Game mode is entered exactly when there is a client, and works with the current configuration. */
    ghost predicate Valid()
      reads this, registry, registry.known, mode, mode.machine
    {
      && registry.Valid()
      && mode.Valid()
      && (mode.Active() <==> registry.nodes != [])
      && mode.settings == SettingsOf(values)
    }

    ghost function Pids(): seq<int>
      reads registry`nodes
    {
      PidsOf(registry.nodes)
    }

    ghost function Members(): Membership
      reads registry`nodes, registry`refcount, mode`calls
    {
      Membership(Pids(), registry.refcount, mode.calls)
    }

    function TaskLevels(): Levels
      reads tasks
    {
      Levels(tasks.nice, tasks.ioprio)
    }

    constructor (mode: GameMode, tasks: Tasks, values: Values)
      requires mode.Valid() && !mode.Active() && mode.settings == SettingsOf(values)
      ensures Valid() && Pids() == [] && this.mode == mode && this.tasks == tasks && this.values == values
      ensures fresh(registry)
    {
      this.mode, this.tasks, this.values := mode, tasks, values;
      this.registry := new Registry();
    }

    /** game_mode_apply_client_optimisations, as far as priorities go */
    method ApplyClient(runs: TaskRuns)
      modifies tasks
      ensures TaskLevels() == Applied(old(TaskLevels()), values, runs)
    {
      ApplyRenice(tasks, runs.forNice, NiceOf(values), 0, runs.refusedNice);
      ApplyIoprio(tasks, runs.forIoprio, IoprioOf(values), IOPRIO_DEFAULT, runs.ioprioFaults);
    }

    /** game_mode_remove_client_optimisations, as far as priorities go */
    method RemoveClient(runs: TaskRuns)
      modifies tasks
      ensures TaskLevels() == Removed(old(TaskLevels()), values, runs)
    {
      ApplyIoprio(tasks, runs.forIoprio, IoprioOf(values), IoprioOf(values), runs.ioprioFaults);
      ApplyRenice(tasks, runs.forNice, NiceOf(values), NiceOf(values), runs.refusedNice);
    }

    /** game_mode_context_register */
    method Register(client: int, requester: int, requesterExe: Option<string>, clientExe: Option<string>,
                    memory: bool, runs: EnterRuns, taskRuns: TaskRuns)
      returns (ret: int)
      requires Valid()
      modifies registry, mode, mode.machine, tasks
      ensures Valid() && fresh(registry.known - old(registry.known))
      ensures ret == RegisterVerdict(values, old(Pids()), client, requester, requesterExe, clientExe, memory)
      ensures ret != 0 ==> unchanged(registry) && unchanged(mode) && unchanged(mode.machine) && unchanged(tasks)
      ensures ret == 0 ==>
                && Members() == WithMember(old(Members()), client)
                && Pids() == [client] + old(Pids())
                && registry.nodes[1..] == old(registry.nodes) && registry.nodes[0].requester == requester
                && mode.calls == (if old(Pids()) == [] then old(mode.calls) + [Entered] else old(mode.calls))
                && mode.State() == (if old(Pids()) == [] then AfterEnter(old(mode.State()), SettingsOf(values), runs)
                                    else old(mode.State()))
                && TaskLevels() == Applied(old(TaskLevels()), values, taskRuns)
    {
      var gate := RequesterGate(values, client, requester, requesterExe);
      if gate != 0 { return gate; }
      var existing := registry.HasClient(client);
      if existing { return -1; }
      if ClientRejected(values, clientExe) { return -1; }
      if !memory { return -1; }
      Admit(client, requester, runs, taskRuns);
      return 0;
    }

    /** The part of a registration under the lock. */
    method Admit(client: int, requester: int, runs: EnterRuns, taskRuns: TaskRuns)
      requires Valid() && client !in Pids()
      modifies registry, mode, mode.machine, tasks
      ensures Valid() && fresh(registry.known - old(registry.known))
      ensures Members() == WithMember(old(Members()), client)
      ensures Pids() == [client] + old(Pids())
      ensures registry.nodes[1..] == old(registry.nodes) && registry.nodes[0].requester == requester
      ensures mode.calls == (if old(Pids()) == [] then old(mode.calls) + [Entered] else old(mode.calls))
      ensures mode.State() == if old(Pids()) == [] then AfterEnter(old(mode.State()), SettingsOf(values), runs)
                              else old(mode.State())
      ensures TaskLevels() == Applied(old(TaskLevels()), values, taskRuns)
    {
      Insert(client, requester, runs);
      ApplyClient(taskRuns);
    }

    /** A new client at the head, and an enter if it is the first. */
    method Insert(client: int, requester: int, runs: EnterRuns)
      requires Valid() && client !in Pids()
      modifies registry, mode, mode.machine
      ensures Valid() && fresh(registry.known - old(registry.known))
      ensures registry.held == old(registry.held)
      ensures Members() == WithMember(old(Members()), client)
      ensures Pids() == [client] + old(Pids())
      ensures registry.nodes[1..] == old(registry.nodes) && registry.nodes[0].requester == requester
      ensures mode.calls == (if old(Pids()) == [] then old(mode.calls) + [Entered] else old(mode.calls))
      ensures mode.State() == if old(Pids()) == [] then AfterEnter(old(mode.State()), SettingsOf(values), runs)
                              else old(mode.State())
    {
      var first := Attach(client, requester);
      if first { mode.Enter(runs); }
    }

    /** The part of a registration that is about the list. */
    method Attach(client: int, requester: int) returns (first: bool)
      requires registry.Valid() && client !in Pids()
      modifies registry
      ensures registry.Valid() && fresh(registry.known - old(registry.known)) && registry.held == old(registry.held)
      ensures Pids() == [client] + old(Pids())
      ensures registry.nodes[1..] == old(registry.nodes) && registry.nodes[0].requester == requester
      ensures first <==> old(Pids()) == []
    {
      var cl := new Client(client, requester);
      first := registry.LinkFirst(cl);
    }

    /**
     No client came into the list, and lookups hold what they held. With Valid() this says that
     the clients that left the list are freed, except those that a lookup still holds.
     */
    twostate predicate OnlyRemoved()
      reads registry
    {
      && registry.held == old(registry.held)
      && forall c :: c in registry.nodes ==> c in old(registry.nodes)
    }

    /** game_mode_context_unregister */
    method Unregister(client: int, requester: int, requesterExe: Option<string>, runs: LeaveRuns, taskRuns: TaskRuns)
      returns (ret: int)
      requires Valid()
      modifies registry, registry.known, mode, mode.machine, tasks
      ensures Valid() && registry.known == old(registry.known) && OnlyRemoved()
      ensures ret == UnregisterVerdict(values, old(Pids()), client, requester, requesterExe)
      ensures ret != 0 ==> Pids() == old(Pids()) && mode.calls == old(mode.calls)
                           && mode.State() == old(mode.State()) && TaskLevels() == old(TaskLevels())
      ensures ret == 0 ==>
                && Members() == WithoutMember(old(Members()), client)
                && Pids() == Minus(old(Pids()), {client})
                && mode.calls == (if Pids() == [] then old(mode.calls) + [Left] else old(mode.calls))
                && mode.State() == (if Pids() == [] then AfterLeave(old(mode.State()), SettingsOf(values), runs)
                                    else old(mode.State()))
                && TaskLevels() == Removed(old(TaskLevels()), values, taskRuns)
    {
      var gate := RequesterGate(values, client, requester, requesterExe);
      if gate != 0 { return gate; }
      var found := Take(client, runs);
      if !found { return -1; }
      RemoveClient(taskRuns);
      return 0;
    }

    /** A client out of the list, and a leave if it was the last. */
    method Take(client: int, runs: LeaveRuns) returns (found: bool)
      requires Valid()
      modifies registry, registry.known, mode, mode.machine
      ensures Valid() && registry.known == old(registry.known) && OnlyRemoved()
      ensures found <==> client in old(Pids())
      ensures found ==> Members() == WithoutMember(old(Members()), client)
      ensures Pids() == if found then Minus(old(Pids()), {client}) else old(Pids())
      ensures mode.calls == if found && Pids() == [] then old(mode.calls) + [Left] else old(mode.calls)
      ensures mode.State() == if found && Pids() == [] then AfterLeave(old(mode.State()), SettingsOf(values), runs)
                              else old(mode.State())
    {
      var last;
      found, last := Detach(client);
      if last { mode.Leave(runs); }
    }

    /** The part of a removal that is about the list. */
    method Detach(client: int) returns (found: bool, last: bool)
      requires registry.Valid()
      modifies registry, registry.known
      ensures registry.Valid() && registry.known == old(registry.known) && OnlyRemoved()
      ensures found <==> client in old(Pids())
      ensures Pids() == if found then Minus(old(Pids()), {client}) else old(Pids())
      ensures registry.refcount == old(registry.refcount) - if found then 1 else 0
      ensures last <==> found && Pids() == []
    {
      ghost var before := registry.nodes;
      ghost var k;
      found, last, k := registry.Unlink(client);
      if found { TakenPids(before, k); }
    }

    /** game_mode_context_query_status */
    method QueryStatus(client: int, requester: int, requesterExe: Option<string>) returns (ret: int)
      requires Valid()
      ensures var gate := if client != requester then SupervisorGate(values, requesterExe) else 0;
              ret == if gate != 0 then gate
                     else if !mode.Active() then 0
                     else if client in Pids() then 2 else 1
    {
      ret := 0;
      if client != requester {
        var gate := SupervisorGate(values, requesterExe);
        if gate != 0 { return gate; }
      }
      if registry.refcount != 0 {
        ret := ret + 1;
        var found := registry.HasClient(client);
        if found { ret := ret + 1; }
      }
    }

    /** game_mode_context_restart, with the test of the count and the restart as one step */
    method Restart(requesterExe: Option<string>, leaveRuns: LeaveRuns, enterRuns: EnterRuns) returns (ret: int)
      requires Valid()
      modifies mode, mode.machine
      ensures Valid()
      ensures var gate := SupervisorGate(values, requesterExe);
              ret == if gate != 0 then gate else if old(Pids()) == [] then 1 else 0
      ensures ret != 0 ==> unchanged(mode) && unchanged(mode.machine)
      ensures ret == 0 ==>
                && mode.calls == old(mode.calls) + [Left] + [Entered]
                && var left := AfterLeave(old(mode.State()), SettingsOf(values), leaveRuns);
                   mode.State() == AfterEnter(left, SettingsOf(values), enterRuns)
    {
      var gate := SupervisorGate(values, requesterExe);
      if gate != 0 { return gate; }
      if registry.refcount == 0 { return 1; }
      mode.Leave(leaveRuns);
      mode.Enter(enterRuns);
      return 0;
    }

    /** The first loop of a reload: the old priorities of every client. */
    method RemoveAll(runs: int -> TaskRuns)
      requires Valid()
      modifies tasks
      ensures TaskLevels() == RemovedFromAll(old(TaskLevels()), values, Pids(), runs)
    {
      var cl := registry.client;
      ghost var i := 0;
      while cl != null
        invariant 0 <= i <= |registry.nodes| && cl == At(registry.nodes, i)
        invariant TaskLevels() == RemovedFromAll(old(TaskLevels()), values, Pids()[..i], runs)
        decreases |registry.nodes| - i
      {
        PrefixOneMore(Pids(), i);
        RemovedOneMore(old(TaskLevels()), values, Pids()[..i], [cl.pid], runs);
        RemoveClient(runs(cl.pid));
        cl := cl.next;
        i := i + 1;
      }
      assert Pids()[..i] == Pids();
    }

    /** The last loop of a reload: the new priorities of every client. */
    method ApplyAll(runs: int -> TaskRuns)
      requires Valid()
      modifies tasks
      ensures TaskLevels() == AppliedToAll(old(TaskLevels()), values, Pids(), runs)
    {
      var cl := registry.client;
      ghost var i := 0;
      while cl != null
        invariant 0 <= i <= |registry.nodes| && cl == At(registry.nodes, i)
        invariant TaskLevels() == AppliedToAll(old(TaskLevels()), values, Pids()[..i], runs)
        decreases |registry.nodes| - i
      {
        PrefixOneMore(Pids(), i);
        AppliedOneMore(old(TaskLevels()), values, Pids()[..i], [cl.pid], runs);
        ApplyClient(runs(cl.pid));
        cl := cl.next;
        i := i + 1;
      }
      assert Pids()[..i] == Pids();
    }

    /**
     game_mode_reload_config_internal: the old configuration's changes are undone before the
     new one is read, and the cpu info is read anew once the cores are unparked.
     */
    method Reload(newValues: Values, runs: ReloadRuns, removeRuns: int -> TaskRuns, applyRuns: int -> TaskRuns)
      requires Valid()
      modifies this`values, mode, mode.machine, tasks
      ensures Valid() && values == newValues
      ensures mode.State() == AfterReload(old(mode.State()), Pids() != [], SettingsOf(old(values)),
                                          SettingsOf(newValues), runs, mode.machine.possible)
      ensures mode.calls == if Pids() == [] then old(mode.calls) else old(mode.calls) + [Left] + [Entered]
      ensures var removed := RemovedFromAll(old(TaskLevels()), old(values), Pids(), removeRuns);
              TaskLevels() == AppliedToAll(removed, newValues, Pids(), applyRuns)
    {
      TearDown(runs.leave, removeRuns);
      GrowBack(newValues, runs, applyRuns);
    }

    /** The first part of a reload. */
    method TearDown(runs: LeaveRuns, removeRuns: int -> TaskRuns)
      requires Valid()
      modifies mode, mode.machine, tasks
      ensures mode.Valid() && !mode.Active()
      ensures mode.State() == if Pids() == [] then old(mode.State())
                              else AfterLeave(old(mode.State()), SettingsOf(values), runs)
      ensures mode.calls == if Pids() == [] then old(mode.calls) else old(mode.calls) + [Left]
      ensures TaskLevels() == RemovedFromAll(old(TaskLevels()), values, Pids(), removeRuns)
    {
      if registry.refcount != 0 {
        RemoveAll(removeRuns);
        mode.Leave(runs);
      }
    }

    /** The rest of a reload, from reading the new configuration on. */
    method GrowBack(newValues: Values, runs: ReloadRuns, applyRuns: int -> TaskRuns)
      requires registry.Valid() && mode.Valid() && !mode.Active()
      modifies this`values, mode, mode.machine, tasks
      ensures Valid() && values == newValues
      ensures var n := mode.machine.possible;
              var again := AfterReconfig(old(mode.State()), SettingsOf(newValues), runs.again, runs.look, n);
              mode.State() == if Pids() == [] then again else AfterEnter(again, SettingsOf(newValues), runs.enter)
      ensures mode.calls == if Pids() == [] then old(mode.calls) else old(mode.calls) + [Entered]
      ensures TaskLevels() == AppliedToAll(old(TaskLevels()), newValues, Pids(), applyRuns)
    {
      values := newValues;
      mode.Reconfigure(SettingsOf(newValues), runs.again, runs.look);
      Resume(runs.enter, applyRuns);
    }

    /** The last part of a reload. */
    method Resume(runs: EnterRuns, applyRuns: int -> TaskRuns)
      requires registry.Valid() && mode.Valid() && !mode.Active() && mode.settings == SettingsOf(values)
      modifies mode, mode.machine, tasks
      ensures Valid()
      ensures mode.State() == if Pids() == [] then old(mode.State())
                              else AfterEnter(old(mode.State()), SettingsOf(values), runs)
      ensures mode.calls == if Pids() == [] then old(mode.calls) else old(mode.calls) + [Entered]
      ensures TaskLevels() == AppliedToAll(old(TaskLevels()), values, Pids(), applyRuns)
    {
      if registry.refcount != 0 {
        mode.Enter(runs);
        ApplyAll(applyRuns);
      }
    }

    /** The scan of game_mode_context_auto_expire, up to the first client that kill() does not reach. */
    method FirstDead(dead: set<int>) returns (pid: Option<int>, ghost k: nat)
      requires Valid()
      ensures pid.None? ==> forall i :: 0 <= i < |Pids()| ==> Pids()[i] !in dead
      ensures pid.Some? ==>
                && k < |Pids()| && Pids()[k] == pid.value && pid.value in dead
                && forall i :: 0 <= i < k ==> Pids()[i] !in dead
    {
      var client := registry.client;
      k := 0;
      while client != null
        invariant 0 <= k <= |registry.nodes| && client == At(registry.nodes, k)
        invariant forall i :: 0 <= i < k ==> Pids()[i] !in dead
        decreases |registry.nodes| - k
      {
        if client.pid in dead { return Some(client.pid), k; }
        client := client.next;
        k := k + 1;
      }
      return None, k;
    }

    /** One round of game_mode_context_auto_expire: the first dead client is asked to unregister itself. */
    method ExpireRound(dead: set<int>, runs: LeaveRuns, taskRuns: int -> TaskRuns)
      returns (removing: bool, ghost gone: seq<int>)
      requires Valid()
      modifies registry, registry.known, mode, mode.machine, tasks
      ensures Valid() && registry.known == old(registry.known) && OnlyRemoved()
      ensures removing <==> Only(old(Pids()), dead) != []
      ensures !removing ==> Minus(Pids(), dead) == Pids()
      ensures |gone| == if removing && LongOf(values, RequireSupervisor) == 0 then 1 else 0
      ensures Pids() == Round(old(Pids()), dead, LongOf(values, RequireSupervisor) != 0)
      ensures Only(old(Pids()), dead) == gone + Only(Pids(), dead)
      ensures Minus(old(Pids()), dead) == Minus(Pids(), dead)
      ensures if gone == [] then Pids() == old(Pids()) else old(Pids()) != []
      ensures mode.calls == if gone != [] && Pids() == [] then old(mode.calls) + [Left] else old(mode.calls)
      ensures mode.State() == if gone != [] && Pids() == [] then AfterLeave(old(mode.State()), SettingsOf(values), runs)
                              else old(mode.State())
      ensures TaskLevels() == if gone != [] then Removed(old(TaskLevels()), values, taskRuns(gone[0]))
                              else old(TaskLevels())
    {
      gone := [];
      var pid, k := FirstDead(dead);
      if pid.None? {
        MinusNone(Pids(), dead);
        return false, [];
      }
      ghost var before := Pids();
      MinusFirst(before, dead, k);
      MinusOne(before, k);
      var ret := Unregister(pid.value, pid.value, None, runs, taskRuns(pid.value));
      if ret == 0 { gone := [pid.value]; }
      return true, gone;
    }

    /**
     game_mode_context_auto_expire, with nobody else registering meanwhile; by ExpiryEndsIff
     what it requires is exactly when the loop ends.
     */
    method AutoExpire(dead: set<int>, runs: LeaveRuns, taskRuns: int -> TaskRuns)
      requires Valid() && (LongOf(values, RequireSupervisor) == 0 || Only(Pids(), dead) == [])
      modifies registry, registry.known, mode, mode.machine, tasks
      ensures Valid() && Pids() == Minus(old(Pids()), dead) && OnlyRemoved()
      ensures mode.calls == if old(Pids()) != [] && Pids() == [] then old(mode.calls) + [Left] else old(mode.calls)
      ensures mode.State() == if old(Pids()) != [] && Pids() == []
                              then AfterLeave(old(mode.State()), SettingsOf(values), runs)
                              else old(mode.State())
      ensures TaskLevels() == RemovedFromAll(old(TaskLevels()), values, Only(old(Pids()), dead), taskRuns)
    {
      var removing := true;
      ghost var done, left := [], false;
      AddNothing(Only(Pids(), dead));
      while removing
        invariant Valid() && registry.known == old(registry.known) && OnlyRemoved()
        invariant Minus(Pids(), dead) == Minus(old(Pids()), dead)
        invariant done + Only(Pids(), dead) == Only(old(Pids()), dead)
        invariant LongOf(values, RequireSupervisor) == 0 || Only(Pids(), dead) == []
        invariant left <==> old(Pids()) != [] && Pids() == []
        invariant mode.calls == if left then old(mode.calls) + [Left] else old(mode.calls)
        invariant mode.State() == if left then AfterLeave(old(mode.State()), SettingsOf(values), runs)
                                else old(mode.State())
        invariant TaskLevels() == RemovedFromAll(old(TaskLevels()), values, done, taskRuns)
        invariant !removing ==> Minus(Pids(), dead) == Pids() && Only(Pids(), dead) == []
        decreases removing, |Only(Pids(), dead)|
      {
        ghost var gone;
        ghost var levels := TaskLevels();
        removing, gone := ExpireRound(dead, runs, taskRuns);
        if gone != [] {
          RemovedOneMore(old(TaskLevels()), values, done, gone, taskRuns);
          left := Pids() == [];
        }
        AddAssociates(done, gone, Only(Pids(), dead));
        AddNothing(done);
        done := done + gone;
      }
      AddNothing(done);
    }

    /** The reaper's call of game_mode_check_igpu_energy. */
    method CheckIgpuEnergy(cpuUj: Option<nat>, igpuUj: Option<nat>, run: HelperRun)
      requires Valid()
      modifies mode, mode.machine
      ensures Valid() && mode.calls == old(mode.calls)
      ensures mode.State() == AfterCheck(old(mode.State()), SettingsOf(values), cpuUj, igpuUj, run)
    {
      mode.CheckIgpuEnergy(cpuUj, igpuUj, run);
    }
  }
}
