/**
 The daemon's list of clients: a singly linked list spliced in place, a count of its
 members, and a reference count per client that lookups may raise.
 */
module Clients {

  /** struct GameModeClient */
  class Client {
    var refcount: int
    const pid: int
    const requester: int
    var next: Client?

    /** game_mode_client_new */
    constructor (pid: int, requester: int)
      ensures this.pid == pid && this.requester == requester && refcount == 1 && next == null
    {
      this.pid, this.requester, this.refcount, this.next := pid, requester, 1, null;
    }
  }

  function PidsOf(nodes: seq<Client>): (r: seq<int>)
    ensures |r| == |nodes| && forall i :: 0 <= i < |r| ==> r[i] == nodes[i].pid
  {
    seq(|nodes|, i requires 0 <= i < |nodes| => nodes[i].pid)
  }

  predicate Distinct<T(==)>(s: seq<T>) {
    forall i, j :: 0 <= i < j < |s| ==> s[i] != s[j]
  }

  /** A sequence without the element at position k. */
  function Without<T>(s: seq<T>, k: int): seq<T>
    requires 0 <= k < |s|
  {
    s[..k] + s[k + 1..]
  }

  /** The client at position i, or null past the end. */
  function At(nodes: seq<Client>, i: nat): Client? {
    if i < |nodes| then nodes[i] else null
  }

  /** Following `next` from `head` goes through exactly `nodes`. */
  ghost predicate Linked(head: Client?, nodes: seq<Client>)
    reads nodes`next
  {
    && head == At(nodes, 0)
    && forall i {:trigger nodes[i].next} :: 0 <= i < |nodes| ==> nodes[i].next == At(nodes, i + 1)
  }

  function Members(s: seq<Client>): set<Client> {
    set c | c in s
  }

  /** How many clients at the front of a chain have no reference but the one that goes. */
  ghost function Alone(chain: seq<Client>): (n: nat)
    reads chain`refcount
    ensures n <= |chain|
  {
    if chain == [] || chain[0].refcount > 1 then 0 else 1 + Alone(chain[1..])
  }

  /** The rest of a list, from position k on, is a list too. */
  lemma LinkedFrom(list: seq<Client>, k: nat)
    requires k < |list| && Linked(list[0], list) && Distinct(list)
    ensures Linked(list[k], list[k..]) && Distinct(list[k..])
    ensures list[k].next == At(list, k + 1) && list[k] !in list[k + 1..]
  {
    var rest := list[k..];
    forall i {:trigger rest[i].next} | 0 <= i < |rest| ensures rest[i].next == At(rest, i + 1) {
      assert rest[i] == list[k + i];
      if i + 1 < |rest| { assert rest[i + 1] == list[k + i + 1]; }
    }
  }

  lemma DistinctCons<T>(x: T, s: seq<T>)
    requires Distinct(s) && x !in s
    ensures Distinct([x] + s)
  {
  }

  lemma DistinctWithout<T>(s: seq<T>, k: int)
    requires Distinct(s) && 0 <= k < |s|
    ensures Distinct(Without(s, k))
    ensures forall x :: x in Without(s, k) <==> x in s && x != s[k]
  {
    forall x | x in s && x != s[k] ensures x in Without(s, k) {
      var i :| 0 <= i < |s| && s[i] == x;
      assert x == Without(s, k)[if i < k then i else i - 1];
    }
  }

  lemma PidsCons(cl: Client, nodes: seq<Client>)
    ensures PidsOf([cl] + nodes) == [cl.pid] + PidsOf(nodes)
  {
  }

  lemma PidsWithout(nodes: seq<Client>, k: int)
    requires 0 <= k < |nodes|
    ensures PidsOf(Without(nodes, k)) == Without(PidsOf(nodes), k)
  {
  }

  lemma LinkedCons(cl: Client, nodes: seq<Client>)
    requires Linked(cl.next, nodes)
    ensures Linked(cl, [cl] + nodes)
  {
    var longer := [cl] + nodes;
    forall i {:trigger longer[i].next} | 0 <= i < |longer| ensures longer[i].next == At(longer, i + 1) {
      if i > 0 { assert longer[i] == nodes[i - 1]; }
    }
  }

  /** The splice: all links as before except at k - 1, which skips k. */
  lemma LinkedWithout(nodes: seq<Client>, k: int)
    requires 0 <= k < |nodes|
    requires forall i {:trigger nodes[i].next} :: 0 <= i < |nodes| && i != k ==>
               nodes[i].next == At(nodes, if i == k - 1 then k + 1 else i + 1)
    ensures Linked(At(nodes, if k == 0 then 1 else 0), Without(nodes, k))
  {
    var shorter := Without(nodes, k);
    forall i {:trigger shorter[i].next} | 0 <= i < |shorter| ensures shorter[i].next == At(shorter, i + 1) {
      assert shorter[i] == nodes[if i < k then i else i + 1];
      if i + 1 < |shorter| { assert shorter[i + 1] == nodes[if i + 1 < k then i + 1 else i + 2]; }
    }
  }

  /** The list part of struct GameModeContext. */
  class Registry {
    var refcount: int
    var client: Client?

    ghost var nodes: seq<Client>      // the list, head first
    ghost var known: set<Client>      // every client ever added
    ghost var held: multiset<Client>  // references given out by lookups and not yet given back
    ghost var freed: set<Client>

    /** Acyclic, distinct pids, counted, and every client's references accounted for. */
    ghost predicate Valid()
      reads this, known
    {
      Shape(nodes) && Owned(nodes) && refcount == |nodes|
    }

    /** From `client`, `next` goes through exactly `list`; a client that is out has no next. */
    ghost predicate Shape(list: seq<Client>)
      reads this`client, this`known, known`next
    {
      && (forall c :: c in list ==> c in known)
      && Linked(client, list)
      && Distinct(list) && Distinct(PidsOf(list))
      && forall c :: c in known && c !in list ==> c.next == null
    }

    /** A client's count is its place in the list plus the references held; at zero it is freed. */
    ghost predicate Owned(list: seq<Client>)
      reads this`known, this`held, this`freed, known`refcount
    {
      && freed <= known
      && (forall c :: c in held ==> c in known)
      && forall c :: c in known ==>
           && c.refcount == (if c in list then 1 else 0) + held[c]
           && (c in freed <==> c.refcount == 0)
    }

    constructor ()
      ensures Valid() && nodes == [] && known == {} && held == multiset{} && freed == {}
    {
      refcount, client := 0, null;
      nodes, known, held, freed := [], {}, multiset{}, {};
    }

    /** game_mode_context_has_client */
    method HasClient(pid: int) returns (found: bool)
      requires Valid()
      ensures found <==> pid in PidsOf(nodes)
    {
      var cl := client;
      ghost var i := 0;
      while cl != null
        invariant 0 <= i <= |nodes| && cl == At(nodes, i)
        invariant pid !in PidsOf(nodes)[..i]
        decreases |nodes| - i
      {
        if cl.pid == pid {
          assert PidsOf(nodes)[i] == pid;
          return true;
        }
        cl := cl.next;
        i := i + 1;
      }
      return false;
    }

    /** game_mode_context_list_clients; the assertion on the count cannot fail. */
    method ListClients() returns (res: array<int>, count: nat)
      requires Valid()
      ensures fresh(res) && count == res.Length && res[..] == PidsOf(nodes)
    {
      var n := refcount;
      res := new int[n];
      count := 0;
      var cl := client;
      while cl != null
        invariant count <= |nodes| && cl == At(nodes, count)
        invariant res.Length == n && forall i :: 0 <= i < count ==> res[i] == nodes[i].pid
        decreases |nodes| - count
      {
        assert n > count;
        res[count] := cl.pid;
        count := count + 1;
        cl := cl.next;
      }
    }

    /** game_mode_context_lookup_client */
    method LookupClient(pid: int) returns (found: Client?)
      requires Valid()
      modifies this`held, known
      ensures Valid()
      ensures found == null <==> pid !in PidsOf(nodes)
      ensures found != null ==> found in nodes && found.pid == pid && held == old(held) + multiset{found}
      ensures found == null ==> held == old(held)
    {
      found := client;
      ghost var i := 0;
      while found != null && found.pid != pid
        invariant 0 <= i <= |nodes| && found == At(nodes, i)
        invariant pid !in PidsOf(nodes)[..i]
        decreases |nodes| - i
      {
        found := found.next;
        i := i + 1;
      }
      if found != null {
        assert PidsOf(nodes)[i] == pid;
        found.refcount := found.refcount + 1;
        held := held + multiset{found};
      }
    }

    /**
     game_mode_client_unref. It goes on to the next client when it frees one, so along a
     chain of clients it frees the leading ones that nobody else refers to.
     */
    method Unref(cl: Client, ghost chain: seq<Client>)
      requires chain != [] && Linked(cl, chain) && Distinct(chain)
      modifies chain`refcount, this`freed
      ensures freed == old(freed) + Members(chain[..old(Alone(chain))])
      ensures forall i {:trigger chain[i].refcount} :: 0 <= i < |chain| ==>
                chain[i].refcount == old(chain[i].refcount) - if i <= old(Alone(chain)) then 1 else 0
      decreases |chain|
    {
      cl.refcount := cl.refcount - 1;
      if cl.refcount > 0 { return; }
      ghost var rest := chain[1..];
      ghost var n := Alone(rest);
      var next := cl.next;
      if next != null {
        LinkedFrom(chain, 1);
        Unref(next, rest);
      }
      freed := freed + {cl};
      assert chain[..n + 1] == [cl] + rest[..n];
    }

    /** Giving back a reference from a lookup: no other client is freed, and none that is listed. */
    method Release(c: Client)
      requires Valid() && c in held
      modifies this`held, this`freed, known`refcount
      ensures Valid() && held == old(held) - multiset{c}
      ensures freed == old(freed) + if c !in nodes && c !in held then {c} else {}
    {
      ghost var chain := [c];
      if c in nodes {
        ghost var k :| 0 <= k < |nodes| && nodes[k] == c;
        LinkedFrom(nodes, k);
        chain := nodes[k..];
      }
      GiveBack(c, chain);
      assert Shape(nodes);
    }

    method GiveBack(c: Client, ghost chain: seq<Client>)
      requires Owned(nodes) && c in held && chain != [] && Linked(c, chain) && Distinct(chain)
      requires chain == [c] || c in nodes
      requires forall x :: x in chain ==> x in known
      modifies this`held, this`freed, chain`refcount
      ensures Owned(nodes) && held == old(held) - multiset{c}
      ensures freed == old(freed) + if c !in nodes && c !in held then {c} else {}
    {
      assert Alone(chain) == if c.refcount > 1 then 0 else 1;
      Unref(c, chain);
      held := held - multiset{c};
    }

    /** Linking a new client in at the head, and counting it; `first` when it is the only one. */
    method LinkFirst(cl: Client) returns (first: bool)
      requires Valid() && cl !in known && cl.refcount == 1 && cl.next == null && cl.pid !in PidsOf(nodes)
      modifies this, cl
      ensures Valid() && nodes == [cl] + old(nodes) && known == old(known) + {cl}
      ensures held == old(held) && freed == old(freed)
      ensures PidsOf(nodes) == [cl.pid] + old(PidsOf(nodes))
      ensures first <==> old(nodes) == []
    {
      PidsCons(cl, nodes);
      Link(cl);
      nodes := [cl] + nodes;
      first := refcount == 0;
      refcount := refcount + 1;
    }

    /** The pointer part of the insertion. */
    method Link(cl: Client)
      requires Shape(nodes) && Owned(nodes)
      requires cl !in known && cl.refcount == 1 && cl.next == null && cl.pid !in PidsOf(nodes)
      modifies this`client, this`known, cl`next
      ensures known == old(known) + {cl} && Shape([cl] + nodes) && Owned([cl] + nodes)
    {
      PidsCons(cl, nodes);
      DistinctCons(cl, nodes);
      DistinctCons(cl.pid, PidsOf(nodes));
      cl.next := client;
      LinkedCons(cl, nodes);
      client := cl;
      known := known + {cl};
    }

    /**
     The search of game_mode_context_unregister, and what happens to the client found. `prev`
     starts at the head too, so that removing the head writes the head's own `next`.
     */
    method Unlink(pid: int) returns (found: bool, last: bool, ghost k: nat)
      requires Valid()
      modifies this, known
      ensures Valid() && known == old(known) && held == old(held)
      ensures found <==> pid in PidsOf(old(nodes))
      ensures !found ==> nodes == old(nodes) && freed == old(freed)
      ensures found ==>
                && k < |old(nodes)| && old(nodes)[k].pid == pid && nodes == Without(old(nodes), k)
                && freed == old(freed) + if old(nodes)[k] in held then {} else {old(nodes)[k]}
      ensures last <==> found && |old(nodes)| == 1
    {
      var cl, prev := client, client;
      k := 0;
      while cl != null
        invariant 0 <= k <= |nodes| && cl == At(nodes, k)
        invariant prev == At(nodes, if k == 0 then 0 else k - 1)
        invariant pid !in PidsOf(nodes)[..k]
        decreases |nodes| - k
      {
        if cl.pid != pid {
          prev := cl;
          cl := cl.next;
          k := k + 1;
          continue;
        }
        assert PidsOf(nodes)[k] == pid;
        Remove(prev, cl, k, Without(nodes, k));
        nodes := Without(nodes, k);
        last := refcount == 1;
        refcount := refcount - 1;
        return true, last, k;
      }
      return false, false, k;
    }

    /** The splice, and the release of the list's reference. */
    method Remove(prev: Client, cl: Client, ghost k: nat, ghost rest: seq<Client>)
      requires Shape(nodes) && Owned(nodes)
      requires k < |nodes| && cl == nodes[k] && prev == nodes[if k == 0 then 0 else k - 1] && rest == Without(nodes, k)
      modifies this`client, this`freed, prev`next, cl`next, cl`refcount
      ensures Shape(rest) && Owned(rest)
      ensures freed == old(freed) + if cl in held then {} else {cl}
    {
      Splice(prev, cl, k, rest);
      Drop(cl, k, rest);
    }

    /** The pointer part of the removal. */
    method Splice(prev: Client, cl: Client, ghost k: nat, ghost rest: seq<Client>)
      requires Shape(nodes) && k < |nodes| && cl == nodes[k] && prev == nodes[if k == 0 then 0 else k - 1]
      requires rest == Without(nodes, k)
      modifies this`client, prev`next, cl`next
      ensures Shape(rest) && cl.next == null
    {
      prev.next := cl.next;
      if cl == client { client := cl.next; }
      cl.next := null;
      LinkedWithout(nodes, k);
      DistinctWithout(nodes, k);
      PidsWithout(nodes, k);
      DistinctWithout(PidsOf(nodes), k);
    }

    /** Giving up the list's own reference to the client at position k, which has no next any more. */
    method Drop(cl: Client, ghost k: nat, ghost rest: seq<Client>)
      requires Owned(nodes) && Distinct(nodes) && k < |nodes| && cl == nodes[k] && cl in known && cl.next == null
      requires rest == Without(nodes, k)
      modifies cl`refcount, this`freed
      ensures Owned(rest)
      ensures freed == old(freed) + if cl in held then {} else {cl}
    {
      DistinctWithout(nodes, k);
      Unref(cl, [cl]);
    }
  }
}
