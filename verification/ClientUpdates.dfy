/** The two halves of an address update in multi-connection mode, told for values: what multipleClients builds and
    what reloadClients installs. */
module ClientUpdates {
  import opened Addresses
  import opened ClientRuns
  import opened Counting
  import opened Names
  import opened Tickets

  ghost predicate Injective<V>(m: map<string, V>) {
    forall k, l :: k in m && l in m && m[k] == m[l] ==> k == l
  }

  // xmap.Values: the values of a map, in any order.
  method Values<V(==)>(m: map<string, V>) returns (vs: seq<V>)
    requires Injective(m)
    ensures |vs| == |m|
    ensures forall i :: 0 <= i < |vs| ==> vs[i] in m.Values
    ensures forall k :: k in m ==> m[k] in vs
    ensures forall i, j :: 0 <= i < j < |vs| ==> vs[i] != vs[j]
  {
    vs := [];
    ghost var keys: seq<string> := [];
    var remaining := m.Keys;
    while remaining != {}
      invariant remaining <= m.Keys && |vs| + |remaining| == |m|
      invariant |keys| == |vs|
      invariant forall i :: 0 <= i < |vs| ==> keys[i] in m && keys[i] !in remaining && vs[i] == m[keys[i]]
      invariant forall i, j :: 0 <= i < j < |vs| ==> keys[i] != keys[j]
      invariant forall k :: k in m && k !in remaining ==> m[k] in vs
    {
      var k :| k in remaining;
      keys := keys + [k];
      vs := vs + [m[k]];
      remaining := remaining - {k};
    }
  }

  method FormatPoolId(base: string, i: nat) returns (id: string)
    ensures id !in PoolIds(base, i) && PoolIds(base, i + 1) == PoolIds(base, i) + [id]
  {
    id := PoolId(base, i);
    PoolIdIsNew(base, i);
  }

  method FormatKey(addrs: seq<Address>, i: nat) returns (key: string)
    requires i < |addrs|
    ensures key == Keys(addrs)[i]
  {
    key := Key(addrs[i], i);
    KeysAt(addrs, i);
  }

  method FormatClientId(base: string, i: nat, revision: nat) returns (id: string)
    ensures ClientIds(base, i + 1, revision) == ClientIds(base, i, revision) + [id]
  {
    id := ClientId(base, i, revision);
  }

  // The first i of the names have their entries, and there are no others.
  ghost predicate KeyedUpTo(clients: map<string, nat>, names: seq<string>, i: nat, first: nat) {
    && i <= |names| && |clients| == i
    && (forall j :: 0 <= j < i ==> names[j] in clients && clients[names[j]] == first + j)
    && (forall k :: k in clients ==> k in names[..i])
  }

  lemma KeyedByOneMore(clients: map<string, nat>, names: seq<string>, i: nat, first: nat)
    requires Distinct(names) && i < |names| && KeyedUpTo(clients, names, i, first)
    ensures KeyedUpTo(clients[names[i] := first + i], names, i + 1, first)
  {
  }

  // The loop of multipleClients: one connection for each address.
  method BuildEach(base: string, addrs: seq<Address>, first: nat, next: uint64)
    returns (clients: map<string, nat>, newIds: seq<string>)
    ensures KeyedBy(clients, Keys(addrs), first) && newIds == ClientIds(base, |addrs|, next)
  {
    clients, newIds := map[], [];
    ghost var keys := Keys(addrs);
    KeysAreDistinct(addrs);
    for i := 0 to |addrs|
      invariant newIds == ClientIds(base, i, next)
      invariant KeyedUpTo(clients, keys, i, first)
    {
      var id := FormatClientId(base, i, next);
      var key := FormatKey(addrs, i);
      KeyedByOneMore(clients, keys, i, first);
      clients, newIds := clients[key := first + i], newIds + [id];
    }
  }

  // What each of the connections from `first` on answers.
  ghost predicate OpenAs(open: seq<bool>, first: nat, isOpen: nat -> bool) {
    forall i :: 0 <= i < |open| ==> (open[i] <==> isOpen(first + i))
  }

  // Which of the n connections from `first` on are among the live ones.
  lemma OpenFlags(first: nat, n: nat, live: set<nat>) returns (open: seq<bool>)
    requires forall c :: c in live ==> first <= c < first + n
    ensures |open| == n && OpenConns(first, open) == live
    ensures forall i :: 0 <= i < n ==> (open[i] <==> first + i in live)
    ensures true in open <==> live != {}
  {
    open := seq(n, i => first + i in live);
    assert forall i :: 0 <= i < n ==> (open[i] <==> first + i in live);
    forall c | c in live
      ensures open[c - first] && c in OpenConns(first, open)
    {
      assert c == first + (c - first);
    }
    if true in open {
      var i :| 0 <= i < n && open[i];
      assert first + i in live;
    }
  }

  lemma OpenAnswers(clients: map<string, nat>, names: seq<string>, first: nat, live: set<nat>, isOpen: nat -> bool)
    returns (open: seq<bool>)
    requires Distinct(names) && KeyedBy(clients, names, first)
    requires forall c :: c in live <==> c in clients.Values && isOpen(c)
    ensures |open| == |names| && OpenConns(first, open) == live && OpenAs(open, first, isOpen)
    ensures true in open <==> live != {}
  {
    KeyedValues(clients, names, first);
    open := OpenFlags(first, |names|, live);
    forall i | 0 <= i < |open|
      ensures open[i] <==> isOpen(first + i)
    {
      assert first + i in clients.Values;
    }
  }

  lemma ValuesEnumerate(clients: map<string, nat>, vs: seq<nat>, names: seq<string>, first: nat)
    requires Distinct(names) && KeyedBy(clients, names, first)
    requires NoDuplicates(vs) && (forall i :: 0 <= i < |vs| ==> vs[i] in clients.Values)
    requires forall k :: k in clients ==> clients[k] in vs
    ensures Enumerates(vs, first, |names|)
  {
    KeyedValues(clients, names, first);
    forall c: nat
      ensures c in vs <==> first <= c < first + |names|
    {
      if first <= c < first + |names| {
        assert clients[names[c - first]] == c;
      }
    }
    MembersEnumerate(vs, first, |names|);
  }

  lemma InjectiveKeys(clients: map<string, nat>, names: seq<string>, first: nat)
    requires Distinct(names) && KeyedBy(clients, names, first)
    ensures Injective(clients)
  {
    KeyedValues(clients, names, first);
  }

  // multipleClients either counts its connections as a new generation or hands them over.
  ghost predicate Settled(v: View, v': View, first: nat, n: nat, installs: bool) {
    && v' == v.(revision := v'.revision, generations := v'.generations, installed := v'.installed, handed := v'.handed)
    && if installs then
         && v'.revision == NextRevision(v.revision) && v'.generations == v.generations + 1
         && v'.installed == v.installed + InstalledAs(first, n, v.generations + 1)
         && v'.handed == v.handed
       else
         && v'.revision == v.revision && v'.generations == v.generations && v'.installed == v.installed
         && v.handed <= v'.handed && Enumerates(v'.handed[|v.handed|..], first, n)
  }

  ghost predicate Selected(cfg: Config, v: View, v': View, addrs: seq<Address>, open: seq<bool>) {
    var first, n := |v.ids|, |addrs|;
    var built := v.(ids := v.ids + ClientIds(cfg.clientID, n, NextRevision(v.revision)),
                    seenOpen := v.seenOpen + OpenConns(first, open));
    |open| == n && Settled(built, v', first, n, true in open)
  }

  // What reloadClients does with the connections from `first` on.
  ghost predicate Replaced(v: View, v': View, keys: seq<string>, first: nat) {
    && v' == v.(keyed := v'.keyed, ordered := v'.ordered, handed := v'.handed)
    && KeyedBy(v'.keyed, keys, first) && Enumerates(v'.ordered, first, |keys|)
    && Handed(v.handed, v'.handed, v.ordered)
  }

  // No connection has a number that was not given yet.
  ghost predicate WereBuilt(ordered: seq<nat>, seenOpen: set<nat>, built: nat) {
    forall c :: c in ordered || c in seenOpen ==> c < built
  }

  lemma SelectedWereBuilt(cfg: Config, v: View, v': View, addrs: seq<Address>, open: seq<bool>)
    requires WereBuilt(v.ordered, v.seenOpen, |v.ids|) && Selected(cfg, v, v', addrs, open)
    ensures WereBuilt(v'.ordered, v'.seenOpen, |v'.ids|)
  {
  }

  lemma ReplacedWereBuilt(v: View, v': View, keys: seq<string>, first: nat)
    requires WereBuilt(v.ordered, v.seenOpen, |v.ids|) && Replaced(v, v', keys, first) && first + |keys| <= |v.ids|
    ensures WereBuilt(v'.ordered, v'.seenOpen, |v'.ids|)
  {
    EnumeratesLength(v'.ordered, first, |keys|);
  }

  lemma SingleUpdatedWereBuilt(cfg: Config, v: View, v': View, attempts: nat)
    requires WereBuilt(v.ordered, v.seenOpen, |v.ids|) && SingleUpdated(cfg, v, v', attempts)
    ensures WereBuilt(v'.ordered, v'.seenOpen, |v'.ids|)
  {
  }

  // What multipleClients returns.
  ghost predicate Offered(clients: map<string, nat>, addrs: seq<Address>, open: seq<bool>, first: nat) {
    if true in open then clients != map[] && KeyedBy(clients, Keys(addrs), first) else clients == map[]
  }

  lemma UpdatedInTwoParts(cfg: Config, v: View, v1: View, v2: View, addrs: seq<Address>, open: seq<bool>)
    requires Selected(cfg, v, v1, addrs, open)
    requires if true in open then Replaced(v1, v2, Keys(addrs), |v.ids|) else v2 == v1
    ensures Updated(cfg, v, v2, addrs, open)
  {
  }

  // newClient takes the addresses in turn, from the first one on.
  ghost predicate Rotates(tried: seq<Address>, addrs: seq<Address>) {
    addrs != [] && forall k :: 0 <= k < |tried| ==> tried[k] == addrs[k % |addrs|]
  }

  ghost predicate Periodic(tried: seq<Address>, n: nat) {
    forall k :: n <= k < |tried| ==> tried[k] == tried[k - n]
  }

  lemma RotationIsPeriodic(tried: seq<Address>, addrs: seq<Address>)
    requires Rotates(tried, addrs)
    ensures Periodic(tried, |addrs|)
  {
    forall k | |addrs| <= k < |tried|
      ensures k % |addrs| == (k - |addrs|) % |addrs|
    {
      var q, r := (k - |addrs|) / |addrs|, (k - |addrs|) % |addrs|;
      assert k == (q + 1) * |addrs| + r;
      DivisionIsUnique(k, |addrs|, q + 1, r);
    }
  }

  lemma {:induction false} PeriodCovers(tried: seq<Address>, n: nat, from: nat, a: Address)
    requires n > 0 && Periodic(tried, n) && from + n <= |tried| && a in tried[..n]
    ensures a in tried[from..from + n]
  {
    if from > 0 {
      PeriodCovers(tried, n, from - 1, a);
      var k :| from - 1 <= k < from - 1 + n && tried[k] == a;
      var k' := if k == from - 1 then k + n else k;
      assert tried[from..from + n][k' - from] == a;
    }
  }

  /** Among as many attempts in a row as there are addresses, wherever they begin, each address has its turn. */
  lemma EveryAddressHasItsTurn(tried: seq<Address>, addrs: seq<Address>, from: nat, i: nat)
    requires Rotates(tried, addrs) && i < |addrs| && from + |addrs| <= |tried|
    ensures addrs[i] in tried[from..from + |addrs|]
  {
    RotationIsPeriodic(tried, addrs);
    assert tried[..|addrs|][i] == addrs[i];
    PeriodCovers(tried, |addrs|, from, addrs[i]);
  }

  lemma PoolIdIsNew(base: string, i: nat)
    ensures PoolId(base, i) !in PoolIds(base, i)
    ensures PoolIds(base, i + 1) == PoolIds(base, i) + [PoolId(base, i)]
  {
    PoolIdsAreDistinct(base, i + 1);
    assert PoolIds(base, i + 1)[i] == PoolId(base, i);
    forall j | 0 <= j < i
      ensures PoolIds(base, i)[j] != PoolId(base, i)
    {
      assert PoolIds(base, i)[j] == PoolIds(base, i + 1)[j];
    }
  }
}
