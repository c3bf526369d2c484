/** The connections of a Client over whole runs: what address updates install, hand to Disconnect and forget, and
    when picking one of several connections is safe. Connections are numbered in the order they were built. */
module ClientRuns {
  import opened Addresses
  import opened Counting
  import opened Integers
  import opened Names
  import opened Optional
  import opened Tickets

  // time.Second, in nanoseconds
  const SECOND := 1_000_000_000

  // The options that matter here. `clientID` is the base of the client ids: the option or the host name;
  // `emitterInterval` is that of the info emitter, if one is set.
  datatype Config = Config(
    multi: bool, poolSize: nat, hasBroker: bool, hasResolver: bool, clientID: string, emitterInterval: Option<int>)

  predicate Pool(cfg: Config) {
    cfg.poolSize > 1
  }

  // NewClient returns no error.
  predicate Accepted(cfg: Config) {
    && (cfg.hasBroker || cfg.hasResolver)
    && !(Pool(cfg) && cfg.multi)
    && (cfg.emitterInterval.Some? ==> cfg.emitterInterval.value >= SECOND)
  }

  // A connection that an update installed: its index in the address list and the number of the generation, from one.
  datatype Installed = Installed(conn: nat, index: nat, generation: nat)

  // mqttClient, mqttClients, orderedClients and multiConnRevision; then the histories: the client id of every
  // connection built, the connections handed to Disconnect, those ever installed by an update in multi-connection
  // mode, the number of generations, and the connections that IsConnectionOpen reported open.
  datatype View = View(
    single: Option<nat>,
    keyed: map<string, nat>,
    ordered: seq<nat>,
    revision: uint64,
    ids: seq<string>,
    handed: seq<nat>,
    installed: seq<Installed>,
    generations: nat,
    seenOpen: set<nat>)

  // The connections `conns` joined a history, in whatever order goroutines and maps chose.
  ghost predicate Handed(before: seq<nat>, after: seq<nat>, conns: seq<nat>) {
    before <= after && Permutes(after[|before|..], conns)
  }

  // ----- NewClient

  // One entry under each name, leading to the connections from `first` on in the order of the names.
  ghost predicate KeyedBy(keyed: map<string, nat>, names: seq<string>, first: nat) {
    && |keyed| == |names|
    && forall i :: 0 <= i < |names| ==> names[i] in keyed && keyed[names[i]] == first + i
  }

  ghost predicate Created(cfg: Config, v: View) {
    && Accepted(cfg)
    && v.revision == 0 && v.handed == [] && v.installed == [] && v.generations == 0 && v.seenOpen == {}
    && if cfg.hasBroker && Pool(cfg) then
         && v.single == None && v.ids == PoolIds(cfg.clientID, cfg.poolSize)
         && KeyedBy(v.keyed, v.ids, 0) && Enumerates(v.ordered, 0, cfg.poolSize)
       else
         && v.keyed == map[] && v.ordered == []
         && if cfg.hasBroker then v.single == Some(0) && v.ids == [cfg.clientID] else v.single == None && v.ids == []
  }

  // ----- an address update in multi-connection mode

  function NextRevision(revision: uint64): uint64 {
    (revision + 1) % TWO_64
  }

  function InstalledAs(first: nat, n: nat, generation: nat): (installed: seq<Installed>)
    ensures |installed| == n
  {
    if n == 0 then [] else InstalledAs(first, n - 1, generation) + [Installed(first + n - 1, n - 1, generation)]
  }

  ghost function OpenConns(first: nat, open: seq<bool>): set<nat> {
    set i | 0 <= i < |open| && open[i] :: first + i
  }

  // `open` is what IsConnectionOpen reported for each new connection.
  ghost predicate Updated(cfg: Config, v: View, v': View, addrs: seq<Address>, open: seq<bool>) {
    var first, n, next := |v.ids|, |addrs|, NextRevision(v.revision);
    && |open| == n
    && v'.single == v.single
    && v'.ids == v.ids + ClientIds(cfg.clientID, n, next)
    && v'.seenOpen == v.seenOpen + OpenConns(first, open)
    && if true in open then
         && KeyedBy(v'.keyed, Keys(addrs), first)
         && Enumerates(v'.ordered, first, n)
         && v'.revision == next && v'.generations == v.generations + 1
         && v'.installed == v.installed + InstalledAs(first, n, v.generations + 1)
         && Handed(v.handed, v'.handed, v.ordered)
       else
         && v'.keyed == v.keyed && v'.ordered == v.ordered
         && v'.revision == v.revision && v'.generations == v.generations && v'.installed == v.installed
         && v.handed <= v'.handed && Enumerates(v'.handed[|v.handed|..], first, n)
  }

  // ----- an address update in single-connection mode, with or without a pool

  // newClient tries the addresses in turn until one connects; only the last attempt is kept.
  ghost predicate SingleUpdated(cfg: Config, v: View, v': View, attempts: nat) {
    var built := v.ids + seq(attempts, i => cfg.clientID);
    var replaced := if v.single.Some? then [v.single.value] else [];
    v' == v.(ids := built, single := if attempts == 0 then None else Some(|built| - 1), handed := v.handed + replaced)
  }

  // ----- Stop

  predicate Initialized(v: View) {
    v.single.Some? || v.keyed != map[]
  }

  predicate Spread(cfg: Config) {
    cfg.multi || Pool(cfg)
  }

  // stop's first locked section: execute hands over either every keyed connection or the single one.
  ghost predicate StopDisconnected(cfg: Config, v: View, v': View) {
    && v' == v.(handed := v'.handed)
    && Handed(v.handed, v'.handed,
              if Spread(cfg) then v.ordered else if v.single.Some? then [v.single.value] else [])
  }

  // stop's second locked section, entered unless execute found no connection.
  function StopCleared(v: View): View {
    v.(single := None, keyed := map[], ordered := [])
  }

  ghost predicate Stopped(cfg: Config, v: View, v': View) {
    exists mid :: StopDisconnected(cfg, v, mid) && v' == if Initialized(v) then StopCleared(mid) else mid
  }

  lemma StopInTwoSections(cfg: Config, v: View, mid: View, v': View)
    requires StopDisconnected(cfg, v, mid) && v' == if Initialized(v) then StopCleared(mid) else mid
    ensures Stopped(cfg, v, v')
  {
  }

  // ----- runs

  ghost predicate Step(cfg: Config, v: View, v': View) {
    || (cfg.hasResolver && cfg.multi && exists addrs, open :: Updated(cfg, v, v', addrs, open))
    || (cfg.hasResolver && !cfg.multi && exists attempts :: SingleUpdated(cfg, v, v', attempts))
    || Stopped(cfg, v, v')
  }

  ghost predicate IsRun(cfg: Config, run: seq<View>) {
    && |run| > 0
    && Created(cfg, run[0])
    && forall i :: 0 <= i < |run| - 1 ==> Step(cfg, run[i], run[i + 1])
  }

  ghost predicate Reachable(cfg: Config, v: View) {
    exists run :: IsRun(cfg, run) && run[|run| - 1] == v
  }

  // ----- the ordered and the keyed view

  // orderedClients enumerates the values of mqttClients, each once.
  ghost predicate ViewsAgree(v: View) {
    && NoDuplicates(v.ordered)
    && |v.ordered| == |v.keyed|
    && (forall c :: c in v.ordered <==> c in v.keyed.Values)
  }

  lemma {:induction false} NamesAsSet(keyed: map<string, nat>, names: seq<string>) returns (keys: set<string>)
    requires Distinct(names) && forall i :: 0 <= i < |names| ==> names[i] in keyed
    ensures |keys| == |names| && keys <= keyed.Keys && forall k :: k in keys <==> k in names
  {
    if names == [] {
      keys := {};
    } else {
      var fewer := NamesAsSet(keyed, names[..|names| - 1]);
      assert names[|names| - 1] !in fewer;
      keys := fewer + {names[|names| - 1]};
      assert names == names[..|names| - 1] + [names[|names| - 1]];
    }
  }

  // A map with as many entries as it has distinct names has no others.
  lemma KeyedValues(keyed: map<string, nat>, names: seq<string>, first: nat)
    requires Distinct(names) && KeyedBy(keyed, names, first)
    ensures forall k :: k in keyed ==> k in names
    ensures forall c: nat :: c in keyed.Values <==> first <= c < first + |names|
  {
    var keys := NamesAsSet(keyed, names);
    assert |keyed.Keys| == |keys| + |keyed.Keys - keys|;
    forall c: nat
      ensures c in keyed.Values <==> first <= c < first + |names|
    {
      if first <= c < first + |names| {
        assert names[c - first] in keyed;
      }
      if k :| k in keyed && keyed[k] == c {
        assert k in keys;
      }
    }
  }

  lemma CreatedViewsAgree(cfg: Config, v: View)
    requires Created(cfg, v)
    ensures ViewsAgree(v)
  {
    if cfg.hasBroker && Pool(cfg) {
      PoolIdsAreDistinct(cfg.clientID, cfg.poolSize);
      KeyedValues(v.keyed, v.ids, 0);
      EnumeratesLength(v.ordered, 0, cfg.poolSize);
    }
  }

  lemma StepKeepsViewsAgreeing(cfg: Config, v: View, v': View)
    requires ViewsAgree(v) && Step(cfg, v, v')
    ensures ViewsAgree(v')
  {
    if Stopped(cfg, v, v') {
    } else if cfg.multi {
      var addrs, open :| Updated(cfg, v, v', addrs, open);
      if true in open {
        KeysAreDistinct(addrs);
        KeyedValues(v'.keyed, Keys(addrs), |v.ids|);
        EnumeratesLength(v'.ordered, |v.ids|, |addrs|);
      }
    }
  }

  lemma {:induction false} RunKeepsViewsAgreeing(cfg: Config, run: seq<View>, i: nat)
    requires IsRun(cfg, run) && i < |run|
    ensures ViewsAgree(run[i])
  {
    if i == 0 {
      CreatedViewsAgree(cfg, run[0]);
    } else {
      RunKeepsViewsAgreeing(cfg, run, i - 1);
      StepKeepsViewsAgreeing(cfg, run[i - 1], run[i]);
    }
  }

  /** In every reachable state orderedClients lists the values of mqttClients, each exactly once. */
  lemma OrderedAndKeyedAgree(cfg: Config, v: View)
    requires Reachable(cfg, v)
    ensures ViewsAgree(v)
  {
    var run :| IsRun(cfg, run) && run[|run| - 1] == v;
    RunKeepsViewsAgreeing(cfg, run, |run| - 1);
  }

  // ----- conservation

  // The connections that NewClient itself built are the first ones.
  function BuiltByNewClient(cfg: Config): nat {
    if !cfg.hasBroker then 0 else if Pool(cfg) then cfg.poolSize else 1
  }

  // Every connection that updates built is installed or was handed over, and none is both or was handed over twice.
  ghost predicate Conserved(cfg: Config, v: View) {
    var base := BuiltByNewClient(cfg);
    && base <= |v.ids|
    && forall c: nat :: Count(v.ordered, c) + Count(v.handed, c) == if base <= c < |v.ids| then 1 else 0
  }

  lemma HandedCounts(before: seq<nat>, after: seq<nat>, c: nat)
    requires before <= after
    ensures Count(after, c) == Count(before, c) + Count(after[|before|..], c)
  {
    CountAppend(before, after[|before|..], c);
    assert after == before + after[|before|..];
  }

  // Where an update of n addresses puts connections.
  ghost predicate Moved(v: View, v': View, n: nat, installs: bool) {
    && |v'.ids| == |v.ids| + n
    && forall c: nat ::
         var added := if |v.ids| <= c < |v.ids| + n then 1 else 0;
         if installs then
           Count(v'.ordered, c) == added && Count(v'.handed, c) == Count(v.handed, c) + Count(v.ordered, c)
         else
           Count(v'.ordered, c) == Count(v.ordered, c) && Count(v'.handed, c) == Count(v.handed, c) + added
  }

  lemma UpdateMoves(cfg: Config, v: View, v': View, addrs: seq<Address>, open: seq<bool>)
    requires Updated(cfg, v, v', addrs, open)
    ensures Moved(v, v', |addrs|, true in open)
  {
    forall c: nat
      ensures Count(v'.handed, c) == Count(v.handed, c) + Count(v'.handed[|v.handed|..], c)
    {
      HandedCounts(v.handed, v'.handed, c);
    }
  }

  lemma UpdateConserves(cfg: Config, v: View, v': View, addrs: seq<Address>, open: seq<bool>)
    requires Conserved(cfg, v) && Updated(cfg, v, v', addrs, open)
    ensures Conserved(cfg, v')
  {
    UpdateMoves(cfg, v, v', addrs, open);
  }

  lemma DisconnectCounts(cfg: Config, v: View, v': View, c: nat)
    requires Spread(cfg) && StopDisconnected(cfg, v, v')
    ensures Count(v'.handed, c) == Count(v.handed, c) + Count(v.ordered, c)
  {
    HandedCounts(v.handed, v'.handed, c);
  }

  lemma StopConserves(cfg: Config, v: View, v': View)
    requires cfg.multi && Conserved(cfg, v) && Stopped(cfg, v, v') && ViewsAgree(v)
    ensures Conserved(cfg, v')
  {
    var mid :| StopDisconnected(cfg, v, mid) && v' == if Initialized(v) then StopCleared(mid) else mid;
    forall c: nat {
      DisconnectCounts(cfg, v, mid, c);
    }
  }

  lemma StepConserves(cfg: Config, v: View, v': View)
    requires cfg.multi && Conserved(cfg, v) && Step(cfg, v, v') && ViewsAgree(v)
    ensures Conserved(cfg, v')
  {
    if Stopped(cfg, v, v') {
      StopConserves(cfg, v, v');
    } else {
      var addrs, open :| Updated(cfg, v, v', addrs, open);
      UpdateConserves(cfg, v, v', addrs, open);
    }
  }

  lemma {:induction false} RunConserves(cfg: Config, run: seq<View>, i: nat)
    requires cfg.multi && IsRun(cfg, run) && i < |run|
    ensures Conserved(cfg, run[i])
  {
    if i > 0 {
      RunConserves(cfg, run, i - 1);
      RunKeepsViewsAgreeing(cfg, run, i - 1);
      StepConserves(cfg, run[i - 1], run[i]);
    }
  }

  /** In multi-connection mode every connection an update ever built is either installed or was handed to Disconnect
      exactly once, never both, over all sequences of updates and stops. */
  lemma ConnectionsAreConserved(cfg: Config, v: View, conn: nat)
    requires cfg.multi && Reachable(cfg, v)
    ensures BuiltByNewClient(cfg) <= conn < |v.ids| ==>
      (conn in v.ordered <==> conn !in v.handed) && Count(v.ordered + v.handed, conn) == 1
    ensures !(BuiltByNewClient(cfg) <= conn < |v.ids|) ==> conn !in v.ordered && conn !in v.handed
  {
    var run :| IsRun(cfg, run) && run[|run| - 1] == v;
    RunConserves(cfg, run, |run| - 1);
    CountMember(v.ordered, conn);
    CountMember(v.handed, conn);
    CountAppend(v.ordered, v.handed, conn);
  }

  /** The two locked sections of stop let an update in between: conservation then survives if and only if that update
      installed nothing; otherwise the connections it built are neither installed nor ever disconnected. */
  lemma UpdateDuringStopConservesIff(
      cfg: Config, v: View, v1: View, v2: View, addrs: seq<Address>, open: seq<bool>)
    requires cfg.multi && Conserved(cfg, v) && Initialized(v)
    requires StopDisconnected(cfg, v, v1) && Updated(cfg, v1, v2, addrs, open)
    ensures Conserved(cfg, StopCleared(v2)) <==> true !in open
    ensures true in open ==> forall c: nat :: |v1.ids| <= c < |v2.ids| ==>
      c !in StopCleared(v2).ordered && c !in StopCleared(v2).handed
  {
    UpdateMoves(cfg, v1, v2, addrs, open);
    forall c: nat {
      DisconnectCounts(cfg, v, v1, c);
    }
    assert |open| == |addrs|;
    MovedDuringStop(cfg, v, v1, v2, |addrs|, true in open);
  }

  lemma MovedDuringStop(cfg: Config, v: View, v1: View, v2: View, n: nat, installs: bool)
    requires Conserved(cfg, v) && v1 == v.(handed := v1.handed)
    requires forall c: nat :: Count(v1.handed, c) == Count(v.handed, c) + Count(v.ordered, c)
    requires Moved(v1, v2, n, installs) && (installs ==> n > 0)
    ensures Conserved(cfg, StopCleared(v2)) <==> !installs
    ensures installs ==> forall c: nat :: |v1.ids| <= c < |v2.ids| ==> c !in v2.handed
  {
    var v3 := StopCleared(v2);
    if installs {
      forall c: nat | |v1.ids| <= c < |v2.ids|
        ensures Count(v3.handed, c) == 0 && c !in v3.handed
      {
        CountMember(v3.handed, c);
      }
      assert Count(v3.ordered, |v1.ids|) + Count(v3.handed, |v1.ids|) == 0;
    }
  }

  // ----- conservation with a single connection

  ghost predicate WasSingle(run: seq<View>, i: nat, conn: nat)
    requires i < |run|
  {
    exists j :: 0 <= j <= i && run[j].single == Some(conn)
  }

  // Holding mqttClient counts as one place, each entry among those handed over as another.
  function Places(v: View, conn: nat): nat {
    Count(v.handed, conn) + (if v.single == Some(conn) then 1 else 0)
  }

  ghost predicate OnlySingle(v: View) {
    v.keyed == map[] && v.ordered == [] && (v.single.Some? ==> v.single.value < |v.ids|)
  }

  lemma SingleStop(cfg: Config, v: View, v': View, conn: nat)
    requires !Spread(cfg) && OnlySingle(v) && Stopped(cfg, v, v')
    ensures OnlySingle(v') && v'.ids == v.ids && v'.single == None && Places(v', conn) == Places(v, conn)
  {
    var mid :| StopDisconnected(cfg, v, mid) && v' == if Initialized(v) then StopCleared(mid) else mid;
    HandedCounts(v.handed, mid.handed, conn);
    if v.single.Some? {
      CountOneMore([], v.single.value);
      assert [] + [v.single.value] == [v.single.value];
    }
    assert Count(mid.handed[|v.handed|..], conn) == if v.single == Some(conn) then 1 else 0;
  }

  lemma SingleStep(cfg: Config, v: View, v': View, conn: nat)
    requires !Spread(cfg) && OnlySingle(v) && Step(cfg, v, v')
    ensures OnlySingle(v') && |v'.ids| >= |v.ids|
    ensures v'.single == None || v'.single == v.single || v'.single.value >= |v.ids|
    ensures Places(v', conn) == Places(v, conn) + (if v'.single == Some(conn) && v.single != v'.single then 1 else 0)
  {
    if Stopped(cfg, v, v') {
      SingleStop(cfg, v, v', conn);
    } else {
      var attempts :| SingleUpdated(cfg, v, v', attempts);
      if v.single.Some? {
        CountOneMore(v.handed, v.single.value);
      } else {
        assert v.handed + [] == v.handed;
      }
    }
  }

  lemma {:induction false} SingleRun(cfg: Config, run: seq<View>, i: nat, conn: nat)
    requires !Spread(cfg) && IsRun(cfg, run) && i < |run|
    ensures OnlySingle(run[i])
    ensures Places(run[i], conn) == if WasSingle(run, i, conn) then 1 else 0
    ensures WasSingle(run, i, conn) ==> conn < |run[i].ids|
  {
    if i > 0 {
      SingleRun(cfg, run, i - 1, conn);
      SingleStep(cfg, run[i - 1], run[i], conn);
      assert WasSingle(run, i, conn) <==> WasSingle(run, i - 1, conn) || run[i].single == Some(conn);
    }
  }

  /** With a single connection, every one that ever was mqttClient either still is or was handed to Disconnect exactly
      once, and nothing else is handed over, over all sequences of updates and stops. */
  lemma SingleConnectionsAreConserved(cfg: Config, run: seq<View>, conn: nat)
    requires !Spread(cfg) && IsRun(cfg, run)
    ensures var v := run[|run| - 1];
      if WasSingle(run, |run| - 1, conn) then
        (v.single == Some(conn) <==> conn !in v.handed) && Count(v.handed, conn) <= 1
      else
        v.single != Some(conn) && conn !in v.handed
  {
    SingleRun(cfg, run, |run| - 1, conn);
    CountMember(run[|run| - 1].handed, conn);
  }
}
