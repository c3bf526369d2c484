/** More of what runs of a Client keep: client ids, availability, and the configurations under which picking one of
    several connections can panic. */
module ClientTheorems {
  import opened Addresses
  import opened ClientRuns
  import opened ClientUpdates
  import opened Counting
  import opened Integers
  import opened Names
  import opened Optional

  // ----- client ids

  // The installed connection's client id renders its index and its generation.
  ghost predicate IdRenders(cfg: Config, v: View, x: Installed) {
    && x.conn < |v.ids|
    && 1 <= x.generation <= v.generations
    && v.ids[x.conn] == ClientId(cfg.clientID, x.index, x.generation % TWO_64)
  }

  ghost predicate IdsOk(cfg: Config, v: View) {
    && v.revision == v.generations % TWO_64
    && (forall x :: x in v.installed ==> IdRenders(cfg, v, x))
    && (forall p, q :: 0 <= p < q < |v.installed| ==>
          v.installed[p].index != v.installed[q].index || v.installed[p].generation != v.installed[q].generation)
  }

  // What an update of n addresses adds to the names and to the installed connections.
  ghost predicate Named(cfg: Config, v: View, v': View, n: nat, installs: bool) {
    && |v'.ids| == |v.ids| + n && v.ids <= v'.ids
    && (forall c: nat :: |v.ids| <= c < |v.ids| + n ==>
          v'.ids[c] == ClientId(cfg.clientID, c - |v.ids|, NextRevision(v.revision)))
    && if installs then
         && v'.generations == v.generations + 1 && v'.revision == NextRevision(v.revision)
         && |v'.installed| == |v.installed| + n && v.installed <= v'.installed
         && forall p: nat :: |v.installed| <= p < |v.installed| + n ==>
              v'.installed[p] == Installed(|v.ids| + p - |v.installed|, p - |v.installed|, v.generations + 1)
       else
         v'.generations == v.generations && v'.revision == v.revision && v'.installed == v.installed
  }

  lemma UpdateNames(cfg: Config, v: View, v': View, addrs: seq<Address>, open: seq<bool>)
    requires Updated(cfg, v, v', addrs, open)
    ensures Named(cfg, v, v', |addrs|, true in open)
  {
    var n, next := |addrs|, NextRevision(v.revision);
    forall c: nat | |v.ids| <= c < |v.ids| + n
      ensures v'.ids[c] == ClientId(cfg.clientID, c - |v.ids|, next)
    {
      ClientIdsAt(cfg.clientID, n, next, c - |v.ids|);
    }
    if true in open {
      forall p: nat | |v.installed| <= p < |v.installed| + n
        ensures v'.installed[p] == Installed(|v.ids| + p - |v.installed|, p - |v.installed|, v.generations + 1)
      {
        InstalledAsAt(|v.ids|, n, v.generations + 1, p - |v.installed|);
      }
    }
  }

  lemma {:induction false} InstalledAsAt(first: nat, n: nat, generation: nat, i: nat)
    requires i < n
    ensures InstalledAs(first, n, generation)[i] == Installed(first + i, i, generation)
  {
    if i < n - 1 {
      InstalledAsAt(first, n - 1, generation, i);
    }
  }

  lemma NextRevisionCounts(generations: nat)
    ensures NextRevision(generations % TWO_64) == (generations + 1) % TWO_64
  {
  }

  lemma NamedRendersNew(cfg: Config, v: View, v': View, n: nat, p: nat)
    requires v.revision == v.generations % TWO_64 && Named(cfg, v, v', n, true) && |v.installed| <= p < |v'.installed|
    ensures IdRenders(cfg, v', v'.installed[p]) && v'.installed[p].generation == v.generations + 1
  {
    NextRevisionCounts(v.generations);
    var i := p - |v.installed|;
    assert v'.installed[p] == Installed(|v.ids| + i, i, v.generations + 1);
    assert v'.ids[|v.ids| + i] == ClientId(cfg.clientID, i, NextRevision(v.revision));
  }

  lemma NamedRenders(cfg: Config, v: View, v': View, n: nat, installs: bool, p: nat)
    requires IdsOk(cfg, v) && Named(cfg, v, v', n, installs) && p < |v'.installed|
    ensures IdRenders(cfg, v', v'.installed[p])
    ensures v'.installed[p].generation <= v.generations <==> p < |v.installed|
  {
    if p < |v.installed| {
      assert v'.installed[p] == v.installed[p] && v.installed[p] in v.installed;
      assert IdRenders(cfg, v, v.installed[p]);
      assert v'.ids[v.installed[p].conn] == v.ids[v.installed[p].conn];
    } else {
      NamedRendersNew(cfg, v, v', n, p);
    }
  }

  lemma NamedKeepsPairs(cfg: Config, v: View, v': View, n: nat, installs: bool, p: nat, q: nat)
    requires IdsOk(cfg, v) && Named(cfg, v, v', n, installs) && p < q < |v'.installed|
    ensures v'.installed[p].index != v'.installed[q].index || v'.installed[p].generation != v'.installed[q].generation
  {
    NamedRenders(cfg, v, v', n, installs, p);
    NamedRenders(cfg, v, v', n, installs, q);
    assert q < |v.installed| ==> v'.installed[p] == v.installed[p] && v'.installed[q] == v.installed[q];
  }

  lemma NamedKeepsIds(cfg: Config, v: View, v': View, n: nat, installs: bool)
    requires IdsOk(cfg, v) && Named(cfg, v, v', n, installs)
    ensures IdsOk(cfg, v')
  {
    forall x | x in v'.installed
      ensures IdRenders(cfg, v', x)
    {
      var p :| 0 <= p < |v'.installed| && v'.installed[p] == x;
      NamedRenders(cfg, v, v', n, installs, p);
    }
    forall p, q | 0 <= p < q < |v'.installed|
      ensures v'.installed[p].index != v'.installed[q].index || v'.installed[p].generation != v'.installed[q].generation
    {
      NamedKeepsPairs(cfg, v, v', n, installs, p, q);
    }
  }

  lemma UpdateKeepsIds(cfg: Config, v: View, v': View, addrs: seq<Address>, open: seq<bool>)
    requires IdsOk(cfg, v) && Updated(cfg, v, v', addrs, open)
    ensures IdsOk(cfg, v')
  {
    UpdateNames(cfg, v, v', addrs, open);
    NamedKeepsIds(cfg, v, v', |addrs|, true in open);
  }

  lemma {:induction false} RunKeepsIds(cfg: Config, run: seq<View>, i: nat)
    requires cfg.multi && IsRun(cfg, run) && i < |run|
    ensures IdsOk(cfg, run[i])
  {
    if i > 0 {
      RunKeepsIds(cfg, run, i - 1);
      var v, v' := run[i - 1], run[i];
      assert Step(cfg, v, v');
      if !Stopped(cfg, v, v') {
        var addrs, open :| Updated(cfg, v, v', addrs, open);
        UpdateKeepsIds(cfg, v, v', addrs, open);
      }
    }
  }

  lemma RenderedIdsDiffer(cfg: Config, v: View, a: Installed, b: Installed)
    requires IdRenders(cfg, v, a) && IdRenders(cfg, v, b) && v.generations <= TWO_64
    requires a.index != b.index || a.generation != b.generation
    ensures v.ids[a.conn] != v.ids[b.conn]
  {
    if v.ids[a.conn] == v.ids[b.conn] {
      ClientIdIsInjective(cfg.clientID, a.index, a.generation % TWO_64, cfg.clientID, b.index, b.generation % TWO_64);
    }
  }

  ghost predicate IdsDiffer(v: View, c: nat, d: nat) {
    c < |v.ids| && d < |v.ids| && v.ids[c] != v.ids[d]
  }

  /** The revision counts the generations installed, and until it wraps no two connections that were ever installed
      share a client id. */
  lemma InstalledClientIdsAreDistinct(cfg: Config, v: View)
    requires cfg.multi && Reachable(cfg, v) && v.generations <= TWO_64
    ensures v.revision == v.generations % TWO_64
    ensures forall p, q :: 0 <= p < q < |v.installed| ==> IdsDiffer(v, v.installed[p].conn, v.installed[q].conn)
  {
    var run :| IsRun(cfg, run) && run[|run| - 1] == v;
    RunKeepsIds(cfg, run, |run| - 1);
    forall p, q | 0 <= p < q < |v.installed|
      ensures IdsDiffer(v, v.installed[p].conn, v.installed[q].conn)
    {
      assert v.installed[p] in v.installed && v.installed[q] in v.installed;
      RenderedIdsDiffer(cfg, v, v.installed[p], v.installed[q]);
    }
  }

  /** Connections that were built and not installed are another matter: the i-th connections of two updates in a row
      share a client id if and only if the first update installed nothing. */
  lemma NextUpdateReusesIdIff(
      cfg: Config, v: View, v1: View, v2: View, addrs1: seq<Address>, open1: seq<bool>,
      addrs2: seq<Address>, open2: seq<bool>, i: nat)
    requires Updated(cfg, v, v1, addrs1, open1) && Updated(cfg, v1, v2, addrs2, open2)
    requires i < |addrs1| && i < |addrs2|
    ensures v2.ids[|v.ids| + i] == v2.ids[|v1.ids| + i] <==> true !in open1
  {
    UpdateNames(cfg, v, v1, addrs1, open1);
    UpdateNames(cfg, v1, v2, addrs2, open2);
    NamedReusesIdIff(cfg, v, v1, v2, |addrs1|, true in open1, |addrs2|, true in open2, i);
  }

  lemma NamedReusesIdIff(cfg: Config, v: View, v1: View, v2: View, n1: nat, installs1: bool, n2: nat, installs2: bool,
                         i: nat)
    requires Named(cfg, v, v1, n1, installs1) && Named(cfg, v1, v2, n2, installs2) && i < n1 && i < n2
    ensures v2.ids[|v.ids| + i] == v2.ids[|v1.ids| + i] <==> !installs1
  {
    assert v2.ids[|v.ids| + i] == v1.ids[|v.ids| + i];
    if v2.ids[|v.ids| + i] == v2.ids[|v1.ids| + i] {
      ClientIdIsInjective(cfg.clientID, i, NextRevision(v.revision), cfg.clientID, i, NextRevision(v1.revision));
    }
  }

  // ----- availability

  ghost predicate SomeSeenOpen(v: View) {
    exists c :: c in v.ordered && c in v.seenOpen
  }

  lemma UpdateKeepsAvailability(cfg: Config, v: View, v': View, addrs: seq<Address>, open: seq<bool>)
    requires Updated(cfg, v, v', addrs, open) && (v.ordered != [] ==> SomeSeenOpen(v))
    ensures v'.ordered != [] ==> SomeSeenOpen(v')
    ensures v.ordered != [] || true in open ==> v'.ordered != []
  {
    if true in open {
      var i :| 0 <= i < |open| && open[i];
      EnumeratesLength(v'.ordered, |v.ids|, |addrs|);
      assert |v.ids| + i in v'.ordered && |v.ids| + i in v'.seenOpen;
    } else if v.ordered != [] {
      var c :| c in v.ordered && c in v.seenOpen;
      assert c in v'.ordered && c in v'.seenOpen;
    }
  }

  lemma {:induction false} RunKeepsSeenOpen(cfg: Config, run: seq<View>, i: nat)
    requires cfg.multi && IsRun(cfg, run) && i < |run|
    ensures run[i].ordered != [] ==> SomeSeenOpen(run[i])
  {
    if i > 0 {
      RunKeepsSeenOpen(cfg, run, i - 1);
      var v, v' := run[i - 1], run[i];
      assert Step(cfg, v, v');
      if !Stopped(cfg, v, v') {
        var addrs, open :| Updated(cfg, v, v', addrs, open);
        UpdateKeepsAvailability(cfg, v, v', addrs, open);
      } else if v'.ordered != [] {
        assert v'.ordered == v.ordered && v'.seenOpen == v.seenOpen;
        var c :| c in v.ordered && c in v.seenOpen;
        assert c in v'.ordered && c in v'.seenOpen;
      }
    }
  }

  // Part of a run that no stop interrupts.
  ghost predicate OnlyUpdates(cfg: Config, run: seq<View>, i: nat, j: nat)
    requires i <= j < |run|
  {
    forall k :: i <= k < j ==> !Stopped(cfg, run[k], run[k + 1])
  }

  /** Whatever generation is installed had a connection seen open when it was selected; and once one is installed, no
      sequence of updates, empty or entirely failed ones included, leaves the client without connections. */
  lemma {:induction false} UpdatesKeepConnections(cfg: Config, run: seq<View>, i: nat, j: nat)
    requires cfg.multi && IsRun(cfg, run) && i <= j < |run| && OnlyUpdates(cfg, run, i, j)
    requires run[i].ordered != []
    ensures run[j].ordered != [] && run[j].keyed != map[] && SomeSeenOpen(run[j])
    decreases j - i
  {
    RunKeepsViewsAgreeing(cfg, run, j);
    RunKeepsSeenOpen(cfg, run, j);
    if i < j {
      UpdatesKeepConnections(cfg, run, i, j - 1);
      var v, v' := run[j - 1], run[j];
      assert Step(cfg, v, v');
      var addrs, open :| Updated(cfg, v, v', addrs, open);
      UpdateKeepsAvailability(cfg, v, v', addrs, open);
    }
  }

  // ----- when picking one connection panics

  // execute finds some connection and goes on to choose one among the keyed ones, of which there are none.
  ghost predicate SelectionPanics(cfg: Config, v: View) {
    Initialized(v) && Spread(cfg) && v.keyed == map[]
  }

  function PoolMap(names: seq<string>): map<string, nat> {
    if names == [] then map[] else PoolMap(names[..|names| - 1])[names[|names| - 1] := |names| - 1]
  }

  lemma {:induction false} PoolMapIsKeyed(names: seq<string>)
    requires Distinct(names)
    ensures KeyedUpTo(PoolMap(names), names, |names|, 0)
  {
    if names != [] {
      var n := |names| - 1;
      PoolMapIsKeyed(names[..n]);
      assert names[..n][..n] == names[..n];
      KeyedByOneMore(PoolMap(names[..n]), names, n, 0);
    }
  }

  function Conns(n: nat): seq<nat> {
    if n == 0 then [] else Conns(n - 1) + [n - 1]
  }

  lemma {:induction false} ConnsEnumerate(n: nat)
    ensures Enumerates(Conns(n), 0, n)
  {
    if n > 0 {
      ConnsEnumerate(n - 1);
      CountOneMore(Conns(n - 1), n - 1);
    }
  }

  function InitialView(cfg: Config): View {
    var pooled := cfg.hasBroker && Pool(cfg);
    View(if cfg.hasBroker && !pooled then Some(0) else None,
         if pooled then PoolMap(PoolIds(cfg.clientID, cfg.poolSize)) else map[],
         if pooled then Conns(cfg.poolSize) else [],
         0,
         if pooled then PoolIds(cfg.clientID, cfg.poolSize)
         else if cfg.hasBroker then [cfg.clientID] else [],
         [], [], 0, {})
  }

  lemma PoolIsKeyed(names: seq<string>, n: nat)
    requires Distinct(names) && |names| == n
    ensures KeyedBy(PoolMap(names), names, 0) && Enumerates(Conns(n), 0, n)
  {
    PoolMapIsKeyed(names);
    ConnsEnumerate(n);
  }

  lemma InitialViewIsCreated(cfg: Config)
    requires Accepted(cfg)
    ensures Created(cfg, InitialView(cfg))
  {
    var names := PoolIds(cfg.clientID, cfg.poolSize);
    PoolIdsAreDistinct(cfg.clientID, cfg.poolSize);
    PoolIsKeyed(names, cfg.poolSize);
  }

  lemma InitialViewIsReachable(cfg: Config)
    requires Accepted(cfg)
    ensures Created(cfg, InitialView(cfg)) && Reachable(cfg, InitialView(cfg))
  {
    InitialViewIsCreated(cfg);
    CreatedIsReachable(cfg, InitialView(cfg));
  }

  /** The runs of the theorems are those of the class: NewClient leaves a client in a reachable view, and its updates
      and stops lead from one such view to the next. */
  lemma CreatedIsReachable(cfg: Config, v: View)
    requires Created(cfg, v)
    ensures Reachable(cfg, v)
  {
    var run := [v];
    assert IsRun(cfg, run) && run[|run| - 1] == v;
  }

  lemma ReachableStep(cfg: Config, v: View, v': View)
    requires Reachable(cfg, v) && Step(cfg, v, v')
    ensures Reachable(cfg, v')
  {
    var run :| IsRun(cfg, run) && run[|run| - 1] == v;
    var longer := run + [v'];
    assert IsRun(cfg, longer) && longer[|longer| - 1] == v';
  }

  // The steps that the methods of a client perform, one by one.
  lemma UpdateStaysReachable(cfg: Config, v: View, v': View, addrs: seq<Address>, open: seq<bool>)
    requires cfg.multi && cfg.hasResolver && Updated(cfg, v, v', addrs, open)
    ensures Reachable(cfg, v) ==> Reachable(cfg, v')
  {
    if Reachable(cfg, v) {
      ReachableStep(cfg, v, v');
    }
  }

  lemma SingleUpdateStaysReachable(cfg: Config, v: View, v': View, attempts: nat)
    requires !cfg.multi && cfg.hasResolver && SingleUpdated(cfg, v, v', attempts)
    ensures Reachable(cfg, v) ==> Reachable(cfg, v')
  {
    if Reachable(cfg, v) {
      ReachableStep(cfg, v, v');
    }
  }

  lemma StopStaysReachable(cfg: Config, v: View, v': View)
    requires Stopped(cfg, v, v')
    ensures Reachable(cfg, v) ==> Reachable(cfg, v')
  {
    if Reachable(cfg, v) {
      ReachableStep(cfg, v, v');
    }
  }

  // A pool that listens to a resolver stores the resolved connection where execute does not look for it.
  lemma PoolWithResolverPanics(cfg: Config) returns (v: View)
    requires Accepted(cfg) && Pool(cfg) && cfg.hasResolver
    ensures Reachable(cfg, v) && SelectionPanics(cfg, v)
  {
    InitialViewIsReachable(cfg);
    var created := InitialView(cfg);
    var stopped := created;
    if cfg.hasBroker {
      var mid := created.(handed := created.ordered);
      assert mid.handed[|created.handed|..] == created.ordered;
      assert StopDisconnected(cfg, created, mid);
      stopped := StopCleared(mid);
      assert Initialized(created) by {
        assert |created.keyed| == cfg.poolSize;
      }
      assert Stopped(cfg, created, stopped);
      ReachableStep(cfg, created, stopped);
    }
    var built := stopped.ids + seq(1, i => cfg.clientID);
    v := stopped.(ids := built, single := Some(|built| - 1));
    assert stopped.handed + [] == stopped.handed;
    assert SingleUpdated(cfg, stopped, v, 1);
    ReachableStep(cfg, stopped, v);
  }

  lemma {:induction false} RunKeepsSingleEmpty(cfg: Config, run: seq<View>, i: nat)
    requires Spread(cfg) && !(cfg.multi && cfg.hasBroker) && !(Pool(cfg) && cfg.hasResolver)
    requires IsRun(cfg, run) && i < |run|
    ensures run[i].single.None?
  {
    if i > 0 {
      RunKeepsSingleEmpty(cfg, run, i - 1);
      assert Step(cfg, run[i - 1], run[i]);
    }
  }

  /** NewClient accepts configurations under which a publish or a plain subscribe can panic: exactly those that
      combine multi-connection mode with a fixed broker address or a pool with a resolver. */
  lemma SelectionIsSafeIff(cfg: Config)
    requires Accepted(cfg)
    ensures (forall v :: Reachable(cfg, v) ==> !SelectionPanics(cfg, v)) <==>
      !(cfg.multi && cfg.hasBroker) && !(Pool(cfg) && cfg.hasResolver)
  {
    if cfg.multi && cfg.hasBroker {
      InitialViewIsReachable(cfg);
      assert SelectionPanics(cfg, InitialView(cfg));
    } else if Pool(cfg) && cfg.hasResolver {
      var v := PoolWithResolverPanics(cfg);
    } else {
      forall v | Reachable(cfg, v)
        ensures !SelectionPanics(cfg, v)
      {
        if Spread(cfg) {
          var run :| IsRun(cfg, run) && run[|run| - 1] == v;
          RunKeepsSingleEmpty(cfg, run, |run| - 1);
        }
      }
    }
  }

  // ----- runs in which the failures happen

  // An update to one address, whose connection is open or not.
  lemma UpdateOfOne(cfg: Config, v: View, a: Address, isOpen: bool) returns (v': View)
    ensures Updated(cfg, v, v', [a], [isOpen])
    ensures isOpen ==> v'.ordered == [|v.ids|] && v'.keyed != map[]
  {
    var n, next := |v.ids|, NextRevision(v.revision);
    var built := v.(ids := v.ids + ClientIds(cfg.clientID, 1, next), seenOpen := v.seenOpen + OpenConns(n, [isOpen]));
    CountOneMore([], n);
    assert [] + [n] == [n];
    if isOpen {
      v' := built.(keyed := map[Keys([a])[0] := n], ordered := [n], revision := next,
                   generations := v.generations + 1, installed := v.installed + InstalledAs(n, 1, v.generations + 1),
                   handed := v.handed + v.ordered);
      assert v'.handed[|v.handed|..] == v.ordered;
      assert Keys([a])[0] in v'.keyed;
    } else {
      v' := built.(handed := v.handed + [n]);
      assert v'.handed[|v.handed|..] == [n];
    }
    assert [isOpen][0] == isOpen;
  }

  // The same in a run.
  lemma ReachableUpdateOfOne(cfg: Config, v: View, a: Address, isOpen: bool) returns (v': View)
    requires cfg.multi && cfg.hasResolver && Reachable(cfg, v)
    ensures Reachable(cfg, v') && Updated(cfg, v, v', [a], [isOpen])
    ensures isOpen ==> v'.ordered == [|v.ids|] && v'.keyed != map[]
  {
    v' := UpdateOfOne(cfg, v, a, isOpen);
    ReachableStep(cfg, v, v');
  }

  /** Two updates in a row of which the first finds no open connection happen in every configuration with several
      connections, and then two connections share a client id. */
  lemma IdsAreReused(cfg: Config, a: Address) returns (v: View, v1: View, v2: View)
    requires cfg.multi && cfg.hasResolver && Accepted(cfg)
    ensures Reachable(cfg, v) && Reachable(cfg, v1) && Reachable(cfg, v2)
    ensures Updated(cfg, v, v1, [a], [false]) && Updated(cfg, v1, v2, [a], [true])
    ensures |v.ids| < |v1.ids| < |v2.ids| && v2.ids[|v.ids|] == v2.ids[|v1.ids|]
  {
    v := InitialView(cfg);
    InitialViewIsReachable(cfg);
    v1 := ReachableUpdateOfOne(cfg, v, a, false);
    v2 := ReachableUpdateOfOne(cfg, v1, a, true);
    NextUpdateReusesIdIff(cfg, v, v1, v2, [a], [false], [a], [true], 0);
  }

  lemma ReachableIsConserved(cfg: Config, v: View)
    requires cfg.multi && Reachable(cfg, v)
    ensures Conserved(cfg, v)
  {
    var run :| IsRun(cfg, run) && run[|run| - 1] == v;
    RunConserves(cfg, run, |run| - 1);
  }

  /** An installed generation, the first half of a stop and an update that installs another happen in every
      configuration with several connections; the second half of the stop then loses a connection. */
  lemma StopLosesConnection(cfg: Config, a: Address) returns (v: View, v1: View, v2: View)
    requires cfg.multi && cfg.hasResolver && Accepted(cfg)
    ensures Reachable(cfg, v) && v.ordered != [] && Initialized(v)
    ensures StopDisconnected(cfg, v, v1) && Updated(cfg, v1, v2, [a], [true])
    ensures !Conserved(cfg, StopCleared(v2))
    ensures |v1.ids| < |v2.ids| && |v1.ids| !in StopCleared(v2).ordered && |v1.ids| !in StopCleared(v2).handed
  {
    InitialViewIsReachable(cfg);
    v := ReachableUpdateOfOne(cfg, InitialView(cfg), a, true);
    ReachableIsConserved(cfg, v);
    v1 := v.(handed := v.handed + v.ordered);
    assert v1.handed[|v.handed|..] == v.ordered;
    v2 := UpdateOfOne(cfg, v1, a, true);
    assert [true][0];
    UpdateDuringStopConservesIff(cfg, v, v1, v2, [a], [true]);
  }
}
