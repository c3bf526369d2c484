/** The Client: its fields and the methods that change them. NewClient, address updates in both connection modes, the
    subscription operations, the pick for a publish, and Stop. The oracles - what the broker answers, which connection
    is open, which goroutine goes first - are the nondeterministic choices. */
module CourierClient {
  import opened Addresses
  import opened CallOptions
  import opened ClientRuns
  import opened ClientTheorems
  import opened ClientUpdates
  import opened ConnectionStates
  import opened Counting
  import opened Errors
  import opened Fanout
  import opened Integers
  import opened Names
  import opened Optional
  import opened Subscriptions
  import opened Tickets

  const NOT_INITIALIZED := Plain(0)

  // What execute finds: no connection at all, the single one, or the keyed ones.
  datatype Route = NoClient | OnSingle | OnKeyed

  ghost predicate KeyedByTopic(subscriptions: map<string, SubscriptionMeta>) {
    forall t :: t in subscriptions ==> subscriptions[t].topic == t
  }

  ghost predicate CalledOneOrPanicked(before: Histories, after: Histories, topics: map<string, Byte>, r: Outcome) {
    if |before| == 0 then r == Panicked && after == before
    else r.Returned? && r.err != Some(Multi([])) && CalledOne(before, after, PlainSubscribe(topics, r.err.None?))
  }

  // What c.subscriber.Subscribe does with the keyed states.
  ghost predicate KeyedSubscribe(shared: bool, before: Histories, after: Histories, topic: string, qos: Byte,
                                 r: Outcome) {
    if shared then
      r.Returned? && r.err != Some(Multi([])) && SubscribedOnce(before, after, topic, qos) &&
      (r.err.None? <==> AllRemember(after, topic))
    else
      CalledOneOrPanicked(before, after, map[topic := qos], r)
  }

  // A subscribe through mqttClient; through a nil client it panics.
  ghost predicate SingleCall(client: Option<nat>, before: seq<Call>, after: seq<Call>, topics: map<string, Byte>,
                             r: Outcome) {
    if client.None? then r == Panicked && after == before
    else r.Returned? && r.err != Some(Multi([])) && after == before + [PlainSubscribe(topics, r.err.None?)]
  }

  // What c.subscriber.Subscribe does with the keyed states and with the calls on mqttClient.
  ghost predicate SubscribeEffect(route: Route, shared: bool, client: Option<nat>, before: Histories, after: Histories,
                                  single: seq<Call>, single': seq<Call>, topic: string, qos: Byte, r: Outcome) {
    if route.NoClient? then r == Returned(Some(NOT_INITIALIZED)) && after == before && single' == single
    else if route.OnKeyed? then KeyedSubscribe(shared, before, after, topic, qos, r) && single' == single
    else SingleCall(client, single, single', map[topic := qos], r) && after == before
  }

  // The same for SubscribeMultiple; without a client nothing but an empty map of topics succeeds.
  ghost predicate MultipleEffect(route: Route, client: Option<nat>, before: Histories, after: Histories,
                                 single: seq<Call>, single': seq<Call>, sharedSubs: map<string, Byte>,
                                 normalSubs: map<string, Byte>, r: Outcome) {
    if route.NoClient? then
      r.Returned? && (r.err.None? <==> |sharedSubs| + |normalSubs| == 0) && after == before && single' == single
    else if route.OnKeyed? then
      single' == single &&
      if r.Returned? then SubscribedMultiple(before, after, sharedSubs, normalSubs, r.err.None?)
      else |normalSubs| > 0 && |before| == 0 && after == before
    else
      && after == before
      && (r.Panicked? <==> client.None? && |sharedSubs| + |normalSubs| > 0)
      && if r.Returned? then SubscribedMultiple([single], [single'], sharedSubs, normalSubs, r.err.None?)
         else single' == single
  }

  // One of the two calls of SubscribeMultiple on the only connection there is.
  ghost predicate OnlyPart(before: seq<Call>, after: seq<Call>, topics: map<string, Byte>, ok: bool) {
    after == if |topics| == 0 then before else before + [PlainSubscribe(topics, ok)]
  }

  lemma OnlyPartIsBoth(before: seq<Call>, after: seq<Call>, topics: map<string, Byte>, ok: bool)
    requires OnlyPart(before, after, topics, ok) && (|topics| == 0 ==> ok)
    ensures SharedPart([before], [after], topics, ok) && NormalPart([before], [after], topics, ok)
  {
    if |topics| > 0 {
      CalledIsAckedIff(before, after, PlainSubscribe(topics, true), PlainSubscribe(topics, false));
      var h, h' := [before], [after];
      assert h[0] == before && h'[0] == after;
      assert h' == h[0 := h[0] + [PlainSubscribe(topics, ok)]];
      assert AllAcked(h, h', PlainSubscribe(topics, true)) ==> h'[0] == h[0] + [PlainSubscribe(topics, true)];
    }
  }

  lemma BothParts(before: seq<Call>, mid: seq<Call>, after: seq<Call>, sharedFirst: bool,
                  sharedSubs: map<string, Byte>, normalSubs: map<string, Byte>, ok1: bool, ok2: bool)
    requires (|sharedSubs| == 0 ==> ok1) && (|normalSubs| == 0 ==> ok2)
    requires if sharedFirst then OnlyPart(before, mid, sharedSubs, ok1) && OnlyPart(mid, after, normalSubs, ok2)
             else OnlyPart(before, mid, normalSubs, ok2) && OnlyPart(mid, after, sharedSubs, ok1)
    ensures SubscribedMultiple([before], [after], sharedSubs, normalSubs, ok1 && ok2)
  {
    if sharedFirst {
      OnlyPartIsBoth(before, mid, sharedSubs, ok1);
      OnlyPartIsBoth(mid, after, normalSubs, ok2);
    } else {
      OnlyPartIsBoth(before, mid, normalSubs, ok2);
      OnlyPartIsBoth(mid, after, sharedSubs, ok1);
    }
    assert InSomeOrder([before], [mid], [after], sharedSubs, normalSubs, ok1, ok2);
  }

  // The topics are registered with options that compose to their QoS, and no other entry changes.
  ghost predicate RegisteredAll(before: map<string, SubscriptionMeta>, after: map<string, SubscriptionMeta>,
                                topics: map<string, Byte>) {
    && after.Keys == before.Keys + topics.Keys
    && (forall t :: t in topics ==> LastQos(after[t].options) == topics[t])
    && (forall t :: t in before && t !in topics ==> after[t] == before[t])
  }

  // The loop in SubscribeMultiple that writes the registry.
  method RegisterAll(subscriptions: map<string, SubscriptionMeta>, topics: map<string, Byte>)
    returns (registered: map<string, SubscriptionMeta>)
    requires KeyedByTopic(subscriptions)
    ensures KeyedByTopic(registered) && RegisteredAll(subscriptions, registered, topics)
  {
    registered := subscriptions;
    var remaining := topics.Keys;
    while remaining != {}
      invariant remaining <= topics.Keys && KeyedByTopic(registered)
      invariant registered.Keys == subscriptions.Keys + (topics.Keys - remaining)
      invariant forall t :: t in topics && t !in remaining ==> LastQos(registered[t].options) == topics[t]
      invariant forall t :: t in subscriptions && t !in topics ==> registered[t] == subscriptions[t]
    {
      var topic :| topic in remaining;
      registered := registered[topic := SubscriptionMeta(topic, [QOSLevel(topics[topic])])];
      remaining := remaining - {topic};
    }
  }

  // removeSubsFromState on every keyed state.
  ghost predicate UnsubscribedAll(before: Histories, after: Histories, topics: seq<string>, err: Option<Err>) {
    && err != Some(Multi([]))
    && EachCalled(before, after, Unsubscribe(topics, true), Unsubscribe(topics, false))
    && (err.None? <==> AllAcked(before, after, Unsubscribe(topics, true)))
  }

  ghost predicate SingleUnsubscribe(client: Option<nat>, before: seq<Call>, after: seq<Call>, topics: seq<string>,
                                    r: Outcome) {
    if client.None? then r == Panicked && after == before
    else r.Returned? && r.err != Some(Multi([])) && after == before + [Unsubscribe(topics, r.err.None?)]
  }

  ghost predicate UnsubscribeEffect(route: Route, client: Option<nat>, before: Histories, after: Histories,
                                    single: seq<Call>, single': seq<Call>, topics: seq<string>, r: Outcome) {
    if route.NoClient? then r == Returned(Some(NOT_INITIALIZED)) && after == before && single' == single
    else if route.OnKeyed? then r.Returned? && UnsubscribedAll(before, after, topics, r.err) && single' == single
    else SingleUnsubscribe(client, single, single', topics, r) && after == before
  }

  function AsSet(topics: seq<string>): set<string> {
    set t | t in topics
  }

  // The loop in Unsubscribe that deletes from the registry.
  method UnregisterAll(subscriptions: map<string, SubscriptionMeta>, topics: seq<string>)
    returns (rest: map<string, SubscriptionMeta>)
    requires KeyedByTopic(subscriptions)
    ensures KeyedByTopic(rest) && rest == subscriptions - AsSet(topics)
  {
    rest := subscriptions;
    for i := 0 to |topics|
      invariant rest == subscriptions - AsSet(topics[..i])
    {
      rest := rest - {topics[i]};
      assert AsSet(topics[..i + 1]) == AsSet(topics[..i]) + {topics[i]};
    }
    assert topics[..|topics|] == topics;
  }

  // After a resume on new connections: nil exactly if they carry the registry.
  ghost predicate ResumedOnNew(after: Histories, subscriptions: map<string, SubscriptionMeta>, shared: string -> bool,
                               r: Outcome) {
    && r.Returned?
    && Tried(NoneYet(|after|), after, subscriptions, shared)
    && (r.err.None? <==> Carried(after, subscriptions, shared))
  }

  lemma ResumeEffectOnNew(w: Setting, before: Histories, after: Histories, r: Outcome)
    requires w.connected && !w.noneToPick && NoCalls(before) && ResumeEffect(w, before, after, r)
    ensures ResumedOnNew(after, w.subscriptions, w.shared, r)
  {
    NoCallsIsNoneYet(before);
    if |w.subscriptions| == 0 {
      NothingTried(before, w.subscriptions, w.shared);
      assert w.subscriptions.Keys == {};
    }
    ResumedFreshIsCarried(before, after, w.subscriptions, w.shared);
  }

  // After an update: on a new generation, or on the old one.
  ghost predicate UpdateResumed(installs: bool, w: Setting, before: Histories, after: Histories, r: Outcome) {
    if installs then ResumedOnNew(after, w.subscriptions, w.shared, r) else ResumeEffect(w, before, after, r)
  }

  // How many connections newClient builds.
  function Attempts(addrs: seq<Address>, failures: nat): nat {
    if |addrs| == 0 then 0 else failures + 1
  }

  // In single-connection mode no topic is treated as shared.
  predicate NeverShared(topic: string) {
    false
  }

  // After a resume on a new mqttClient; with a pool the resume went to the pool.
  ghost predicate SingleResumed(cfg: Config, before: Histories, after: Histories, single: seq<Call>,
                                subscriptions: map<string, SubscriptionMeta>, shared: string -> bool, r: Outcome) {
    if Spread(cfg) then ResumeEffect(Setting(true, |before| == 0, subscriptions, shared), before, after, r)
    else ResumedOnNew([single], subscriptions, NeverShared, r)
  }

  // A subscribe that returned is what resuming a topic needs.
  lemma CalledForResume(route: Route, shared: bool, client: Option<nat>, before: Histories, after: Histories,
                        single: seq<Call>, single': seq<Call>, topic: string, qos: Byte, r: Outcome)
    requires SubscribeEffect(route, shared, client, before, after, single, single', topic, qos, r) && r.Returned?
    ensures route.OnKeyed? ==> Calls(before, after, topic, qos, shared, r.err.None?)
    ensures route.OnSingle? ==> Calls([single], [single'], topic, qos, false, r.err.None?)
  {
    if route.OnSingle? {
      var h := [single];
      assert [single'] == h[0 := h[0] + [PlainSubscribe(map[topic := qos], r.err.None?)]];
    }
  }

  class Client {
    const cfg: Config
    const sharedPredicate: string -> bool
    const rrCounter: AtomicCounter
    var subscriptions: map<string, SubscriptionMeta>
    var mqttClient: Option<nat>
    var mqttClients: map<string, InternalState>
    var orderedClients: seq<InternalState>
    var multiConnRevision: uint64
    // The client id of every connection that newClientFunc built; a connection is named by its place here.
    var ids: seq<string>
    // The key of each of the ordered clients.
    ghost var names: seq<string>
    // Histories; singleCalls lists the calls on the current mqttClient outside pool and multi-connection mode.
    ghost var handed: seq<nat>
    ghost var installed: seq<Installed>
    ghost var generations: nat
    ghost var seenOpen: set<nat>
    ghost var singleCalls: seq<Call>

    ghost predicate Valid()
      reads this, orderedClients
    {
      && Agree(mqttClients, orderedClients, names)
      && AllValid(orderedClients)
      && WereBuilt(OrderedConns(orderedClients), seenOpen, |ids|)
      && KeyedByTopic(subscriptions)
    }

    ghost function GetView(): View
      reads this
    {
      View(mqttClient, KeyedConns(mqttClients), OrderedConns(orderedClients), multiConnRevision,
           ids, handed, installed, generations, seenOpen)
    }

    // A client without connections.
    constructor (cfg: Config, sharedPredicate: string -> bool)
      ensures Valid() && GetView() == View(None, map[], [], 0, [], [], [], 0, {})
      ensures this.cfg == cfg && this.sharedPredicate == sharedPredicate
      ensures subscriptions == map[] && singleCalls == []
      ensures fresh(rrCounter) && rrCounter.value == 0
    {
      this.cfg := cfg;
      this.sharedPredicate := sharedPredicate;
      rrCounter := new AtomicCounter();
      subscriptions, mqttClient, mqttClients, orderedClients := map[], None, map[], [];
      multiConnRevision := 0;
      names, ids, handed, installed, generations, seenOpen, singleCalls := [], [], [], [], 0, {}, [];
    }

    // The single connection to a fixed broker address, also in multi-connection mode.
    method UseBrokerAddress()
      requires Valid() && ids == []
      modifies this`mqttClient, this`ids
      ensures mqttClient == Some(0) && ids == [cfg.clientID] && Valid()
    {
      mqttClient := Some(0);
      ids := [cfg.clientID];
    }

    // ----- an address update in multi-connection mode

    // disconnectAll: one Disconnect for each connection, in any order.
    method DisconnectAll(cls: seq<nat>)
      modifies this`handed
      ensures old(handed) <= handed && Permutes(handed[|old(handed)|..], cls)
    {
      for i := 0 to |cls|
        invariant handed == old(handed) + cls[..i]
      {
        handed := handed + [cls[i]];
      }
      assert handed[|old(handed)|..] == cls;
    }

    // Asks every new connection whether it is open; isOpen is what each of them answers.
    method AskWhichAreOpen(clients: map<string, nat>, isOpen: nat -> bool)
      returns (anyConnected: bool, ghost live: set<nat>)
      ensures forall c :: c in live <==> c in clients.Values && isOpen(c)
      ensures anyConnected <==> exists k :: k in clients && isOpen(clients[k])
      ensures anyConnected <==> live != {}
    {
      anyConnected, live := false, {};
      var remaining := clients.Keys;
      while remaining != {}
        invariant remaining <= clients.Keys
        invariant forall c :: c in live ==> c in clients.Values && isOpen(c)
        invariant forall k :: k in clients && k !in remaining && isOpen(clients[k]) ==> clients[k] in live
        invariant anyConnected <==> live != {}
      {
        var k :| k in remaining;
        if isOpen(clients[k]) {
          anyConnected := true;
          live := live + {clients[k]};
        }
        remaining := remaining - {k};
      }
      if live != {} {
        var c :| c in live;
        assert c in clients.Values;
      }
    }

    // Builds one connection for each address.
    method BuildClients(addrs: seq<Address>) returns (clients: map<string, nat>)
      modifies this`ids
      ensures KeyedBy(clients, Keys(addrs), |old(ids)|)
      ensures ids == old(ids) + ClientIds(cfg.clientID, |addrs|, NextRevision(multiConnRevision))
    {
      var newIds;
      clients, newIds := BuildEach(cfg.clientID, addrs, |ids|, (multiConnRevision + 1) % TWO_64);
      ids := ids + newIds;
    }

    // Hands over a generation of which no connection is open.
    method DiscardClients(clients: map<string, nat>, ghost keys: seq<string>, ghost first: nat)
      requires Distinct(keys) && KeyedBy(clients, keys, first)
      modifies this`handed
      ensures old(handed) <= handed && Enumerates(handed[|old(handed)|..], first, |keys|)
    {
      InjectiveKeys(clients, keys, first);
      var vs := Values(clients);
      DisconnectAll(vs);
      ValuesEnumerate(clients, vs, keys, first);
    }

    // The end of multipleClients.
    method SelectClients(clients: map<string, nat>, anyConnected: bool, ghost keys: seq<string>, ghost first: nat)
      returns (res: map<string, nat>)
      requires Distinct(keys) && KeyedBy(clients, keys, first) && (anyConnected ==> keys != [])
      modifies this`handed, this`multiConnRevision, this`generations, this`installed
      ensures res == if anyConnected then clients else map[]
      ensures Settled(old(GetView()), GetView(), first, |keys|, anyConnected)
    {
      res := clients;
      if !anyConnected {
        DiscardClients(clients, keys, first);
        res := map[];
      }
      if |res| > 0 {
        multiConnRevision := (multiConnRevision + 1) % TWO_64;
        generations := generations + 1;
        installed := installed + InstalledAs(first, |keys|, generations);
      }
    }

    /** multipleClients: nothing is returned unless one of the new connections is open; those built in vain are
        handed over at once. */
    method MultipleClients(addrs: seq<Address>, isOpen: nat -> bool)
      returns (res: map<string, nat>, ghost open: seq<bool>)
      modifies this`ids, this`seenOpen, this`handed, this`multiConnRevision, this`generations,
        this`installed
      ensures Selected(cfg, old(GetView()), GetView(), addrs, open)
      ensures Offered(res, addrs, open, |old(ids)|)
      ensures OpenAs(open, |old(ids)|, isOpen)
    {
      ghost var first := |ids|;
      var clients := BuildClients(addrs);
      var anyConnected, live := AskWhichAreOpen(clients, isOpen);
      KeysAreDistinct(addrs);
      open := OpenAnswers(clients, Keys(addrs), first, live, isOpen);
      seenOpen := seenOpen + live;
      res := SelectClients(clients, anyConnected, Keys(addrs), first);
    }

    // multipleClients on a client whose fields agree.
    method MultipleClientsOfValid(addrs: seq<Address>, isOpen: nat -> bool)
      returns (res: map<string, nat>, ghost open: seq<bool>)
      requires Valid()
      modifies this`ids, this`seenOpen, this`handed, this`multiConnRevision, this`generations, this`installed
      ensures Valid()
      ensures Selected(cfg, old(GetView()), GetView(), addrs, open)
      ensures Offered(res, addrs, open, |old(ids)|)
      ensures CallsOf(orderedClients) == old(CallsOf(orderedClients))
      ensures OpenAs(open, |old(ids)|, isOpen)
    {
      ghost var v, calls := GetView(), CallsOf(orderedClients);
      res, open := MultipleClients(addrs, isOpen);
      assert CallsOf(orderedClients) == calls;
      SelectedWereBuilt(cfg, v, GetView(), addrs, open);
    }

    // One turn of the loop in reloadClients.
    method AddState(clients: map<string, nat>, ncs: map<string, InternalState>, ordered: seq<InternalState>,
                    ghost keys: seq<string>, ghost created: set<InternalState>, k: string)
      returns (ncs': map<string, InternalState>, ordered': seq<InternalState>, ghost keys': seq<string>,
               ghost created': set<InternalState>)
      requires Injective(clients) && k in clients && k !in ncs
      requires Agree(ncs, ordered, keys) && StatesOf(ncs, clients) && AllUnused(ordered, created)
      ensures Agree(ncs', ordered', keys') && StatesOf(ncs', clients) && AllUnused(ordered', created')
      ensures forall l :: l in ncs' <==> l in ncs || l == k
      ensures created <= created' && fresh(created' - created)
    {
      var ic := new InternalState(clients[k]);
      StatesWithOneMore(clients, ncs, ordered, keys, k, ic);
      UnusedWithOneMore(ordered, created, ic);
      ncs', ordered', keys', created' := ncs[k := ic], ordered + [ic], keys + [k], created + {ic};
    }

    // A state for each new connection.
    method BuildStates(clients: map<string, nat>)
      returns (ncs: map<string, InternalState>, ordered: seq<InternalState>, ghost keys: seq<string>,
               ghost created: set<InternalState>)
      requires Injective(clients)
      ensures Agree(ncs, ordered, keys) && ncs.Keys == clients.Keys && StatesOf(ncs, clients)
      ensures fresh(created) && AllUnused(ordered, created)
    {
      ncs, ordered, keys, created := map[], [], [], {};
      var remaining := clients.Keys;
      while remaining != {}
        invariant forall k :: k in clients ==> k in ncs || k in remaining
        invariant forall k :: k in remaining ==> k in clients && k !in ncs
        invariant Agree(ncs, ordered, keys) && StatesOf(ncs, clients)
        invariant fresh(created) && AllUnused(ordered, created)
      {
        var k :| k in remaining;
        ncs, ordered, keys, created := AddState(clients, ncs, ordered, keys, created, k);
        remaining := remaining - {k};
      }
    }

    // The connections behind mqttClients, in any order.
    method OldConns() returns (ocs: seq<nat>)
      requires Agree(mqttClients, orderedClients, names)
      ensures Permutes(ocs, OrderedConns(orderedClients))
    {
      AgreeIsInjective(mqttClients, orderedClients, names);
      var oldClients := Values(mqttClients);
      ocs := seq(|oldClients|, i requires 0 <= i < |oldClients| => oldClients[i].client);
      ghost var place := ValuesReorder(mqttClients, orderedClients, names, oldClients);
      OldConnsPermute(mqttClients, orderedClients, names, oldClients, place);
      assert ocs == OrderedConns(oldClients);
    }

    method InstallStates(clients: map<string, nat>) returns (ghost created: set<InternalState>)
      requires Injective(clients)
      modifies this`mqttClients, this`orderedClients, this`names
      ensures Agree(mqttClients, orderedClients, names) && KeyedConns(mqttClients) == clients
      ensures fresh(created) && AllUnused(orderedClients, created)
    {
      mqttClients, orderedClients, names, created := BuildStates(clients);
    }

    /** reloadClients: a non-empty map replaces every state by a fresh one and hands over the old connections; an empty
        one changes nothing. */
    method ReloadClients(clients: map<string, nat>) returns (ghost created: set<InternalState>)
      requires Agree(mqttClients, orderedClients, names) && Injective(clients)
      modifies this`mqttClients, this`orderedClients, this`names, this`handed
      ensures fresh(created)
      ensures clients == map[] ==>
        mqttClients == old(mqttClients) && orderedClients == old(orderedClients) && names == old(names) &&
        handed == old(handed)
      ensures clients != map[] ==>
        && Agree(mqttClients, orderedClients, names) && KeyedConns(mqttClients) == clients
        && AllUnused(orderedClients, created)
        && old(handed) <= handed && Permutes(handed[|old(handed)|..], OrderedConns(old(orderedClients)))
    {
      var ocs := OldConns();
      created := {};
      if |clients| > 0 {
        created := InstallStates(clients);
      }
      if |ocs| != 0 && |clients| != 0 {
        DisconnectAll(ocs);
      } else {
        assert handed[|old(handed)|..] == [];
      }
    }

    // reloadClients with the connections from `first` on.
    method ReloadFrom(clients: map<string, nat>, ghost keys: seq<string>, ghost first: nat)
      returns (ghost created: set<InternalState>)
      requires Agree(mqttClients, orderedClients, names)
      requires Distinct(keys) && |clients| > 0 && KeyedBy(clients, keys, first)
      modifies this`mqttClients, this`orderedClients, this`names, this`handed
      ensures fresh(created) && Within(orderedClients, created)
      ensures Agree(mqttClients, orderedClients, names) && AllValid(orderedClients)
      ensures |mqttClients| > 0 && NoCalls(CallsOf(orderedClients))
      ensures Replaced(old(GetView()), GetView(), keys, first)
    {
      InjectiveKeys(clients, keys, first);
      created := ReloadClients(clients);
      GenerationEnumerates(mqttClients, orderedClients, names, clients, keys, first);
      FreshStatesAreValid(orderedClients, created);
    }

    // The same on a client that knows these connections.
    method ReloadGeneration(clients: map<string, nat>, ghost keys: seq<string>, ghost first: nat)
      returns (ghost created: set<InternalState>)
      requires Valid()
      requires Distinct(keys) && first + |keys| <= |ids|
      requires |clients| > 0 && KeyedBy(clients, keys, first)
      modifies this`mqttClients, this`orderedClients, this`names, this`handed
      ensures Valid() && fresh(created) && Within(orderedClients, created)
      ensures Replaced(old(GetView()), GetView(), keys, first)
      ensures |mqttClients| > 0 && NoCalls(CallsOf(orderedClients))
    {
      ghost var v := GetView();
      created := ReloadFrom(clients, keys, first);
      ReplacedWereBuilt(v, GetView(), keys, first);
    }

    // resumeSubscriptions on a generation that is entirely new.
    method ResumeOnNew(ghost created: set<InternalState>) returns (r: Outcome)
      requires Valid() && Spread(cfg) && Within(orderedClients, created) && NoCalls(CallsOf(orderedClients))
      requires |mqttClients| > 0
      modifies created`calls, created`subsCalled, this`singleCalls
      ensures Valid() && GetView() == old(GetView())
      ensures ResumedOnNew(CallsOf(orderedClients), subscriptions, sharedPredicate, r)
    {
      ghost var start := CallsOf(orderedClients);
      r := ResumeSubscriptions();
      ResumeEffectOnNew(SettingHere(), start, CallsOf(orderedClients), r);
    }

    // attemptMultiConnections after a call of multipleClients that returned no connection.
    method ReloadNothing(clients: map<string, nat>) returns (r: Outcome)
      requires Valid() && Spread(cfg) && |clients| == 0
      modifies this`mqttClients, this`orderedClients, this`names, this`handed, this`singleCalls,
        orderedClients`calls, orderedClients`subsCalled
      ensures Valid() && GetView() == old(GetView())
      ensures ResumeEffect(old(SettingHere()), old(CallsOf(orderedClients)), CallsOf(orderedClients), r)
    {
      ghost var start := CallsOf(orderedClients);
      ghost var none := ReloadClients(clients);
      assert CallsOf(orderedClients) == start;
      r := ResumeSubscriptions();
    }

    // The same if it returned the connections from `first` on.
    method ReloadSome(clients: map<string, nat>, ghost keys: seq<string>, ghost first: nat) returns (r: Outcome)
      requires Valid() && Spread(cfg)
      requires Distinct(keys) && first + |keys| <= |ids|
      requires |clients| > 0 && KeyedBy(clients, keys, first)
      modifies this`mqttClients, this`orderedClients, this`names, this`handed, this`singleCalls
      ensures Valid() && Replaced(old(GetView()), GetView(), keys, first)
      ensures ResumedOnNew(CallsOf(orderedClients), subscriptions, sharedPredicate, r)
    {
      ghost var created := ReloadGeneration(clients, keys, first);
      r := ResumeOnNew(created);
    }

    // Whichever of the two multipleClients left to do.
    method ReloadAndResume(clients: map<string, nat>, ghost keys: seq<string>, ghost first: nat) returns (r: Outcome)
      requires Valid() && Spread(cfg)
      requires Distinct(keys) && first + |keys| <= |ids| && (clients == map[] || KeyedBy(clients, keys, first))
      modifies this`mqttClients, this`orderedClients, this`names, this`handed, this`singleCalls,
        orderedClients`calls, orderedClients`subsCalled
      ensures Valid()
      ensures clients == map[] ==> GetView() == old(GetView())
      ensures clients != map[] ==> Replaced(old(GetView()), GetView(), keys, first)
      ensures UpdateResumed(clients != map[], old(SettingHere()), old(CallsOf(orderedClients)),
                            CallsOf(orderedClients), r)
    {
      if |clients| == 0 {
        r := ReloadNothing(clients);
      } else {
        r := ReloadSome(clients, keys, first);
      }
    }

    // attemptMultiConnections after multipleClients, on a client that was in view v before.
    method FinishUpdate(clients: map<string, nat>, ghost v: View, ghost addrs: seq<Address>, ghost open: seq<bool>)
      returns (r: Outcome)
      requires Valid() && Spread(cfg)
      requires Selected(cfg, v, GetView(), addrs, open) && Offered(clients, addrs, open, |v.ids|)
      modifies this`mqttClients, this`orderedClients, this`names, this`handed, this`singleCalls,
        orderedClients`calls, orderedClients`subsCalled
      ensures Valid()
      ensures Updated(cfg, v, GetView(), addrs, open)
      ensures UpdateResumed(true in open, old(SettingHere()), old(CallsOf(orderedClients)), CallsOf(orderedClients), r)
    {
      ghost var v1 := GetView();
      KeysAreDistinct(addrs);
      r := ReloadAndResume(clients, Keys(addrs), |v.ids|);
      UpdatedInTwoParts(cfg, v, v1, GetView(), addrs, open);
    }

    /** attemptMultiConnections: a new generation is installed exactly if some of its connections are open. Every
        registered topic is then tried on it, and the result is nil exactly if it carries the registry; if none is
        open, the resume goes to the connections of the old generation. */
    method AttemptMultiConnections(addrs: seq<Address>, isOpen: nat -> bool)
      returns (r: Outcome, ghost open: seq<bool>)
      requires Valid() && cfg.multi
      modifies this`mqttClients, this`orderedClients, this`names, this`handed, this`ids, this`seenOpen,
        this`multiConnRevision, this`generations, this`installed, this`singleCalls,
        orderedClients`calls, orderedClients`subsCalled
      ensures Valid()
      ensures OpenAs(open, |old(ids)|, isOpen)
      ensures Updated(cfg, old(GetView()), GetView(), addrs, open)
      ensures cfg.hasResolver && old(Reachable(cfg, GetView())) ==> Reachable(cfg, GetView())
      ensures UpdateResumed(true in open, old(SettingHere()), old(CallsOf(orderedClients)), CallsOf(orderedClients), r)
    {
      ghost var v, w := GetView(), SettingHere();
      var clients: map<string, nat>;
      clients, open := MultipleClientsOfValid(addrs, isOpen);
      assert SettingHere() == w;
      r := FinishUpdate(clients, v, addrs, open);
      if cfg.hasResolver {
        UpdateStaysReachable(cfg, v, GetView(), addrs, open);
      }
    }

    // ----- execute

    function GetRoute(): Route
      reads this`mqttClient, this`mqttClients
    {
      if mqttClient.None? && |mqttClients| == 0 then NoClient
      else if cfg.poolSize > 1 || cfg.multi then OnKeyed
      else OnSingle
    }

    // xmap.Values(c.mqttClients): the ordered states in any order.
    method KeyedStates() returns (states: seq<InternalState>, ghost place: seq<nat>)
      requires Agree(mqttClients, orderedClients, names)
      ensures Reorders(states, orderedClients, place)
    {
      AgreeIsInjective(mqttClients, orderedClients, names);
      states := Values(mqttClients);
      place := ValuesReorder(mqttClients, orderedClients, names, states);
    }

    // execute with subscribeOnlyOnce over the keyed states.
    method SubscribeOnceOnKeyed(topic: string, qos: Byte) returns (err: Option<Err>)
      requires Agree(mqttClients, orderedClients, names) && AllValid(orderedClients)
      modifies orderedClients`calls, orderedClients`subsCalled
      ensures AllValid(orderedClients)
      ensures SubscribedOnce(old(CallsOf(orderedClients)), CallsOf(orderedClients), topic, qos)
      ensures err != Some(Multi([])) && (err.None? <==> AllRemember(CallsOf(orderedClients), topic))
    {
      ghost var before := CallsOf(orderedClients);
      var ccs, place := KeyedStates();
      assert CallsOf(orderedClients) == before;
      err := SubscribeOnceInOrder(ccs, orderedClients, place, topic, qos);
    }

    // execute with execOneRandom over the keyed states.
    method SubscribePlainlyOnOne(topics: map<string, Byte>) returns (r: Outcome)
      requires Agree(mqttClients, orderedClients, names) && AllValid(orderedClients)
      modifies orderedClients`calls
      ensures AllValid(orderedClients)
      ensures CalledOneOrPanicked(old(CallsOf(orderedClients)), CallsOf(orderedClients), topics, r)
    {
      if |mqttClients| == 0 {
        return Panicked;
      }
      var err := SubscribePlainlyOnSome(topics);
      r := Returned(err);
    }

    method SubscribePlainlyOnSome(topics: map<string, Byte>) returns (err: Option<Err>)
      requires Agree(mqttClients, orderedClients, names) && AllValid(orderedClients) && |mqttClients| > 0
      modifies orderedClients`calls
      ensures AllValid(orderedClients)
      ensures err != Some(Multi([]))
      ensures CalledOne(old(CallsOf(orderedClients)), CallsOf(orderedClients), PlainSubscribe(topics, err.None?))
    {
      ghost var before := CallsOf(orderedClients);
      var ccs, place := KeyedStates();
      assert CallsOf(orderedClients) == before;
      var i :| 0 <= i < |ccs|;
      err := CallOneInOrder(ccs, i, orderedClients, place, topics);
    }

    // The keyed branch of c.subscriber.Subscribe.
    method SubscribeOnKeyed(topic: string, qos: Byte) returns (r: Outcome)
      requires Agree(mqttClients, orderedClients, names) && AllValid(orderedClients)
      modifies orderedClients`calls, orderedClients`subsCalled
      ensures AllValid(orderedClients)
      ensures KeyedSubscribe(sharedPredicate(topic), old(CallsOf(orderedClients)), CallsOf(orderedClients), topic, qos,
                             r)
    {
      if sharedPredicate(topic) {
        var err := SubscribeOnceOnKeyed(topic, qos);
        r := Returned(err);
      } else {
        r := SubscribePlainlyOnOne(map[topic := qos]);
      }
    }

    // execute as c.subscriber.Subscribe calls it.
    method ExecSubscribe(topic: string, qos: Byte) returns (r: Outcome)
      requires Agree(mqttClients, orderedClients, names) && AllValid(orderedClients)
      modifies orderedClients`calls, orderedClients`subsCalled, this`singleCalls
      ensures AllValid(orderedClients)
      ensures SubscribeEffect(old(GetRoute()), sharedPredicate(topic), mqttClient, old(CallsOf(orderedClients)),
                              CallsOf(orderedClients), old(singleCalls), singleCalls, topic, qos, r)
    {
      var route := GetRoute();
      if route.NoClient? {
        r := Returned(Some(NOT_INITIALIZED));
      } else if route.OnSingle? {
        var answer := BrokerAnswer();
        r := SubscribeSingle(map[topic := qos], answer);
      } else {
        r := SubscribeOnKeyed(topic, qos);
      }
    }

    /** c.subscriber.Subscribe without middleware. */
    method SubscriberSubscribe(topic: string, opts: seq<CallOption>) returns (r: Outcome)
      requires Valid()
      modifies orderedClients`calls, orderedClients`subsCalled, this`singleCalls
      ensures Valid()
      ensures SubscribeEffect(old(GetRoute()), sharedPredicate(topic), mqttClient, old(CallsOf(orderedClients)),
                              CallsOf(orderedClients), old(singleCalls), singleCalls, topic, LastQos(opts), r)
    {
      ghost var before := CallsOf(orderedClients);
      var o := ComposeOptions(opts);
      assert CallsOf(orderedClients) == before;
      r := ExecSubscribe(topic, o.qos);
    }

    // f(c.mqttClient) for a Subscribe or SubscribeMultiple.
    method SubscribeSingle(topics: map<string, Byte>, answer: Answer) returns (r: Outcome)
      modifies this`singleCalls
      ensures SingleCall(mqttClient, old(singleCalls), singleCalls, topics, r)
      ensures mqttClient.Some? ==> r == Returned(answer)
    {
      if mqttClient.None? {
        return Panicked;
      }
      singleCalls := singleCalls + [PlainSubscribe(topics, answer.None?)];
      r := Returned(answer);
    }

    // The calls that resuming may add to, and which topics it treats as shared: on mqttClient alone none is.
    ghost function CallsHere(): Histories
      reads this, orderedClients
    {
      if Spread(cfg) then CallsOf(orderedClients) else [singleCalls]
    }

    ghost function SharedHere(): string -> bool {
      if Spread(cfg) then sharedPredicate else NeverShared
    }

    // A topic that is not shared needs a connection, and there is none to pick.
    ghost predicate NoneToPick()
      reads this`mqttClient, this`orderedClients
    {
      if Spread(cfg) then |orderedClients| == 0 else mqttClient.None?
    }

    ghost function SettingHere(): Setting
      reads this`mqttClient, this`mqttClients, this`orderedClients, this`subscriptions
    {
      Setting(!GetRoute().NoClient?, NoneToPick(), subscriptions, SharedHere())
    }

    // One call of the fan-out in resumeSubscriptions.
    method ResumeTopic(topic: string, ghost w: Setting, ghost before: Histories) returns (r: Outcome, ghost turn: Turn)
      requires Valid() && topic in subscriptions && w == SettingHere() && before == CallsHere()
      modifies orderedClients`calls, orderedClients`subsCalled, this`singleCalls
      ensures Valid()
      ensures turn == Turn(topic, CallsHere()) && TurnTaken(w, before, turn, r)
    {
      var sm := subscriptions[topic];
      r := SubscriberSubscribe(sm.topic, sm.options);
      if r.Returned? {
        CalledForResume(old(GetRoute()), SharedHere()(topic), mqttClient, old(CallsOf(orderedClients)),
                        CallsOf(orderedClients), old(singleCalls), singleCalls, topic, LastQos(sm.options), r);
      }
      turn := Turn(topic, CallsHere());
    }

    // The fan-out over the remaining topics, in any order: every topic gets its turn, whatever the results before it.
    method ResumeRest(remaining: set<string>, ghost w: Setting, ghost before: Histories)
      returns (outcomes: seq<Outcome>, ghost turns: seq<Turn>)
      requires Valid() && remaining <= subscriptions.Keys && w == SettingHere() && before == CallsHere()
      modifies orderedClients`calls, orderedClients`subsCalled, this`singleCalls
      ensures Valid()
      ensures TurnsTaken(w, before, CallsHere(), turns, outcomes, remaining)
      decreases remaining
    {
      outcomes, turns := [], [];
      if remaining != {} {
        var r;
        ghost var turn;
        var topic :| topic in remaining;
        r, turn := ResumeTopic(topic, w, before);
        assert SettingHere() == w;
        outcomes, turns := ResumeRest(remaining - {topic}, w, turn.after);
        OneMoreTurn(w, before, CallsHere(), turn, r, turns, outcomes, remaining);
        outcomes, turns := [r] + outcomes, [turn] + turns;
      }
    }

    /** resumeSubscriptions: every registered topic is subscribed once more, whatever the others answer; with a pool or
        several connections a shared one on just those that do not hold it. The result is nil exactly if all calls
        were acknowledged. */
    method ResumeSubscriptions() returns (r: Outcome)
      requires Valid()
      modifies orderedClients`calls, orderedClients`subsCalled, this`singleCalls
      ensures Valid() && GetView() == old(GetView())
      ensures ResumeEffect(old(SettingHere()), old(CallsHere()), CallsHere(), r)
    {
      ghost var w, before := SettingHere(), CallsHere();
      if |subscriptions| == 0 {
        return Returned(None);
      }
      var outcomes;
      ghost var turns;
      outcomes, turns := ResumeRest(subscriptions.Keys, w, before);
      TurnsResume(w, before, CallsHere(), turns, outcomes);
      r := Combine(outcomes);
    }

    // ----- the operations on subscriptions

    /** Subscribe: the registry changes exactly if the broker's side of it succeeds. */
    method Subscribe(topic: string, opts: seq<CallOption>) returns (r: Outcome)
      requires Valid()
      modifies this`subscriptions, this`singleCalls, orderedClients`calls, orderedClients`subsCalled
      ensures Valid()
      ensures SubscribeEffect(old(GetRoute()), sharedPredicate(topic), mqttClient, old(CallsOf(orderedClients)),
                              CallsOf(orderedClients), old(singleCalls), singleCalls, topic, LastQos(opts), r)
      ensures subscriptions ==
        if r == Returned(None) then old(subscriptions)[topic := SubscriptionMeta(topic, opts)] else old(subscriptions)
    {
      r := SubscriberSubscribe(topic, opts);
      RegisterOneIf(r == Returned(None), topic, opts);
    }

    method RegisterOneIf(write: bool, topic: string, opts: seq<CallOption>)
      requires Valid()
      modifies this`subscriptions
      ensures Valid() && CallsOf(orderedClients) == old(CallsOf(orderedClients))
      ensures subscriptions ==
        if write then old(subscriptions)[topic := SubscriptionMeta(topic, opts)] else old(subscriptions)
    {
      if write {
        subscriptions := subscriptions[topic := SubscriptionMeta(topic, opts)];
      }
    }

    // execute with execAll over the keyed states, for the shared topics of SubscribeMultiple.
    method SubscribePlainlyOnAll(topics: map<string, Byte>) returns (err: Option<Err>)
      requires Agree(mqttClients, orderedClients, names) && AllValid(orderedClients) && |topics| > 0
      modifies orderedClients`calls
      ensures AllValid(orderedClients) && err != Some(Multi([]))
      ensures SharedPart(old(CallsOf(orderedClients)), CallsOf(orderedClients), topics, err.None?)
    {
      ghost var before := CallsOf(orderedClients);
      var ccs, place := KeyedStates();
      assert CallsOf(orderedClients) == before;
      err := CallAllInOrder(ccs, orderedClients, place, topics);
    }

    // The two closures of SubscribeMultiple on the keyed states; an absent one has the result nil.
    method ExecShared(topics: map<string, Byte>) returns (r: Outcome)
      requires Agree(mqttClients, orderedClients, names) && AllValid(orderedClients)
      modifies orderedClients`calls
      ensures AllValid(orderedClients) && r.Returned? && r.err != Some(Multi([]))
      ensures SharedPart(old(CallsOf(orderedClients)), CallsOf(orderedClients), topics, r.err.None?)
    {
      r := Returned(None);
      if |topics| > 0 {
        var err := SubscribePlainlyOnAll(topics);
        r := Returned(err);
      }
    }

    method ExecNormal(topics: map<string, Byte>) returns (r: Outcome)
      requires Agree(mqttClients, orderedClients, names) && AllValid(orderedClients)
      modifies orderedClients`calls
      ensures AllValid(orderedClients)
      ensures r.Panicked? <==> |topics| > 0 && |orderedClients| == 0
      ensures r.Returned? ==> r.err != Some(Multi([]))
      ensures r.Returned? ==>
        NormalPart(old(CallsOf(orderedClients)), CallsOf(orderedClients), topics, r.err.None?)
    {
      r := Returned(None);
      if |topics| > 0 {
        r := SubscribePlainlyOnOne(topics);
      }
    }

    // Both closures run concurrently: on the one connection that sees both, either call may come first.
    method ExecBoth(sharedSubs: map<string, Byte>, normalSubs: map<string, Byte>) returns (r: Outcome)
      requires Agree(mqttClients, orderedClients, names) && AllValid(orderedClients)
      modifies orderedClients`calls
      ensures AllValid(orderedClients)
      ensures r.Panicked? <==> |normalSubs| > 0 && |orderedClients| == 0
      ensures r.Panicked? ==> CallsOf(orderedClients) == old(CallsOf(orderedClients))
      ensures r.Returned? ==> r.err != Some(Multi([]))
      ensures r.Returned? ==>
        SubscribedMultiple(old(CallsOf(orderedClients)), CallsOf(orderedClients), sharedSubs, normalSubs, r.err.None?)
    {
      ghost var before := CallsOf(orderedClients);
      var a, b: Outcome;
      ghost var mid: Histories;
      var sharedFirst: bool := *;
      if sharedFirst {
        a := ExecShared(sharedSubs);
        mid := CallsOf(orderedClients);
        b := ExecNormal(normalSubs);
      } else {
        b := ExecNormal(normalSubs);
        mid := CallsOf(orderedClients);
        a := ExecShared(sharedSubs);
      }
      if b.Panicked? {
        assert CallsOf(orderedClients) == before;
        return Panicked;
      }
      assert InSomeOrder(before, mid, CallsOf(orderedClients), sharedSubs, normalSubs, a.err.None?, b.err.None?);
      AccumulateIsNilIff(None, a.err);
      AccumulateIsNilIff(AccumulateErrors(None, a.err), b.err);
      r := Returned(AccumulateErrors(AccumulateErrors(None, a.err), b.err));
    }

    // The same two closures on mqttClient.
    method ExecSingle(topics: map<string, Byte>) returns (r: Outcome)
      modifies this`singleCalls
      ensures r.Panicked? <==> |topics| > 0 && mqttClient.None?
      ensures r.Panicked? ==> singleCalls == old(singleCalls)
      ensures r.Returned? ==> r.err != Some(Multi([]))
      ensures r.Returned? ==> OnlyPart(old(singleCalls), singleCalls, topics, r.err.None?)
      ensures |topics| == 0 ==> r == Returned(None)
    {
      r := Returned(None);
      if |topics| > 0 {
        var answer := BrokerAnswer();
        r := SubscribeSingle(topics, answer);
      }
    }

    method ExecBothSingle(sharedSubs: map<string, Byte>, normalSubs: map<string, Byte>) returns (r: Outcome)
      modifies this`singleCalls
      ensures r.Panicked? <==> mqttClient.None? && |sharedSubs| + |normalSubs| > 0
      ensures r.Panicked? ==> singleCalls == old(singleCalls)
      ensures r.Returned? ==> r.err != Some(Multi([]))
      ensures r.Returned? ==>
        SubscribedMultiple([old(singleCalls)], [singleCalls], sharedSubs, normalSubs, r.err.None?)
    {
      ghost var before := singleCalls;
      var a, b: Outcome;
      ghost var mid: seq<Call>;
      var sharedFirst: bool := *;
      if sharedFirst {
        a := ExecSingle(sharedSubs);
        mid := singleCalls;
        b := ExecSingle(normalSubs);
      } else {
        b := ExecSingle(normalSubs);
        mid := singleCalls;
        a := ExecSingle(sharedSubs);
      }
      if a.Panicked? || b.Panicked? {
        return Panicked;
      }
      BothParts(before, mid, singleCalls, sharedFirst, sharedSubs, normalSubs, a.err.None?, b.err.None?);
      AccumulateIsNilIff(None, a.err);
      AccumulateIsNilIff(AccumulateErrors(None, a.err), b.err);
      r := Returned(AccumulateErrors(AccumulateErrors(None, a.err), b.err));
    }

    // Both closures, as far as execute lets them.
    method ExecParts(sharedSubs: map<string, Byte>, normalSubs: map<string, Byte>) returns (r: Outcome)
      requires Agree(mqttClients, orderedClients, names) && AllValid(orderedClients)
      modifies orderedClients`calls, this`singleCalls
      ensures AllValid(orderedClients)
      ensures MultipleEffect(old(GetRoute()), mqttClient, old(CallsOf(orderedClients)), CallsOf(orderedClients),
                             old(singleCalls), singleCalls, sharedSubs, normalSubs, r)
    {
      var route := GetRoute();
      if route.NoClient? {
        var a := if |sharedSubs| > 0 then Some(NOT_INITIALIZED) else None;
        var b := if |normalSubs| > 0 then Some(NOT_INITIALIZED) else None;
        r := Returned(AccumulateErrors(AccumulateErrors(None, a), b));
      } else if route.OnSingle? {
        r := ExecBothSingle(sharedSubs, normalSubs);
      } else {
        r := ExecBoth(sharedSubs, normalSubs);
      }
    }

    /** c.subscriber.SubscribeMultiple without middleware. */
    method SubscriberSubscribeMultiple(topics: map<string, Byte>) returns (r: Outcome)
      requires Valid()
      modifies orderedClients`calls, this`singleCalls
      ensures Valid()
      ensures MultipleEffect(old(GetRoute()), mqttClient, old(CallsOf(orderedClients)), CallsOf(orderedClients),
                             old(singleCalls), singleCalls, Matching(topics, sharedPredicate),
                             NotMatching(topics, sharedPredicate), r)
    {
      ghost var before := CallsOf(orderedClients);
      var sharedSubs, normalSubs := FilterSubs(topics, sharedPredicate);
      assert CallsOf(orderedClients) == before;
      r := ExecParts(sharedSubs, normalSubs);
    }

    method RegisterIf(write: bool, topics: map<string, Byte>)
      requires Valid()
      modifies this`subscriptions
      ensures Valid() && CallsOf(orderedClients) == old(CallsOf(orderedClients))
      ensures if write then RegisteredAll(old(subscriptions), subscriptions, topics)
              else subscriptions == old(subscriptions)
    {
      if write {
        subscriptions := RegisterAll(subscriptions, topics);
      }
    }

    /** SubscribeMultiple: on success every topic is registered with the QoS it was subscribed with. */
    method SubscribeMultiple(topics: map<string, Byte>) returns (r: Outcome)
      requires Valid()
      modifies this`subscriptions, this`singleCalls, orderedClients`calls
      ensures Valid()
      ensures MultipleEffect(old(GetRoute()), mqttClient, old(CallsOf(orderedClients)), CallsOf(orderedClients),
                             old(singleCalls), singleCalls, Matching(topics, sharedPredicate),
                             NotMatching(topics, sharedPredicate), r)
      ensures if r == Returned(None) then RegisteredAll(old(subscriptions), subscriptions, topics)
              else subscriptions == old(subscriptions)
    {
      r := SubscriberSubscribeMultiple(topics);
      RegisterIf(r == Returned(None), topics);
    }

    // execute with removeSubsFromState over the keyed states.
    method UnsubscribeOnKeyed(topics: seq<string>) returns (err: Option<Err>)
      requires Agree(mqttClients, orderedClients, names) && AllValid(orderedClients)
      modifies orderedClients`calls, orderedClients`subsCalled
      ensures AllValid(orderedClients)
      ensures UnsubscribedAll(old(CallsOf(orderedClients)), CallsOf(orderedClients), topics, err)
    {
      ghost var before := CallsOf(orderedClients);
      var ccs, place := KeyedStates();
      assert CallsOf(orderedClients) == before;
      err := UnsubscribeInOrder(ccs, orderedClients, place, topics);
    }

    method UnsubscribeSingle(topics: seq<string>, answer: Answer) returns (r: Outcome)
      modifies this`singleCalls
      ensures SingleUnsubscribe(mqttClient, old(singleCalls), singleCalls, topics, r)
      ensures mqttClient.Some? ==> r == Returned(answer)
    {
      if mqttClient.None? {
        return Panicked;
      }
      singleCalls := singleCalls + [Call.Unsubscribe(topics, answer.None?)];
      r := Returned(answer);
    }

    /** c.unsubscriber.Unsubscribe without middleware. */
    method UnsubscriberUnsubscribe(topics: seq<string>) returns (r: Outcome)
      requires Agree(mqttClients, orderedClients, names) && AllValid(orderedClients)
      modifies orderedClients`calls, orderedClients`subsCalled, this`singleCalls
      ensures AllValid(orderedClients)
      ensures UnsubscribeEffect(old(GetRoute()), mqttClient, old(CallsOf(orderedClients)), CallsOf(orderedClients),
                                old(singleCalls), singleCalls, topics, r)
    {
      var route := GetRoute();
      if route.NoClient? {
        r := Returned(Some(NOT_INITIALIZED));
      } else if route.OnSingle? {
        var answer := BrokerAnswer();
        r := UnsubscribeSingle(topics, answer);
      } else {
        var err := UnsubscribeOnKeyed(topics);
        r := Returned(err);
      }
    }

    method UnregisterIf(write: bool, topics: seq<string>)
      requires Valid()
      modifies this`subscriptions
      ensures Valid() && CallsOf(orderedClients) == old(CallsOf(orderedClients))
      ensures subscriptions == if write then old(subscriptions) - AsSet(topics) else old(subscriptions)
    {
      if write {
        subscriptions := UnregisterAll(subscriptions, topics);
      }
    }

    /** Unsubscribe: the registry drops the topics exactly if every connection acknowledged. */
    method Unsubscribe(topics: seq<string>) returns (r: Outcome)
      requires Valid()
      modifies this`subscriptions, this`singleCalls, orderedClients`calls, orderedClients`subsCalled
      ensures Valid()
      ensures UnsubscribeEffect(old(GetRoute()), mqttClient, old(CallsOf(orderedClients)), CallsOf(orderedClients),
                                old(singleCalls), singleCalls, topics, r)
      ensures subscriptions == if r == Returned(None) then old(subscriptions) - AsSet(topics) else old(subscriptions)
    {
      r := UnsubscriberUnsubscribe(topics);
      UnregisterIf(r == Returned(None), topics);
    }

    // The loop of removeStoredSubsCalled over the keyed states.
    method ForgetOnKeyed(cc: nat)
      requires Agree(mqttClients, orderedClients, names) && AllValid(orderedClients)
      modifies orderedClients`calls, orderedClients`subsCalled
      ensures AllValid(orderedClients)
      ensures Lost(OrderedConns(orderedClients), old(CallsOf(orderedClients)), CallsOf(orderedClients), cc)
    {
      ghost var before := CallsOf(orderedClients);
      var ccs, place := KeyedStates();
      assert CallsOf(orderedClients) == before;
      ForgetInOrder(ccs, orderedClients, place, cc);
    }

    /** removeStoredSubsCalled: the connection that was lost forgets every shared topic, and no other one does. */
    method RemoveStoredSubsCalled(cc: nat)
      requires Valid()
      modifies orderedClients`calls, orderedClients`subsCalled
      ensures Valid()
      ensures Lost(OrderedConns(orderedClients), old(CallsOf(orderedClients)), CallsOf(orderedClients), cc)
    {
      ForgetOnKeyed(cc);
    }

    // ----- publish

    /** execute with execOneRoundRobin, as a publish calls it: which connection is picked, if any, and whether the call
        panics. The result is what the picked connection answers. */
    method PickForPublish(answers: nat -> Answer) returns (picked: Option<nat>, r: Outcome)
      modifies rrCounter
      ensures picked.Some? ==> r == Returned(answers(picked.value))
      ensures GetRoute().NoClient? ==> picked == None && r == Returned(Some(NOT_INITIALIZED))
      ensures GetRoute().OnSingle? ==> picked == mqttClient && (r.Panicked? <==> mqttClient.None?)
      ensures !GetRoute().OnKeyed? ==> rrCounter.value == old(rrCounter.value)
      ensures GetRoute().OnKeyed? ==> (r.Panicked? <==> !InRange(old(rrCounter.value), |orderedClients|))
      ensures GetRoute().OnKeyed? && r.Panicked? ==>
        picked == None && rrCounter.value == (old(rrCounter.value) + 1) % TWO_64
      ensures GetRoute().OnKeyed? && r.Returned? ==>
        picked.Some? && Picked(OrderedConns(orderedClients), old(rrCounter.value), rrCounter.value, picked.value)
    {
      var route := GetRoute();
      if route.NoClient? {
        return None, Returned(Some(NOT_INITIALIZED));
      }
      if route.OnSingle? {
        if mqttClient.None? {
          return None, Panicked;
        }
        return mqttClient, Returned(answers(mqttClient.value));
      }
      var ticket := rrCounter.Next();
      if |orderedClients| == 0 {
        return None, Panicked;
      }
      var i := Pick(ticket, |orderedClients|);
      if i < 0 || i >= |orderedClients| {
        return None, Panicked;
      }
      var client := orderedClients[i].client;
      return Some(client), Returned(answers(client));
    }

    // ----- Stop

    // execute with execAll and Disconnect, stop's first locked section.
    method DisconnectForStop() returns (r: Outcome)
      requires Valid()
      modifies this`handed
      ensures Valid()
      ensures r.Panicked? <==> GetRoute().OnSingle? && mqttClient.None?
      ensures r.Returned? ==> StopDisconnected(cfg, old(GetView()), GetView())
      ensures r.Returned? ==> (r.err.None? <==> !GetRoute().NoClient?)
    {
      assert handed[|handed|..] == [];
      var route := GetRoute();
      if route.NoClient? {
        return Returned(Some(NOT_INITIALIZED));
      }
      if route.OnSingle? {
        if mqttClient.None? {
          return Panicked;
        }
        DisconnectAll([mqttClient.value]);
        return Returned(None);
      }
      var ocs := OldConns();
      DisconnectAll(ocs);
      return Returned(None);
    }

    // stop's second locked section.
    method ClearClients()
      requires Valid()
      modifies this`mqttClient, this`mqttClients, this`orderedClients, this`names
      ensures Valid() && GetView() == StopCleared(old(GetView()))
    {
      mqttClient, mqttClients, orderedClients, names := None, map[], [], [];
      NoStates();
    }

    /** stop, run without interference. */
    method Stop() returns (r: Outcome)
      requires Valid()
      modifies this`mqttClient, this`mqttClients, this`orderedClients, this`names, this`handed
      ensures Valid()
      ensures r.Panicked? <==> old(GetRoute()).OnSingle? && old(mqttClient).None?
      ensures r.Returned? ==> (r.err.None? <==> !old(GetRoute()).NoClient?)
      ensures r == Returned(None) ==> GetRoute().NoClient?
      ensures r.Returned? ==> Stopped(cfg, old(GetView()), GetView())
      ensures r.Returned? && old(Reachable(cfg, GetView())) ==> Reachable(cfg, GetView())
    {
      ghost var v := GetView();
      RouteOfView();
      r := DisconnectForStop();
      ghost var mid := GetView();
      if r == Returned(None) {
        ClearClients();
      }
      if r.Returned? {
        StopInTwoSections(cfg, v, mid, GetView());
        StopStaysReachable(cfg, v, GetView());
      }
    }

    lemma RouteOfView()
      ensures GetRoute().NoClient? <==> !Initialized(GetView())
    {
      assert |KeyedConns(mqttClients).Keys| == |mqttClients.Keys|;
    }

    // ----- an address update in single-connection mode

    // newClient: one connection for each attempt, to the addresses in turn; the last one succeeds.
    method BuildSingle(addrs: seq<Address>, failures: nat) returns (cc: nat, tried: seq<Address>)
      requires |addrs| > 0
      modifies this`ids
      ensures ids == old(ids) + seq(failures + 1, i => cfg.clientID) && cc == |ids| - 1
      ensures |tried| == failures + 1 && Rotates(tried, addrs)
    {
      tried := [];
      for i := 0 to failures + 1
        invariant ids == old(ids) + seq(i, j => cfg.clientID)
        invariant |tried| == i && Rotates(tried, addrs)
      {
        ids, tried := ids + [cfg.clientID], tried + [addrs[i % |addrs|]];
      }
      cc := |ids| - 1;
    }

    // reloadClient: the connection that is replaced is disconnected, and no call was made on the new one.
    method ReloadClient(cc: Option<nat>)
      modifies this`mqttClient, this`handed, this`singleCalls
      ensures mqttClient == cc && singleCalls == []
      ensures handed == old(handed) + if old(mqttClient).Some? then [old(mqttClient).value] else []
    {
      var oldClient := mqttClient;
      mqttClient, singleCalls := cc, [];
      if oldClient.Some? {
        handed := handed + [oldClient.value];
      }
    }

    // newClient and reloadClient.
    method ConnectSingle(addrs: seq<Address>, failures: nat) returns (tried: seq<Address>)
      modifies this`mqttClient, this`handed, this`ids, this`singleCalls
      ensures singleCalls == []
      ensures |tried| == Attempts(addrs, failures) && (addrs != [] ==> Rotates(tried, addrs))
      ensures SingleUpdated(cfg, old(GetView()), GetView(), |tried|)
    {
      ghost var built := ids;
      if |addrs| == 0 {
        tried := [];
        assert ids == built + seq(0, i => cfg.clientID);
        ReloadClient(None);
      } else {
        var cc;
        cc, tried := BuildSingle(addrs, failures);
        ReloadClient(Some(cc));
      }
    }

    // The same on a client that knows its connections.
    method ReconnectSingle(addrs: seq<Address>, failures: nat) returns (tried: seq<Address>)
      requires Valid()
      modifies this`mqttClient, this`handed, this`ids, this`singleCalls
      ensures Valid() && singleCalls == [] && CallsOf(orderedClients) == old(CallsOf(orderedClients))
      ensures |tried| == Attempts(addrs, failures) && (addrs != [] ==> Rotates(tried, addrs))
      ensures SingleUpdated(cfg, old(GetView()), GetView(), |tried|)
    {
      ghost var v := GetView();
      tried := ConnectSingle(addrs, failures);
      SingleUpdatedWereBuilt(cfg, v, GetView(), |tried|);
    }

    // resumeSubscriptions on a new mqttClient without a pool.
    method ResumeOnMqttClient() returns (r: Outcome)
      requires Valid() && singleCalls == [] && mqttClient.Some? && !Spread(cfg)
      modifies this`singleCalls, orderedClients`calls, orderedClients`subsCalled
      ensures Valid() && GetView() == old(GetView())
      ensures ResumedOnNew([singleCalls], subscriptions, NeverShared, r)
    {
      ghost var w, start := SettingHere(), CallsHere();
      r := ResumeSubscriptions();
      NothingCalled(start);
      assert CallsHere() == [singleCalls] && w.shared == NeverShared && w.subscriptions == subscriptions;
      ResumeEffectOnNew(w, start, [singleCalls], r);
    }

    // The same on the pool, to which the new connection does not belong.
    method ResumeOnPool() returns (r: Outcome)
      requires Valid() && mqttClient.Some? && Spread(cfg)
      modifies this`singleCalls, orderedClients`calls, orderedClients`subsCalled
      ensures Valid() && GetView() == old(GetView())
      ensures ResumeEffect(Setting(true, |orderedClients| == 0, subscriptions, sharedPredicate),
                           old(CallsOf(orderedClients)), CallsOf(orderedClients), r)
    {
      r := ResumeSubscriptions();
    }

    // Whichever of the two the configuration asks for.
    method ResumeOnSingle() returns (r: Outcome)
      requires Valid() && singleCalls == [] && mqttClient.Some?
      modifies this`singleCalls, orderedClients`calls, orderedClients`subsCalled
      ensures Valid() && GetView() == old(GetView())
      ensures SingleResumed(cfg, old(CallsOf(orderedClients)), CallsOf(orderedClients), singleCalls, subscriptions,
                            sharedPredicate, r)
    {
      if Spread(cfg) {
        r := ResumeOnPool();
      } else {
        r := ResumeOnMqttClient();
      }
    }

    /** attemptSingleConnection: `failures` attempts go wrong before the first that connects, to the addresses in turn.
        Every registered topic is then tried on the new connection, and the result is nil exactly if it carries each of
        them once. */
    method AttemptSingleConnection(addrs: seq<Address>, failures: nat) returns (r: Outcome, tried: seq<Address>)
      requires Valid()
      modifies this`mqttClient, this`handed, this`ids, this`singleCalls, orderedClients`calls, orderedClients`subsCalled
      ensures Valid()
      ensures |tried| == Attempts(addrs, failures) && (addrs != [] ==> Rotates(tried, addrs))
      ensures SingleUpdated(cfg, old(GetView()), GetView(), |tried|)
      ensures !cfg.multi && cfg.hasResolver && old(Reachable(cfg, GetView())) ==> Reachable(cfg, GetView())
      ensures |addrs| == 0 ==> r == Returned(None) && singleCalls == []
      ensures |addrs| > 0 ==>
        SingleResumed(cfg, old(CallsOf(orderedClients)), CallsOf(orderedClients), singleCalls, subscriptions,
                      sharedPredicate, r)
    {
      ghost var v := GetView();
      tried := ReconnectSingle(addrs, failures);
      if !cfg.multi && cfg.hasResolver {
        SingleUpdateStaysReachable(cfg, v, GetView(), |tried|);
      }
      r := Returned(None);
      if |addrs| > 0 {
        r := ResumeOnSingle();
      }
    }

    // The loop of initializeConnectionPool, over local variables.
    method BuildPool() returns (keyed: map<string, InternalState>, ordered: seq<InternalState>, poolIds: seq<string>)
      ensures poolIds == PoolIds(cfg.clientID, cfg.poolSize)
      ensures Agree(keyed, ordered, poolIds) && AllValid(ordered)
      ensures forall i :: 0 <= i < |ordered| ==> ordered[i].client == i && fresh(ordered[i])
    {
      keyed, ordered, poolIds := map[], [], [];
      for i := 0 to cfg.poolSize
        invariant poolIds == PoolIds(cfg.clientID, i)
        invariant |ordered| == i && Agree(keyed, ordered, poolIds)
        invariant forall j :: 0 <= j < i ==> ordered[j].client == j && fresh(ordered[j]) && ordered[j].Valid()
      {
        var poolID := FormatPoolId(cfg.clientID, i);
        var ic := new InternalState(i);
        AgreeWithOneMore(keyed, ordered, poolIds, poolID, ic);
        keyed := keyed[poolID := ic];
        ordered := ordered + [ic];
        poolIds := poolIds + [poolID];
      }
    }

    /** initializeConnectionPool, on a client that holds nothing yet. */
    method InitializeConnectionPool()
      requires Valid() && ids == [] && seenOpen == {} && subscriptions == map[]
      modifies this`mqttClients, this`orderedClients, this`ids, this`names
      ensures Valid()
      ensures ids == names == PoolIds(cfg.clientID, cfg.poolSize)
      ensures forall i :: 0 <= i < |orderedClients| ==> orderedClients[i].client == i && fresh(orderedClients[i])
    {
      var keyed, ordered;
      var poolIds;
      keyed, ordered, poolIds := BuildPool();
      HoldPool(keyed, ordered, poolIds);
    }

    method HoldPool(keyed: map<string, InternalState>, ordered: seq<InternalState>, poolIds: seq<string>)
      requires Agree(keyed, ordered, poolIds) && AllValid(ordered)
      requires seenOpen == {} && subscriptions == map[]
      requires forall i :: 0 <= i < |ordered| ==> ordered[i].client == i
      modifies this`mqttClients, this`orderedClients, this`ids, this`names
      ensures Valid()
      ensures mqttClients == keyed && orderedClients == ordered && ids == names == poolIds
    {
      mqttClients, orderedClients, names := keyed, ordered, poolIds;
      ids := poolIds;
    }
  }

  /** NewClient: an error for the configurations that are refused, and otherwise a client whose view begins a run. */
  method NewClient(cfg: Config, sharedPredicate: string -> bool) returns (c: Client?)
    ensures c == null <==> !Accepted(cfg)
    ensures c != null ==> fresh(c) && c.cfg == cfg && c.sharedPredicate == sharedPredicate && c.subscriptions == map[]
    ensures c != null ==> c.Valid() && Created(cfg, c.GetView()) && Reachable(cfg, c.GetView())
  {
    if !cfg.hasBroker && !cfg.hasResolver {
      return null;
    }
    if cfg.poolSize > 1 && cfg.multi {
      return null;
    }
    if cfg.emitterInterval.Some? && cfg.emitterInterval.value < SECOND {
      return null;
    }
    c := BuildAccepted(cfg, sharedPredicate);
    CreatedAsBuilt(c);
    CreatedIsReachable(cfg, c.GetView());
  }

  // NewClient after its checks.
  method BuildAccepted(cfg: Config, sharedPredicate: string -> bool) returns (c: Client)
    requires Accepted(cfg)
    ensures fresh(c) && c.cfg == cfg && c.sharedPredicate == sharedPredicate && c.subscriptions == map[]
    ensures c.Valid() && Built(c)
  {
    c := new Client(cfg, sharedPredicate);
    if cfg.hasBroker {
      if cfg.poolSize > 1 {
        c.InitializeConnectionPool();
      } else {
        c.UseBrokerAddress();
      }
    }
  }

  // What NewClient leaves in the fields, case by case.
  ghost predicate Built(c: Client)
    reads c
  {
    && c.multiConnRevision == 0 && c.handed == [] && c.installed == [] && c.generations == 0 && c.seenOpen == {}
    && Agree(c.mqttClients, c.orderedClients, c.names)
    && if c.cfg.hasBroker && c.cfg.poolSize > 1 then
         && c.mqttClient == None && c.ids == c.names == PoolIds(c.cfg.clientID, c.cfg.poolSize)
         && forall i :: 0 <= i < |c.orderedClients| ==> c.orderedClients[i].client == i
       else
         && c.names == []
         && if c.cfg.hasBroker then c.mqttClient == Some(0) && c.ids == [c.cfg.clientID]
            else c.mqttClient == None && c.ids == []
  }

  lemma CreatedAsBuilt(c: Client)
    requires Accepted(c.cfg) && Built(c)
    ensures Created(c.cfg, c.GetView())
  {
    if c.cfg.hasBroker && c.cfg.poolSize > 1 {
      PoolEnumerates(c.mqttClients, c.orderedClients, c.names);
    }
  }
}
