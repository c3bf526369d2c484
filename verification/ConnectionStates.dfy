/** The states of the connections of one generation, in the map and in the ordered list, and the operations that go
    through all of them. */
module ConnectionStates {
  import opened CallOptions
  import opened ClientRuns
  import opened ClientUpdates
  import opened Counting
  import opened Errors
  import opened Fanout
  import opened Names
  import opened Optional
  import opened Subscriptions

  // `ordered` lists the objects that `keyed` holds under `names`, each once, with one connection each.
  ghost predicate Agree(keyed: map<string, InternalState>, ordered: seq<InternalState>, names: seq<string>) {
    && |ordered| == |names| == |keyed|
    && (forall i :: 0 <= i < |names| ==> names[i] in keyed && keyed[names[i]] == ordered[i])
    && (forall k :: k in keyed ==> k in names)
    && (forall i, j :: 0 <= i < j < |ordered| ==> ordered[i].client != ordered[j].client)
  }

  lemma AgreeWithOneMore(keyed: map<string, InternalState>, ordered: seq<InternalState>, names: seq<string>,
                         name: string, state: InternalState)
    requires Agree(keyed, ordered, names) && name !in keyed
    requires forall i :: 0 <= i < |ordered| ==> ordered[i].client != state.client
    ensures Agree(keyed[name := state], ordered + [state], names + [name])
  {
    var names' := names + [name];
    assert names'[|names|] == name;
    forall k | k in keyed[name := state]
      ensures k in names'
    {
      assert k != name ==> k in names;
    }
  }

  ghost function OrderedConns(ordered: seq<InternalState>): (conns: seq<nat>)
    ensures |conns| == |ordered| && forall i :: 0 <= i < |ordered| ==> conns[i] == ordered[i].client
  {
    seq(|ordered|, i requires 0 <= i < |ordered| => ordered[i].client)
  }

  ghost function KeyedConns(keyed: map<string, InternalState>): (conns: map<string, nat>)
    ensures conns.Keys == keyed.Keys && forall k :: k in keyed ==> conns[k] == keyed[k].client
  {
    map k | k in keyed :: keyed[k].client
  }

  // The states are among the created ones, and no call has been made on any of these.
  ghost predicate AllUnused(states: seq<InternalState>, created: set<InternalState>)
    reads created
  {
    && (forall s :: s in created ==> s.subsCalled == {} && s.calls == [])
    && (forall s :: s in states ==> s in created)
  }

  // The calls made on each of the states.
  ghost function CallsOf(states: seq<InternalState>): (calls: Histories)
    reads states
    ensures |calls| == |states| && forall i :: 0 <= i < |states| ==> calls[i] == states[i].calls
  {
    seq(|states|, i requires 0 <= i < |states| reads states => states[i].calls)
  }

  ghost predicate Within(states: seq<InternalState>, bound: set<InternalState>) {
    forall i :: 0 <= i < |states| ==> states[i] in bound
  }

  ghost predicate AllValid(states: seq<InternalState>)
    reads states
  {
    forall i :: 0 <= i < |states| ==> states[i].Valid()
  }

  ghost predicate DistinctStates(ccs: seq<InternalState>) {
    forall i, j :: 0 <= i < j < |ccs| ==> ccs[i] != ccs[j]
  }

  function AskedOnce(before: seq<Call>, topic: string, qos: Byte, answer: Answer): seq<Call> {
    if topic in Remembered(before) then before else before + [SharedSubscribe(topic, qos, answer.None?)]
  }

  // subscribeOnlyOnce on each connection; only those that do not hold the topic are asked.
  ghost predicate AskedEach(conns: seq<nat>, before: Histories, after: Histories, topic: string, qos: Byte,
                            answers: nat -> Answer) {
    && |after| == |before| == |conns|
    && forall j :: 0 <= j < |conns| ==> after[j] == AskedOnce(before[j], topic, qos, answers(conns[j]))
  }

  lemma AskedIsSubscribedOnce(conns: seq<nat>, before: Histories, after: Histories, topic: string, qos: Byte,
                              answers: nat -> Answer)
    requires AskedEach(conns, before, after, topic, qos, answers)
    ensures SubscribedOnce(before, after, topic, qos)
  {
  }

  // The same call on each connection, logged as it was answered.
  ghost predicate CalledEach(conns: seq<nat>, before: Histories, after: Histories, acked: Call, failed: Call,
                             answers: nat -> Answer) {
    && |after| == |before| == |conns|
    && forall j :: 0 <= j < |conns| ==> after[j] == before[j] + [if answers(conns[j]).None? then acked else failed]
  }

  ghost predicate AllAnswerNil(conns: seq<nat>, answers: nat -> Answer) {
    forall j :: 0 <= j < |conns| ==> answers(conns[j]).None?
  }

  lemma CalledEachIsEachCalled(conns: seq<nat>, before: Histories, after: Histories, acked: Call, failed: Call,
                               answers: nat -> Answer)
    requires CalledEach(conns, before, after, acked, failed, answers) && acked != failed
    ensures EachCalled(before, after, acked, failed)
    ensures AllAcked(before, after, acked) <==> AllAnswerNil(conns, answers)
  {
    forall j | 0 <= j < |conns|
      ensures Called(before[j], after[j], acked, failed)
      ensures after[j] == before[j] + [acked] <==> answers(conns[j]).None?
    {
      CalledIsAckedIff(before[j], after[j], acked, failed);
    }
  }

  // One turn of the loop below, with the result accumulated.
  method AskOne(state: InternalState, topic: string, qos: Byte, answer: Answer, prev: Option<Err>)
    returns (err: Option<Err>)
    requires state.Valid() && (prev.Some? ==> prev.value.Multi? && prev.value.errs != [])
    modifies state`calls, state`subsCalled
    ensures state.Valid() && state.calls == AskedOnce(old(state.calls), topic, qos, answer)
    ensures err.None? <==> prev.None? && topic in state.subsCalled
    ensures err.Some? ==> err.value.Multi? && err.value.errs != []
  {
    var e := state.SubscribeOnlyOnce(topic, qos, answer);
    AccumulateIsNilIff(prev, e);
    err := AccumulateErrors(prev, e);
  }

  // The loop of execute over the states, with subscribeOnlyOnce.
  method FanOutSubscribeOnce(ccs: seq<InternalState>, topic: string, qos: Byte, answers: nat -> Answer)
    returns (err: Option<Err>)
    requires DistinctStates(ccs) && AllValid(ccs)
    modifies ccs`calls, ccs`subsCalled
    ensures AllValid(ccs) && err != Some(Multi([]))
    ensures AskedEach(OrderedConns(ccs), old(CallsOf(ccs)), CallsOf(ccs), topic, qos, answers)
    ensures err.None? <==> forall j :: 0 <= j < |ccs| ==> topic in ccs[j].subsCalled
  {
    err := None;
    for i := 0 to |ccs|
      invariant AllValid(ccs)
      invariant forall j :: i <= j < |ccs| ==> ccs[j].calls == old(ccs[j].calls)
      invariant forall j :: 0 <= j < i ==>
        ccs[j].calls == AskedOnce(old(ccs[j].calls), topic, qos, answers(ccs[j].client))
      invariant err.None? <==> forall j :: 0 <= j < i ==> topic in ccs[j].subsCalled
      invariant err.Some? ==> err.value.Multi? && err.value.errs != []
    {
      err := AskOne(ccs[i], topic, qos, answers(ccs[i].client), err);
    }
  }

  // The same for a list `b` of the same states in another order.
  method SubscribeOnceInOrder(ccs: seq<InternalState>, ghost b: seq<InternalState>, ghost place: seq<nat>,
                              topic: string, qos: Byte)
    returns (err: Option<Err>)
    requires Reorders(ccs, b, place) && AllValid(b)
    modifies b`calls, b`subsCalled
    ensures AllValid(b)
    ensures SubscribedOnce(old(CallsOf(b)), CallsOf(b), topic, qos)
    ensures err != Some(Multi([])) && (err.None? <==> AllRemember(CallsOf(b), topic))
  {
    ghost var c0, h0 := CallsOf(ccs), CallsOf(b);
    CallsReordered(ccs, b, place);
    var answers := BrokerAnswers();
    err := FanOutSubscribeOnce(ccs, topic, qos, answers);
    AskedIsSubscribedOnce(OrderedConns(ccs), c0, CallsOf(ccs), topic, qos, answers);
    CallsReordered(ccs, b, place);
    OnceReordered(c0, CallsOf(ccs), h0, CallsOf(b), place, topic, qos);
  }

  // The same with a SubscribeMultiple.
  method FanOutPlainly(ccs: seq<InternalState>, topics: map<string, Byte>, answers: nat -> Answer)
    returns (err: Option<Err>)
    requires DistinctStates(ccs) && AllValid(ccs)
    modifies ccs`calls
    ensures AllValid(ccs) && err != Some(Multi([]))
    ensures CalledEach(OrderedConns(ccs), old(CallsOf(ccs)), CallsOf(ccs), PlainSubscribe(topics, true),
                       PlainSubscribe(topics, false), answers)
    ensures err.None? <==> AllAnswerNil(OrderedConns(ccs), answers)
  {
    err := None;
    for i := 0 to |ccs|
      invariant AllValid(ccs)
      invariant forall j :: i <= j < |ccs| ==> ccs[j].calls == old(ccs[j].calls)
      invariant forall j :: 0 <= j < i ==>
        ccs[j].calls == old(ccs[j].calls) + [PlainSubscribe(topics, answers(ccs[j].client).None?)]
      invariant err.None? <==> forall j :: 0 <= j < i ==> answers(ccs[j].client).None?
      invariant err.Some? ==> err.value.Multi? && err.value.errs != []
    {
      var e := ccs[i].SubscribePlainly(topics, answers(ccs[i].client));
      AccumulateIsNilIff(err, e);
      err := AccumulateErrors(err, e);
    }
  }

  // The same with removeSubsFromState.
  method FanOutUnsubscribe(ccs: seq<InternalState>, topics: seq<string>, answers: nat -> Answer)
    returns (err: Option<Err>)
    requires DistinctStates(ccs) && AllValid(ccs)
    modifies ccs`calls, ccs`subsCalled
    ensures AllValid(ccs) && err != Some(Multi([]))
    ensures CalledEach(OrderedConns(ccs), old(CallsOf(ccs)), CallsOf(ccs), Unsubscribe(topics, true),
                       Unsubscribe(topics, false), answers)
    ensures err.None? <==> AllAnswerNil(OrderedConns(ccs), answers)
  {
    err := None;
    for i := 0 to |ccs|
      invariant AllValid(ccs)
      invariant forall j :: i <= j < |ccs| ==> ccs[j].calls == old(ccs[j].calls)
      invariant forall j :: 0 <= j < i ==>
        ccs[j].calls == old(ccs[j].calls) + [Unsubscribe(topics, answers(ccs[j].client).None?)]
      invariant err.None? <==> forall j :: 0 <= j < i ==> answers(ccs[j].client).None?
      invariant err.Some? ==> err.value.Multi? && err.value.errs != []
    {
      var e := ccs[i].RemoveSubs(topics, answers(ccs[i].client));
      AccumulateIsNilIff(err, e);
      err := AccumulateErrors(err, e);
    }
  }

  lemma CalledIsAckedIff(before: seq<Call>, after: seq<Call>, acked: Call, failed: Call)
    requires acked != failed
    ensures after == before + [failed] ==> after != before + [acked]
  {
    assert (before + [failed])[|before|] != (before + [acked])[|before|];
  }

  method CallAllInOrder(ccs: seq<InternalState>, ghost b: seq<InternalState>, ghost place: seq<nat>,
                        topics: map<string, Byte>)
    returns (err: Option<Err>)
    requires Reorders(ccs, b, place) && AllValid(b)
    modifies b`calls
    ensures AllValid(b) && err != Some(Multi([]))
    ensures EachCalled(old(CallsOf(b)), CallsOf(b), PlainSubscribe(topics, true), PlainSubscribe(topics, false))
    ensures err.None? <==> AllAcked(old(CallsOf(b)), CallsOf(b), PlainSubscribe(topics, true))
  {
    ghost var c0, h0 := CallsOf(ccs), CallsOf(b);
    CallsReordered(ccs, b, place);
    var answers := BrokerAnswers();
    err := FanOutPlainly(ccs, topics, answers);
    CalledEachIsEachCalled(OrderedConns(ccs), c0, CallsOf(ccs), PlainSubscribe(topics, true),
                           PlainSubscribe(topics, false), answers);
    CallsReordered(ccs, b, place);
    EachReordered(c0, CallsOf(ccs), h0, CallsOf(b), place, PlainSubscribe(topics, true), PlainSubscribe(topics, false));
  }

  method UnsubscribeInOrder(ccs: seq<InternalState>, ghost b: seq<InternalState>, ghost place: seq<nat>,
                            topics: seq<string>)
    returns (err: Option<Err>)
    requires Reorders(ccs, b, place) && AllValid(b)
    modifies b`calls, b`subsCalled
    ensures AllValid(b) && err != Some(Multi([]))
    ensures EachCalled(old(CallsOf(b)), CallsOf(b), Unsubscribe(topics, true), Unsubscribe(topics, false))
    ensures err.None? <==> AllAcked(old(CallsOf(b)), CallsOf(b), Unsubscribe(topics, true))
  {
    ghost var c0, h0 := CallsOf(ccs), CallsOf(b);
    CallsReordered(ccs, b, place);
    var answers := BrokerAnswers();
    err := FanOutUnsubscribe(ccs, topics, answers);
    CalledEachIsEachCalled(OrderedConns(ccs), c0, CallsOf(ccs), Unsubscribe(topics, true), Unsubscribe(topics, false),
                           answers);
    CallsReordered(ccs, b, place);
    EachReordered(c0, CallsOf(ccs), h0, CallsOf(b), place, Unsubscribe(topics, true), Unsubscribe(topics, false));
  }

  // The loss of connection cc is recorded where it belongs.
  ghost predicate Lost(conns: seq<nat>, before: Histories, after: Histories, cc: nat) {
    && |after| == |before| == |conns|
    && forall i :: 0 <= i < |conns| ==> after[i] == if conns[i] == cc then before[i] + [ConnectionLost] else before[i]
  }

  // The loop of removeStoredSubsCalled.
  method ForgetLost(ccs: seq<InternalState>, cc: nat)
    requires DistinctStates(ccs) && AllValid(ccs)
    modifies ccs`calls, ccs`subsCalled
    ensures AllValid(ccs) && Lost(OrderedConns(ccs), old(CallsOf(ccs)), CallsOf(ccs), cc)
  {
    for i := 0 to |ccs|
      invariant AllValid(ccs)
      invariant forall j :: i <= j < |ccs| ==> ccs[j].calls == old(ccs[j].calls)
      invariant forall j :: 0 <= j < i ==>
        ccs[j].calls == if ccs[j].client == cc then old(ccs[j].calls) + [ConnectionLost] else old(ccs[j].calls)
    {
      if ccs[i].client == cc {
        ccs[i].Forget();
      }
    }
  }

  method ForgetInOrder(ccs: seq<InternalState>, ghost b: seq<InternalState>, ghost place: seq<nat>, cc: nat)
    requires Reorders(ccs, b, place) && AllValid(b)
    modifies b`calls, b`subsCalled
    ensures AllValid(b) && Lost(OrderedConns(b), old(CallsOf(b)), CallsOf(b), cc)
  {
    ghost var c0, h0 := CallsOf(ccs), CallsOf(b);
    CallsReordered(ccs, b, place);
    ForgetLost(ccs, cc);
    CallsReordered(ccs, b, place);
    LostReordered(ccs, b, c0, CallsOf(ccs), h0, CallsOf(b), place, cc);
  }

  // One Subscribe or SubscribeMultiple on the i-th state of a list, told for another order of the same states.
  method CallOneInOrder(ccs: seq<InternalState>, i: nat, ghost b: seq<InternalState>, ghost place: seq<nat>,
                        topics: map<string, Byte>)
    returns (err: Option<Err>)
    requires Reorders(ccs, b, place) && AllValid(b) && i < |ccs|
    modifies b`calls
    ensures AllValid(b) && err != Some(Multi([]))
    ensures CalledOne(old(CallsOf(b)), CallsOf(b), PlainSubscribe(topics, err.None?))
  {
    ghost var before := CallsOf(b);
    var answer := BrokerAnswer();
    err := ccs[i].SubscribePlainly(topics, answer);
    ghost var k := PlaceOf(ccs, b, place, i);
    assert CallsOf(b) == before[k := before[k] + [PlainSubscribe(topics, err.None?)]];
  }

  // The ordered states of a generation that holds the connections from `first` on.
  lemma GenerationEnumerates(keyed: map<string, InternalState>, ordered: seq<InternalState>, names: seq<string>,
                             clients: map<string, nat>, keys: seq<string>, first: nat)
    requires Agree(keyed, ordered, names) && KeyedConns(keyed) == clients
    requires Distinct(keys) && KeyedBy(clients, keys, first)
    ensures Enumerates(OrderedConns(ordered), first, |keys|)
    ensures |keyed| == |keys|
    ensures forall i :: 0 <= i < |ordered| ==> ordered[i].client < first + |keys|
  {
    var conns := OrderedConns(ordered);
    KeyedValues(clients, keys, first);
    forall c: nat
      ensures c in conns <==> first <= c < first + |keys|
    {
      if c in conns {
        var i :| 0 <= i < |conns| && conns[i] == c;
        assert clients[names[i]] == c;
      }
      if first <= c < first + |keys| {
        var k := keys[c - first];
        assert k in clients && k in keyed && k in names;
        var i :| 0 <= i < |names| && names[i] == k;
        assert conns[i] == c;
      }
    }
    MembersEnumerate(conns, first, |keys|);
    EnumeratesLength(conns, first, |keys|);
    assert forall i :: 0 <= i < |ordered| ==> conns[i] in conns;
  }

  lemma FreshStatesAreValid(states: seq<InternalState>, created: set<InternalState>)
    requires AllUnused(states, created)
    ensures AllValid(states) && NoCalls(CallsOf(states))
  {
    NothingCalled(CallsOf(states));
  }

  ghost predicate StatesOf(ncs: map<string, InternalState>, clients: map<string, nat>) {
    forall k :: k in ncs ==> k in clients && ncs[k].client == clients[k]
  }

  lemma StatesWithOneMore(clients: map<string, nat>, ncs: map<string, InternalState>, ordered: seq<InternalState>,
                          keys: seq<string>, k: string, state: InternalState)
    requires Injective(clients) && k in clients && k !in ncs && state.client == clients[k]
    requires Agree(ncs, ordered, keys) && StatesOf(ncs, clients)
    ensures Agree(ncs[k := state], ordered + [state], keys + [k]) && StatesOf(ncs[k := state], clients)
  {
    forall i | 0 <= i < |ordered|
      ensures ordered[i].client != clients[k]
    {
      assert keys[i] in ncs && ncs[keys[i]] == ordered[i] && keys[i] != k;
    }
    AgreeWithOneMore(ncs, ordered, keys, k, state);
  }

  lemma UnusedWithOneMore(states: seq<InternalState>, created: set<InternalState>, state: InternalState)
    requires AllUnused(states, created) && state.subsCalled == {} && state.calls == []
    ensures AllUnused(states + [state], created + {state})
  {
  }

  lemma AgreeIsInjective(keyed: map<string, InternalState>, ordered: seq<InternalState>, names: seq<string>)
    requires Agree(keyed, ordered, names)
    ensures Injective(keyed)
    ensures forall k, l :: k in keyed && l in keyed && keyed[k].client == keyed[l].client ==> k == l
  {
    forall k, l | k in keyed && l in keyed && keyed[k].client == keyed[l].client
      ensures k == l
    {
      var i :| 0 <= i < |names| && names[i] == k;
      var j :| 0 <= j < |names| && names[j] == l;
      assert ordered[i].client == ordered[j].client;
    }
  }

  lemma ValueConnsDiffer(keyed: map<string, InternalState>, ordered: seq<InternalState>, names: seq<string>,
                         values: seq<InternalState>)
    requires Agree(keyed, ordered, names)
    requires (forall i :: 0 <= i < |values| ==> values[i] in keyed.Values) && DistinctStates(values)
    ensures NoDuplicates(OrderedConns(values))
  {
  }

  lemma SameConns(a: seq<InternalState>, b: seq<InternalState>, place: seq<nat>, c: nat)
    requires Reorders(a, b, place)
    ensures c in OrderedConns(a) <==> c in OrderedConns(b)
  {
  }

  // The values of the map are the ordered states in some other order.
  lemma OldConnsPermute(keyed: map<string, InternalState>, ordered: seq<InternalState>, names: seq<string>,
                        values: seq<InternalState>, place: seq<nat>)
    requires Agree(keyed, ordered, names) && Reorders(values, ordered, place)
    requires forall i :: 0 <= i < |values| ==> values[i] in keyed.Values
    ensures Permutes(OrderedConns(values), OrderedConns(ordered))
  {
    ValueConnsDiffer(keyed, ordered, names, values);
    forall c: nat
      ensures c in OrderedConns(values) <==> c in OrderedConns(ordered)
    {
      SameConns(values, ordered, place, c);
    }
    SameMembersPermute(OrderedConns(values), OrderedConns(ordered));
  }

  // b lists the objects of a, each once, those of place 0, 1, ... in this order.
  ghost predicate Reorders(a: seq<InternalState>, b: seq<InternalState>, place: seq<nat>) {
    && |a| == |b| == |place| && DistinctStates(a) && DistinctStates(b)
    && (forall i :: 0 <= i < |b| ==> place[i] < |a| && b[i] == a[place[i]])
    && (forall j :: 0 <= j < |a| ==> a[j] in b)
    && Covers(place, |a|)
  }

  ghost predicate Covers(place: seq<nat>, n: nat) {
    forall j: nat :: j < n ==> j in place
  }

  lemma ValuesReorder(keyed: map<string, InternalState>, ordered: seq<InternalState>, names: seq<string>,
                      values: seq<InternalState>)
    returns (place: seq<nat>)
    requires Agree(keyed, ordered, names)
    requires |values| == |keyed| && DistinctStates(values)
    requires forall i :: 0 <= i < |values| ==> values[i] in keyed.Values
    requires forall k :: k in keyed ==> keyed[k] in values
    ensures Reorders(values, ordered, place)
  {
    place := [];
    for i := 0 to |ordered|
      invariant |place| == i
      invariant forall j :: 0 <= j < i ==> place[j] < |values| && ordered[j] == values[place[j]]
    {
      assert keyed[names[i]] in values;
      var j :| 0 <= j < |values| && values[j] == keyed[names[i]];
      place := place + [j];
    }
    forall j: nat | j < |values|
      ensures j in place && values[j] in ordered
    {
      var k :| k in keyed && keyed[k] == values[j];
      var i :| 0 <= i < |names| && names[i] == k;
      assert values[place[i]] == values[j];
      assert place[i] == j;
    }
  }

  ghost predicate SameUnder(c: Histories, h: Histories, place: seq<nat>) {
    && |c| == |h| == |place|
    && forall i :: 0 <= i < |h| ==> place[i] < |c| && h[i] == c[place[i]]
  }

  // Where in b the i-th state of a stands.
  lemma PlaceOf(a: seq<InternalState>, b: seq<InternalState>, place: seq<nat>, i: nat) returns (k: nat)
    requires Reorders(a, b, place) && i < |a|
    ensures k < |b| && b[k] == a[i]
    ensures forall j :: 0 <= j < |b| && j != k ==> b[j] != a[i]
  {
    assert i in place;
    k :| 0 <= k < |place| && place[k] == i;
  }

  lemma CallsReordered(a: seq<InternalState>, b: seq<InternalState>, place: seq<nat>)
    requires Reorders(a, b, place)
    ensures SameUnder(CallsOf(a), CallsOf(b), place)
  {
  }

  lemma EachReordered(c0: Histories, c1: Histories, h0: Histories, h1: Histories, place: seq<nat>,
                      acked: Call, failed: Call)
    requires SameUnder(c0, h0, place) && SameUnder(c1, h1, place)
    requires Covers(place, |c1|)
    requires EachCalled(c0, c1, acked, failed)
    ensures EachCalled(h0, h1, acked, failed)
    ensures AllAcked(h0, h1, acked) <==> AllAcked(c0, c1, acked)
  {
    forall i | 0 <= i < |h0|
      ensures Called(h0[i], h1[i], acked, failed)
    {
      assert Called(c0[place[i]], c1[place[i]], acked, failed);
    }
    if AllAcked(h0, h1, acked) {
      forall j: nat | j < |c1|
        ensures c1[j] == c0[j] + [acked]
      {
        assert j in place;
        var i :| 0 <= i < |place| && place[i] == j;
        assert h1[i] == h0[i] + [acked];
      }
    }
  }

  lemma LostReordered(a: seq<InternalState>, b: seq<InternalState>, c0: Histories, c1: Histories, h0: Histories,
                      h1: Histories, place: seq<nat>, cc: nat)
    requires Reorders(a, b, place) && SameUnder(c0, h0, place) && SameUnder(c1, h1, place)
    requires Lost(OrderedConns(a), c0, c1, cc)
    ensures Lost(OrderedConns(b), h0, h1, cc)
  {
    forall i | 0 <= i < |b|
      ensures h1[i] == if b[i].client == cc then h0[i] + [ConnectionLost] else h0[i]
    {
      assert OrderedConns(a)[place[i]] == b[i].client;
    }
  }

  lemma OnceReordered(c0: Histories, c1: Histories, h0: Histories, h1: Histories, place: seq<nat>,
                      topic: string, qos: Byte)
    requires SameUnder(c0, h0, place) && SameUnder(c1, h1, place)
    requires Covers(place, |c1|)
    requires SubscribedOnce(c0, c1, topic, qos)
    ensures SubscribedOnce(h0, h1, topic, qos)
    ensures AllRemember(h1, topic) <==> AllRemember(c1, topic)
  {
    if AllRemember(h1, topic) {
      forall j: nat | j < |c1|
        ensures topic in Remembered(c1[j])
      {
        assert j in place;
        var i :| 0 <= i < |place| && place[i] == j;
        assert topic in Remembered(h1[i]);
      }
    }
  }

  lemma PoolEnumerates(keyed: map<string, InternalState>, ordered: seq<InternalState>, names: seq<string>)
    requires Agree(keyed, ordered, names) && forall i :: 0 <= i < |ordered| ==> ordered[i].client == i
    ensures Enumerates(OrderedConns(ordered), 0, |ordered|)
    ensures KeyedBy(KeyedConns(keyed), names, 0)
  {
    var conns := OrderedConns(ordered);
    forall c: nat
      ensures c in conns <==> 0 <= c < |ordered|
    {
      assert c < |ordered| ==> conns[c] == c;
    }
    MembersEnumerate(conns, 0, |ordered|);
    assert |KeyedConns(keyed).Keys| == |keyed.Keys|;
  }

  lemma NoStates()
    ensures Agree(map[], [], []) && AllValid([]) && OrderedConns([]) == [] && KeyedConns(map[]) == map[]
  {
  }
}
