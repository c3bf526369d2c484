/** What a subscribe, an unsubscribe or a resume does to the connections of one generation, as a relation between
    the lists of calls made on each of them before and after. */
module Fanout {
  import opened CallOptions
  import opened Errors
  import opened Optional
  import opened Subscriptions

  type Histories = seq<seq<Call>>

  // ----- one operation

  // subscribeOnlyOnce on one connection, which is left alone if it holds the topic.
  ghost predicate CalledOnce(before: seq<Call>, after: seq<Call>, topic: string, qos: Byte) {
    after == if topic in Remembered(before) then before
             else before + [SharedSubscribe(topic, qos, topic in Remembered(after))]
  }

  // subscribeOnlyOnce on every connection.
  ghost predicate SubscribedOnce(before: Histories, after: Histories, topic: string, qos: Byte) {
    |after| == |before| && forall i :: 0 <= i < |before| ==> CalledOnce(before[i], after[i], topic, qos)
  }

  ghost predicate AllRemember(calls: Histories, topic: string) {
    forall i :: 0 <= i < |calls| ==> topic in Remembered(calls[i])
  }

  // One broker call on one arbitrary connection.
  ghost predicate CalledOne(before: Histories, after: Histories, call: Call) {
    exists i :: 0 <= i < |before| && after == before[i := before[i] + [call]]
  }

  // The same call on every connection, acknowledged or not.
  ghost predicate Called(before: seq<Call>, after: seq<Call>, acked: Call, failed: Call) {
    after == before + [acked] || after == before + [failed]
  }

  ghost predicate EachCalled(before: Histories, after: Histories, acked: Call, failed: Call) {
    |after| == |before| && forall i :: 0 <= i < |before| ==> Called(before[i], after[i], acked, failed)
  }

  ghost predicate AllAcked(before: Histories, after: Histories, acked: Call) {
    |after| == |before| && forall i :: 0 <= i < |before| ==> after[i] == before[i] + [acked]
  }

  // The two calls that SubscribeMultiple may make, and whether they are acknowledged.
  ghost predicate SharedPart(before: Histories, after: Histories, topics: map<string, Byte>, ok: bool) {
    if |topics| == 0 then ok && after == before
    else
      && EachCalled(before, after, PlainSubscribe(topics, true), PlainSubscribe(topics, false))
      && (ok <==> AllAcked(before, after, PlainSubscribe(topics, true)))
  }

  ghost predicate NormalPart(before: Histories, after: Histories, topics: map<string, Byte>, ok: bool) {
    if |topics| == 0 then ok && after == before else CalledOne(before, after, PlainSubscribe(topics, ok))
  }

  ghost predicate InSomeOrder(before: Histories, mid: Histories, after: Histories, sharedSubs: map<string, Byte>,
                              normalSubs: map<string, Byte>, ok1: bool, ok2: bool) {
    || (SharedPart(before, mid, sharedSubs, ok1) && NormalPart(mid, after, normalSubs, ok2))
    || (NormalPart(before, mid, normalSubs, ok2) && SharedPart(mid, after, sharedSubs, ok1))
  }

  ghost predicate SubscribedMultiple(before: Histories, after: Histories, sharedSubs: map<string, Byte>,
                                     normalSubs: map<string, Byte>, ok: bool) {
    exists mid, ok1, ok2 ::
      InSomeOrder(before, mid, after, sharedSubs, normalSubs, ok1, ok2) && (ok <==> ok1 && ok2)
  }

  /** SubscribeMultiple records nothing: every connection remembers what it did before, shared topics included. */
  lemma MultipleIsNotRemembered(before: Histories, after: Histories, sharedSubs: map<string, Byte>,
                                normalSubs: map<string, Byte>, ok: bool, i: nat)
    requires SubscribedMultiple(before, after, sharedSubs, normalSubs, ok) && i < |before|
    ensures |after| == |before| && Remembered(after[i]) == Remembered(before[i])
  {
    var mid, ok1, ok2 :| InSomeOrder(before, mid, after, sharedSubs, normalSubs, ok1, ok2);
    PlainPartKept(before, mid, sharedSubs, normalSubs, ok1, ok2, i);
    PlainPartKept(mid, after, sharedSubs, normalSubs, ok1, ok2, i);
  }

  lemma PlainPartKept(before: Histories, after: Histories, sharedSubs: map<string, Byte>,
                      normalSubs: map<string, Byte>, ok1: bool, ok2: bool, i: nat)
    requires SharedPart(before, after, sharedSubs, ok1) || NormalPart(before, after, normalSubs, ok2)
    requires i < |before|
    ensures |after| == |before| && Remembered(after[i]) == Remembered(before[i])
  {
  }

  /** Unsubscribing makes exactly the connections that acknowledged forget exactly these topics. */
  lemma UnsubscribeForgets(before: Histories, after: Histories, topics: seq<string>, topic: string, i: nat)
    requires EachCalled(before, after, Unsubscribe(topics, true), Unsubscribe(topics, false)) && i < |before|
    ensures topic in Remembered(after[i]) <==>
      topic in Remembered(before[i]) && !(topic in topics && after[i] == before[i] + [Unsubscribe(topics, true)])
  {
  }

  /** After a partial failure a retry calls exactly the connections that failed, and the second result is nil if and
      only if all of those succeed. */
  lemma RetryCallsOnlyFailures(h0: Histories, h1: Histories, h2: Histories, topic: string, qos: Byte, i: nat)
    requires SubscribedOnce(h0, h1, topic, qos) && SubscribedOnce(h1, h2, topic, qos) && i < |h0|
    requires topic !in Remembered(h0[i])
    ensures topic in Remembered(h1[i]) <==> h1[i] == h0[i] + [SharedSubscribe(topic, qos, true)]
    ensures h2[i] == h1[i] <==> h1[i] == h0[i] + [SharedSubscribe(topic, qos, true)]
    ensures AllRemember(h2, topic) <==> forall j :: 0 <= j < |h0| && topic !in Remembered(h1[j]) ==>
      h2[j] == h1[j] + [SharedSubscribe(topic, qos, true)]
  {
  }

  // ----- the calls about one topic

  function About(calls: seq<Call>, topic: string): seq<Call> {
    if calls == [] then []
    else
      var earlier, call := About(calls[..|calls| - 1], topic), calls[|calls| - 1];
      if Concerns(call, topic) then earlier + [call] else earlier
  }

  predicate Concerns(call: Call, topic: string) {
    (call.SharedSubscribe? && call.topic == topic) || (call.PlainSubscribe? && topic in call.topics)
  }

  lemma AboutOneMore(calls: seq<Call>, call: Call, topic: string)
    ensures About(calls + [call], topic) == if Concerns(call, topic) then About(calls, topic) + [call]
                                            else About(calls, topic)
  {
    assert (calls + [call])[..|calls|] == calls;
  }

  lemma AboutOneCall(before: seq<Call>, topics: map<string, Byte>, topic: string)
    ensures var after := before + [PlainSubscribe(topics, true)];
      About(after, topic) ==
        if topic in topics then About(before, topic) + [PlainSubscribe(topics, true)] else About(before, topic)
  {
    AboutOneMore(before, PlainSubscribe(topics, true), topic);
  }

  // From `before` on, one acknowledged call with these topics was made on connection i, and it is the only one about
  // the topic.
  ghost predicate AcknowledgedOn(before: Histories, after: Histories, topics: map<string, Byte>, topic: string, i: nat)
    requires i < |after| == |before|
  {
    && About(after[i], topic) == About(before[i], topic) + [PlainSubscribe(topics, true)]
    && forall j :: 0 <= j < |after| && j != i ==> About(after[j], topic) == About(before[j], topic)
  }

  // What a SubscribeMultiple that succeeds does about one topic.
  ghost predicate TopicReached(before: Histories, after: Histories, sharedSubs: map<string, Byte>,
                               normalSubs: map<string, Byte>, topic: string) {
    && |after| == |before|
    && if topic in sharedSubs then
         forall i :: 0 <= i < |after| ==>
           About(after[i], topic) == About(before[i], topic) + [PlainSubscribe(sharedSubs, true)]
       else if topic in normalSubs then
         exists i :: 0 <= i < |after| && AcknowledgedOn(before, after, normalSubs, topic, i)
       else
         SameAbout(before, after, topic)
  }

  ghost predicate SameAbout(before: Histories, after: Histories, topic: string) {
    forall i :: 0 <= i < |after| == |before| ==> About(after[i], topic) == About(before[i], topic)
  }

  lemma SharedPartReaches(before: Histories, after: Histories, topics: map<string, Byte>, topic: string)
    requires SharedPart(before, after, topics, true)
    ensures |after| == |before|
    ensures topic in topics ==> forall i :: 0 <= i < |after| ==>
      About(after[i], topic) == About(before[i], topic) + [PlainSubscribe(topics, true)]
    ensures topic !in topics ==> SameAbout(before, after, topic)
  {
    if |topics| > 0 {
      forall i | 0 <= i < |after|
        ensures About(after[i], topic) ==
          if topic in topics then About(before[i], topic) + [PlainSubscribe(topics, true)] else About(before[i], topic)
      {
        AboutOneCall(before[i], topics, topic);
      }
    }
  }

  lemma NormalPartReaches(before: Histories, after: Histories, topics: map<string, Byte>, topic: string)
    returns (i: nat)
    requires NormalPart(before, after, topics, true)
    ensures |after| == |before|
    ensures topic in topics ==> i < |after| && AcknowledgedOn(before, after, topics, topic, i)
    ensures topic !in topics ==> SameAbout(before, after, topic)
  {
    i := 0;
    if |topics| > 0 {
      i :| 0 <= i < |before| && after == before[i := before[i] + [PlainSubscribe(topics, true)]];
      AboutOneCall(before[i], topics, topic);
    }
  }

  lemma ReachedInTwoParts(before: Histories, mid: Histories, after: Histories, sharedSubs: map<string, Byte>,
                          normalSubs: map<string, Byte>, topic: string)
    requires |before| == |mid| == |after| && (topic !in sharedSubs || topic !in normalSubs)
    requires
      || (TopicReached(before, mid, sharedSubs, map[], topic) && TopicReached(mid, after, map[], normalSubs, topic))
      || (TopicReached(before, mid, map[], normalSubs, topic) && TopicReached(mid, after, sharedSubs, map[], topic))
    ensures TopicReached(before, after, sharedSubs, normalSubs, topic)
  {
    if topic in normalSubs {
      if TopicReached(mid, after, map[], normalSubs, topic) && SameAbout(before, mid, topic) {
        var i :| 0 <= i < |after| && AcknowledgedOn(mid, after, normalSubs, topic, i);
        assert AcknowledgedOn(before, after, normalSubs, topic, i);
      } else {
        var i :| 0 <= i < |after| && AcknowledgedOn(before, mid, normalSubs, topic, i);
        assert AcknowledgedOn(before, after, normalSubs, topic, i);
      }
    }
  }

  /** A SubscribeMultiple that succeeds subscribes each topic in one call, a shared one on every connection and any
      other on exactly one, and concerns no further topic. */
  lemma MultipleReachesEveryTopic(before: Histories, after: Histories, sharedSubs: map<string, Byte>,
                                  normalSubs: map<string, Byte>, topic: string)
    requires SubscribedMultiple(before, after, sharedSubs, normalSubs, true)
    requires topic !in sharedSubs || topic !in normalSubs
    ensures TopicReached(before, after, sharedSubs, normalSubs, topic)
  {
    var mid, ok1, ok2 :| InSomeOrder(before, mid, after, sharedSubs, normalSubs, ok1, ok2) && ok1 && ok2;
    if SharedPart(before, mid, sharedSubs, true) && NormalPart(mid, after, normalSubs, true) {
      SharedPartReaches(before, mid, sharedSubs, topic);
      var i := NormalPartReaches(mid, after, normalSubs, topic);
    } else {
      var i := NormalPartReaches(before, mid, normalSubs, topic);
      SharedPartReaches(mid, after, sharedSubs, topic);
    }
    ReachedInTwoParts(before, mid, after, sharedSubs, normalSubs, topic);
  }

  // ----- resuming a registry

  // From `start` on, one call for a normal topic was made on connection i, and none anywhere else.
  ghost predicate CalledOn(start: Histories, calls: Histories, topic: string, qos: Byte, i: nat, ok: bool)
    requires i < |calls| == |start|
  {
    && About(calls[i], topic) == About(start[i], topic) + [PlainSubscribe(map[topic := qos], ok)]
    && forall j :: 0 <= j < |calls| && j != i ==> About(calls[j], topic) == About(start[j], topic)
  }

  // One call for a shared topic was made on a connection that did not hold it, and none on one that did.
  ghost predicate SharedTried(before: seq<Call>, after: seq<Call>, topic: string, qos: Byte) {
    if topic in Remembered(before) then About(after, topic) == About(before, topic)
    else exists ok :: About(after, topic) == About(before, topic) + [SharedSubscribe(topic, qos, ok)]
  }

  // From `start` on, a shared topic was tried once wherever it was not remembered, and a normal one once on one
  // connection.
  ghost predicate TopicTried(start: Histories, calls: Histories, topic: string, qos: Byte, shared: bool) {
    if shared then
      forall i :: 0 <= i < |calls| == |start| ==> SharedTried(start[i], calls[i], topic, qos)
    else
      exists i, ok :: 0 <= i < |calls| == |start| && CalledOn(start, calls, topic, qos, i, ok)
  }

  // The same, and every call was acknowledged.
  ghost predicate TopicResumed(start: Histories, calls: Histories, topic: string, qos: Byte, shared: bool) {
    if shared then
      forall i :: 0 <= i < |calls| == |start| ==>
        About(calls[i], topic) == About(start[i], topic) + OnceUnless(topic in Remembered(start[i]), topic, qos)
    else
      exists i :: 0 <= i < |calls| == |start| && CalledOn(start, calls, topic, qos, i, true)
  }

  function OnceUnless(held: bool, topic: string, qos: Byte): seq<Call> {
    if held then [] else [SharedSubscribe(topic, qos, true)]
  }

  ghost predicate Untouched(start: Histories, calls: Histories, topic: string) {
    forall i :: 0 <= i < |calls| == |start| ==> TopicKept(start[i], calls[i], topic)
  }

  ghost predicate TopicKept(before: seq<Call>, after: seq<Call>, topic: string) {
    && About(after, topic) == About(before, topic)
    && (topic in Remembered(after) <==> topic in Remembered(before))
  }

  // The registered topics other than the remaining ones were tried, and no other topic was subscribed.
  ghost predicate TriedExcept(start: Histories, calls: Histories, subscriptions: map<string, SubscriptionMeta>,
                              shared: string -> bool, remaining: set<string>) {
    && |calls| == |start|
    && forall t :: if t in subscriptions && t !in remaining then
                     TopicTried(start, calls, t, LastQos(subscriptions[t].options), shared(t))
                   else
                     Untouched(start, calls, t)
  }

  // Those that were tried were resumed.
  ghost predicate AcknowledgedExcept(start: Histories, calls: Histories, subscriptions: map<string, SubscriptionMeta>,
                                     shared: string -> bool, remaining: set<string>) {
    forall t :: t in subscriptions && t !in remaining ==>
      TopicResumed(start, calls, t, LastQos(subscriptions[t].options), shared(t))
  }

  ghost predicate Tried(start: Histories, calls: Histories, subscriptions: map<string, SubscriptionMeta>,
                        shared: string -> bool) {
    TriedExcept(start, calls, subscriptions, shared, {})
  }

  ghost predicate Resumed(start: Histories, calls: Histories, subscriptions: map<string, SubscriptionMeta>,
                          shared: string -> bool) {
    Tried(start, calls, subscriptions, shared) && AcknowledgedExcept(start, calls, subscriptions, shared, {})
  }

  lemma NothingTried(calls: Histories, subscriptions: map<string, SubscriptionMeta>, shared: string -> bool)
    ensures TriedExcept(calls, calls, subscriptions, shared, subscriptions.Keys)
    ensures AcknowledgedExcept(calls, calls, subscriptions, shared, subscriptions.Keys)
  {
  }

  // Subscribing to one topic leaves the calls about every other topic alone.
  lemma OtherTopicsKept(before: Histories, after: Histories, topic: string, qos: Byte, ok: bool, other: string)
    requires SubscribedOnce(before, after, topic, qos) ||
      CalledOne(before, after, PlainSubscribe(map[topic := qos], ok))
    requires other != topic
    ensures |after| == |before| && forall i :: 0 <= i < |before| ==> TopicKept(before[i], after[i], other)
  {
  }

  // What one call of the fan-out does to its own topic.
  lemma SharedTopicTried(start: Histories, before: Histories, after: Histories, topic: string, qos: Byte)
    requires |start| == |before| && Untouched(start, before, topic) && SubscribedOnce(before, after, topic, qos)
    ensures TopicTried(start, after, topic, qos, true)
    ensures TopicResumed(start, after, topic, qos, true) <==> AllRemember(after, topic)
  {
    forall i | 0 <= i < |after|
      ensures SharedTried(start[i], after[i], topic, qos)
      ensures About(after[i], topic) == About(start[i], topic) + OnceUnless(topic in Remembered(start[i]), topic, qos)
        <==> topic in Remembered(after[i])
    {
      assert TopicKept(start[i], before[i], topic) && CalledOnce(before[i], after[i], topic, qos);
      SharedOnOne(start[i], before[i], after[i], topic, qos);
    }
  }

  lemma SharedOnOne(start: seq<Call>, before: seq<Call>, after: seq<Call>, topic: string, qos: Byte)
    requires TopicKept(start, before, topic) && CalledOnce(before, after, topic, qos)
    ensures SharedTried(start, after, topic, qos)
    ensures About(after, topic) == About(start, topic) + OnceUnless(topic in Remembered(start), topic, qos)
      <==> topic in Remembered(after)
  {
    if topic in Remembered(before) {
      assert About(start, topic) + [] == About(start, topic);
    } else {
      var ok := topic in Remembered(after);
      AboutOneMore(before, SharedSubscribe(topic, qos, ok), topic);
      assert About(after, topic) == About(start, topic) + [SharedSubscribe(topic, qos, ok)];
      assert About(after, topic)[|About(start, topic)|] == SharedSubscribe(topic, qos, ok);
    }
  }

  lemma NormalTopicTried(start: Histories, before: Histories, after: Histories, topic: string, qos: Byte, ok: bool)
    requires |start| == |before| && Untouched(start, before, topic)
    requires CalledOne(before, after, PlainSubscribe(map[topic := qos], ok))
    ensures |after| == |start| && TopicTried(start, after, topic, qos, false)
    ensures TopicResumed(start, after, topic, qos, false) <==> ok
  {
    var call := PlainSubscribe(map[topic := qos], ok);
    var i :| 0 <= i < |before| && after == before[i := before[i] + [call]];
    OneMoreOn(start, before, topic, call, i);
    assert CalledOn(start, after, topic, qos, i, ok);
    CalledOnDecides(start, after, topic, qos, i, ok);
  }

  lemma OneMoreOn(start: Histories, before: Histories, topic: string, call: Call, i: nat)
    requires i < |before| == |start| && Untouched(start, before, topic) && Concerns(call, topic)
    ensures About(before[i] + [call], topic) == About(start[i], topic) + [call]
    ensures forall j :: 0 <= j < |before| ==> About(before[j], topic) == About(start[j], topic)
  {
    forall j | 0 <= j < |before|
      ensures About(before[j], topic) == About(start[j], topic)
    {
      assert TopicKept(start[j], before[j], topic);
    }
    AboutOneMore(before[i], call, topic);
  }

  lemma CalledOnDecides(start: Histories, calls: Histories, topic: string, qos: Byte, i: nat, ok: bool)
    requires i < |calls| == |start| && CalledOn(start, calls, topic, qos, i, ok)
    ensures TopicResumed(start, calls, topic, qos, false) <==> ok
  {
    if TopicResumed(start, calls, topic, qos, false) {
      var j :| 0 <= j < |calls| == |start| && CalledOn(start, calls, topic, qos, j, true);
      assert |About(calls[i], topic)| == |About(start[i], topic)| + 1;
      assert About(calls[i], topic)[|About(start[i], topic)|] == PlainSubscribe(map[topic := qos], ok);
    }
  }

  // What it does to every other topic.
  lemma StillTried(start: Histories, before: Histories, after: Histories, topic: string, qos: Byte, shared: bool)
    requires |after| == |before| == |start|
    requires forall i :: 0 <= i < |before| ==> TopicKept(before[i], after[i], topic)
    ensures TopicTried(start, before, topic, qos, shared) ==> TopicTried(start, after, topic, qos, shared)
    ensures TopicResumed(start, before, topic, qos, shared) <==> TopicResumed(start, after, topic, qos, shared)
    ensures Untouched(start, before, topic) ==> Untouched(start, after, topic)
  {
    forall i | 0 <= i < |after|
      ensures About(after[i], topic) == About(before[i], topic)
      ensures SharedTried(start[i], before[i], topic, qos) ==> SharedTried(start[i], after[i], topic, qos)
    {
      assert TopicKept(before[i], after[i], topic);
    }
    if !shared {
      forall i: nat, ok | i < |after|
        ensures CalledOn(start, before, topic, qos, i, ok) <==> CalledOn(start, after, topic, qos, i, ok)
      {
      }
    }
    if Untouched(start, before, topic) {
      forall i | 0 <= i < |after|
        ensures TopicKept(start[i], after[i], topic)
      {
        assert TopicKept(start[i], before[i], topic) && TopicKept(before[i], after[i], topic);
      }
    }
  }

  // One call of the fan-out for `topic`, acknowledged or not.
  ghost predicate Calls(before: Histories, after: Histories, topic: string, qos: Byte, shared: bool, ok: bool) {
    if shared then SubscribedOnce(before, after, topic, qos) && (ok <==> AllRemember(after, topic))
    else CalledOne(before, after, PlainSubscribe(map[topic := qos], ok))
  }

  lemma OwnTopicTried(start: Histories, before: Histories, after: Histories, topic: string, qos: Byte, shared: bool,
                      ok: bool)
    requires |start| == |before| && Untouched(start, before, topic) && Calls(before, after, topic, qos, shared, ok)
    ensures |after| == |before| && TopicTried(start, after, topic, qos, shared)
    ensures TopicResumed(start, after, topic, qos, shared) <==> ok
  {
    if shared {
      SharedTopicTried(start, before, after, topic, qos);
    } else {
      NormalTopicTried(start, before, after, topic, qos, ok);
    }
  }

  lemma TryOneTopic(start: Histories, before: Histories, after: Histories,
                    subscriptions: map<string, SubscriptionMeta>, shared: string -> bool, remaining: set<string>,
                    topic: string, ok: bool)
    requires TriedExcept(start, before, subscriptions, shared, remaining)
    requires topic in remaining && topic in subscriptions
    requires Calls(before, after, topic, LastQos(subscriptions[topic].options), shared(topic), ok)
    ensures TriedExcept(start, after, subscriptions, shared, remaining - {topic})
    ensures AcknowledgedExcept(start, after, subscriptions, shared, remaining - {topic}) <==>
      AcknowledgedExcept(start, before, subscriptions, shared, remaining) && ok
  {
    var qos := LastQos(subscriptions[topic].options);
    assert Untouched(start, before, topic);
    OwnTopicTried(start, before, after, topic, qos, shared(topic), ok);
    forall t | t != topic
      ensures if t in subscriptions && t !in remaining then
                TopicTried(start, after, t, LastQos(subscriptions[t].options), shared(t))
              else
                Untouched(start, after, t)
      ensures t in subscriptions ==>
        (TopicResumed(start, before, t, LastQos(subscriptions[t].options), shared(t)) <==>
         TopicResumed(start, after, t, LastQos(subscriptions[t].options), shared(t)))
    {
      OtherTopicsKept(before, after, topic, qos, ok, t);
      var q := if t in subscriptions then LastQos(subscriptions[t].options) else 0;
      StillTried(start, before, after, t, q, shared(t));
    }
    AcknowledgedOneMore(start, before, after, subscriptions, shared, remaining, topic, ok);
  }

  lemma AcknowledgedOneMore(start: Histories, before: Histories, after: Histories,
                            subscriptions: map<string, SubscriptionMeta>, shared: string -> bool,
                            remaining: set<string>, topic: string, ok: bool)
    requires topic in remaining && topic in subscriptions
    requires TopicResumed(start, after, topic, LastQos(subscriptions[topic].options), shared(topic)) <==> ok
    requires forall t :: t in subscriptions && t != topic ==>
      (TopicResumed(start, before, t, LastQos(subscriptions[t].options), shared(t)) <==>
       TopicResumed(start, after, t, LastQos(subscriptions[t].options), shared(t)))
    ensures AcknowledgedExcept(start, after, subscriptions, shared, remaining - {topic}) <==>
      AcknowledgedExcept(start, before, subscriptions, shared, remaining) && ok
  {
  }

  // What the fan-out depends on: whether there is a client, whether a pick finds no connection, the registry, and
  // which topics are shared.
  datatype Setting = Setting(connected: bool, noneToPick: bool, subscriptions: map<string, SubscriptionMeta>,
                             shared: string -> bool)

  // One topic's turn in the fan-out, and the calls after it.
  datatype Turn = Turn(topic: string, after: Histories)

  // A turn without a client fails without a call. With one, a normal topic needs a connection to pick, and the result
  // is nil exactly if all of the topic's calls were acknowledged.
  ghost predicate TurnTaken(w: Setting, before: Histories, turn: Turn, r: Outcome) {
    if !w.connected then r.Returned? && r.err.Some? && r.err != Some(Multi([])) && turn.after == before
    else if w.noneToPick && !w.shared(turn.topic) then r.Panicked?
    else
      && r.Returned? && r.err != Some(Multi([])) && turn.topic in w.subscriptions
      && Calls(before, turn.after, turn.topic, LastQos(w.subscriptions[turn.topic].options), w.shared(turn.topic),
               r.err.None?)
  }

  // Each of the remaining topics has one turn.
  ghost predicate TurnsTaken(w: Setting, before: Histories, after: Histories, turns: seq<Turn>, outcomes: seq<Outcome>,
                             remaining: set<string>)
    decreases |turns|
  {
    && |turns| == |outcomes|
    && if turns == [] then remaining == {} && after == before
       else
         && turns[0].topic in remaining && TurnTaken(w, before, turns[0], outcomes[0])
         && TurnsTaken(w, turns[0].after, after, turns[1..], outcomes[1..], remaining - {turns[0].topic})
  }

  lemma OneMoreTurn(w: Setting, before: Histories, after: Histories, turn: Turn, r: Outcome, turns: seq<Turn>,
                    outcomes: seq<Outcome>, remaining: set<string>)
    requires turn.topic in remaining && TurnTaken(w, before, turn, r)
    requires TurnsTaken(w, turn.after, after, turns, outcomes, remaining - {turn.topic})
    ensures TurnsTaken(w, before, after, [turn] + turns, [r] + outcomes, remaining)
  {
    assert ([turn] + turns)[1..] == turns && ([r] + outcomes)[1..] == outcomes;
  }

  // One of the topics is not shared, and there is no connection to pick for it.
  ghost predicate PanicsFor(noneToPick: bool, topics: set<string>, shared: string -> bool) {
    noneToPick && exists t :: t in topics && !shared(t)
  }

  lemma {:induction false} TurnsTry(w: Setting, start: Histories, before: Histories, after: Histories,
                                    turns: seq<Turn>, outcomes: seq<Outcome>, remaining: set<string>)
    requires TriedExcept(start, before, w.subscriptions, w.shared, remaining)
    requires TurnsTaken(w, before, after, turns, outcomes, remaining)
    requires w.connected && Panicked !in outcomes
    ensures TriedExcept(start, after, w.subscriptions, w.shared, {})
    ensures AcknowledgedExcept(start, after, w.subscriptions, w.shared, {}) <==>
      AcknowledgedExcept(start, before, w.subscriptions, w.shared, remaining) && AllNil(outcomes)
    decreases |turns|
  {
    if turns != [] {
      var mid, topic := turns[0].after, turns[0].topic;
      assert outcomes[0] in outcomes && (forall o :: o in outcomes[1..] ==> o in outcomes);
      assert AllNil(outcomes) <==> outcomes[0] == Returned(None) && AllNil(outcomes[1..]) by {
        assert outcomes == [outcomes[0]] + outcomes[1..];
      }
      TryOneTopic(start, before, mid, w.subscriptions, w.shared, remaining, topic, outcomes[0].err.None?);
      TurnsTry(w, start, mid, after, turns[1..], outcomes[1..], remaining - {topic});
    }
  }

  lemma {:induction false} TurnsPanic(w: Setting, before: Histories, after: Histories, turns: seq<Turn>,
                                      outcomes: seq<Outcome>, remaining: set<string>)
    requires w.connected && TurnsTaken(w, before, after, turns, outcomes, remaining)
    ensures Panicked in outcomes <==> PanicsFor(w.noneToPick, remaining, w.shared)
    decreases |turns|
  {
    if turns != [] {
      assert outcomes == [outcomes[0]] + outcomes[1..];
      TurnsPanic(w, turns[0].after, after, turns[1..], outcomes[1..], remaining - {turns[0].topic});
    }
  }

  lemma {:induction false} TurnsWithoutClient(w: Setting, before: Histories, after: Histories, turns: seq<Turn>,
                                              outcomes: seq<Outcome>, remaining: set<string>)
    requires !w.connected && TurnsTaken(w, before, after, turns, outcomes, remaining)
    ensures after == before && Panicked !in outcomes && (AllNil(outcomes) <==> remaining == {})
    decreases |turns|
  {
    if turns != [] {
      assert outcomes == [outcomes[0]] + outcomes[1..];
      TurnsWithoutClient(w, turns[0].after, after, turns[1..], outcomes[1..], remaining - {turns[0].topic});
    }
  }

  lemma {:induction false} NoEmptyErrors(w: Setting, before: Histories, after: Histories, turns: seq<Turn>,
                                         outcomes: seq<Outcome>, remaining: set<string>)
    requires TurnsTaken(w, before, after, turns, outcomes, remaining)
    ensures forall i :: 0 <= i < |outcomes| ==> outcomes[i] != Returned(Some(Multi([])))
    decreases |turns|
  {
    if turns != [] {
      NoEmptyErrors(w, turns[0].after, after, turns[1..], outcomes[1..], remaining - {turns[0].topic});
      assert outcomes == [outcomes[0]] + outcomes[1..];
    }
  }

  // What resumeSubscriptions does with the calls. With a client it tries every registered topic whatever the others
  // answer, and returns nil exactly if all calls were acknowledged; it panics exactly if a topic needs a connection
  // picked where there is none.
  ghost predicate ResumeEffect(w: Setting, before: Histories, after: Histories, r: Outcome) {
    if |w.subscriptions| == 0 then r == Returned(None) && after == before
    else if !w.connected then r.Returned? && r.err.Some? && after == before
    else
      && (r.Panicked? <==> PanicsFor(w.noneToPick, w.subscriptions.Keys, w.shared))
      && (r.Returned? ==>
           && Tried(before, after, w.subscriptions, w.shared)
           && (r.err.None? <==> Resumed(before, after, w.subscriptions, w.shared)))
  }

  lemma TurnsResume(w: Setting, before: Histories, after: Histories, turns: seq<Turn>, outcomes: seq<Outcome>)
    requires |w.subscriptions| > 0
    requires TurnsTaken(w, before, after, turns, outcomes, w.subscriptions.Keys)
    ensures ResumeEffect(w, before, after, Combine(outcomes))
  {
    NoEmptyErrors(w, before, after, turns, outcomes, w.subscriptions.Keys);
    CombineIsNilIff(outcomes);
    if !w.connected {
      TurnsWithoutClient(w, before, after, turns, outcomes, w.subscriptions.Keys);
      assert |w.subscriptions.Keys| > 0;
    } else {
      TurnsPanic(w, before, after, turns, outcomes, w.subscriptions.Keys);
      if Panicked !in outcomes {
        NothingTried(before, w.subscriptions, w.shared);
        TurnsTry(w, before, before, after, turns, outcomes, w.subscriptions.Keys);
      }
    }
  }

  // ----- the same on a fresh generation

  // No call was made on any connection.
  ghost predicate NoCalls(calls: Histories) {
    calls == [] || (calls[|calls| - 1] == [] && NoCalls(calls[..|calls| - 1]))
  }

  lemma {:induction false} NothingCalled(calls: Histories)
    ensures NoCalls(calls) <==> forall i :: 0 <= i < |calls| ==> calls[i] == []
  {
    if calls != [] {
      NothingCalled(calls[..|calls| - 1]);
    }
  }

  // As many connections without a call.
  function NoneYet(n: nat): (calls: Histories)
    ensures |calls| == n && forall i :: 0 <= i < n ==> calls[i] == []
  {
    if n == 0 then [] else NoneYet(n - 1) + [[]]
  }

  lemma NoCallsIsNoneYet(calls: Histories)
    requires NoCalls(calls)
    ensures calls == NoneYet(|calls|)
  {
    NothingCalled(calls);
  }

  // A shared topic is subscribed exactly once on every connection, a normal one exactly once on exactly one of them,
  // and no other topic anywhere.
  ghost predicate TopicCarried(calls: Histories, topic: string, qos: Byte, shared: bool) {
    if shared then
      forall i :: 0 <= i < |calls| ==> About(calls[i], topic) == [SharedSubscribe(topic, qos, true)]
    else
      exists i :: 0 <= i < |calls| && About(calls[i], topic) == [PlainSubscribe(map[topic := qos], true)] &&
        forall j :: 0 <= j < |calls| && j != i ==> About(calls[j], topic) == []
  }

  ghost predicate Carried(calls: Histories, subscriptions: map<string, SubscriptionMeta>, shared: string -> bool) {
    forall t :: if t in subscriptions then
                  TopicCarried(calls, t, LastQos(subscriptions[t].options), shared(t))
                else
                  forall i :: 0 <= i < |calls| ==> About(calls[i], t) == []
  }

  lemma FreshTopicCarried(start: Histories, calls: Histories, topic: string, qos: Byte, shared: bool)
    requires |calls| == |start| && (forall i :: 0 <= i < |start| ==> start[i] == [])
    ensures TopicResumed(start, calls, topic, qos, shared) <==> TopicCarried(calls, topic, qos, shared)
  {
    if !shared {
      forall i: nat | i < |calls|
        ensures CalledOn(start, calls, topic, qos, i, true) <==>
          About(calls[i], topic) == [PlainSubscribe(map[topic := qos], true)] &&
          forall j :: 0 <= j < |calls| && j != i ==> About(calls[j], topic) == []
      {
      }
    }
  }

  /** On a generation without calls, resuming acknowledges everything exactly if the generation then carries the
      registry: each shared topic once everywhere, each normal topic once on exactly one connection. */
  lemma ResumedFreshIsCarried(start: Histories, calls: Histories, subscriptions: map<string, SubscriptionMeta>,
                              shared: string -> bool)
    requires NoCalls(start) && Tried(start, calls, subscriptions, shared)
    ensures Resumed(start, calls, subscriptions, shared) <==> Carried(calls, subscriptions, shared)
  {
    NothingCalled(start);
    forall t
      ensures t in subscriptions ==>
        (TopicResumed(start, calls, t, LastQos(subscriptions[t].options), shared(t)) <==>
         TopicCarried(calls, t, LastQos(subscriptions[t].options), shared(t)))
      ensures t !in subscriptions ==> forall i :: 0 <= i < |calls| ==> About(calls[i], t) == []
    {
      if t in subscriptions {
        FreshTopicCarried(start, calls, t, LastQos(subscriptions[t].options), shared(t));
      } else {
        assert Untouched(start, calls, t);
        assert forall i :: 0 <= i < |calls| ==> TopicKept(start[i], calls[i], t);
      }
    }
  }

  // ----- the same on a generation that carries the registry already

  lemma TwiceOnNormal(before: Histories, after: Histories, topic: string, qos: Byte)
    requires TopicCarried(before, topic, qos, false) && TopicResumed(before, after, topic, qos, false)
    requires |after| == |before|
    ensures !TopicCarried(after, topic, qos, false)
  {
  }

  lemma OnceOnShared(before: Histories, after: Histories, topic: string, qos: Byte)
    requires TopicCarried(before, topic, qos, true) && TopicResumed(before, after, topic, qos, true)
    requires |after| == |before|
    ensures TopicCarried(after, topic, qos, true) <==> AllRemember(before, topic)
  {
  }

  // Resuming leaves the topic subscribed exactly once where it should be.
  ghost predicate KeptByResume(before: Histories, topic: string, shared: bool) {
    shared && AllRemember(before, topic)
  }

  /** An update without an open connection resumes on the old generation. If that generation carried the registry, it
      still does exactly if all topics are shared and no connection has forgotten one of them; a normal topic ends up
      subscribed twice. */
  lemma ResumingAgainIsHarmlessIff(before: Histories, after: Histories, subscriptions: map<string, SubscriptionMeta>,
                                   shared: string -> bool)
    requires Carried(before, subscriptions, shared) && Resumed(before, after, subscriptions, shared)
    ensures Carried(after, subscriptions, shared) <==>
      forall t :: t in subscriptions ==> KeptByResume(before, t, shared(t))
  {
    forall t
      ensures t in subscriptions ==>
        (TopicCarried(after, t, LastQos(subscriptions[t].options), shared(t)) <==> KeptByResume(before, t, shared(t)))
      ensures t !in subscriptions ==> forall i :: 0 <= i < |after| ==> About(after[i], t) == []
    {
      if t in subscriptions {
        if shared(t) {
          OnceOnShared(before, after, t, LastQos(subscriptions[t].options));
        } else {
          TwiceOnNormal(before, after, t, LastQos(subscriptions[t].options));
        }
      } else {
        assert Untouched(before, after, t);
        assert forall i :: 0 <= i < |after| ==> TopicKept(before[i], after[i], t);
      }
    }
    CarriedOneByOne(before, after, subscriptions, shared);
  }

  lemma CarriedOneByOne(before: Histories, after: Histories, subscriptions: map<string, SubscriptionMeta>,
                        shared: string -> bool)
    requires forall t :: t in subscriptions ==>
      (TopicCarried(after, t, LastQos(subscriptions[t].options), shared(t)) <==> KeptByResume(before, t, shared(t)))
    requires forall t :: t !in subscriptions ==> forall i :: 0 <= i < |after| ==> About(after[i], t) == []
    ensures Carried(after, subscriptions, shared) <==>
      forall t :: t in subscriptions ==> KeptByResume(before, t, shared(t))
  {
  }

  /** Resuming again can put a normal topic on two connections: of a generation of two that carries it on the first, the
      second may be the one picked. */
  lemma NormalTopicOnTwo(topic: string, qos: Byte, shared: string -> bool) returns (before: Histories, after: Histories)
    requires !shared(topic)
    ensures var subscriptions := map[topic := SubscriptionMeta(topic, [QOSLevel(qos)])];
      && Carried(before, subscriptions, shared) && Resumed(before, after, subscriptions, shared)
      && !Carried(after, subscriptions, shared)
    ensures |after| == 2
    ensures About(after[0], topic) == About(after[1], topic) == [PlainSubscribe(map[topic := qos], true)]
  {
    var call := PlainSubscribe(map[topic := qos], true);
    var subscriptions := map[topic := SubscriptionMeta(topic, [QOSLevel(qos)])];
    before, after := [[call], []], [[call], [call]];
    forall t
      ensures About([call], t) == if t == topic then [call] else []
    {
      AboutOneMore([], call, t);
      assert [] + [call] == [call];
    }
    assert LastQos([QOSLevel(qos)]) == qos;
    assert CalledOn(before, after, topic, qos, 1, true);
    assert Resumed(before, after, subscriptions, shared);
    assert About(before[0], topic) == [call];
    assert Carried(before, subscriptions, shared);
    ResumingAgainIsHarmlessIff(before, after, subscriptions, shared);
    assert topic in subscriptions && !KeptByResume(before, topic, shared(topic));
  }
}
