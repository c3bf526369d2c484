/** The options of a publish or subscribe call, the two loops that read them, and the split of a topic map. */
module CallOptions {

  type Byte = b: nat | b < 0x100

  datatype CallOption = QOSLevel(level: Byte) | Retained(retained: bool)

  datatype Composed = Composed(qos: Byte, retained: bool)

  function LastQos(opts: seq<CallOption>): Byte {
    if opts == [] then 0
    else if opts[|opts| - 1].QOSLevel? then opts[|opts| - 1].level
    else LastQos(opts[..|opts| - 1])
  }

  function LastRetained(opts: seq<CallOption>): bool {
    if opts == [] then false
    else if opts[|opts| - 1].Retained? then opts[|opts| - 1].retained
    else LastRetained(opts[..|opts| - 1])
  }

  ghost predicate IsLastLevel(opts: seq<CallOption>, i: nat) {
    i < |opts| && opts[i].QOSLevel? && forall j :: i < j < |opts| ==> !opts[j].QOSLevel?
  }

  /** The composed level is that of the last QOSLevel option, wherever Retained options stand, or zero without one. */
  lemma {:induction false} LastQosIsTheLastLevel(opts: seq<CallOption>, i: nat)
    ensures (forall j :: 0 <= j < |opts| ==> !opts[j].QOSLevel?) ==> LastQos(opts) == 0
    ensures IsLastLevel(opts, i) ==> opts[i] == QOSLevel(LastQos(opts))
  {
    if opts != [] {
      LastQosIsTheLastLevel(opts[..|opts| - 1], i);
    }
  }

  ghost predicate IsLastRetained(opts: seq<CallOption>, i: nat) {
    i < |opts| && opts[i].Retained? && forall j :: i < j < |opts| ==> !opts[j].Retained?
  }

  /** The same for the retained flag, wherever QOSLevel options stand. */
  lemma {:induction false} LastRetainedIsTheLastFlag(opts: seq<CallOption>, i: nat)
    ensures (forall j :: 0 <= j < |opts| ==> !opts[j].Retained?) ==> !LastRetained(opts)
    ensures IsLastRetained(opts, i) ==> opts[i] == Retained(LastRetained(opts))
  {
    if opts != [] {
      LastRetainedIsTheLastFlag(opts[..|opts| - 1], i);
    }
  }

  /** composeOptions: options of one kind overwrite each other and leave the other kind alone. */
  method ComposeOptions(opts: seq<CallOption>) returns (res: Composed)
    ensures res.qos == LastQos(opts) && res.retained == LastRetained(opts)
  {
    res := Composed(0, false);
    for i := 0 to |opts|
      invariant res.qos == LastQos(opts[..i]) && res.retained == LastRetained(opts[..i])
    {
      assert opts[..i + 1][..i] == opts[..i];
      match opts[i]
      case QOSLevel(level) => res := res.(qos := level);
      case Retained(retained) => res := res.(retained := retained);
    }
    assert opts[..|opts|] == opts;
  }

  datatype SubscriptionMeta = SubscriptionMeta(topic: string, options: seq<CallOption>)

  /** readSubscriptionMeta reports, for every registered topic, the QoS that ComposeOptions sends. */
  method ReadSubscriptionMeta(subscriptions: map<string, SubscriptionMeta>) returns (subs: map<string, Byte>)
    ensures subs.Keys == subscriptions.Keys
    ensures forall t :: t in subscriptions ==> subs[t] == LastQos(subscriptions[t].options)
  {
    subs := map[];
    var remaining := subscriptions.Keys;
    while remaining != {}
      invariant remaining <= subscriptions.Keys
      invariant subs.Keys == subscriptions.Keys - remaining
      invariant forall t :: t in subs ==> subs[t] == LastQos(subscriptions[t].options)
    {
      var topic :| topic in remaining;
      var options := subscriptions[topic].options;
      ghost var before := subs;
      for i := 0 to |options|
        invariant before.Keys <= subs.Keys <= before.Keys + {topic}
        invariant forall t :: t in before ==> subs[t] == before[t]
        invariant LastQos(options[..i]) == if topic in subs then subs[topic] else 0
      {
        assert options[..i + 1][..i] == options[..i];
        if options[i].QOSLevel? {
          subs := subs[topic := options[i].level];
        }
      }
      assert options[..|options|] == options;
      if topic !in subs {
        subs := subs[topic := 0];
      }
      remaining := remaining - {topic};
    }
  }

  // The topics that satisfy the predicate.
  ghost function Matching(topics: map<string, Byte>, p: string -> bool): map<string, Byte> {
    map t | t in topics && p(t) :: topics[t]
  }

  ghost function NotMatching(topics: map<string, Byte>, p: string -> bool): map<string, Byte> {
    map t | t in topics && !p(t) :: topics[t]
  }

  /** filterSubs: the two parts are disjoint, follow the predicate and together make up the input. */
  method FilterSubs(topicsWithQos: map<string, Byte>, predicate_: string -> bool)
    returns (sharedSubs: map<string, Byte>, normalSubs: map<string, Byte>)
    ensures sharedSubs.Keys !! normalSubs.Keys
    ensures sharedSubs + normalSubs == topicsWithQos
    ensures sharedSubs == Matching(topicsWithQos, predicate_)
    ensures normalSubs == NotMatching(topicsWithQos, predicate_)
  {
    sharedSubs, normalSubs := map[], map[];
    var remaining := topicsWithQos.Keys;
    while remaining != {}
      invariant remaining <= topicsWithQos.Keys
      invariant sharedSubs.Keys + normalSubs.Keys == topicsWithQos.Keys - remaining
      invariant forall t :: t in sharedSubs ==> predicate_(t) && sharedSubs[t] == topicsWithQos[t]
      invariant forall t :: t in normalSubs ==> !predicate_(t) && normalSubs[t] == topicsWithQos[t]
    {
      var topic :| topic in remaining;
      if predicate_(topic) {
        sharedSubs := sharedSubs[topic := topicsWithQos[topic]];
      } else {
        normalSubs := normalSubs[topic := topicsWithQos[topic]];
      }
      remaining := remaining - {topic};
    }
  }
}
