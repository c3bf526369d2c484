/** What one connection remembers of the calls made on it. */
module Subscriptions {
  import opened CallOptions
  import opened Errors
  import opened Optional

  // A call on a connection, in the order the broker answered: a Subscribe that went through subscribeOnlyOnce, any
  // other Subscribe or SubscribeMultiple, an Unsubscribe, or the loss of the connection.
  datatype Call =
    | SharedSubscribe(topic: string, qos: Byte, ok: bool)
    | PlainSubscribe(topics: map<string, Byte>, ok: bool)
    | Unsubscribe(dropped: seq<string>, ok: bool)
    | ConnectionLost

  predicate Acknowledges(call: Call, topic: string) {
    call.SharedSubscribe? && call.topic == topic && call.ok
  }

  predicate Removes(call: Call, topic: string) {
    call.ConnectionLost? || (call.Unsubscribe? && call.ok && topic in call.dropped)
  }

  // subsCalled as a fold of the calls.
  function Remembered(calls: seq<Call>): set<string> {
    if calls == [] then {}
    else
      var before, call := Remembered(calls[..|calls| - 1]), calls[|calls| - 1];
      match call
      case SharedSubscribe(topic, _, ok) => if ok then before + {topic} else before
      case PlainSubscribe(_, _) => before
      case Unsubscribe(dropped, ok) => if ok then before - (set t | t in dropped) else before
      case ConnectionLost => {}
  }

  // No shared Subscribe is attempted for a topic that is remembered.
  ghost predicate NeverTwice(calls: seq<Call>) {
    calls == [] || (
      var before, call := calls[..|calls| - 1], calls[|calls| - 1];
      NeverTwice(before) && (call.SharedSubscribe? ==> call.topic !in Remembered(before)))
  }

  // The topic was acknowledged, and not removed since.
  ghost predicate Holds(calls: seq<Call>, topic: string) {
    exists i :: 0 <= i < |calls| && Acknowledges(calls[i], topic) &&
      forall k :: i < k < |calls| ==> !Removes(calls[k], topic)
  }

  lemma HoldsAfter(calls: seq<Call>, call: Call, topic: string)
    ensures Holds(calls + [call], topic) <==>
      Acknowledges(call, topic) || (Holds(calls, topic) && !Removes(call, topic))
  {
    var longer := calls + [call];
    if Holds(calls, topic) && !Removes(call, topic) {
      var i :| 0 <= i < |calls| && Acknowledges(calls[i], topic) &&
        forall k :: i < k < |calls| ==> !Removes(calls[k], topic);
      assert longer[i] == calls[i];
    }
    if Acknowledges(call, topic) {
      assert longer[|calls|] == call;
    }
    if Holds(longer, topic) && !Acknowledges(call, topic) {
      var i :| 0 <= i < |longer| && Acknowledges(longer[i], topic) &&
        forall k :: i < k < |longer| ==> !Removes(longer[k], topic);
      assert longer[|calls|] == call && !Removes(longer[|calls|], topic);
      assert forall k :: 0 <= k < |calls| ==> longer[k] == calls[k];
      assert Acknowledges(calls[i], topic);
    }
  }

  /** What is remembered is exactly what the broker acknowledged and no later unsubscribe or loss removed. */
  lemma {:induction false} RememberedMeansHeld(calls: seq<Call>, topic: string)
    ensures topic in Remembered(calls) <==> Holds(calls, topic)
  {
    if calls != [] {
      var before, call := calls[..|calls| - 1], calls[|calls| - 1];
      RememberedMeansHeld(before, topic);
      HoldsAfter(before, call, topic);
      assert calls == before + [call];
    }
  }

  lemma {:induction false} NeverTwiceAt(calls: seq<Call>, j: nat)
    requires NeverTwice(calls) && j < |calls| && calls[j].SharedSubscribe?
    ensures calls[j].topic !in Remembered(calls[..j])
  {
    if j < |calls| - 1 {
      NeverTwiceAt(calls[..|calls| - 1], j);
      assert calls[..|calls| - 1][..j] == calls[..j];
    }
  }

  /** Between two shared Subscribe calls for a topic, the first of them acknowledged, the topic was removed. */
  lemma AcknowledgedOnceBetweenRemovals(calls: seq<Call>, topic: string, i: nat, j: nat)
    requires NeverTwice(calls) && i < j < |calls|
    requires Acknowledges(calls[i], topic) && calls[j].SharedSubscribe? && calls[j].topic == topic
    ensures exists k :: i < k < j && Removes(calls[k], topic)
  {
    NeverTwiceAt(calls, j);
    RememberedMeansHeld(calls[..j], topic);
    assert calls[..j][i] == calls[i];
    var k :| i < k < |calls[..j]| && Removes(calls[..j][k], topic);
    assert calls[k] == calls[..j][k];
  }

  // The broker's answer to a call: nothing is known of it, except that no error is a multierror without elements.
  type Answer = answer: Option<Err> | answer != Some(Multi([])) witness None

  /** The state of one connection. Its methods run under its own lock, from the look at subsCalled to the end of the
      broker call, so any interleaving of goroutines is a sequence of these calls. */
  class InternalState {
    const client: nat
    var subsCalled: set<string>
    ghost var calls: seq<Call>

    ghost predicate Valid()
      reads this
    {
      subsCalled == Remembered(calls) && NeverTwice(calls)
    }

    constructor (client: nat)
      ensures Valid() && this.client == client && subsCalled == {} && calls == []
    {
      this.client := client;
      subsCalled := {};
      calls := [];
    }

    ghost method Log(call: Call)
      requires NeverTwice(calls) && (call.SharedSubscribe? ==> call.topic !in Remembered(calls))
      modifies this`calls
      ensures calls == old(calls) + [call] && NeverTwice(calls)
      ensures calls[..|calls| - 1] == old(calls)
    {
      calls := calls + [call];
      assert calls[..|calls| - 1] == old(calls);
    }

    /** subscribeOnlyOnce: a topic that is held costs no call, and otherwise the broker's answer is the result;
        afterwards the topic is held exactly if the result is nil. */
    method SubscribeOnlyOnce(topic: string, qos: Byte, answer: Answer) returns (err: Answer)
      requires Valid()
      modifies this`calls, this`subsCalled
      ensures Valid()
      ensures err == if topic in old(subsCalled) then None else answer
      ensures err.None? <==> topic in subsCalled
      ensures topic in old(subsCalled) ==> subsCalled == old(subsCalled) && calls == old(calls)
      ensures topic !in old(subsCalled) ==>
        && subsCalled == old(subsCalled) + (if answer.None? then {topic} else {})
        && calls == old(calls) + [SharedSubscribe(topic, qos, answer.None?)]
    {
      if topic in subsCalled {
        return None;
      }
      err := answer;
      Log(SharedSubscribe(topic, qos, answer.None?));
      if err.None? {
        subsCalled := subsCalled + {topic};
      }
    }

    /** removeSubsFromState: the topics are forgotten exactly if the broker acknowledged. */
    method RemoveSubs(topics: seq<string>, answer: Answer) returns (err: Answer)
      requires Valid()
      modifies this`calls, this`subsCalled
      ensures Valid() && err == answer
      ensures calls == old(calls) + [Unsubscribe(topics, answer.None?)]
      ensures subsCalled == if err.None? then old(subsCalled) - (set t | t in topics) else old(subsCalled)
    {
      err := answer;
      Log(Unsubscribe(topics, answer.None?));
      if err.None? {
        subsCalled := subsCalled - (set t | t in topics);
      }
    }

    /** What removeStoredSubsCalled does to the connection that was lost. */
    method Forget()
      requires Valid()
      modifies this`calls, this`subsCalled
      ensures Valid() && subsCalled == {} && calls == old(calls) + [ConnectionLost]
    {
      Log(ConnectionLost);
      subsCalled := {};
    }

    /** A Subscribe or SubscribeMultiple that subsCalled knows nothing about. */
    method SubscribePlainly(topics: map<string, Byte>, answer: Answer) returns (err: Answer)
      requires Valid()
      modifies this`calls
      ensures Valid() && err == answer
      ensures subsCalled == old(subsCalled) && calls == old(calls) + [PlainSubscribe(topics, answer.None?)]
    {
      err := answer;
      Log(PlainSubscribe(topics, answer.None?));
    }
  }

  // Any answer of the broker.
  method BrokerAnswer() returns (answer: Answer)
  {
    answer := *;
  }

  // What each connection answers, as a function of its number.
  method BrokerAnswers() returns (answers: nat -> Answer)
  {
    answers := *;
  }

  /** One more result in a fan-out whose accumulated error is nil or a multierror with elements. */
  lemma AccumulateIsNilIff(prev: Option<Err>, curr: Option<Err>)
    requires prev.Some? ==> prev.value.Multi? && prev.value.errs != []
    requires curr != Some(Multi([]))
    ensures var next := AccumulateErrors(prev, curr);
      (next.None? <==> prev.None? && curr.None?) && (next.Some? ==> next.value.Multi? && next.value.errs != [])
  {
  }
}
