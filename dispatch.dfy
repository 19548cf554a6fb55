/**
 * Dispatch of an incoming message against one list of inputs: every input whose
 * topic equals the message topic has its callback run, in registration order.
 */
module Dispatch {
  import opened Bindings

  /** The callback an input contributes for a message on `topic`. */
  function Hit(x: Input, topic: string): seq<Callback> {
    if x.topic == topic then [x.callback] else []
  }

  /** The callbacks run, in order, for a message on `topic`. */
  function Matching(inputs: seq<Input>, topic: string): (r: seq<Callback>)
    ensures |r| <= |inputs|
    decreases |inputs|
  {
    if inputs == [] then []
    else
      var n := |inputs| - 1;
      Matching(inputs[..n], topic) + Hit(inputs[n], topic)
  }

  /** Each callback of `cs` run with the message `pub`. */
  function Deliver(cs: seq<Callback>, pub: Message): (r: seq<Invocation>)
    ensures |r| == |cs|
    ensures forall j :: 0 <= j < |r| ==> r[j].callback == cs[j] && r[j].pub == pub
  {
    seq(|cs|, j requires 0 <= j < |cs| => Invocation(cs[j], pub))
  }

  /**
   * The handler runs, in order, for a sequence of messages delivered one by one:
   * every run gives a callback one of the messages, on a topic that callback's input has.
   */
  function DispatchAll(inputs: seq<Input>, arrivals: seq<Message>): (r: seq<Invocation>)
    ensures forall j :: 0 <= j < |r| ==>
              r[j].pub in arrivals && r[j].callback in Matching(inputs, r[j].pub.topic)
    decreases |arrivals|
  {
    if arrivals == [] then []
    else
      var n := |arrivals| - 1;
      DispatchAll(inputs, arrivals[..n]) + Deliver(Matching(inputs, arrivals[n].topic), arrivals[n])
  }

  /** Dispatch over a concatenated list is the concatenation of the dispatches. */
  lemma {:induction false} MatchingAppend(a: seq<Input>, b: seq<Input>, topic: string)
    ensures Matching(a + b, topic) == Matching(a, topic) + Matching(b, topic)
    decreases |b|
  {
    if b == [] {
      assert a + b == a;
    } else {
      var n := |b| - 1;
      assert (a + b)[..|a| + n] == a + b[..n];
      MatchingAppend(a, b[..n], topic);
    }
  }

  /**
   * Every binding contributes its own callback at its own position: duplicates
   * on one topic are all run, each once, in registration order.
   */
  lemma MatchingSplit(a: seq<Input>, x: Input, b: seq<Input>, topic: string)
    ensures Matching(a + [x] + b, topic) == Matching(a, topic) + Hit(x, topic) + Matching(b, topic)
  {
    MatchingAppend(a + [x], b, topic);
    assert (a + [x])[..|a|] == a;
  }

  /** A callback is run exactly when some input in the list has it and the message topic. */
  lemma {:induction false} MatchingMembership(inputs: seq<Input>, topic: string, c: Callback)
    ensures c in Matching(inputs, topic) <==>
            exists k :: 0 <= k < |inputs| && inputs[k].topic == topic && inputs[k].callback == c
    decreases |inputs|
  {
    if inputs != [] {
      var n := |inputs| - 1;
      MatchingMembership(inputs[..n], topic, c);
      if c in Matching(inputs, topic) && c !in Matching(inputs[..n], topic) {
        assert inputs[n].topic == topic && inputs[n].callback == c;
      }
      if exists k :: 0 <= k < |inputs| && inputs[k].topic == topic && inputs[k].callback == c {
        var k :| 0 <= k < |inputs| && inputs[k].topic == topic && inputs[k].callback == c;
        if k < n {
          assert inputs[..n][k] == inputs[k];
        }
      }
    }
  }

  /** A message on a topic no input has runs no callback, and only such a message. */
  lemma {:induction false} MatchingEmpty(inputs: seq<Input>, topic: string)
    ensures Matching(inputs, topic) == [] <==> forall k :: 0 <= k < |inputs| ==> inputs[k].topic != topic
    decreases |inputs|
  {
    if inputs != [] {
      var n := |inputs| - 1;
      MatchingEmpty(inputs[..n], topic);
      assert forall k :: 0 <= k < n ==> inputs[..n][k] == inputs[k];
    }
  }

  /** Delivering messages one after another concatenates their dispatches. */
  lemma {:induction false} DispatchAllAppend(inputs: seq<Input>, a: seq<Message>, b: seq<Message>)
    ensures DispatchAll(inputs, a + b) == DispatchAll(inputs, a) + DispatchAll(inputs, b)
    decreases |b|
  {
    if b == [] {
      assert a + b == a;
    } else {
      var n := |b| - 1;
      var ab := a + b;
      var last := Deliver(Matching(inputs, b[n].topic), b[n]);
      assert ab[..|ab| - 1] == a + b[..n];
      assert ab[|ab| - 1] == b[n];
      calc {
        DispatchAll(inputs, ab);
        == { DispatchAllLast(inputs, ab); }
        DispatchAll(inputs, a + b[..n]) + last;
        == { DispatchAllAppend(inputs, a, b[..n]); }
        DispatchAll(inputs, a) + (DispatchAll(inputs, b[..n]) + last);
        == { DispatchAllLast(inputs, b); }
        DispatchAll(inputs, a) + DispatchAll(inputs, b);
      }
    }
  }

  /** The last message's runs come after those of the messages before it. */
  lemma DispatchAllLast(inputs: seq<Input>, arrivals: seq<Message>)
    requires arrivals != []
    ensures DispatchAll(inputs, arrivals)
            == DispatchAll(inputs, arrivals[..|arrivals| - 1])
               + Deliver(Matching(inputs, arrivals[|arrivals| - 1].topic), arrivals[|arrivals| - 1])
  {
  }

  /** Every input on an arrived message's topic has its callback run with that message. */
  lemma {:induction false} DispatchAllComplete(inputs: seq<Input>, arrivals: seq<Message>, i: nat, k: nat)
    requires i < |arrivals| && k < |inputs| && inputs[k].topic == arrivals[i].topic
    ensures Invocation(inputs[k].callback, arrivals[i]) in DispatchAll(inputs, arrivals)
    decreases |arrivals|
  {
    var n := |arrivals| - 1;
    if i < n {
      assert arrivals[..n][i] == arrivals[i];
      DispatchAllComplete(inputs, arrivals[..n], i, k);
    } else {
      var cs := Matching(inputs, arrivals[n].topic);
      MatchingMembership(inputs, arrivals[n].topic, inputs[k].callback);
      var j :| 0 <= j < |cs| && cs[j] == inputs[k].callback;
      assert Deliver(cs, arrivals[n])[j] == Invocation(inputs[k].callback, arrivals[i]);
    }
  }
}
