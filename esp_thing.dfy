/**
 * The ESPThing runtime: a registry of thing-scoped and global inputs and outputs,
 * dispatch of incoming messages, and the interval-gated output pass.
 */
module Thing {
  import opened Wrappers
  import opened Bindings
  import Topics
  import Dispatch
  import Scheduler

  /** The four binding lists, each in registration order. */
  datatype Registry = Registry(thingInputs: seq<Input>, inputs: seq<Input>,
                               thingOutputs: seq<Output>, outputs: seq<Output>)
  {
    function Inputs(internal: bool): seq<Input> {
      if internal then thingInputs else inputs
    }

    function Outputs(internal: bool): seq<Output> {
      if internal then thingOutputs else outputs
    }

    function WithOutputs(internal: bool, outs: seq<Output>): Registry {
      if internal then this.(thingOutputs := outs) else this.(outputs := outs)
    }
  }

  /**
   * The registry after `mqtt_subscribe(t, c, internal)`: one binding on the resolved
   * topic is appended to the list of its namespace; nothing else changes.
   */
  function Subscribed(r: Registry, prefix: string, t: string, c: Callback, internal: bool): (r': Registry)
    ensures r'.Inputs(internal) == r.Inputs(internal) + [Input(Topics.Resolve(prefix, t, internal), c)]
    ensures r'.Inputs(!internal) == r.Inputs(!internal)
    ensures r'.thingOutputs == r.thingOutputs && r'.outputs == r.outputs
  {
    var x := Input(Topics.Resolve(prefix, t, internal), c);
    if internal then r.(thingInputs := r.thingInputs + [x]) else r.(inputs := r.inputs + [x])
  }

  /**
   * The registry after `mqtt_publish(t, l, i, internal)`: one fresh output on the
   * resolved topic is appended to the list of its namespace; nothing else changes.
   */
  function Published(r: Registry, prefix: string, t: string, l: Producer, i: nat, internal: bool): (r': Registry)
    ensures r'.Outputs(internal) == r.Outputs(internal) + [NewOutput(Topics.Resolve(prefix, t, internal), l, i)]
    ensures r'.Outputs(!internal) == r.Outputs(!internal)
    ensures r'.thingInputs == r.thingInputs && r'.inputs == r.inputs
  {
    var o := NewOutput(Topics.Resolve(prefix, t, internal), l, i);
    if internal then r.(thingOutputs := r.thingOutputs + [o]) else r.(outputs := r.outputs + [o])
  }

  /**
   * After subscribing, a message on the resolved topic also runs the new callback,
   * after the earlier ones; any other message, and any message dispatched against
   * the other namespace, runs exactly what it ran before.
   */
  lemma SubscribeThenDispatch(r: Registry, prefix: string, t: string, c: Callback, internal: bool, topic: string)
    ensures Dispatch.Matching(Subscribed(r, prefix, t, c, internal).Inputs(internal), topic)
            == Dispatch.Matching(r.Inputs(internal), topic)
               + (if topic == Topics.Resolve(prefix, t, internal) then [c] else [])
    ensures Dispatch.Matching(Subscribed(r, prefix, t, c, internal).Inputs(!internal), topic)
            == Dispatch.Matching(r.Inputs(!internal), topic)
  {
  }

  /** Registrations only append: every earlier binding keeps its place. */
  lemma RegistrationAppendOnly(r: Registry, prefix: string, t: string, c: Callback, l: Producer, i: nat, internal: bool)
    ensures r.thingInputs <= Subscribed(r, prefix, t, c, internal).thingInputs
    ensures r.inputs <= Subscribed(r, prefix, t, c, internal).inputs
    ensures r.thingOutputs <= Published(r, prefix, t, l, i, internal).thingOutputs
    ensures r.outputs <= Published(r, prefix, t, l, i, internal).outputs
  {
  }

  /** A freshly published output first runs once its interval has passed since time 0. */
  lemma PublishedFirstRun(r: Registry, prefix: string, t: string, l: Producer, i: nat, internal: bool, now: nat)
    ensures var outs := Published(r, prefix, t, l, i, internal).Outputs(internal);
            Scheduler.Due(outs[|outs| - 1], now) <==> now >= i
  {
  }

  class ESPThing {
    /** The configured topic prefix that thing-scoped topics are relative to. */
    const prefix: string
    var thingInputs: seq<Input>
    var inputs: seq<Input>
    var thingOutputs: seq<Output>
    var outputs: seq<Output>
    /** The messages handed to the transport so far, in order. */
    ghost var outbox: seq<Message>
    /** The time of the latest output pass; 0 before the first. */
    ghost var clock: nat

    /** No output is stamped later than the latest pass. */
    ghost predicate Valid()
      reads this
    {
      (forall k :: 0 <= k < |thingOutputs| ==> thingOutputs[k].lastRun <= clock) &&
      (forall k :: 0 <= k < |outputs| ==> outputs[k].lastRun <= clock)
    }

    function State(): Registry
      reads this
    {
      Registry(thingInputs, inputs, thingOutputs, outputs)
    }

    constructor (prefix: string)
      ensures this.prefix == prefix
      ensures State() == Registry([], [], [], []) && outbox == []
      ensures Valid() && clock == 0
    {
      this.prefix := prefix;
      thingInputs, inputs := [], [];
      thingOutputs, outputs := [], [];
      outbox := [];
      clock := 0;
    }

    method MqttSubscribe(t: string, c: Callback, internal: bool)
      requires Valid()
      modifies this
      ensures State() == Subscribed(old(State()), prefix, t, c, internal)
      ensures outbox == old(outbox)
      ensures Valid() && clock == old(clock)
    {
      var x := Input(Topics.Resolve(prefix, t, internal), c);
      if internal {
        thingInputs := thingInputs + [x];
      } else {
        inputs := inputs + [x];
      }
    }

    method MqttPublish(t: string, l: Producer, i: nat, internal: bool)
      requires Valid()
      modifies this
      ensures State() == Published(old(State()), prefix, t, l, i, internal)
      ensures outbox == old(outbox)
      ensures Valid() && clock == old(clock)
    {
      var o := NewOutput(Topics.Resolve(prefix, t, internal), l, i);
      if internal {
        thingOutputs := thingOutputs + [o];
      } else {
        outputs := outputs + [o];
      }
    }

    method ThingSubscribe(t: string, c: Callback)
      requires Valid()
      modifies this
      ensures State() == Subscribed(old(State()), prefix, t, c, true)
      ensures outbox == old(outbox)
      ensures Valid() && clock == old(clock)
    {
      MqttSubscribe(t, c, true);
    }

    method ThingPublish(t: string, l: Producer, i: nat := 0)
      requires Valid()
      modifies this
      ensures State() == Published(old(State()), prefix, t, l, i, true)
      ensures outbox == old(outbox)
      ensures Valid() && clock == old(clock)
    {
      MqttPublish(t, l, i, true);
    }

    method Subscribe(t: string, c: Callback)
      requires Valid()
      modifies this
      ensures State() == Subscribed(old(State()), prefix, t, c, false)
      ensures outbox == old(outbox)
      ensures Valid() && clock == old(clock)
    {
      MqttSubscribe(t, c, false);
    }

    method Publish(t: string, l: Producer, i: nat := 0)
      requires Valid()
      modifies this
      ensures State() == Published(old(State()), prefix, t, l, i, false)
      ensures outbox == old(outbox)
      ensures Valid() && clock == old(clock)
    {
      MqttPublish(t, l, i, false);
    }

    /** Same new state as `ThingSubscribe(x.topic, x.callback)`. */
    method AddInput(x: Input)
      requires Valid()
      modifies this
      ensures State() == Subscribed(old(State()), prefix, x.topic, x.callback, true)
      ensures outbox == old(outbox)
      ensures Valid() && clock == old(clock)
    {
      ThingSubscribe(x.topic, x.callback);
    }

    /** Same new state as `ThingPublish(o.topic, o.loop, o.interval)`; `o.lastRun` is not carried over. */
    method AddOutput(o: Output)
      requires Valid()
      modifies this
      ensures State() == Published(old(State()), prefix, o.topic, o.loop, o.interval, true)
      ensures outbox == old(outbox)
      ensures Valid() && clock == old(clock)
    {
      ThingPublish(o.topic, o.loop, o.interval);
    }

    /** Runs, in order, the callback of every input in `list` whose topic is the message's. */
    method MqttCallback(pub: Message, list: seq<Input>) returns (invoked: seq<Callback>)
      ensures invoked == Dispatch.Matching(list, pub.topic)
    {
      invoked := [];
      for k := 0 to |list|
        invariant invoked == Dispatch.Matching(list[..k], pub.topic)
      {
        if list[k].topic == pub.topic {
          invoked := invoked + [list[k].callback];
        }
        assert list[..k + 1][..k] == list[..k];
      }
      assert list[..|list|] == list;
    }

    /**
     * One pass over the outputs of one namespace at time `now`. `produced[k]` is what
     * the producer of output `k` leaves in its message slot when it is run.
     */
    method MqttPublishLoop(internal: bool, now: nat, produced: seq<Option<string>>) returns (ran: seq<Producer>)
      requires Valid() && clock <= now
      requires |produced| == |State().Outputs(internal)|
      modifies this
      ensures Valid() && clock == now
      ensures State() == old(State()).WithOutputs(internal, Scheduler.AfterPass(old(State().Outputs(internal)), now))
      ensures outbox == old(outbox) + Scheduler.Emitted(old(State().Outputs(internal)), now, produced)
      ensures ran == Scheduler.Ran(old(State().Outputs(internal)), now)
    {
      var outs, r, sent := Scheduler.Pass(if internal then thingOutputs else outputs, now, produced);
      ran := r;
      if internal {
        thingOutputs := outs;
      } else {
        outputs := outs;
      }
      outbox := outbox + sent;
      clock := now;
    }

    /**
     * The transport's poll: each buffered message, in arrival order, is handed to
     * `MqttCallback` against `list`; each run is recorded with the message it was given.
     */
    method Poll(arrivals: seq<Message>, list: seq<Input>) returns (invoked: seq<Invocation>)
      ensures invoked == Dispatch.DispatchAll(list, arrivals)
    {
      invoked := [];
      for k := 0 to |arrivals|
        invariant invoked == Dispatch.DispatchAll(list, arrivals[..k])
      {
        var got := MqttCallback(arrivals[k], list);
        invoked := invoked + Dispatch.Deliver(got, arrivals[k]);
        Dispatch.DispatchAllLast(list, arrivals[..k + 1]);
        assert arrivals[..k + 1][..k] == arrivals[..k];
      }
      assert arrivals[..|arrivals|] == arrivals;
    }

    /**
     * One tick: the messages that arrived on the thing connection are dispatched
     * against the thing inputs and those on the global connection against the global
     * inputs; then the thing outputs and the global outputs each get one pass.
     */
    method Loop(now: nat, thingArrivals: seq<Message>, arrivals: seq<Message>,
                thingProduced: seq<Option<string>>, produced: seq<Option<string>>)
      returns (invoked: seq<Invocation>, ran: seq<Producer>)
      requires Valid() && clock <= now
      requires |thingProduced| == |thingOutputs| && |produced| == |outputs|
      modifies this
      ensures Valid() && clock == now
      ensures forall k :: 0 <= k < |old(thingOutputs)| && old(thingOutputs)[k].interval == 0 ==>
                old(thingOutputs)[k].loop in ran
      ensures forall k :: 0 <= k < |old(outputs)| && old(outputs)[k].interval == 0 ==>
                old(outputs)[k].loop in ran
      ensures invoked == Dispatch.DispatchAll(old(thingInputs), thingArrivals)
                         + Dispatch.DispatchAll(old(inputs), arrivals)
      ensures State() == Registry(old(thingInputs), old(inputs),
                                  Scheduler.AfterPass(old(thingOutputs), now),
                                  Scheduler.AfterPass(old(outputs), now))
      ensures outbox == old(outbox) + Scheduler.Emitted(old(thingOutputs), now, thingProduced)
                                    + Scheduler.Emitted(old(outputs), now, produced)
      ensures ran == Scheduler.Ran(old(thingOutputs), now) + Scheduler.Ran(old(outputs), now)
    {
      var fromThing := Poll(thingArrivals, thingInputs);
      var fromGlobal := Poll(arrivals, inputs);
      invoked := fromThing + fromGlobal;
      ghost var thingBefore, globalBefore, boxBefore := thingOutputs, outputs, outbox;
      var ranThing := MqttPublishLoop(true, now, thingProduced);
      assert outputs == globalBefore && thingInputs == old(thingInputs) && inputs == old(inputs);
      assert outbox == boxBefore + Scheduler.Emitted(thingBefore, now, thingProduced);
      var ranGlobal := MqttPublishLoop(false, now, produced);
      assert thingOutputs == Scheduler.AfterPass(thingBefore, now);
      ran := ranThing + ranGlobal;
      forall k | 0 <= k < |thingBefore| && thingBefore[k].interval == 0
        ensures thingBefore[k].loop in ran
      {
        Scheduler.ZeroIntervalRuns(thingBefore, now, k);
      }
      forall k | 0 <= k < |globalBefore| && globalBefore[k].interval == 0
        ensures globalBefore[k].loop in ran
      {
        Scheduler.ZeroIntervalRuns(globalBefore, now, k);
      }
    }
  }
}
