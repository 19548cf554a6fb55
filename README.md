# ESPThing: topic registry, dispatch and interval-gated outputs

A Dafny model of the `ESPThing` runtime of ESP Boilerplate OS, as declared and
documented in `lib/ESPThing.h`. The runtime lets firmware register

* **inputs**: a callback run whenever a message arrives on a topic, and
* **outputs**: a producer run from the main loop at most once every `interval`
  milliseconds, whose message (if it sets one) is published to a topic.

Each can be registered in the thing-scoped ("internal") namespace, where the topic
is relative and the configured topic prefix is prepended, or in the global
namespace, where the topic is an absolute path used verbatim.

Files and modules:

* `wrappers.dfy` (`Wrappers`): `Option`, the producer's message slot.
* `topics.dfy` (`Topics`): topic resolution and its properties.
* `bindings.dfy` (`Bindings`): `Input`, `Output`, `Message`, and callbacks and
  producers as opaque tags `Callback` and `Producer`.
* `dispatch.dfy` (`Dispatch`): the callbacks an incoming message runs against one
  input list (`Matching`), and its lemmas.
* `scheduler.dfy` (`Scheduler`): when an output is due, how a pass stamps outputs
  and what it publishes. The pass loop itself is the method `Pass`.
* `esp_thing.dfy` (`Thing`): the registry as a value (`Registry`, `Subscribed`,
  `Published`) and the class `ESPThing`. It holds the four binding lists as `seq`
  fields that its methods append to and rewrite. It also holds a ghost `outbox` of
  the messages handed to the transport.

The bodies in the `.cpp` file are not part of this model. Only the declarations and
doc comments of the header are. So the model does only what those promise, plus the
following choices:

* A registration resolves its topic once and stores the resolved topic in the
  binding. `mqtt_callback(pub, inputs)` gets only a list and no namespace flag, so
  dispatch compares the message topic with the stored topic for string equality.
* The output lists that `mqtt_publishLoop` works on are not declared in the header.
  They are modelled as the fields `thingOutputs` and `outputs`.
* The clock (`millis()`) is the `nat` argument `now`; an output is due when
  `now - lastRun >= interval`, computed on unbounded integers.
* What a producer writes into its `String *msg` slot is passed in as one
  `Option<string>` per output (`produced[k]`). `None` means it left the slot unset.
* Every run of a producer stamps its output with `now`, whether or not the producer
  set a message. A policy where a failed publish leaves `last_run` unchanged is not
  modelled.
* The class keeps a ghost `clock`, the time of its latest output pass. Its invariant
  `Valid()` says that no output is stamped later than `clock`, and a pass may not be
  run at a time before `clock`. This is how the model states that the millisecond
  timer does not go back.
* `Loop` dispatches the messages from the thing connection first and then those from
  the global connection. It then runs one pass over the thing outputs and one over
  the global outputs. The header fixes none of this order; the model chooses it.
* A handler run is recorded as the callback together with the message it is given.

## Model

| member | source | states |
|---|---|---|
| `Topics.Resolve` | lib/ESPThing.h:52-86 | an internal topic starts with the prefix and ends with the relative topic, and is longer than it by exactly the prefix length; a global topic is returned unchanged |
| `Topics.ThingTopicInjective` | lib/ESPThing.h:56-64 | two relative topics resolve to the same thing topic exactly when they are equal |
| `Topics.GlobalTopicVerbatim` | lib/ESPThing.h:74-82 | a global topic does not depend on the configured prefix |
| `Bindings.NewOutput` | lib/ESPThing.h:33-37 | the constructor keeps the given topic, producer and interval, and initialises last_run to 0 |
| `Bindings.NewOutputDefaults` | lib/ESPThing.h:24-38 | a new Output has last_run 0; its interval is 0 when the third argument is omitted, else the given one |
| `Dispatch.Matching` | lib/ESPThing.h:12-14 | a message runs at most one callback per input in the list |
| `Dispatch.MatchingMembership` | lib/ESPThing.h:107 | a callback is run for a message exactly when some input in the list carries it and has the message's topic |
| `Dispatch.MatchingEmpty` | lib/ESPThing.h:12-14 | a message runs no callback exactly when no input in the list has its topic |
| `Dispatch.MatchingSplit` | lib/ESPThing.h:104-107 | each input contributes its callback at its own position, so inputs sharing a topic are all run, once each, in registration order |
| `Dispatch.MatchingAppend` | lib/ESPThing.h:104-107 | dispatch over a concatenated list is the concatenation of the two dispatches |
| `Dispatch.DispatchAll` | lib/ESPThing.h:106-107 | every handler run in a batch of deliveries gives a callback one of the arrived messages, and that callback belongs to an input on the message's topic |
| `Dispatch.DispatchAllComplete` | lib/ESPThing.h:12-14 | every input on an arrived message's topic has its callback run with that message |
| `Dispatch.DispatchAllAppend` | lib/ESPThing.h:106-107 | delivering two batches of messages gives the handler runs of the first batch, followed by those of the second |
| `Scheduler.Pass` | lib/ESPThing.h:108 | the pass loop returns the list with every due output stamped, the producers it ran and the messages it collected, each as specified by AfterPass, Ran and Emitted |
| `Scheduler.Due` | lib/ESPThing.h:27-28 | an output is due exactly when last_run + interval <= now; it is never due before its last run, and with interval 0 it is due on every pass not before its last run |
| `Scheduler.Advance` | lib/ESPThing.h:37 | a due output is stamped with now; an output that is not due is left exactly as it was; the topic, producer and interval never change |
| `Scheduler.AfterPass` | lib/ESPThing.h:37-108 | a pass keeps the length of the list and each output's topic, producer and interval; a due output gets last_run = now and any other keeps its last_run |
| `Scheduler.Emitted` | lib/ESPThing.h:24-27 | a pass publishes at most one message per output |
| `Scheduler.Ran` | lib/ESPThing.h:24-28 | a pass runs at most one producer per output |
| `Scheduler.NextDueOneIntervalLater` | lib/ESPThing.h:66 | after running at now, an output is next due exactly when interval milliseconds have passed since now |
| `Scheduler.AfterPassNotInFuture` | lib/ESPThing.h:37 | a pass at now never stamps an output later than now |
| `Scheduler.EmittedSound` | lib/ESPThing.h:25-27 | every published message comes from a due output whose producer set exactly that message, and is sent to that output's topic |
| `Scheduler.EmittedComplete` | lib/ESPThing.h:25-27 | every due output whose producer set a message publishes that message to its topic |
| `Scheduler.UnsetSlotsPublishNothing` | lib/ESPThing.h:25-27 | when no producer sets its message, a pass publishes nothing |
| `Scheduler.RanMembership` | lib/ESPThing.h:35 | a producer is run in a pass exactly when some due output carries it |
| `Scheduler.ZeroIntervalsRunEveryPass` | lib/ESPThing.h:27-28 | when every output has interval 0 and was not stamped after now, every producer runs, once, in list order |
| `Scheduler.ZeroIntervalRuns` | lib/ESPThing.h:27-28 | an output with interval 0 that was not stamped after now has its producer run in the pass |
| `Scheduler.RanAppend` | lib/ESPThing.h:108 | a pass runs the producers in list order: those of an earlier part of the list before those of a later part |
| `Scheduler.EmittedAppend` | lib/ESPThing.h:108 | a pass publishes in list order: the messages of an earlier part of the list before those of a later part |
| `Thing.Subscribed` | lib/ESPThing.h:104-109 | registering an input appends one binding on the resolved topic to its namespace's list; the other lists are unchanged |
| `Thing.Published` | lib/ESPThing.h:108-110 | registering an output appends one fresh output (last_run 0) on the resolved topic to its namespace's list; the other lists are unchanged |
| `Thing.SubscribeThenDispatch` | lib/ESPThing.h:104-109 | after a subscription, a message on the resolved topic also runs the new callback, last; other messages and the other namespace's dispatch are unaffected |
| `Thing.RegistrationAppendOnly` | lib/ESPThing.h:104-105 | registration keeps every earlier binding of every list in place |
| `Thing.PublishedFirstRun` | lib/ESPThing.h:28-37 | a freshly registered output is first due once now has reached its interval |
| `Thing.ESPThing.constructor` | lib/ESPThing.h:42 | a new ESPThing has empty binding lists, has published nothing, and its clock is 0 |
| `Thing.ESPThing.MqttSubscribe` | lib/ESPThing.h:109 | the registry becomes Subscribed of the old one; nothing is published |
| `Thing.ESPThing.MqttPublish` | lib/ESPThing.h:110 | the registry becomes Published of the old one; nothing is published |
| `Thing.ESPThing.ThingSubscribe` | lib/ESPThing.h:52-59 | an internal subscription: the relative topic gets the prefix |
| `Thing.ESPThing.ThingPublish` | lib/ESPThing.h:61-68 | an internal output with interval defaulting to 0 |
| `Thing.ESPThing.Subscribe` | lib/ESPThing.h:70-77 | a global subscription on the absolute topic |
| `Thing.ESPThing.Publish` | lib/ESPThing.h:79-86 | a global output on the absolute topic, interval defaulting to 0 |
| `Thing.ESPThing.AddInput` | lib/ESPThing.h:49-50 | leaves the registry as ThingSubscribe(i.topic, i.callback) does |
| `Thing.ESPThing.AddOutput` | lib/ESPThing.h:46-47 | leaves the registry as ThingPublish(o.topic, o.loop, o.interval) does, with last_run reset to 0 |
| `Thing.ESPThing.MqttCallback` | lib/ESPThing.h:107 | runs exactly the callbacks Matching gives for the message topic, in list order, and changes nothing |
| `Thing.ESPThing.MqttPublishLoop` | lib/ESPThing.h:108 | at a time not before the latest pass: rewrites one namespace's output list to AfterPass, appends Emitted to the outbox, runs Ran and advances the clock to now; the other lists are unchanged |
| `Thing.ESPThing.Poll` | lib/ESPThing.h:106-107 | each arrived message is dispatched in turn; the handler runs, each with its message, are DispatchAll of the arrivals |
| `Thing.ESPThing.Loop` | lib/ESPThing.h:44 | one tick at a time not before the latest pass: dispatch on both connections, then one pass over the thing outputs and one over the global outputs; every interval-0 output has its producer run; the input lists are unchanged |

## Left out

- Default constructors `Input()` and `Output()`: they leave the callback pointer (and the interval) uninitialised, which has no meaning in the model.
- `wifiConnected`, `mqttClientConnected`, `mqttThingClientConnected`, `singleMqttClient`: live reads of transport state, not modelled.
- Single-client mode: with one shared connection, how an arriving message is split between the thing and the global inputs is not modelled. `Loop` takes separate arrival lists for the two namespaces. A message given to both lists runs every thing callback before any global one.
- `setup`, `log`, `server_loop`, `handleRoot`, `handleNotFound` and the destructor: I/O (WiFi bring-up, logging, the status web page).
- The transport (`PubSubClient`, `MQTT::Publish`): the subscribe request a registration presumably sends, framing, QoS and reconnects are not modelled. Publishing appends to the ghost `outbox`; which client a message goes out on is not recorded.
- What callbacks and producers do: they are opaque tags that the model records as run.
- Thing.ESPThing.MqttPublishLoop: rewrites the list through a local copy that is written back once, instead of element by element in the caller's vector; nothing in the model can observe the difference.
- Scheduler.Due: millisecond-timer wraparound and C++ `int` overflow of `interval` and `last_run` are not modelled (unbounded `nat`); a negative interval cannot be expressed.
- A failed publish that leaves `last_run` alone: not established by the header, so every run stamps its output.
