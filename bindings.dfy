/**
 * The values the runtime keeps: input and output bindings and the messages that
 * travel over the transport. Callbacks are opaque tags; the model records which
 * tag was invoked, never what the callback does.
 */
module Bindings {

  /** A message handler, `void (*)(const MQTT::Publish&)`, identified by a tag. */
  datatype Callback = Callback(id: nat)

  /** A message producer, `void (*)(String *msg)`, identified by a tag. */
  datatype Producer = Producer(id: nat)

  /** An MQTT message: the topic it is on and its payload. */
  datatype Message = Message(topic: string, payload: string)

  /** One run of a handler: the callback and the message it is given. */
  datatype Invocation = Invocation(callback: Callback, pub: Message)

  /** An Input: the callback to run when a message arrives on `topic`. */
  datatype Input = Input(topic: string, callback: Callback)

  /**
   * An Output: the producer `loop` run at most once every `interval` milliseconds;
   * `lastRun` is the time it was last run.
   */
  datatype Output = Output(topic: string, loop: Producer, interval: nat, lastRun: nat)

  /** The constructor `Output(t, l, i = 0)`, with `last_run` initialised to 0. */
  function NewOutput(t: string, l: Producer, i: nat := 0): (o: Output)
    ensures o.topic == t && o.loop == l && o.interval == i
    ensures o.lastRun == 0
  {
    Output(t, l, i, 0)
  }

  /** Omitting the interval gives 0, and a new output has never run. */
  lemma NewOutputDefaults(t: string, l: Producer, i: nat)
    ensures NewOutput(t, l).interval == 0 && NewOutput(t, l).lastRun == 0
    ensures NewOutput(t, l, i).interval == i && NewOutput(t, l, i).lastRun == 0
    ensures NewOutput(t, l, i).topic == t && NewOutput(t, l, i).loop == l
  {
  }
}
