/** What travels over the bus: messages, their envelopes, deliveries handed
    to a worker, and what a worker does with one delivery. */
module Messaging {
  import opened Values

  /** A domain message. Its content is opaque to the adapter, except that a
      failed job is reported as a `JobFailed` event wrapping the message. */
  datatype Message = Payload(name: string) | JobFailed(failedMessage: Message)

  datatype Envelope = Envelope(message: Message, metadata: Metadata)

  /** One AMQP delivery: the envelope decoded from its body and the tag the
      channel acknowledges it by. */
  datatype Delivery = Delivery(tag: int, envelope: Envelope)

  /** `$messageBus->publish($message, $channel, $metadata)`. */
  datatype Publish = Publish(message: Message, channel: Value, metadata: Metadata)

  /** Why a worker gave up on a delivery without acknowledging it. */
  datatype Failure =
    | UnknownJob(job: Value)    // the job named in the metadata has no definition
    | Raised(message: string)   // an exception escaping the message bus

  /** What handling one delivery did: an acknowledgement of the given tag
      after at most one publish, or an exception that left it unacknowledged. */
  datatype Outcome =
    | Acked(tag: int, published: Option<Publish>)
    | Unacked(failure: Failure)

  /** A failed `Assertion` from the assertion library. */
  datatype AssertionFailure = BlankValue(value: Value) | NotAString(value: Value)

  /** The consumer a worker's `run` registers. Both workers pass a prefetch
      count of one and, in php-amqplib's `basic_consume` order (queue,
      consumer tag, `no_local`, `no_ack`, `exclusive`, `nowait`), set only
      `no_local`: acknowledgements are manual, so a delivery left unacked is
      redelivered by the broker. */
  datatype Consumer = Consumer(queue: Value, prefetchCount: nat, noLocal: bool, noAck: bool, exclusive: bool)

  /** The guarded start of both workers' `run`: the queue must not be blank. */
  function StartConsuming(queue: Value): (r: Result<Consumer, AssertionFailure>)
    ensures r.Ok? <==> !IsBlank(queue)
    ensures r.Ok? ==> r.value.queue == queue && r.value.prefetchCount == 1
    ensures r.Ok? ==> r.value.noLocal && !r.value.noAck && !r.value.exclusive
    ensures r.Err? ==> r.error == BlankValue(queue)
  {
    if IsBlank(queue) then Err(BlankValue(queue)) else Ok(Consumer(queue, 1, true, false, false))
  }

  /** A worker starts on exactly the queue values that are present and are
      neither null, `false`, nor whitespace only. */
  lemma StartConsumingAccepts(settings: Metadata)
    ensures StartConsuming(Lookup(settings, "queue")).Ok? <==>
      && "queue" in settings
      && settings["queue"] != Null
      && settings["queue"] != Bool(false)
      && !(settings["queue"].Str? && forall i :: 0 <= i < |settings["queue"].s| ==> IsTrimSpace(settings["queue"].s[i]))
  {
    BlankCharacterisation(Lookup(settings, "queue"));
  }
}
