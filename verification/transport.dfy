/** The transport a message-bus channel subscription sends through: it
    publishes an envelope to the exchange its metadata names, under the
    routing key its metadata names, as a persistent AMQP message. */
module Transport {
  import opened Values
  import opened Messaging

  /** AMQP's persistent delivery mode. */
  const DeliveryModePersistent := 2

  /** A transport instance: the key it is registered under. */
  datatype AmqpTransport = AmqpTransport(key: string)

  /** The published message: the envelope as payload, and its properties. */
  datatype AmqpMessage = AmqpMessage(payload: Envelope, deliveryMode: int)

  /** `$channel->basic_publish($message, $exchange, $routingKey)`. */
  datatype BasicPublish = BasicPublish(message: AmqpMessage, exchange: Value, routingKey: string)

  /** `getKey`. */
  function GetKey(t: AmqpTransport): (k: string)
    ensures k == t.key
  {
    t.key
  }

  /** A transport hands back the key it was built with. */
  lemma GetKeyRoundTrip(k: string)
    ensures GetKey(AmqpTransport(k)) == k
  {
  }

  /** The routing key a send resolves: `_routing_key` when present, then
      `_aggregate_alias`, then the empty string. */
  function RoutingKeyOf(md: Metadata): (v: Value)
    ensures "_routing_key" in md ==> v == md["_routing_key"]
    ensures "_routing_key" !in md && "_aggregate_alias" in md ==> v == md["_aggregate_alias"]
    ensures "_routing_key" !in md && "_aggregate_alias" !in md ==> v == Str("")
  {
    Get(md, "_routing_key", Get(md, "_aggregate_alias", Str("")))
  }

  /** `send`: the publish it performs, or the assertion that stopped it. A
      successful send is the source's `true`; it never returns `false`. */
  function Send(t: AmqpTransport, env: Envelope): (r: Result<BasicPublish, AssertionFailure>)
    ensures r.Ok? <==> !IsBlank(Lookup(env.metadata, "_exchange")) && RoutingKeyOf(env.metadata).Str?
    ensures IsBlank(Lookup(env.metadata, "_exchange")) ==> r == Err(BlankValue(Lookup(env.metadata, "_exchange")))
    ensures !IsBlank(Lookup(env.metadata, "_exchange")) && !RoutingKeyOf(env.metadata).Str? ==>
      r == Err(NotAString(RoutingKeyOf(env.metadata)))
    ensures r.Ok? ==>
      && r.value.exchange == env.metadata["_exchange"]
      && r.value.routingKey == RoutingKeyOf(env.metadata).s
      && r.value.message == AmqpMessage(env, DeliveryModePersistent)
  {
    var exchange := Lookup(env.metadata, "_exchange");
    var routingKey := RoutingKeyOf(env.metadata);
    if IsBlank(exchange) then Err(BlankValue(exchange))
    else if !routingKey.Str? then Err(NotAString(routingKey))
    else Ok(BasicPublish(AmqpMessage(env, DeliveryModePersistent), exchange, routingKey.s))
  }

  /** A send goes out exactly when `_exchange` is present and is neither
      null, `false`, nor whitespace, and the resolved routing key is a
      string; without any routing metadata it publishes under `""`. */
  lemma SendAccepts(t: AmqpTransport, env: Envelope)
    ensures var md := env.metadata;
      Send(t, env).Ok? <==>
        && "_exchange" in md
        && md["_exchange"] != Null
        && md["_exchange"] != Bool(false)
        && !(md["_exchange"].Str? && forall i :: 0 <= i < |md["_exchange"].s| ==> IsTrimSpace(md["_exchange"].s[i]))
        && RoutingKeyOf(md).Str?
    ensures var md := env.metadata;
      Send(t, env).Ok? && "_routing_key" !in md && "_aggregate_alias" !in md ==> Send(t, env).value.routingKey == ""
  {
    BlankCharacterisation(Lookup(env.metadata, "_exchange"));
  }
}
