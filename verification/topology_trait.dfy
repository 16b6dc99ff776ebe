/** The trait variant of the migration helpers. It spells the derived names
    with suffix constants instead of literals but sends the same requests;
    this module writes its plans out on their own and proves them equal to
    the abstract class's. */
module TopologyTrait {
  import opened Values
  import opened Topology

  const WaitingSuffixConst := ".waiting"
  const UnroutedSuffixConst := ".unrouted"
  const RepubSuffixConst := ".repub"

  /** The trait's `createMigrationList`. */
  function TraitCreateMigrationList(ex: string): (plan: seq<AdminCmd>)
    ensures plan == CreateMigrationList(ex)
  {
    [DeclareExchange(ex, ExchangeBody(Topic, false, true, false, true))]
  }

  /** The trait's `createMessagePipeline`. */
  function TraitCreateMessagePipeline(ex: string, repubInterval: int): (plan: seq<AdminCmd>)
    ensures plan == CreateMessagePipeline(ex, repubInterval)
  {
    var waitExchange := ex + WaitingSuffixConst;
    var waitQueue := waitExchange;
    var unroutedExchange := ex + UnroutedSuffixConst;
    var unroutedQueue := unroutedExchange;
    var repubExchange := ex + RepubSuffixConst;
    var repubQueue := repubExchange;
    [
      DeclareExchange(unroutedExchange, ExchangeBody(Fanout, false, true, false, true)),
      DeclareExchange(repubExchange, ExchangeBody(Fanout, false, true, false, true)),
      DeclareExchange(waitExchange, ExchangeBody(Fanout, false, true, false)),
      DeclareExchange(ex, ExchangeBody(Topic, false, true, false, false, false,
                                       map["alternate-exchange" := Str(unroutedExchange)])),
      DeclareQueue(waitQueue, QueueBody(false, true, false, false, false,
                                        map["x-dead-letter-exchange" := Str(ex)])),
      BindQueue(waitQueue, waitExchange, BindingBody()),
      DeclareQueue(unroutedQueue, QueueBody(false, true, false, false, false,
                                            map["x-dead-letter-exchange" := Str(repubExchange),
                                                "x-message-ttl" := Int(repubInterval)])),
      BindQueue(unroutedQueue, unroutedExchange, BindingBody()),
      DeclareQueue(repubQueue, QueueBody(false, true, false, false)),
      BindQueue(repubQueue, repubExchange, BindingBody()),
      CreateShovel(repubExchange, ex, repubQueue)
    ]
  }

  /** The trait's `deleteMessagePipeline`. */
  function TraitDeleteMessagePipeline(ex: string): (plan: seq<AdminCmd>)
    ensures plan == DeleteMessagePipeline(ex)
  {
    var waitExchange := ex + WaitingSuffixConst;
    var waitQueue := waitExchange;
    var unroutedExchange := ex + UnroutedSuffixConst;
    var unroutedQueue := unroutedExchange;
    var repubExchange := ex + RepubSuffixConst;
    var repubQueue := repubExchange;
    [
      DeleteShovel(repubExchange),
      DeleteExchange(waitExchange),
      DeleteExchange(unroutedExchange),
      DeleteExchange(repubExchange),
      DeleteExchange(ex),
      DeleteQueue(waitQueue),
      DeleteQueue(unroutedQueue),
      DeleteQueue(repubQueue)
    ]
  }

  /** The suffix constants spell the class's names, so the trait's derived
      names are the class's and are pairwise distinct. */
  lemma TraitNamesDistinct(ex: string)
    ensures ex + WaitingSuffixConst == WaitingName(ex)
    ensures ex + UnroutedSuffixConst == UnroutedName(ex)
    ensures ex + RepubSuffixConst == RepubName(ex)
    ensures |{ex, ex + WaitingSuffixConst, ex + UnroutedSuffixConst, ex + RepubSuffixConst}| == 4
  {
    PipelineNamesDistinct(ex);
  }

  /** The trait's provisioning wires the same pipeline: exchange flags and
      alternate route, durable queues with the dead-letter and TTL
      arguments, same-name bindings, and the shovel from `<ex>.repub` back
      to `ex`. Running it twice changes nothing. */
  lemma TraitProvisionWiresPipeline(ex: string, repubInterval: int, s: Broker)
    ensures var p := TraitCreateMessagePipeline(ex, repubInterval);
      && PipelineWired(ex, repubInterval, Run(p, s))
      && DeclaredBeforeUse(p)
      && Run(p, Run(p, s)) == Run(p, s)
  {
    ProvisionWiresPipeline(ex, repubInterval, s);
    PipelinePlanFootprint(ex, repubInterval);
    ProvisionIdempotent(ex, repubInterval, s);
  }

  /** The trait's teardown removes the shovel first, through the URI its
      provisioning used, then exactly the pipeline's exchanges and queues,
      and undoes a provisioning of an untouched broker. */
  lemma TraitTeardown(vhost: string, ex: string, repubInterval: int, s: Broker)
    ensures var c, d := TraitCreateMessagePipeline(ex, repubInterval), TraitDeleteMessagePipeline(ex);
      && d[0].DeleteShovel?
      && RequestOf(vhost, d[0]).uri == RequestOf(vhost, Last(c)).uri
      && DeletedExchanges(d) == PipelineExchanges(ex)
      && DeletedQueues(d) == PipelineQueues(ex)
      && (Untouched(ex, s) ==> Run(d, Run(c, s)) == s)
  {
    ShovelRequestsMatch(vhost, ex, repubInterval);
    TeardownFootprint(ex);
    if Untouched(ex, s) {
      TeardownUndoesProvision(ex, repubInterval, s);
    }
  }

  /** The trait's `createMigrationList` declares a durable, non-auto-delete,
      internal topic exchange. */
  lemma TraitMigrationListProvisioned(ex: string, s: Broker)
    ensures var t := Run(TraitCreateMigrationList(ex), s);
      && ex in t.exchanges
      && t.exchanges[ex].kind == Topic && Persistent(t.exchanges[ex]) && t.exchanges[ex].internal
  {
    MigrationListProvisioned(ex, s);
  }
}
