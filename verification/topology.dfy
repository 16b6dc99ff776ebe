/** The retry-pipeline topology of the abstract migration class: every call
    the class makes to the broker's management API is an `AdminCmd`, a plan
    is a sequence of them, and `Run` replays a plan against an abstract broker
    store. The vhost only enters the request URIs. */
module Topology {
  import opened Values

  /** `x-message-ttl` of the unrouted queue when the caller gives none. */
  const DefaultRepubInterval := 30000

  const WaitingSuffix := ".waiting"
  const UnroutedSuffix := ".unrouted"
  const RepubSuffix := ".repub"
  const ShovelSuffix := ".shovel"

  function WaitingName(ex: string): string { ex + WaitingSuffix }
  function UnroutedName(ex: string): string { ex + UnroutedSuffix }
  function RepubName(ex: string): string { ex + RepubSuffix }

  /** The name of the shovel parameter created for a source exchange. */
  function ShovelName(source: string): string { source + ShovelSuffix }

  /** The four exchanges of a pipeline; the last three double as queue names. */
  function PipelineExchanges(ex: string): set<string> {
    {ex, WaitingName(ex), UnroutedName(ex), RepubName(ex)}
  }

  function PipelineQueues(ex: string): set<string> {
    {WaitingName(ex), UnroutedName(ex), RepubName(ex)}
  }

  datatype ExchangeType = Topic | Fanout

  /** The `arguments` array of a declaration or binding. */
  type Arguments = map<string, Value>

  /** Body of an exchange declaration; defaults are those of `declareExchange`. */
  datatype ExchangeBody = ExchangeBody(
    kind: ExchangeType,
    passive: bool := false,
    durable: bool := false,
    autoDelete: bool := true,
    internal: bool := false,
    noWait: bool := false,
    arguments: Arguments := map[])

  /** Body of a queue declaration; defaults are those of `declareQueue`. */
  datatype QueueBody = QueueBody(
    passive: bool := false,
    durable: bool := false,
    exclusive: bool := false,
    autoDelete: bool := true,
    noWait: bool := false,
    arguments: Arguments := map[])

  /** Body of a binding; defaults are those of `bindQueue` and `bindExchange`. */
  datatype BindingBody = BindingBody(
    routingKey: string := "",
    noWait: bool := false,
    arguments: Arguments := map[])

  /** The `value` of a shovel parameter. */
  datatype ShovelValue = ShovelValue(
    srcUri: string,
    srcQueue: string,
    destUri: string,
    destExchange: string,
    addForwardHeaders: bool,
    ackMode: string,
    deleteAfter: string)

  /** The shovel value `createShovel` sends: a same-broker link from a queue
      to an exchange, acknowledging on confirm and never deleted. */
  function ShovelValueOf(dest: string, queue: string): (v: ShovelValue)
    ensures v.srcQueue == queue && v.destExchange == dest
    ensures v.srcUri == "amqp://" && v.destUri == "amqp://"
    ensures !v.addForwardHeaders && v.ackMode == "on-confirm" && v.deleteAfter == "never"
  {
    ShovelValue("amqp://", queue, "amqp://", dest, false, "on-confirm", "never")
  }

  /** One call to a protected helper of the class, with its arguments. */
  datatype AdminCmd =
    | DeclareExchange(name: string, exchangeBody: ExchangeBody)
    | BindExchange(source: string, dest: string, bindingBody: BindingBody)
    | DeleteExchange(name: string)
    | DeclareQueue(name: string, queueBody: QueueBody)
    | BindQueue(queue: string, exchange: string, bindingBody: BindingBody)
    | DeleteQueue(name: string)
    | CreateShovel(source: string, dest: string, queue: string)
    | DeleteShovel(source: string)
  {
    /** Declarations and bindings only: commands that add or overwrite. */
    predicate IsUpsert() {
      DeclareExchange? || BindExchange? || DeclareQueue? || BindQueue? || CreateShovel?
    }

    predicate IsDelete() {
      DeleteExchange? || DeleteQueue? || DeleteShovel?
    }
  }

  // ---------------------------------------------------------------------
  // The HTTP requests the helpers send
  // ---------------------------------------------------------------------

  datatype Verb = Put | Post | Delete

  datatype Body =
    | ExchangeDecl(exchange: ExchangeBody)
    | QueueDecl(queue: QueueBody)
    | BindingDecl(binding: BindingBody)
    | ShovelDecl(value: ShovelValue)

  datatype Request = Request(verb: Verb, uri: string, body: Option<Body>)

  function ExchangeUri(vhost: string, name: string): string {
    "/api/exchanges/" + vhost + "/" + name
  }

  function QueueUri(vhost: string, name: string): string {
    "/api/queues/" + vhost + "/" + name
  }

  function ExchangeBindingUri(vhost: string, source: string, dest: string): string {
    "/api/bindings/" + vhost + "/e/" + source + "/e/" + dest
  }

  function QueueBindingUri(vhost: string, exchange: string, queue: string): string {
    "/api/bindings/" + vhost + "/e/" + exchange + "/q/" + queue
  }

  function ShovelUri(vhost: string, source: string): string {
    "/api/parameters/shovel/" + vhost + "/" + ShovelName(source)
  }

  /** The request a command sends: declarations and the shovel are PUT to a
      name-keyed URI, bindings are POSTed, removals are DELETEs without body. */
  function RequestOf(vhost: string, c: AdminCmd): (r: Request)
    ensures r.verb == Put <==> c.DeclareExchange? || c.DeclareQueue? || c.CreateShovel?
    ensures r.verb == Post <==> c.BindExchange? || c.BindQueue?
    ensures r.verb == Delete <==> c.IsDelete()
    ensures r.body.None? <==> c.IsDelete()
  {
    match c
    case DeclareExchange(n, b) => Request(Put, ExchangeUri(vhost, n), Some(ExchangeDecl(b)))
    case BindExchange(s, d, b) => Request(Post, ExchangeBindingUri(vhost, s, d), Some(BindingDecl(b)))
    case DeleteExchange(n) => Request(Delete, ExchangeUri(vhost, n), None)
    case DeclareQueue(n, b) => Request(Put, QueueUri(vhost, n), Some(QueueDecl(b)))
    case BindQueue(q, e, b) => Request(Post, QueueBindingUri(vhost, e, q), Some(BindingDecl(b)))
    case DeleteQueue(n) => Request(Delete, QueueUri(vhost, n), None)
    case CreateShovel(s, d, q) => Request(Put, ShovelUri(vhost, s), Some(ShovelDecl(ShovelValueOf(d, q))))
    case DeleteShovel(s) => Request(Delete, ShovelUri(vhost, s), None)
  }

  // ---------------------------------------------------------------------
  // The plans
  // ---------------------------------------------------------------------

  /** `createMigrationList`: one durable, internal topic exchange. */
  function CreateMigrationList(ex: string): (plan: seq<AdminCmd>)
    ensures |plan| == 1 && plan[0].DeclareExchange? && plan[0].name == ex
    ensures DeclaredBeforeUse(plan) && forall i :: 0 <= i < |plan| ==> plan[i].IsUpsert()
  {
    var plan := [DeclareExchange(ex, ExchangeBody(Topic, false, true, false, true))];
    assert Init(plan) == [] && Last(plan) == plan[0];
    assert ExchangeRefs(plan[0]) == {} && QueueRefs(plan[0]) == {};
    assert DeclaredBeforeUse(Init(plan));
    plan
  }

  /** `createMessagePipeline`: the exchanges, queues, bindings and shovel of
      the retry pipeline of `ex`. */
  function CreateMessagePipeline(ex: string, repubInterval: int): (plan: seq<AdminCmd>)
    ensures forall i :: 0 <= i < |plan| ==> plan[i].IsUpsert()
  {
    PipelinePlan(ex, WaitingName(ex), UnroutedName(ex), RepubName(ex), repubInterval)
  }

  /** The body of `createMessagePipeline` once the derived names are bound:
      each queue takes the name of the exchange it is bound to. */
  function PipelinePlan(ex: string, waitExchange: string, unroutedExchange: string,
                        repubExchange: string, repubInterval: int): (plan: seq<AdminCmd>)
    ensures forall i :: 0 <= i < |plan| ==> plan[i].IsUpsert()
  {
    var waitQueue := waitExchange;
    var unroutedQueue := unroutedExchange;
    var repubQueue := repubExchange;
    var plan := [
      DeclareExchange(unroutedExchange, ExchangeBody(Fanout, false, true, false, true)),
      DeclareExchange(repubExchange, ExchangeBody(Fanout, false, true, false, true)),
      DeclareExchange(waitExchange, ExchangeBody(Fanout, false, true, false)),
      DeclareExchange(ex, ExchangeBody(Topic, false, true, false, false, false,
                                       map["alternate-exchange" := Str(unroutedExchange)])),
      DeclareQueue(waitQueue, QueueBody(false, true, false, false, false,
                                        map["x-dead-letter-exchange" := Str(ex)])),
      BindQueue(waitQueue, waitExchange, BindingBody()),
      DeclareQueue(unroutedQueue, QueueBody(false, true, false, false, false,
                                            map["x-dead-letter-exchange" := Str(repubExchange),
                                                "x-message-ttl" := Int(repubInterval)])),
      BindQueue(unroutedQueue, unroutedExchange, BindingBody()),
      DeclareQueue(repubQueue, QueueBody(false, true, false, false)),
      BindQueue(repubQueue, repubExchange, BindingBody()),
      CreateShovel(repubExchange, ex, repubQueue)
    ];
    plan
  }

  /** `deleteMessagePipeline`: the shovel first, then the exchanges, then the
      queues. */
  function DeleteMessagePipeline(ex: string): (plan: seq<AdminCmd>)
    ensures |plan| > 0 && plan[0] == DeleteShovel(RepubName(ex))
    ensures forall i :: 1 <= i < |plan| ==> plan[i].DeleteExchange? || plan[i].DeleteQueue?
  {
    TeardownPlan(ex, WaitingName(ex), UnroutedName(ex), RepubName(ex))
  }

  /** The body of `deleteMessagePipeline` once the derived names are bound. */
  function TeardownPlan(ex: string, waitExchange: string, unroutedExchange: string,
                        repubExchange: string): (plan: seq<AdminCmd>)
    ensures |plan| > 0 && plan[0] == DeleteShovel(repubExchange)
    ensures forall i :: 1 <= i < |plan| ==> plan[i].DeleteExchange? || plan[i].DeleteQueue?
  {
    var waitQueue := waitExchange;
    var unroutedQueue := unroutedExchange;
    var repubQueue := repubExchange;
    var plan := [
      DeleteShovel(repubExchange),
      DeleteExchange(waitExchange),
      DeleteExchange(unroutedExchange),
      DeleteExchange(repubExchange),
      DeleteExchange(ex),
      DeleteQueue(waitQueue),
      DeleteQueue(unroutedQueue),
      DeleteQueue(repubQueue)
    ];
    assert plan[0].DeleteShovel? && plan[4].DeleteExchange? && plan[1].DeleteExchange?;
    assert plan[2].DeleteExchange? && plan[3].DeleteExchange?;
    assert plan[5].DeleteQueue? && plan[6].DeleteQueue? && plan[7].DeleteQueue?;
    plan
  }

  // ---------------------------------------------------------------------
  // What a plan declares, references and removes
  // ---------------------------------------------------------------------

  /** All commands but the last. */
  function Init(plan: seq<AdminCmd>): seq<AdminCmd>
    requires |plan| > 0
  {
    plan[..|plan| - 1]
  }

  function Last(plan: seq<AdminCmd>): AdminCmd
    requires |plan| > 0
  {
    plan[|plan| - 1]
  }

  function DeclaredExchanges(plan: seq<AdminCmd>): set<string>
    decreases |plan|
  {
    if plan == [] then {}
    else DeclaredExchanges(Init(plan)) + (if Last(plan).DeclareExchange? then {Last(plan).name} else {})
  }

  function DeclaredQueues(plan: seq<AdminCmd>): set<string>
    decreases |plan|
  {
    if plan == [] then {}
    else DeclaredQueues(Init(plan)) + (if Last(plan).DeclareQueue? then {Last(plan).name} else {})
  }

  /** Source exchanges of the shovels a plan creates. */
  function CreatedShovels(plan: seq<AdminCmd>): set<string>
    decreases |plan|
  {
    if plan == [] then {}
    else CreatedShovels(Init(plan)) + (if Last(plan).CreateShovel? then {Last(plan).source} else {})
  }

  function DeletedExchanges(plan: seq<AdminCmd>): set<string>
    decreases |plan|
  {
    if plan == [] then {}
    else DeletedExchanges(Init(plan)) + (if Last(plan).DeleteExchange? then {Last(plan).name} else {})
  }

  function DeletedQueues(plan: seq<AdminCmd>): set<string>
    decreases |plan|
  {
    if plan == [] then {}
    else DeletedQueues(Init(plan)) + (if Last(plan).DeleteQueue? then {Last(plan).name} else {})
  }

  /** Shovel names a plan removes. */
  function DeletedShovels(plan: seq<AdminCmd>): set<string>
    decreases |plan|
  {
    if plan == [] then {}
    else DeletedShovels(Init(plan)) + (if Last(plan).DeleteShovel? then {ShovelName(Last(plan).source)} else {})
  }

  /** The exchange an argument array points at under `key`, if it names one. */
  function ArgumentTarget(args: Arguments, key: string): set<string> {
    if key in args && args[key].Str? then {args[key].s} else {}
  }

  /** Exchanges that must exist for a command to make sense: the ends of a
      binding, the shovel's destination, and the alternate or dead-letter
      exchange a declaration names. */
  function ExchangeRefs(c: AdminCmd): set<string> {
    match c
    case DeclareExchange(_, b) => ArgumentTarget(b.arguments, "alternate-exchange")
    case DeclareQueue(_, b) => ArgumentTarget(b.arguments, "x-dead-letter-exchange")
    case BindExchange(s, d, _) => {s, d}
    case BindQueue(_, e, _) => {e}
    case CreateShovel(_, d, _) => {d}
    case _ => {}
  }

  /** Queues that must exist for a command to make sense. */
  function QueueRefs(c: AdminCmd): set<string> {
    match c
    case BindQueue(q, _, _) => {q}
    case CreateShovel(_, _, q) => {q}
    case _ => {}
  }

  /** Every command only references exchanges and queues declared by an
      earlier command of the same plan. */
  predicate DeclaredBeforeUse(plan: seq<AdminCmd>)
    decreases |plan|
  {
    || plan == []
    || (&& DeclaredBeforeUse(Init(plan))
        && ExchangeRefs(Last(plan)) <= DeclaredExchanges(Init(plan))
        && QueueRefs(Last(plan)) <= DeclaredQueues(Init(plan)))
  }

  /** What a single command adds to the declared exchanges and queues. */
  function ExchangeAdded(c: AdminCmd): set<string> {
    if c.DeclareExchange? then {c.name} else {}
  }

  function QueueAdded(c: AdminCmd): set<string> {
    if c.DeclareQueue? then {c.name} else {}
  }

  function ShovelAdded(c: AdminCmd): set<string> {
    if c.CreateShovel? then {c.source} else {}
  }

  /** Extending a well-ordered prefix by one command whose references are
      already declared keeps it well ordered and grows the footprint by that
      command's own declaration. */
  lemma FootprintStep(p: seq<AdminCmd>, k: nat, xs: set<string>, qs: set<string>, ss: set<string>)
    requires k < |p|
    requires DeclaredBeforeUse(p[..k])
    requires DeclaredExchanges(p[..k]) == xs && DeclaredQueues(p[..k]) == qs && CreatedShovels(p[..k]) == ss
    requires ExchangeRefs(p[k]) <= xs && QueueRefs(p[k]) <= qs
    ensures DeclaredBeforeUse(p[..k + 1])
    ensures DeclaredExchanges(p[..k + 1]) == xs + ExchangeAdded(p[k])
    ensures DeclaredQueues(p[..k + 1]) == qs + QueueAdded(p[k])
    ensures CreatedShovels(p[..k + 1]) == ss + ShovelAdded(p[k])
  {
    assert Init(p[..k + 1]) == p[..k];
  }

  /** The commands of the pipeline plan, one by one, for a plan `p` with
      derived names `w`, `u`, `r`. */
  predicate PipelineShape(p: seq<AdminCmd>, ex: string, w: string, u: string, r: string, ttl: int) {
    && |p| == 11
    && p[0] == DeclareExchange(u, ExchangeBody(Fanout, false, true, false, true))
    && p[1] == DeclareExchange(r, ExchangeBody(Fanout, false, true, false, true))
    && p[2] == DeclareExchange(w, ExchangeBody(Fanout, false, true, false))
    && p[3] == DeclareExchange(ex, ExchangeBody(Topic, false, true, false, false, false,
                                                 map["alternate-exchange" := Str(u)]))
    && p[4] == DeclareQueue(w, QueueBody(false, true, false, false, false, map["x-dead-letter-exchange" := Str(ex)]))
    && p[5] == BindQueue(w, w, BindingBody())
    && p[6] == DeclareQueue(u, QueueBody(false, true, false, false, false,
                                         map["x-dead-letter-exchange" := Str(r), "x-message-ttl" := Int(ttl)]))
    && p[7] == BindQueue(u, u, BindingBody())
    && p[8] == DeclareQueue(r, QueueBody(false, true, false, false))
    && p[9] == BindQueue(r, r, BindingBody())
    && p[10] == CreateShovel(r, ex, r)
  }

  lemma PipelinePlanShape(ex: string, w: string, u: string, r: string, ttl: int)
    ensures PipelineShape(PipelinePlan(ex, w, u, r, ttl), ex, w, u, r, ttl)
  {
  }

  /** What each command of the pipeline plan references and declares. The
      plan is walked one command per lemma, and each command's own facts are
      stated apart from the plan, so that every proof obligation stays small. */
  lemma FootprintCmd0(u: string)
    ensures var c := DeclareExchange(u, ExchangeBody(Fanout, false, true, false, true));
      && ExchangeRefs(c) == {} && QueueRefs(c) == {}
      && ExchangeAdded(c) == {u} && QueueAdded(c) == {} && ShovelAdded(c) == {}
  {
  }

  lemma FootprintCmd1(r: string)
    ensures var c := DeclareExchange(r, ExchangeBody(Fanout, false, true, false, true));
      && ExchangeRefs(c) == {} && QueueRefs(c) == {}
      && ExchangeAdded(c) == {r} && QueueAdded(c) == {} && ShovelAdded(c) == {}
  {
  }

  lemma FootprintCmd2(w: string)
    ensures var c := DeclareExchange(w, ExchangeBody(Fanout, false, true, false));
      && ExchangeRefs(c) == {} && QueueRefs(c) == {}
      && ExchangeAdded(c) == {w} && QueueAdded(c) == {} && ShovelAdded(c) == {}
  {
  }

  lemma FootprintCmd3(ex: string, u: string)
    ensures var c := DeclareExchange(ex, ExchangeBody(Topic, false, true, false, false, false, map["alternate-exchange" := Str(u)]));
      && ExchangeRefs(c) == {u} && QueueRefs(c) == {}
      && ExchangeAdded(c) == {ex} && QueueAdded(c) == {} && ShovelAdded(c) == {}
  {
  }

  lemma FootprintCmd4(ex: string, w: string)
    ensures var c := DeclareQueue(w, QueueBody(false, true, false, false, false, map["x-dead-letter-exchange" := Str(ex)]));
      && ExchangeRefs(c) == {ex} && QueueRefs(c) == {}
      && ExchangeAdded(c) == {} && QueueAdded(c) == {w} && ShovelAdded(c) == {}
  {
  }

  lemma FootprintCmd5(w: string)
    ensures var c := BindQueue(w, w, BindingBody());
      && ExchangeRefs(c) == {w} && QueueRefs(c) == {w}
      && ExchangeAdded(c) == {} && QueueAdded(c) == {} && ShovelAdded(c) == {}
  {
  }

  lemma FootprintCmd6(u: string, r: string, ttl: int)
    ensures var c := DeclareQueue(u, QueueBody(false, true, false, false, false, map["x-dead-letter-exchange" := Str(r), "x-message-ttl" := Int(ttl)]));
      && ExchangeRefs(c) == {r} && QueueRefs(c) == {}
      && ExchangeAdded(c) == {} && QueueAdded(c) == {u} && ShovelAdded(c) == {}
  {
  }

  lemma FootprintCmd7(u: string)
    ensures var c := BindQueue(u, u, BindingBody());
      && ExchangeRefs(c) == {u} && QueueRefs(c) == {u}
      && ExchangeAdded(c) == {} && QueueAdded(c) == {} && ShovelAdded(c) == {}
  {
  }

  lemma FootprintCmd8(r: string)
    ensures var c := DeclareQueue(r, QueueBody(false, true, false, false));
      && ExchangeRefs(c) == {} && QueueRefs(c) == {}
      && ExchangeAdded(c) == {} && QueueAdded(c) == {r} && ShovelAdded(c) == {}
  {
  }

  lemma FootprintCmd9(r: string)
    ensures var c := BindQueue(r, r, BindingBody());
      && ExchangeRefs(c) == {r} && QueueRefs(c) == {r}
      && ExchangeAdded(c) == {} && QueueAdded(c) == {} && ShovelAdded(c) == {}
  {
  }

  lemma FootprintCmd10(ex: string, r: string)
    ensures var c := CreateShovel(r, ex, r);
      && ExchangeRefs(c) == {ex} && QueueRefs(c) == {r}
      && ExchangeAdded(c) == {} && QueueAdded(c) == {} && ShovelAdded(c) == {r}
  {
  }

  /** The pipeline plan's first 1 commands reference only what they declared before. */
  lemma PipelineFootprint1(p: seq<AdminCmd>, ex: string, w: string, u: string, r: string, ttl: int)
    requires PipelineShape(p, ex, w, u, r, ttl)
    ensures && DeclaredBeforeUse(p[..1])
            && DeclaredExchanges(p[..1]) == {u} && DeclaredQueues(p[..1]) == {} && CreatedShovels(p[..1]) == {}
  {
    assert p[..0] == [];
    FootprintCmd0(u);
    FootprintStep(p, 0, {}, {}, {});
  }

  /** The pipeline plan's first 2 commands reference only what they declared before. */
  lemma PipelineFootprint2(p: seq<AdminCmd>, ex: string, w: string, u: string, r: string, ttl: int)
    requires PipelineShape(p, ex, w, u, r, ttl)
    ensures && DeclaredBeforeUse(p[..2])
            && DeclaredExchanges(p[..2]) == {u, r} && DeclaredQueues(p[..2]) == {} && CreatedShovels(p[..2]) == {}
  {
    PipelineFootprint1(p, ex, w, u, r, ttl);
    FootprintCmd1(r);
    FootprintStep(p, 1, {u}, {}, {});
  }

  /** The pipeline plan's first 3 commands reference only what they declared before. */
  lemma PipelineFootprint3(p: seq<AdminCmd>, ex: string, w: string, u: string, r: string, ttl: int)
    requires PipelineShape(p, ex, w, u, r, ttl)
    ensures && DeclaredBeforeUse(p[..3])
            && DeclaredExchanges(p[..3]) == {u, r, w} && DeclaredQueues(p[..3]) == {} && CreatedShovels(p[..3]) == {}
  {
    PipelineFootprint2(p, ex, w, u, r, ttl);
    FootprintCmd2(w);
    FootprintStep(p, 2, {u, r}, {}, {});
  }

  /** The pipeline plan's first 4 commands reference only what they declared before. */
  lemma PipelineFootprint4(p: seq<AdminCmd>, ex: string, w: string, u: string, r: string, ttl: int)
    requires PipelineShape(p, ex, w, u, r, ttl)
    ensures && DeclaredBeforeUse(p[..4])
            && DeclaredExchanges(p[..4]) == {u, r, w, ex} && DeclaredQueues(p[..4]) == {} && CreatedShovels(p[..4]) == {}
  {
    PipelineFootprint3(p, ex, w, u, r, ttl);
    FootprintCmd3(ex, u);
    FootprintStep(p, 3, {u, r, w}, {}, {});
  }

  /** The pipeline plan's first 5 commands reference only what they declared before. */
  lemma PipelineFootprint5(p: seq<AdminCmd>, ex: string, w: string, u: string, r: string, ttl: int)
    requires PipelineShape(p, ex, w, u, r, ttl)
    ensures && DeclaredBeforeUse(p[..5])
            && DeclaredExchanges(p[..5]) == {u, r, w, ex} && DeclaredQueues(p[..5]) == {w} && CreatedShovels(p[..5]) == {}
  {
    PipelineFootprint4(p, ex, w, u, r, ttl);
    FootprintCmd4(ex, w);
    FootprintStep(p, 4, {u, r, w, ex}, {}, {});
  }

  /** The pipeline plan's first 6 commands reference only what they declared before. */
  lemma PipelineFootprint6(p: seq<AdminCmd>, ex: string, w: string, u: string, r: string, ttl: int)
    requires PipelineShape(p, ex, w, u, r, ttl)
    ensures && DeclaredBeforeUse(p[..6])
            && DeclaredExchanges(p[..6]) == {u, r, w, ex} && DeclaredQueues(p[..6]) == {w} && CreatedShovels(p[..6]) == {}
  {
    PipelineFootprint5(p, ex, w, u, r, ttl);
    FootprintCmd5(w);
    FootprintStep(p, 5, {u, r, w, ex}, {w}, {});
  }

  /** The pipeline plan's first 7 commands reference only what they declared before. */
  lemma PipelineFootprint7(p: seq<AdminCmd>, ex: string, w: string, u: string, r: string, ttl: int)
    requires PipelineShape(p, ex, w, u, r, ttl)
    ensures && DeclaredBeforeUse(p[..7])
            && DeclaredExchanges(p[..7]) == {u, r, w, ex} && DeclaredQueues(p[..7]) == {w, u} && CreatedShovels(p[..7]) == {}
  {
    PipelineFootprint6(p, ex, w, u, r, ttl);
    FootprintCmd6(u, r, ttl);
    FootprintStep(p, 6, {u, r, w, ex}, {w}, {});
  }

  /** The pipeline plan's first 8 commands reference only what they declared before. */
  lemma PipelineFootprint8(p: seq<AdminCmd>, ex: string, w: string, u: string, r: string, ttl: int)
    requires PipelineShape(p, ex, w, u, r, ttl)
    ensures && DeclaredBeforeUse(p[..8])
            && DeclaredExchanges(p[..8]) == {u, r, w, ex} && DeclaredQueues(p[..8]) == {w, u} && CreatedShovels(p[..8]) == {}
  {
    PipelineFootprint7(p, ex, w, u, r, ttl);
    FootprintCmd7(u);
    FootprintStep(p, 7, {u, r, w, ex}, {w, u}, {});
  }

  /** The pipeline plan's first 9 commands reference only what they declared before. */
  lemma PipelineFootprint9(p: seq<AdminCmd>, ex: string, w: string, u: string, r: string, ttl: int)
    requires PipelineShape(p, ex, w, u, r, ttl)
    ensures && DeclaredBeforeUse(p[..9])
            && DeclaredExchanges(p[..9]) == {u, r, w, ex} && DeclaredQueues(p[..9]) == {w, u, r} && CreatedShovels(p[..9]) == {}
  {
    PipelineFootprint8(p, ex, w, u, r, ttl);
    FootprintCmd8(r);
    FootprintStep(p, 8, {u, r, w, ex}, {w, u}, {});
  }

  /** The pipeline plan's first 10 commands reference only what they declared before. */
  lemma PipelineFootprint10(p: seq<AdminCmd>, ex: string, w: string, u: string, r: string, ttl: int)
    requires PipelineShape(p, ex, w, u, r, ttl)
    ensures && DeclaredBeforeUse(p[..10])
            && DeclaredExchanges(p[..10]) == {u, r, w, ex} && DeclaredQueues(p[..10]) == {w, u, r} && CreatedShovels(p[..10]) == {}
  {
    PipelineFootprint9(p, ex, w, u, r, ttl);
    FootprintCmd9(r);
    FootprintStep(p, 9, {u, r, w, ex}, {w, u, r}, {});
  }

  /** The whole pipeline plan references only what it declared before. */
  lemma PipelineShapeFootprint(p: seq<AdminCmd>, ex: string, w: string, u: string, r: string, ttl: int)
    requires PipelineShape(p, ex, w, u, r, ttl)
    ensures && DeclaredBeforeUse(p)
            && DeclaredExchanges(p) == {u, r, w, ex} && DeclaredQueues(p) == {w, u, r} && CreatedShovels(p) == {r}
  {
    PipelineFootprint10(p, ex, w, u, r, ttl);
    FootprintCmd10(ex, r);
    FootprintStep(p, 10, {u, r, w, ex}, {w, u, r}, {});
    assert p[..11] == p;
  }

  /** The pipeline plan references only what it has already declared, and it
      declares exactly the four exchanges and three queues of the pipeline and
      the one shovel out of the repub queue. */
  lemma PipelinePlanFootprint(ex: string, repubInterval: int)
    ensures DeclaredBeforeUse(CreateMessagePipeline(ex, repubInterval))
    ensures DeclaredExchanges(CreateMessagePipeline(ex, repubInterval)) == PipelineExchanges(ex)
    ensures DeclaredQueues(CreateMessagePipeline(ex, repubInterval)) == PipelineQueues(ex)
    ensures CreatedShovels(CreateMessagePipeline(ex, repubInterval)) == {RepubName(ex)}
  {
    var w, u, r := WaitingName(ex), UnroutedName(ex), RepubName(ex);
    GenericPlanFootprint(ex, w, u, r, repubInterval);
  }

  lemma GenericPlanFootprint(ex: string, w: string, u: string, r: string, ttl: int)
    ensures var p := PipelinePlan(ex, w, u, r, ttl);
      && DeclaredBeforeUse(p)
      && DeclaredExchanges(p) == {ex, w, u, r}
      && DeclaredQueues(p) == {w, u, r}
      && CreatedShovels(p) == {r}
  {
    PipelinePlanShape(ex, w, u, r, ttl);
    PipelineShapeFootprint(PipelinePlan(ex, w, u, r, ttl), ex, w, u, r, ttl);
  }

  /** What a single command removes. */
  function ExchangeRemoved(c: AdminCmd): set<string> {
    if c.DeleteExchange? then {c.name} else {}
  }

  function QueueRemoved(c: AdminCmd): set<string> {
    if c.DeleteQueue? then {c.name} else {}
  }

  function ShovelRemoved(c: AdminCmd): set<string> {
    if c.DeleteShovel? then {ShovelName(c.source)} else {}
  }

  lemma RemovalStep(p: seq<AdminCmd>, k: nat, xs: set<string>, qs: set<string>, ss: set<string>)
    requires k < |p|
    requires DeletedExchanges(p[..k]) == xs && DeletedQueues(p[..k]) == qs && DeletedShovels(p[..k]) == ss
    ensures DeletedExchanges(p[..k + 1]) == xs + ExchangeRemoved(p[k])
    ensures DeletedQueues(p[..k + 1]) == qs + QueueRemoved(p[k])
    ensures DeletedShovels(p[..k + 1]) == ss + ShovelRemoved(p[k])
  {
    assert Init(p[..k + 1]) == p[..k];
  }

  /** The teardown plan removes exactly what the pipeline plan declared. */
  lemma TeardownFootprint(ex: string)
    ensures DeletedExchanges(DeleteMessagePipeline(ex)) == PipelineExchanges(ex)
    ensures DeletedQueues(DeleteMessagePipeline(ex)) == PipelineQueues(ex)
    ensures DeletedShovels(DeleteMessagePipeline(ex)) == {ShovelName(RepubName(ex))}
  {
    GenericTeardownFootprint(ex, WaitingName(ex), UnroutedName(ex), RepubName(ex));
  }

  /** The commands of the teardown plan, one by one. */
  predicate TeardownShape(p: seq<AdminCmd>, ex: string, w: string, u: string, r: string) {
    && |p| == 8
    && p[0] == DeleteShovel(r)
    && p[1] == DeleteExchange(w) && p[2] == DeleteExchange(u)
    && p[3] == DeleteExchange(r) && p[4] == DeleteExchange(ex)
    && p[5] == DeleteQueue(w) && p[6] == DeleteQueue(u) && p[7] == DeleteQueue(r)
  }

  /** The shovel goes first, then the waiting, unrouted and repub exchanges. */
  lemma TeardownHeadFootprint(p: seq<AdminCmd>, ex: string, w: string, u: string, r: string)
    requires TeardownShape(p, ex, w, u, r)
    ensures && DeletedExchanges(p[..4]) == {w, u, r}
            && DeletedQueues(p[..4]) == {}
            && DeletedShovels(p[..4]) == {ShovelName(r)}
  {
    var sh := {ShovelName(r)};
    assert p[..0] == [];
    RemovalStep(p, 0, {}, {}, {});
    RemovalStep(p, 1, {}, {}, sh);
    RemovalStep(p, 2, {w}, {}, sh);
    RemovalStep(p, 3, {w, u}, {}, sh);
  }

  /** Then the primary exchange and the waiting queue. */
  lemma TeardownMiddleFootprint(p: seq<AdminCmd>, ex: string, w: string, u: string, r: string)
    requires TeardownShape(p, ex, w, u, r)
    ensures && DeletedExchanges(p[..6]) == {ex, w, u, r}
            && DeletedQueues(p[..6]) == {w}
            && DeletedShovels(p[..6]) == {ShovelName(r)}
  {
    var sh := {ShovelName(r)};
    TeardownHeadFootprint(p, ex, w, u, r);
    RemovalStep(p, 4, {w, u, r}, {}, sh);
    RemovalStep(p, 5, {w, u, r, ex}, {}, sh);
  }

  /** And last the unrouted and repub queues. */
  lemma TeardownShapeFootprint(p: seq<AdminCmd>, ex: string, w: string, u: string, r: string)
    requires TeardownShape(p, ex, w, u, r)
    ensures && DeletedExchanges(p) == {ex, w, u, r}
            && DeletedQueues(p) == {w, u, r}
            && DeletedShovels(p) == {ShovelName(r)}
  {
    var sh := {ShovelName(r)};
    TeardownMiddleFootprint(p, ex, w, u, r);
    RemovalStep(p, 6, {w, u, r, ex}, {w}, sh);
    RemovalStep(p, 7, {w, u, r, ex}, {w, u}, sh);
    assert p[..8] == p;
  }

  lemma GenericTeardownFootprint(ex: string, w: string, u: string, r: string)
    ensures var p := TeardownPlan(ex, w, u, r);
      && DeletedExchanges(p) == {ex, w, u, r}
      && DeletedQueues(p) == {w, u, r}
      && DeletedShovels(p) == {ShovelName(r)}
  {
    TeardownShapeFootprint(TeardownPlan(ex, w, u, r), ex, w, u, r);
  }


  /** Once a plan has removed a shovel, every longer prefix has removed it too. */
  lemma {:induction false} DeletedShovelsGrow(p: seq<AdminCmd>, j: nat, k: nat)
    requires j <= k <= |p|
    ensures DeletedShovels(p[..j]) <= DeletedShovels(p[..k])
    decreases k - j
  {
    if j < k {
      DeletedShovelsGrow(p, j + 1, k);
      assert Init(p[..j + 1]) == p[..j];
    }
  }

  // ---------------------------------------------------------------------
  // The broker store the plans act on
  // ---------------------------------------------------------------------

  datatype Destination = ToQueue(queue: string) | ToExchange(exchange: string)

  datatype Binding = Binding(source: string, destination: Destination, body: BindingBody)

  /** The broker state the management API exposes: exchanges, queues and
      shovel parameters by name, and the set of bindings. */
  datatype Broker = Broker(
    exchanges: map<string, ExchangeBody>,
    queues: map<string, QueueBody>,
    bindings: set<Binding>,
    shovels: map<string, ShovelValue>)

  const EmptyBroker := Broker(map[], map[], {}, map[])

  /** A binding attached to one of the given exchanges or queues. */
  predicate Mentions(b: Binding, xs: set<string>, qs: set<string>) {
    || b.source in xs
    || (b.destination.ToExchange? && b.destination.exchange in xs)
    || (b.destination.ToQueue? && b.destination.queue in qs)
  }

  /** Overlay `d` on `s`: entries of `d` replace those of `s` of the same name. */
  function Merge(s: Broker, d: Broker): (t: Broker)
    ensures t.exchanges.Keys == s.exchanges.Keys + d.exchanges.Keys
    ensures t.queues.Keys == s.queues.Keys + d.queues.Keys
    ensures t.shovels.Keys == s.shovels.Keys + d.shovels.Keys
  {
    Broker(s.exchanges + d.exchanges, s.queues + d.queues, s.bindings + d.bindings, s.shovels + d.shovels)
  }

  /** Remove the named exchanges, queues and shovels; bindings attached to a
      removed exchange or queue go with it. */
  function Remove(s: Broker, xs: set<string>, qs: set<string>, ss: set<string>): (t: Broker)
    ensures t.exchanges.Keys == s.exchanges.Keys - xs
    ensures t.queues.Keys == s.queues.Keys - qs
    ensures t.shovels.Keys == s.shovels.Keys - ss
    ensures forall b :: b in t.bindings <==> b in s.bindings && !Mentions(b, xs, qs)
  {
    Broker(s.exchanges - xs, s.queues - qs, (set b | b in s.bindings && !Mentions(b, xs, qs)), s.shovels - ss)
  }

  /** What an adding command writes, as a broker holding only that entry. */
  function Written(c: AdminCmd): Broker
    requires c.IsUpsert()
  {
    match c
    case DeclareExchange(n, b) => Broker(map[n := b], map[], {}, map[])
    case BindExchange(src, d, b) => Broker(map[], map[], {Binding(src, ToExchange(d), b)}, map[])
    case DeclareQueue(n, b) => Broker(map[], map[n := b], {}, map[])
    case BindQueue(q, e, b) => Broker(map[], map[], {Binding(e, ToQueue(q), b)}, map[])
    case CreateShovel(src, d, q) => Broker(map[], map[], {}, map[ShovelName(src) := ShovelValueOf(d, q)])
  }

  /** The broker's reaction to one command: declarations and the shovel are
      PUTs to a name-keyed resource and overwrite it, a binding is added to
      the set, and a DELETE removes the resource with the bindings attached
      to it. */
  function Apply(c: AdminCmd, s: Broker): (t: Broker)
    ensures c.DeclareExchange? ==> c.name in t.exchanges && t.exchanges[c.name] == c.exchangeBody
    ensures c.DeclareQueue? ==> c.name in t.queues && t.queues[c.name] == c.queueBody
    ensures c.CreateShovel? ==> ShovelName(c.source) in t.shovels && t.shovels[ShovelName(c.source)] == ShovelValueOf(c.dest, c.queue)
    ensures c.DeleteExchange? ==> t.exchanges.Keys == s.exchanges.Keys - {c.name}
    ensures c.DeleteQueue? ==> t.queues.Keys == s.queues.Keys - {c.name}
    ensures c.DeleteShovel? ==> t.shovels.Keys == s.shovels.Keys - {ShovelName(c.source)}
    ensures c.IsUpsert() ==> s.bindings <= t.bindings
    ensures c.IsDelete() ==> t.bindings <= s.bindings
  {
    match c
    case DeclareExchange(n, b) => s.(exchanges := s.exchanges[n := b])
    case BindExchange(src, d, b) => s.(bindings := s.bindings + {Binding(src, ToExchange(d), b)})
    case DeleteExchange(n) => Remove(s, {n}, {}, {})
    case DeclareQueue(n, b) => s.(queues := s.queues[n := b])
    case BindQueue(q, e, b) => s.(bindings := s.bindings + {Binding(e, ToQueue(q), b)})
    case DeleteQueue(n) => Remove(s, {}, {n}, {})
    case CreateShovel(src, d, q) => s.(shovels := s.shovels[ShovelName(src) := ShovelValueOf(d, q)])
    case DeleteShovel(src) => Remove(s, {}, {}, {ShovelName(src)})
  }

  /** An adding command overlays what it writes. */
  lemma ApplyUpsertIsMerge(c: AdminCmd, s: Broker)
    requires c.IsUpsert()
    ensures Apply(c, s) == Merge(s, Written(c))
  {
    var w := Written(c);
    var t := Merge(s, w);
    MapOverlayEmpty(s.exchanges);
    MapOverlayEmpty(s.queues);
    MapOverlayEmpty(s.shovels);
    assert s.bindings + {} == s.bindings;
    match c
    case DeclareExchange(n, b) =>
      assert t.exchanges == s.exchanges[n := b];
      assert t == s.(exchanges := s.exchanges[n := b]);
    case DeclareQueue(n, b) =>
      assert t.queues == s.queues[n := b];
      assert t == s.(queues := s.queues[n := b]);
    case CreateShovel(src, d, q) =>
      assert t.shovels == s.shovels[ShovelName(src) := ShovelValueOf(d, q)];
      assert t == s.(shovels := s.shovels[ShovelName(src) := ShovelValueOf(d, q)]);
    case BindExchange(src, d, b) =>
      assert t == s.(bindings := s.bindings + {Binding(src, ToExchange(d), b)});
    case BindQueue(q, e, b) =>
      assert t == s.(bindings := s.bindings + {Binding(e, ToQueue(q), b)});
  }

  lemma MapOverlayEmpty<V>(m: map<string, V>)
    ensures m + map[] == m
  {
  }

  /** Send the commands of a plan one after the other. */
  function Run(plan: seq<AdminCmd>, s: Broker): Broker
    decreases |plan|
  {
    if plan == [] then s else Apply(Last(plan), Run(Init(plan), s))
  }

  predicate AllUpserts(plan: seq<AdminCmd>) {
    forall i :: 0 <= i < |plan| ==> plan[i].IsUpsert()
  }

  predicate AllDeletes(plan: seq<AdminCmd>) {
    forall i :: 0 <= i < |plan| ==> plan[i].IsDelete()
  }

  /** Running two plans in turn is running their concatenation. */
  lemma {:induction false} RunAppend(a: seq<AdminCmd>, b: seq<AdminCmd>, s: Broker)
    ensures Run(a + b, s) == Run(b, Run(a, s))
    decreases |b|
  {
    if b == [] {
      assert a + b == a;
    } else {
      assert Init(a + b) == a + Init(b);
      assert Last(a + b) == Last(b);
      RunAppend(a, Init(b), s);
    }
  }

  lemma MergeAssociative(a: Broker, b: Broker, c: Broker)
    ensures Merge(Merge(a, b), c) == Merge(a, Merge(b, c))
  {
    MapOverlayAssociative(a.exchanges, b.exchanges, c.exchanges);
    MapOverlayAssociative(a.queues, b.queues, c.queues);
    MapOverlayAssociative(a.shovels, b.shovels, c.shovels);
  }

  lemma MapOverlayAssociative<V>(a: map<string, V>, b: map<string, V>, c: map<string, V>)
    ensures (a + b) + c == a + (b + c)
  {
  }

  lemma MergeIdempotent(s: Broker, d: Broker)
    ensures Merge(Merge(s, d), d) == Merge(s, d)
  {
    assert (s.exchanges + d.exchanges) + d.exchanges == s.exchanges + d.exchanges;
    assert (s.queues + d.queues) + d.queues == s.queues + d.queues;
    assert (s.shovels + d.shovels) + d.shovels == s.shovels + d.shovels;
  }

  lemma MergeEmpty(d: Broker)
    ensures Merge(EmptyBroker, d) == d
  {
    assert map[] + d.exchanges == d.exchanges;
    assert map[] + d.queues == d.queues;
    assert map[] + d.shovels == d.shovels;
  }

  /** A plan of adding commands overlays, on any broker, what it builds on
      an empty one. */
  lemma {:induction false} RunUpsertsIsMerge(plan: seq<AdminCmd>, s: Broker)
    requires AllUpserts(plan)
    ensures Run(plan, s) == Merge(s, Run(plan, EmptyBroker))
    decreases |plan|
  {
    if plan == [] {
      assert Merge(s, EmptyBroker) == s;
    } else {
      var c := Last(plan);
      assert c.IsUpsert();
      assert AllUpserts(Init(plan));
      RunUpsertsIsMerge(Init(plan), s);
      RunUpsertsIsMerge(Init(plan), EmptyBroker);
      MergeEmpty(Run(Init(plan), EmptyBroker));
      MergeAssociative(s, Run(Init(plan), EmptyBroker), Written(c));
      ApplyUpsertIsMerge(c, Run(Init(plan), s));
      ApplyUpsertIsMerge(c, Run(Init(plan), EmptyBroker));
    }
  }

  /** Sending a plan of adding commands a second time changes nothing. */
  lemma UpsertPlanIdempotent(plan: seq<AdminCmd>, s: Broker)
    requires AllUpserts(plan)
    ensures Run(plan, Run(plan, s)) == Run(plan, s)
  {
    var e := Run(plan, EmptyBroker);
    RunUpsertsIsMerge(plan, s);
    RunUpsertsIsMerge(plan, Run(plan, s));
    MergeIdempotent(s, e);
  }

  lemma RemoveCompose(s: Broker, xs: set<string>, qs: set<string>, ss: set<string>,
                      xs': set<string>, qs': set<string>, ss': set<string>)
    ensures Remove(Remove(s, xs, qs, ss), xs', qs', ss') == Remove(s, xs + xs', qs + qs', ss + ss')
  {
    var l := Remove(Remove(s, xs, qs, ss), xs', qs', ss');
    var r := Remove(s, xs + xs', qs + qs', ss + ss');
    assert l.exchanges == r.exchanges;
    assert l.queues == r.queues;
    assert l.shovels == r.shovels;
    assert l.bindings == r.bindings;
  }

  lemma RemoveNothing(s: Broker)
    ensures Remove(s, {}, {}, {}) == s
  {
    var t := Remove(s, {}, {}, {});
    assert t.bindings == s.bindings;
    assert t.exchanges == s.exchanges;
    assert t.queues == s.queues;
    assert t.shovels == s.shovels;
  }

  /** A plan of removals removes, in one go, everything it names. */
  lemma {:induction false} RunDeletesIsRemove(plan: seq<AdminCmd>, s: Broker)
    requires AllDeletes(plan)
    ensures Run(plan, s) == Remove(s, DeletedExchanges(plan), DeletedQueues(plan), DeletedShovels(plan))
    decreases |plan|
  {
    if plan == [] {
      RemoveNothing(s);
    } else {
      var c := Last(plan);
      assert c.IsDelete();
      assert AllDeletes(Init(plan));
      RunDeletesIsRemove(Init(plan), s);
      RemoveCompose(s, DeletedExchanges(Init(plan)), DeletedQueues(Init(plan)), DeletedShovels(Init(plan)),
                    ExchangeRemoved(c), QueueRemoved(c), ShovelRemoved(c));
    }
  }

  // ---------------------------------------------------------------------
  // The provisioned pipeline
  // ---------------------------------------------------------------------

  /** The entries a provisioned pipeline consists of, as the broker holds
      them once the pipeline plan of `ex` has been sent with derived names
      `w`, `u` and `r`. */
  function PipelineState(ex: string, w: string, u: string, r: string, ttl: int): Broker {
    Broker(
      map[u := ExchangeBody(Fanout, false, true, false, true),
          r := ExchangeBody(Fanout, false, true, false, true),
          w := ExchangeBody(Fanout, false, true, false),
          ex := ExchangeBody(Topic, false, true, false, false, false, map["alternate-exchange" := Str(u)])],
      map[w := QueueBody(false, true, false, false, false, map["x-dead-letter-exchange" := Str(ex)]),
          u := QueueBody(false, true, false, false, false,
                         map["x-dead-letter-exchange" := Str(r), "x-message-ttl" := Int(ttl)]),
          r := QueueBody(false, true, false, false)],
      {Binding(w, ToQueue(w), BindingBody()),
       Binding(u, ToQueue(u), BindingBody()),
       Binding(r, ToQueue(r), BindingBody())},
      map[ShovelName(r) := ShovelValueOf(ex, r)])
  }

  function PipelineTopology(ex: string, repubInterval: int): Broker {
    PipelineState(ex, WaitingName(ex), UnroutedName(ex), RepubName(ex), repubInterval)
  }

  lemma RunStep(p: seq<AdminCmd>, k: nat, s: Broker)
    requires k < |p|
    ensures Run(p[..k + 1], s) == Apply(p[k], Run(p[..k], s))
  {
    assert Init(p[..k + 1]) == p[..k];
  }

  /** The broker after the first `k` commands of the pipeline plan, from
      empty: the stages below compare against it. */
  function PipelineStage(ex: string, w: string, u: string, r: string, ttl: int, k: nat): Broker {
    var full := PipelineState(ex, w, u, r, ttl);
    var fanout := ExchangeBody(Fanout, false, true, false, true);
    var wq := map[w := QueueBody(false, true, false, false, false, map["x-dead-letter-exchange" := Str(ex)])];
    var uq := wq[u := QueueBody(false, true, false, false, false,
                                map["x-dead-letter-exchange" := Str(r), "x-message-ttl" := Int(ttl)])];
    var wb := {Binding(w, ToQueue(w), BindingBody())};
    var ub := wb + {Binding(u, ToQueue(u), BindingBody())};
    Broker(
      if k == 0 then map[]
      else if k == 1 then map[u := fanout]
      else if k == 2 then map[u := fanout, r := fanout]
      else if k == 3 then map[u := fanout, r := fanout, w := ExchangeBody(Fanout, false, true, false)]
      else full.exchanges,
      if k <= 4 then map[] else if k <= 6 then wq else if k <= 8 then uq else full.queues,
      if k <= 5 then {} else if k <= 7 then wb else if k <= 9 then ub else full.bindings,
      if k <= 10 then map[] else full.shovels)
  }

  lemma StageStep1(ex: string, w: string, u: string, r: string, ttl: int)
    ensures Apply(DeclareExchange(u, ExchangeBody(Fanout, false, true, false, true)),
                  PipelineStage(ex, w, u, r, ttl, 0)) == PipelineStage(ex, w, u, r, ttl, 1)
  {
  }

  lemma StageStep2(ex: string, w: string, u: string, r: string, ttl: int)
    ensures Apply(DeclareExchange(r, ExchangeBody(Fanout, false, true, false, true)),
                  PipelineStage(ex, w, u, r, ttl, 1)) == PipelineStage(ex, w, u, r, ttl, 2)
  {
  }

  lemma StageStep3(ex: string, w: string, u: string, r: string, ttl: int)
    ensures Apply(DeclareExchange(w, ExchangeBody(Fanout, false, true, false)),
                  PipelineStage(ex, w, u, r, ttl, 2)) == PipelineStage(ex, w, u, r, ttl, 3)
  {
  }

  lemma StageStep4(ex: string, w: string, u: string, r: string, ttl: int)
    ensures Apply(DeclareExchange(ex, ExchangeBody(Topic, false, true, false, false, false,
                                                       map["alternate-exchange" := Str(u)])),
                  PipelineStage(ex, w, u, r, ttl, 3)) == PipelineStage(ex, w, u, r, ttl, 4)
  {
  }

  lemma StageStep5(ex: string, w: string, u: string, r: string, ttl: int)
    ensures Apply(DeclareQueue(w, QueueBody(false, true, false, false, false, map["x-dead-letter-exchange" := Str(ex)])),
                  PipelineStage(ex, w, u, r, ttl, 4)) == PipelineStage(ex, w, u, r, ttl, 5)
  {
  }

  lemma StageStep6(ex: string, w: string, u: string, r: string, ttl: int)
    ensures Apply(BindQueue(w, w, BindingBody()),
                  PipelineStage(ex, w, u, r, ttl, 5)) == PipelineStage(ex, w, u, r, ttl, 6)
  {
  }

  lemma StageStep7(ex: string, w: string, u: string, r: string, ttl: int)
    ensures Apply(DeclareQueue(u, QueueBody(false, true, false, false, false,
                                               map["x-dead-letter-exchange" := Str(r), "x-message-ttl" := Int(ttl)])),
                  PipelineStage(ex, w, u, r, ttl, 6)) == PipelineStage(ex, w, u, r, ttl, 7)
  {
  }

  lemma StageStep8(ex: string, w: string, u: string, r: string, ttl: int)
    ensures Apply(BindQueue(u, u, BindingBody()),
                  PipelineStage(ex, w, u, r, ttl, 7)) == PipelineStage(ex, w, u, r, ttl, 8)
  {
  }

  lemma StageStep9(ex: string, w: string, u: string, r: string, ttl: int)
    ensures Apply(DeclareQueue(r, QueueBody(false, true, false, false)),
                  PipelineStage(ex, w, u, r, ttl, 8)) == PipelineStage(ex, w, u, r, ttl, 9)
  {
  }

  lemma StageStep10(ex: string, w: string, u: string, r: string, ttl: int)
    ensures Apply(BindQueue(r, r, BindingBody()),
                  PipelineStage(ex, w, u, r, ttl, 9)) == PipelineStage(ex, w, u, r, ttl, 10)
  {
  }

  lemma StageStep11(ex: string, w: string, u: string, r: string, ttl: int)
    ensures Apply(CreateShovel(r, ex, r),
                  PipelineStage(ex, w, u, r, ttl, 10)) == PipelineState(ex, w, u, r, ttl)
  {
  }

  /** Declaring the unrouted exchange. */
  lemma PipelineStage1(p: seq<AdminCmd>, ex: string, w: string, u: string, r: string, ttl: int)
    requires PipelineShape(p, ex, w, u, r, ttl)
    ensures Run(p[..1], EmptyBroker) == PipelineStage(ex, w, u, r, ttl, 1)
  {
    assert p[..0] == [];
    RunStep(p, 0, EmptyBroker);
    StageStep1(ex, w, u, r, ttl);
  }

  /** The repub exchange. */
  lemma PipelineStage2(p: seq<AdminCmd>, ex: string, w: string, u: string, r: string, ttl: int)
    requires PipelineShape(p, ex, w, u, r, ttl)
    ensures Run(p[..2], EmptyBroker) == PipelineStage(ex, w, u, r, ttl, 2)
  {
    PipelineStage1(p, ex, w, u, r, ttl);
    RunStep(p, 1, EmptyBroker);
    StageStep2(ex, w, u, r, ttl);
  }

  /** The waiting exchange. */
  lemma PipelineStage3(p: seq<AdminCmd>, ex: string, w: string, u: string, r: string, ttl: int)
    requires PipelineShape(p, ex, w, u, r, ttl)
    ensures Run(p[..3], EmptyBroker) == PipelineStage(ex, w, u, r, ttl, 3)
  {
    PipelineStage2(p, ex, w, u, r, ttl);
    RunStep(p, 2, EmptyBroker);
    StageStep3(ex, w, u, r, ttl);
  }

  /** The primary exchange, with the unrouted one as its alternate. */
  lemma PipelineStage4(p: seq<AdminCmd>, ex: string, w: string, u: string, r: string, ttl: int)
    requires PipelineShape(p, ex, w, u, r, ttl)
    ensures Run(p[..4], EmptyBroker) == PipelineStage(ex, w, u, r, ttl, 4)
  {
    PipelineStage3(p, ex, w, u, r, ttl);
    RunStep(p, 3, EmptyBroker);
    StageStep4(ex, w, u, r, ttl);
  }

  /** The waiting queue. */
  lemma PipelineStage5(p: seq<AdminCmd>, ex: string, w: string, u: string, r: string, ttl: int)
    requires PipelineShape(p, ex, w, u, r, ttl)
    ensures Run(p[..5], EmptyBroker) == PipelineStage(ex, w, u, r, ttl, 5)
  {
    PipelineStage4(p, ex, w, u, r, ttl);
    RunStep(p, 4, EmptyBroker);
    StageStep5(ex, w, u, r, ttl);
  }

  /** Its binding. */
  lemma PipelineStage6(p: seq<AdminCmd>, ex: string, w: string, u: string, r: string, ttl: int)
    requires PipelineShape(p, ex, w, u, r, ttl)
    ensures Run(p[..6], EmptyBroker) == PipelineStage(ex, w, u, r, ttl, 6)
  {
    PipelineStage5(p, ex, w, u, r, ttl);
    RunStep(p, 5, EmptyBroker);
    StageStep6(ex, w, u, r, ttl);
  }

  /** The unrouted queue. */
  lemma PipelineStage7(p: seq<AdminCmd>, ex: string, w: string, u: string, r: string, ttl: int)
    requires PipelineShape(p, ex, w, u, r, ttl)
    ensures Run(p[..7], EmptyBroker) == PipelineStage(ex, w, u, r, ttl, 7)
  {
    PipelineStage6(p, ex, w, u, r, ttl);
    RunStep(p, 6, EmptyBroker);
    StageStep7(ex, w, u, r, ttl);
  }

  /** Its binding. */
  lemma PipelineStage8(p: seq<AdminCmd>, ex: string, w: string, u: string, r: string, ttl: int)
    requires PipelineShape(p, ex, w, u, r, ttl)
    ensures Run(p[..8], EmptyBroker) == PipelineStage(ex, w, u, r, ttl, 8)
  {
    PipelineStage7(p, ex, w, u, r, ttl);
    RunStep(p, 7, EmptyBroker);
    StageStep8(ex, w, u, r, ttl);
  }

  /** The repub queue. */
  lemma PipelineStage9(p: seq<AdminCmd>, ex: string, w: string, u: string, r: string, ttl: int)
    requires PipelineShape(p, ex, w, u, r, ttl)
    ensures Run(p[..9], EmptyBroker) == PipelineStage(ex, w, u, r, ttl, 9)
  {
    PipelineStage8(p, ex, w, u, r, ttl);
    RunStep(p, 8, EmptyBroker);
    StageStep9(ex, w, u, r, ttl);
  }

  /** Its binding. */
  lemma PipelineStage10(p: seq<AdminCmd>, ex: string, w: string, u: string, r: string, ttl: int)
    requires PipelineShape(p, ex, w, u, r, ttl)
    ensures Run(p[..10], EmptyBroker) == PipelineStage(ex, w, u, r, ttl, 10)
  {
    PipelineStage9(p, ex, w, u, r, ttl);
    RunStep(p, 9, EmptyBroker);
    StageStep10(ex, w, u, r, ttl);
  }

  /** And last the shovel. */
  lemma PipelineShapeState(p: seq<AdminCmd>, ex: string, w: string, u: string, r: string, ttl: int)
    requires PipelineShape(p, ex, w, u, r, ttl)
    ensures Run(p, EmptyBroker) == PipelineState(ex, w, u, r, ttl)
  {
    PipelineStage10(p, ex, w, u, r, ttl);
    RunStep(p, 10, EmptyBroker);
    StageStep11(ex, w, u, r, ttl);
    assert p[..11] == p;
  }

  /** Provisioning an empty broker yields exactly the pipeline's entries. */
  lemma GenericProvisionState(ex: string, w: string, u: string, r: string, ttl: int)
    ensures Run(PipelinePlan(ex, w, u, r, ttl), EmptyBroker) == PipelineState(ex, w, u, r, ttl)
  {
    PipelinePlanShape(ex, w, u, r, ttl);
    PipelineShapeState(PipelinePlan(ex, w, u, r, ttl), ex, w, u, r, ttl);
  }

  /** Provisioning overlays the pipeline's entries on whatever the broker
      already holds. */
  lemma ProvisionOverlaysTopology(ex: string, repubInterval: int, s: Broker)
    ensures Run(CreateMessagePipeline(ex, repubInterval), s) == Merge(s, PipelineTopology(ex, repubInterval))
  {
    var p := CreateMessagePipeline(ex, repubInterval);
    RunUpsertsIsMerge(p, s);
    GenericProvisionState(ex, WaitingName(ex), UnroutedName(ex), RepubName(ex), repubInterval);
  }

  /** The derived names differ from each other and from the primary exchange. */
  lemma PipelineNamesDistinct(ex: string)
    ensures |PipelineExchanges(ex)| == 4 && |PipelineQueues(ex)| == 3
    ensures ex != WaitingName(ex) && ex != UnroutedName(ex) && ex != RepubName(ex)
    ensures WaitingName(ex) != UnroutedName(ex) && WaitingName(ex) != RepubName(ex)
    ensures UnroutedName(ex) != RepubName(ex)
    ensures ShovelName(RepubName(ex)) == ex + ".repub.shovel"
  {
    var w, u, r := WaitingName(ex), UnroutedName(ex), RepubName(ex);
    assert |w| == |ex| + 8 && |u| == |ex| + 9 && |r| == |ex| + 6;
    assert r + ShovelSuffix == ex + ".repub.shovel";
  }

  /** The exchange flags of `declareExchange` that make a resource survive a
      broker restart and outlive its last binding. */
  predicate Persistent(b: ExchangeBody) {
    b.durable && !b.autoDelete && !b.passive
  }

  /** A durable, shareable queue that outlives its consumers. */
  predicate DurableQueue(b: QueueBody) {
    b.durable && !b.exclusive && !b.autoDelete && !b.passive
  }

  /** The retry pipeline of `ex` as the broker must hold it: the primary
      topic exchange routes what nobody is bound for to the internal
      unrouted exchange; the unrouted queue holds it for `repubInterval`
      milliseconds and dead-letters it to the internal repub exchange; a
      shovel moves the repub queue back onto the primary exchange; the
      waiting queue dead-letters to the primary exchange. Every queue is
      bound to its same-named fanout exchange with the empty routing key. */
  predicate PipelineWired(ex: string, repubInterval: int, t: Broker) {
    WiredWith(ex, WaitingName(ex), UnroutedName(ex), RepubName(ex), repubInterval, t)
  }

  /** `PipelineWired` with the derived names as parameters. */
  predicate WiredWith(ex: string, w: string, u: string, r: string, ttl: int, t: Broker) {
    ExchangesWired(ex, w, u, r, t) && QueuesWired(ex, w, u, r, ttl, t) && ShovelWired(ex, r, t)
  }

  predicate ExchangesWired(ex: string, w: string, u: string, r: string, t: Broker) {
    && {ex, w, u, r} <= t.exchanges.Keys
    && (forall n :: n in {ex, w, u, r} ==> Persistent(t.exchanges[n]))
    && t.exchanges[ex].kind == Topic && !t.exchanges[ex].internal
    && t.exchanges[ex].arguments == map["alternate-exchange" := Str(u)]
    && t.exchanges[w].kind == Fanout && !t.exchanges[w].internal
    && t.exchanges[u].kind == Fanout && t.exchanges[u].internal
    && t.exchanges[r].kind == Fanout && t.exchanges[r].internal
  }

  predicate QueuesWired(ex: string, w: string, u: string, r: string, ttl: int, t: Broker) {
    && {w, u, r} <= t.queues.Keys
    && (forall q :: q in {w, u, r} ==> DurableQueue(t.queues[q]))
    && (forall q :: q in {w, u, r} ==> Binding(q, ToQueue(q), BindingBody("")) in t.bindings)
    && t.queues[w].arguments == map["x-dead-letter-exchange" := Str(ex)]
    && t.queues[u].arguments == map["x-dead-letter-exchange" := Str(r), "x-message-ttl" := Int(ttl)]
    && t.queues[r].arguments == map[]
  }

  /** The shovel drains the queue `r` into the exchange `ex` on the same
      broker, without forward headers, acknowledging on confirm, and it is
      never deleted. */
  predicate ShovelWired(ex: string, r: string, t: Broker) {
    && ShovelName(r) in t.shovels
    && t.shovels[ShovelName(r)].srcQueue == r
    && t.shovels[ShovelName(r)].destExchange == ex
    && t.shovels[ShovelName(r)].srcUri == "amqp://"
    && t.shovels[ShovelName(r)].destUri == "amqp://"
    && !t.shovels[ShovelName(r)].addForwardHeaders
    && t.shovels[ShovelName(r)].ackMode == "on-confirm"
    && t.shovels[ShovelName(r)].deleteAfter == "never"
  }

  lemma GenericExchangesWired(ex: string, w: string, u: string, r: string, ttl: int, s: Broker)
    requires |{ex, w, u, r}| == 4
    ensures ExchangesWired(ex, w, u, r, Merge(s, PipelineState(ex, w, u, r, ttl)))
  {
  }

  lemma GenericQueuesWired(ex: string, w: string, u: string, r: string, ttl: int, s: Broker)
    requires |{w, u, r}| == 3
    ensures QueuesWired(ex, w, u, r, ttl, Merge(s, PipelineState(ex, w, u, r, ttl)))
  {
  }

  /** Whatever the broker held before, provisioning leaves it holding the
      fully wired pipeline. */
  lemma ProvisionWiresPipeline(ex: string, repubInterval: int, s: Broker)
    ensures PipelineWired(ex, repubInterval, Run(CreateMessagePipeline(ex, repubInterval), s))
  {
    var w, u, r := WaitingName(ex), UnroutedName(ex), RepubName(ex);
    ProvisionOverlaysTopology(ex, repubInterval, s);
    PipelineNamesDistinct(ex);
    GenericExchangesWired(ex, w, u, r, repubInterval, s);
    GenericQueuesWired(ex, w, u, r, repubInterval, s);
  }

  /** The shovel value the broker holds after provisioning is the one the
      last provisioning request PUT: a same-broker link from `<ex>.repub` to
      the primary exchange, acknowledging on confirm and never deleted. */
  lemma ProvisionedShovel(vhost: string, ex: string, repubInterval: int, s: Broker)
    ensures var c := CreateMessagePipeline(ex, repubInterval);
      var t, sh := Run(c, s), ShovelName(RepubName(ex));
      && sh in t.shovels
      && t.shovels[sh] == ShovelValue("amqp://", RepubName(ex), "amqp://", ex, false, "on-confirm", "never")
      && RequestOf(vhost, Last(c)) == Request(Put, ShovelUri(vhost, RepubName(ex)), Some(ShovelDecl(t.shovels[sh])))
  {
    ProvisionWiresPipeline(ex, repubInterval, s);
    ShovelRequestsMatch(vhost, ex, repubInterval);
  }

  /** The link that closes the retry loop: the unrouted queue dead-letters to
      the very exchange whose queue the shovel drains, `<ex>.repub`, and the
      shovel delivers back to the primary exchange. */
  lemma ShovelClosesRetryLoop(ex: string, repubInterval: int, s: Broker)
    ensures var t := Run(CreateMessagePipeline(ex, repubInterval), s);
      && ShovelName(RepubName(ex)) in t.shovels
      && UnroutedName(ex) in t.queues
      && "x-dead-letter-exchange" in t.queues[UnroutedName(ex)].arguments
      && t.queues[UnroutedName(ex)].arguments["x-dead-letter-exchange"] == Str(t.shovels[ShovelName(RepubName(ex))].srcQueue)
      && t.shovels[ShovelName(RepubName(ex))].srcQueue == ex + ".repub"
      && t.shovels[ShovelName(RepubName(ex))].destExchange == ex
  {
    ProvisionWiresPipeline(ex, repubInterval, s);
  }

  /** Without an explicit interval, unrouted messages wait 30000 ms before
      they are republished. */
  lemma DefaultRepubIntervalTtl(ex: string, s: Broker)
    ensures var t := Run(CreateMessagePipeline(ex, DefaultRepubInterval), s);
      && UnroutedName(ex) in t.queues
      && "x-message-ttl" in t.queues[UnroutedName(ex)].arguments
      && t.queues[UnroutedName(ex)].arguments["x-message-ttl"] == Int(30000)
  {
    ProvisionWiresPipeline(ex, DefaultRepubInterval, s);
  }

  /** Provisioning twice leaves the broker as provisioning once. */
  lemma ProvisionIdempotent(ex: string, repubInterval: int, s: Broker)
    ensures var p := CreateMessagePipeline(ex, repubInterval);
      Run(p, Run(p, s)) == Run(p, s)
  {
    UpsertPlanIdempotent(CreateMessagePipeline(ex, repubInterval), s);
  }

  /** `createMigrationList` leaves one durable, non-auto-delete, internal
      topic exchange, and repeating it changes nothing. */
  lemma MigrationListProvisioned(ex: string, s: Broker)
    ensures var t := Run(CreateMigrationList(ex), s);
      && ex in t.exchanges
      && t.exchanges[ex].kind == Topic && Persistent(t.exchanges[ex]) && t.exchanges[ex].internal
      && Run(CreateMigrationList(ex), t) == t
  {
    var p := CreateMigrationList(ex);
    assert Init(p) == [];
    UpsertPlanIdempotent(p, s);
  }

  /** The teardown plan removes exactly the exchanges, queues and shovel the
      pipeline plan creates, and the shovel before anything else. */
  lemma TeardownMirrorsProvision(ex: string, repubInterval: int)
    ensures var c, d := CreateMessagePipeline(ex, repubInterval), DeleteMessagePipeline(ex);
      && DeletedExchanges(d) == DeclaredExchanges(c)
      && DeletedQueues(d) == DeclaredQueues(c)
      && DeletedShovels(d) == set n | n in CreatedShovels(c) :: ShovelName(n)
  {
    PipelinePlanFootprint(ex, repubInterval);
    TeardownFootprint(ex);
  }

  /** The first teardown request addresses the very shovel resource the
      last provisioning request created. */
  lemma ShovelRequestsMatch(vhost: string, ex: string, repubInterval: int)
    ensures var c, d := CreateMessagePipeline(ex, repubInterval), DeleteMessagePipeline(ex);
      && Last(c).CreateShovel?
      && RequestOf(vhost, d[0]).verb == Delete
      && RequestOf(vhost, Last(c)).verb == Put
      && RequestOf(vhost, d[0]).uri == RequestOf(vhost, Last(c)).uri
      && RequestOf(vhost, d[0]).uri == "/api/parameters/shovel/" + vhost + "/" + ex + ".repub.shovel"
  {
    PipelineNamesDistinct(ex);
  }

  /** A broker that holds nothing of the pipeline of `ex`. */
  predicate Untouched(ex: string, s: Broker) {
    && PipelineExchanges(ex) !! s.exchanges.Keys
    && PipelineQueues(ex) !! s.queues.Keys
    && ShovelName(RepubName(ex)) !in s.shovels
    && forall b :: b in s.bindings ==> !Mentions(b, PipelineExchanges(ex), PipelineQueues(ex))
  }

  /** Tearing down a freshly provisioned pipeline restores the broker. */
  lemma TeardownUndoesProvision(ex: string, repubInterval: int, s: Broker)
    requires Untouched(ex, s)
    ensures Run(DeleteMessagePipeline(ex), Run(CreateMessagePipeline(ex, repubInterval), s)) == s
  {
    ProvisionOverlaysTopology(ex, repubInterval, s);
    TeardownOfOverlay(ex, repubInterval, s);
  }

  lemma TeardownOfOverlay(ex: string, repubInterval: int, s: Broker)
    requires Untouched(ex, s)
    ensures Run(DeleteMessagePipeline(ex), Merge(s, PipelineTopology(ex, repubInterval))) == s
  {
    TeardownIsRemove(ex, Merge(s, PipelineTopology(ex, repubInterval)));
    RemoveUndoesMerge(ex, WaitingName(ex), UnroutedName(ex), RepubName(ex), repubInterval, s);
  }

  /** The teardown plan removes the pipeline's exchanges, queues and shovel
      in one go, with every binding attached to them. */
  lemma TeardownIsRemove(ex: string, t: Broker)
    ensures Run(DeleteMessagePipeline(ex), t) ==
      Remove(t, PipelineExchanges(ex), PipelineQueues(ex), {ShovelName(RepubName(ex))})
  {
    var d := DeleteMessagePipeline(ex);
    assert AllDeletes(d) by {
      forall i | 0 <= i < |d| ensures d[i].IsDelete() {
        if i > 0 { assert d[i].DeleteExchange? || d[i].DeleteQueue?; }
      }
    }
    TeardownFootprint(ex);
    RunDeletesIsRemove(d, t);
  }

  lemma MapOverlayUndone<V>(m: map<string, V>, d: map<string, V>)
    requires d.Keys !! m.Keys
    ensures (m + d) - d.Keys == m
  {
  }

  lemma BindingsOverlayUndone(s: set<Binding>, d: set<Binding>, xs: set<string>, qs: set<string>)
    requires forall b :: b in s ==> !Mentions(b, xs, qs)
    requires forall b :: b in d ==> Mentions(b, xs, qs)
    ensures (set b | b in s + d && !Mentions(b, xs, qs)) == s
  {
  }

  lemma RemoveUndoesMerge(ex: string, w: string, u: string, r: string, ttl: int, s: Broker)
    requires {ex, w, u, r} !! s.exchanges.Keys && {w, u, r} !! s.queues.Keys && ShovelName(r) !in s.shovels
    requires forall b :: b in s.bindings ==> !Mentions(b, {ex, w, u, r}, {w, u, r})
    ensures Remove(Merge(s, PipelineState(ex, w, u, r, ttl)), {ex, w, u, r}, {w, u, r}, {ShovelName(r)}) == s
  {
    var top := PipelineState(ex, w, u, r, ttl);
    var xs, qs := {ex, w, u, r}, {w, u, r};
    assert top.exchanges.Keys == xs && top.queues.Keys == qs && top.shovels.Keys == {ShovelName(r)};
    MapOverlayUndone(s.exchanges, top.exchanges);
    MapOverlayUndone(s.queues, top.queues);
    MapOverlayUndone(s.shovels, top.shovels);
    BindingsOverlayUndone(s.bindings, top.bindings, xs, qs);
  }

  /** The shovel is attached: while it exists, the queue it drains and the
      exchange it feeds exist too. */
  predicate ShovelAttached(ex: string, t: Broker) {
    var sh := ShovelName(RepubName(ex));
    sh in t.shovels ==> t.shovels[sh].srcQueue in t.queues && t.shovels[sh].destExchange in t.exchanges
  }

  /** Removing the shovel first means no prefix of the teardown leaves a
      shovel whose source queue or destination exchange is gone. */
  lemma TeardownNeverOrphansShovel(ex: string, repubInterval: int, s: Broker, k: nat)
    requires k <= |DeleteMessagePipeline(ex)|
    ensures ShovelAttached(ex, Run(DeleteMessagePipeline(ex)[..k], Run(CreateMessagePipeline(ex, repubInterval), s)))
  {
    var d := DeleteMessagePipeline(ex);
    var t := Run(CreateMessagePipeline(ex, repubInterval), s);
    if k == 0 {
      assert d[..0] == [];
      ProvisionWiresPipeline(ex, repubInterval, s);
    } else {
      var pre := d[..k];
      assert AllDeletes(pre);
      RunDeletesIsRemove(pre, t);
      assert Init(d[..1]) == [];
      DeletedShovelsGrow(d, 1, k);
      assert ShovelName(RepubName(ex)) in DeletedShovels(pre);
    }
  }
}
