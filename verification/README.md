# RabbitMQ 3 adapter for Daikon CQRS — a Dafny model

This project models the core of the `daikon-cqrs/rabbitmq3-adapter` PHP package and proves properties of that model. The package connects Daikon's message bus, async jobs and migrations to RabbitMQ:

- **Migrations** (`RabbitMq3Migration`, and the near-identical `RabbitMq3MigrationTrait`) set up and tear down a message pipeline through the RabbitMQ management API:
  - a primary topic exchange;
  - `.waiting`, `.unrouted` and `.repub` fanout exchanges, each with a queue of the same name;
  - a shovel that moves republished messages back onto the primary exchange.

  Each management call is an `AdminCmd`, and a migration step is a sequence of them. `Topology.Run` replays a sequence against an abstract broker. In that broker, exchanges, queues and shovel parameters are keyed by name (PUT overwrites them) and bindings form a set.
- **The migration adapter** records executed migrations as bindings of the migration exchange onto itself. The routing key names the migration list; the arguments hold the migration's native form. `MigrationStore` models the broker's binding listing as a sequence of entries keyed by properties key.
- **The job worker** (`src/Job`) hands a delivery to the message bus. When that fails, it either republishes the message for a retry or reports a `JobFailed` event, and it always acknowledges the delivery. **The bus worker** (`src/Worker`) acknowledges only when the bus returns, and otherwise rethrows.
- **The transport** publishes an envelope to the exchange and routing key named in its metadata, as a persistent message.

The model is split into modules:

| file | module |
|---|---|
| `values.dfy` | `Values`: option and result types, PHP-like metadata values, `trim` and the "not blank" assertion |
| `topology.dfy` | `Topology`: the class's plans, requests, broker store, and lemmas about them |
| `topology_trait.dfy` | `TopologyTrait`: the trait's plans, proved equal to the class's |
| `migration_store.dfy` | `MigrationStore`: the adapter's `read` and `write` |
| `messaging.dfy` | `Messaging`: messages, envelopes, deliveries, outcomes, the guarded start of `run` |
| `job_worker.dfy` | `JobWorker` |
| `bus_worker.dfy` | `BusWorker` |
| `transport.dfy` | `Transport` |

Some behaviours of the code worth stating up front, all modelled as written:

- The transport reads the exchange from `_exchange`, and the routing key from `_routing_key`, then `_aggregate_alias`.
- The transport sets neither headers nor expiration on the published message.
- A job that fails for good is published as `JobFailed` on the `logging` channel, and the delivery is acknowledged.
- The bus worker rethrows a failure from the message bus and leaves the delivery unacknowledged.
- An unknown job raises an error before dispatch, and the delivery stays unacknowledged.
- Both workers consume with manual acknowledgements. Their `basic_consume` call sets `no_local` and leaves `no_ack` unset.

## Model

| member | source | states |
|---|---|---|
| Values.BlankCharacterisation | src/Transport/RabbitMq3Transport.php:30 | `Assertion::notBlank` rejects exactly null, `false`, and strings made only of whitespace |
| Values.ZeroIsNotBlank | src/Transport/RabbitMq3Transport.php:30 | unlike PHP's `empty`, the assertion lets `0` and `"0"` through |
| Topology.PipelineNamesDistinct | src/Migration/RabbitMq3Migration.php:22-27 | the derived names `ex.waiting`, `ex.unrouted` and `ex.repub` differ from each other and from `ex`; the shovel is named `ex.repub.shovel` |
| Topology.CreateMigrationList | src/Migration/RabbitMq3Migration.php:15-18 | the migration list is a single exchange declaration for the given name, and it references nothing it has not declared |
| Topology.MigrationListProvisioned | src/Migration/RabbitMq3Migration.php:15-18 | after `createMigrationList` the broker holds a topic exchange that is durable, not auto-deleted and internal; repeating the call changes nothing |
| Topology.CreateMessagePipeline | src/Migration/RabbitMq3Migration.php:20-49 | provisioning consists only of declarations, bindings and the shovel: every request adds or overwrites |
| Topology.PipelinePlanFootprint | src/Migration/RabbitMq3Migration.php:30-48 | every binding, argument reference and the shovel name only exchanges and queues declared earlier in the plan; the plan declares exactly the four pipeline exchanges, the three queues and the one shovel |
| Topology.ProvisionOverlaysTopology | src/Migration/RabbitMq3Migration.php:20-49 | on any broker, provisioning overlays the pipeline's entries and leaves all other entries as they were |
| Topology.ProvisionWiresPipeline | src/Migration/RabbitMq3Migration.php:30-48 | after provisioning: `unrouted` and `repub` are internal fanout exchanges; `waiting` is a non-internal fanout exchange; the primary exchange is a non-internal topic exchange whose alternate exchange is `unrouted`; all four are durable and not auto-deleted; every queue is durable, non-exclusive and not auto-deleted; the waiting queue dead-letters to the primary exchange; the unrouted queue dead-letters to `repub` after the republish interval; each queue is bound to its same-named exchange with routing key `""`; the shovel drains `repub` into the primary exchange |
| Topology.ShovelClosesRetryLoop | src/Migration/RabbitMq3Migration.php:40-48 | the unrouted queue's dead-letter exchange is exactly the queue the shovel drains, `<ex>.repub`, and the shovel's destination is the primary exchange |
| Topology.DefaultRepubIntervalTtl | src/Migration/RabbitMq3Migration.php:20 | with the default interval, the unrouted queue's message TTL is 30000 ms |
| Topology.ProvisionIdempotent | src/Migration/RabbitMq3Migration.php:20-49 | provisioning twice leaves the broker exactly as provisioning once |
| Topology.UpsertPlanIdempotent | src/Migration/RabbitMq3Migration.php:79-91 | any plan of name-keyed PUTs and binding POSTs is idempotent |
| Topology.RunDeletesIsRemove | src/Migration/RabbitMq3Migration.php:111-115 | a plan of DELETEs removes, in one go, the exchanges, queues and shovels it names, together with the bindings attached to them |
| Topology.DeleteMessagePipeline | src/Migration/RabbitMq3Migration.php:51-68 | teardown starts by deleting the repub shovel; every later request deletes an exchange or a queue |
| Topology.TeardownFootprint | src/Migration/RabbitMq3Migration.php:51-68 | teardown deletes exactly the four pipeline exchanges, the three queues and the shovel `<ex>.repub.shovel` |
| Topology.TeardownIsRemove | src/Migration/RabbitMq3Migration.php:51-68 | on any broker, teardown removes the four pipeline exchanges, the three queues and the repub shovel in one go, together with every binding attached to them, and nothing else |
| Topology.TeardownMirrorsProvision | src/Migration/RabbitMq3Migration.php:30-67 | teardown removes exactly the exchanges, queues and shovel that provisioning declares |
| Topology.ShovelRequestsMatch | src/Migration/RabbitMq3Migration.php:162-184 | the first teardown request is a DELETE on the same URI, `/api/parameters/shovel/<vhost>/<ex>.repub.shovel`, that provisioning's last request PUT the shovel to |
| Topology.TeardownUndoesProvision | src/Migration/RabbitMq3Migration.php:20-68 | on a broker that held nothing of the pipeline, provisioning followed by teardown restores the broker exactly |
| Topology.TeardownNeverOrphansShovel | src/Migration/RabbitMq3Migration.php:60-67 | after any prefix of the teardown, the shovel is gone or its source queue and destination exchange still exist |
| Topology.RequestOf | src/Migration/RabbitMq3Migration.php:70-184 | declarations and the shovel are PUT, bindings are POSTed, removals are DELETEs; only removals send no body |
| Topology.ProvisionedShovel | src/Migration/RabbitMq3Migration.php:162-178 | after provisioning, the broker holds under `<ex>.repub.shovel` exactly the value the last provisioning request PUT to that shovel's URI: a same-broker (`amqp://` to `amqp://`) link from the `<ex>.repub` queue to the primary exchange, without forward headers, acknowledging on confirm, never deleted |
| Topology.Apply | src/Migration/RabbitMq3Migration.php:79-91 | a declaration leaves the declared body under its name, a shovel PUT leaves its value under the shovel name, a DELETE removes that name, and bindings only grow under additions and only shrink under deletions |
| TopologyTrait.TraitNamesDistinct | src/Migration/RabbitMq3MigrationTrait.php:10-28 | the suffix constants spell the class's derived names, which are pairwise distinct |
| TopologyTrait.TraitCreateMigrationList | src/Migration/RabbitMq3MigrationTrait.php:16-19 | the trait's `createMigrationList` sends the class's request |
| TopologyTrait.TraitCreateMessagePipeline | src/Migration/RabbitMq3MigrationTrait.php:21-50 | the trait's `createMessagePipeline` sends the same requests as the class, for every exchange and interval |
| TopologyTrait.TraitDeleteMessagePipeline | src/Migration/RabbitMq3MigrationTrait.php:52-69 | the trait's `deleteMessagePipeline` sends the same requests as the class |
| TopologyTrait.TraitProvisionWiresPipeline | src/Migration/RabbitMq3MigrationTrait.php:31-49 | the trait's provisioning wires the pipeline with the class's flags and arguments, references only what it declared before, and is idempotent |
| TopologyTrait.TraitTeardown | src/Migration/RabbitMq3MigrationTrait.php:61-68 | the trait's teardown deletes the shovel first, on the URI creation used, then exactly the four exchanges and three queues; on an untouched broker it undoes provisioning |
| TopologyTrait.TraitMigrationListProvisioned | src/Migration/RabbitMq3MigrationTrait.php:18 | the trait's migration list exchange is a durable, non-auto-delete, internal topic exchange |
| MigrationStore.Read | src/Migration/RabbitMq3MigrationAdapter.php:32-43 | `read` returns the migrations of the stored bindings with the given routing key, as many times as they are stored, ordered by version |
| MigrationStore.ReadSelectsList | src/Migration/RabbitMq3MigrationAdapter.php:34-41 | a migration is read for a list exactly when a stored binding with that routing key holds its native form |
| MigrationStore.InsertByVersionSorted | src/Migration/RabbitMq3MigrationAdapter.php:91 | inserting a migration into a list ordered by version keeps it ordered |
| MigrationStore.InsertByVersionPermutes | src/Migration/RabbitMq3MigrationAdapter.php:91 | inserting adds exactly that one migration and drops none |
| MigrationStore.SortByVersion | src/Migration/RabbitMq3MigrationAdapter.php:91 | the migration list comes back ordered by version, with the same elements |
| MigrationStore.BindingsUri | src/Migration/RabbitMq3MigrationAdapter.php:54 | the bindings written go from the configured exchange to itself |
| MigrationStore.WriteRequestsShape | src/Migration/RabbitMq3MigrationAdapter.php:50-68 | `write` sends one DELETE per listed binding, by its properties key and whatever its routing key, then one POST per migration with the list's routing key and the migration's native form, all on the exchange-to-itself bindings URI |
| MigrationStore.WriteReplacesListing | src/Migration/RabbitMq3MigrationAdapter.php:56-68 | after `write`, the listing holds exactly one binding per written migration, in order, and nothing else |
| MigrationStore.ReadAfterWrite | src/Migration/RabbitMq3MigrationAdapter.php:32-68 | after `write(id, L)`, `read(id)` yields exactly the migrations of `L` (as a multiset, so also `|L|` of them), and `read` of any other list is empty |
| MigrationStore.ApplyStore | src/Migration/RabbitMq3MigrationAdapter.php:57-67 | a binding DELETE removes the bindings with that properties key; a POST appends one binding, whose key no stored binding has as long as every stored key is below the store's next key, and both keep that invariant |
| MigrationStore.RunStoreValid | src/Migration/RabbitMq3MigrationAdapter.php:56-68 | any sequence of binding requests, and so every `write`, keeps every stored properties key below the next one handed out |
| Messaging.StartConsuming | src/Worker/RabbitMq3Worker.php:37-46 | consuming starts exactly when the queue is not blank, on that queue, with a prefetch count of one, `no_local` set and `no_ack` and `exclusive` unset, so acknowledgements are manual; otherwise the assertion fails on the queue value |
| Messaging.StartConsumingAccepts | src/Worker/RabbitMq3Worker.php:37-38 | a worker starts exactly when the `queue` setting is present and is not null, `false`, or whitespace only |
| JobWorker.Run | src/Job/RabbitMq3Worker.php:39-42 | the job worker starts exactly when the `queue` parameter is not blank, and consumes that queue |
| JobWorker.JobOf | src/Job/RabbitMq3Worker.php:64-65 | the job definition is found exactly when `job` names a defined job; otherwise the lookup fails on that value |
| JobWorker.RetryCountAdvances | src/Job/RabbitMq3Worker.php:73-76 | a retry raises the retry count read back from the metadata by exactly one, whether `_retries` was absent, null or an integer |
| JobWorker.Recover | src/Job/RabbitMq3Worker.php:70-96 | on retry: the original message is republished to the incoming `_channel`; `_retries` goes up by one, counting from 0; `_expiration` is the strategy's interval; nothing else changes. On failure: `JobFailed(message)` goes to `logging` with `_error_message` set and nothing else changed |
| JobWorker.RetryOrFail | src/Job/RabbitMq3Worker.php:72-81 | exactly one of retry and fail happens: the retry republishes the message itself, the failure wraps it; a failure leaves `_retries` as it was |
| JobWorker.Execute | src/Job/RabbitMq3Worker.php:57-85 | with the dispatch restored: an unknown job raises without an ack; a known job is acknowledged with the delivery's own tag; nothing is published when the bus handles it; exactly the recovery publish happens when the bus throws |
| JobWorker.ExecuteAsWritten | src/Job/RabbitMq3Worker.php:67-84 | as written, every delivery of a known job is acknowledged after a recovery publish for the error "test" |
| JobWorker.RedeliveredCounts | src/Job/RabbitMq3Worker.php:72-77 | when every attempt fails and retries are allowed below a limit, the `k`-th redelivery carries the original message, job and channel, with `_retries` = `k` |
| JobWorker.RetriesThenFails | src/Job/RabbitMq3Worker.php:72-96 | with a bus that always throws and a strategy that allows `limit` retries: attempts `0 .. limit-1` republish the message to its channel, and attempt `limit` reports `JobFailed` on `logging` with `_retries` = `limit`; every attempt is acknowledged |
| BusWorker.Run | src/Worker/RabbitMq3Worker.php:35-38 | the bus worker starts exactly when the `queue` setting is not blank, and consumes that queue |
| BusWorker.Execute | src/Worker/RabbitMq3Worker.php:53-71 | a delivery is acknowledged with its own tag, and nothing published, exactly when its job is known and the bus returns; a bus exception propagates unchanged without an ack |
| Transport.GetKeyRoundTrip | src/Transport/RabbitMq3Transport.php:42-45 | `getKey` hands back the key the transport was constructed with |
| Transport.RoutingKeyOf | src/Transport/RabbitMq3Transport.php:28 | the routing key is `_routing_key` when present, else `_aggregate_alias` when present, else `""` |
| Transport.Send | src/Transport/RabbitMq3Transport.php:25-40 | `send` succeeds exactly when `_exchange` is not blank and the routing key is a string; a blank exchange fails first, then a non-string key; on success it publishes the whole envelope, persistently, to `_exchange` under the resolved key |
| Transport.SendAccepts | src/Transport/RabbitMq3Transport.php:27-31 | `send` succeeds exactly when `_exchange` is present and is not null, `false`, or whitespace only, and the routing key is a string; with no routing metadata it publishes under `""` |

## Findings

| source | as written | input that shows it | evidently intended | confidence | as-written member | corrected member |
|---|---|---|---|---|---|---|
| src/Job/RabbitMq3Worker.php:67-69 | an exception with message "test" is thrown unconditionally, ahead of `$this->messageBus->receive($envelope)`, so the bus is never called | any delivery whose `job` names a defined job and whose handler would succeed: it is still republished for a retry or reported as `JobFailed` | hand the envelope to the bus, and recover only when the bus throws | high (by reading; not executed) | JobWorker.ExecuteAsWritten | JobWorker.Execute |

`JobWorker.AsWrittenNeverDispatches` states the discrepancy for all inputs. The as-written outcome is always the outcome of a bus that throws "test". For a delivery the bus would handle, the as-written worker publishes, while the corrected worker only acknowledges. `JobWorker.RetriesThenFails` and `BusWorker.AgreesWithJobWorker` are stated over the corrected `JobWorker.Execute`.

## Left out

- Values.IsBlank: values are null, booleans, integers and strings only. Floats and arrays are not modelled, so `notBlank` rejecting an empty array and accepting `0.0` is not stated.
- Transport.Send: an `_exchange` or routing key holding a float or an array is not modelled, for the same reason.
- Messaging.StartConsuming: a `queue` setting holding a float or an array is not modelled, for the same reason.
- The connector (`src/Connector/RabbitMq3Connector.php`) is not modelled. It is a lazy AMQP connection with float timeouts and no logic of its own.
- The workers' consume loops (`basic_qos`, `basic_consume`, the blocking `wait` loop) are left out. `Messaging.StartConsuming` records only their arguments. The broker's redelivery of an unacknowledged delivery is broker runtime behaviour and is not modelled.
- HTTP is not modelled: no status codes, no Guzzle exceptions on 404 or 406, and no URL escaping of the vhost. Requests are modelled as values. The vhost lookup is a parameter.
- `Topology.Apply` treats a re-declaration with different arguments as an overwrite. RabbitMQ would refuse it, and that refusal is not modelled.
- JSON encoding and decoding, and `Envelope::fromArray`/`toArray`, belong to another library and are not modelled. Deliveries carry the decoded envelope, and the transport publishes the envelope itself as payload.
- Job-map lookup, `Metadata::get`/`with`, and dynamic class instantiation are modelled with map semantics.
  - A metadata key counts as present when it is in the map, even with a null value.
  - An unknown or non-string `job` raises an error before dispatch and leaves the delivery unacknowledged.
  - `MigrationList::sortByVersion` is modelled as an insertion sort by a given version function. Only its sortedness and permutation are stated; the model does not fix the order of migrations of equal version.
- Migrations are modelled by class name and execution time. A migration's version is a function of its class.
- MigrationStore.Read: the binding listing is modelled as holding only bindings of the migration exchange onto itself, all of whose arguments are migration records. The source lists every binding whose source is the exchange, and a binding to another destination would make its DELETE address a different resource. The broker's dedupe of identical bindings and its key derivation are not modelled either: a POST always adds a binding, under the store's next key, which no stored binding has while `MigrationStore.Valid` holds.
- JobWorker.Increment: on a string `_retries`, PHP's string increment is not modelled. The value is left as it is. Booleans are left as they are, as in PHP.
- Exceptions thrown by `publish` itself, and by the channel's `basic_ack`, are not modelled.
- Broker runtime behaviour is not modelled: TTL expiry, dead-lettering, alternate-exchange routing and shovel forwarding. The model states the wiring that these depend on.
- `bindExchange` appears in `Topology.AdminCmd` and `Topology.Apply`, but neither plan uses it. The migration adapter's bindings are modelled in `MigrationStore`.
