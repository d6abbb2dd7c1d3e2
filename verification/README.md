# dynoconf: versioned configuration distribution, modelled and proved

dynoconf keeps the configuration of services in two Postgres tables, announces every change over
NOTIFY to all server replicas, fans it out to the open gRPC streams of each replica through bounded
in-memory channels, and lets clients overlay what they receive on their env defaults. This project
models that path end to end and proves what a client can be relied on to hold, together with the
smaller protocols around it: connection accounting, export and import, the env file printer and the
KEY=VALUE parser, the audit pruner and the reconnect backoff.

Check everything with `dafny verify dfyconfig.toml`.

## How the model is laid out

| file | what it models |
|---|---|
| `VersionedStore.dfy`, `VersionedStoreProofs.dfy` | the tables `variables` and `variable_versions`, the meaning of each transaction, and laws over all runs |
| `StoreTransactions.dfy` | the same transactions statement by statement, any statement may fail |
| `Events.dfy` | events, stream messages, what a client makes of them |
| `Fanout.dfy` | the broker of one replica: 64-slot channels that drop when full |
| `StreamServer.dfy` | building the snapshot, forwarding a channel onto a stream |
| `Distribution.dfy`, `DistributionProofs.dfy` | the whole protocol as a step relation, and its invariant |
| `HeldVersions.dfy` | what a client holds, with versions; the version-guarded client for comparison |
| `Convergence.dfy`, `VersionGuard.dfy`, `Unordered.dfy` | what follows for clients: with and without loss, with and without a version check, in and out of publication order |
| `Delivery.dfy` | progress: what is on its way can be delivered, and every client can get back to the store |
| `Components.dfy` | the steps of the protocol are what broker, stream server, handlers and clients do |
| `Anomalies.dfy` | concrete runs that go wrong |
| `ConfigClient.dfy`, `Backoff.dfy` | the Go and Java clients on heap objects, with concurrent readers; their reconnect loop |
| `Handlers.dfy`, `Transfer.dfy` | the HTTP handlers that commit and then publish; export and import |
| `Connections.dfy` | the `connection_clients` table and the heartbeat, purge and TTL protocol |
| `EnvFile.dfy`, `EnvParser.dfy` | the agent's env rendering, the CLI listing, and the web page's parser |
| `AuditLog.dfy` | audit inserts and the pruner |

Failures are parameters: a statement, a query or a publication may fail in any pattern. The order in
which a Go map is iterated is arbitrary. Time is a logical clock in seconds. Connection ids are
fresh.

Two hypotheses are explicit because the code does not enforce them:

- transactions on one key are serial (`variable_versions` has no unique constraint on the version,
  and `nextVersion` reads the maximum before the insert);
- the events of one key are published in commit order (`FirstOfItsKey` guards the step `Publish`);
  handlers publish after the commit, in a separate statement. `Anomalies.PublicationOrderMatters`
  shows what can happen without it, `Unordered.LossFreeAnyOrderSettlesAt` what decides then.

## What was found

- **A new subscription does not always heal a lost change.** The comments at
  `internal/events/broker.go:69-72` and `:109-110` expect a client to resync when it reconnects. When
  an older event of a key is still on its way at the moment the snapshot is read, while the latest one
  was lost, the snapshot is right but the older event is applied after it. This holds for losses before
  the subscription (`Anomalies.NewSubscriptionNeedNotHeal`) and for losses in the gap between
  subscribing and reading the snapshot (`Anomalies.GapNeedNotHeal`). `Convergence.SnapshotSettlesAt`
  says for every snapshot read, at whatever distance from the subscription, what each key settles on
  and exactly when that is the store's value. A client that subscribes only after its replica's queue
  and the unpublished events have run empty does get back to the store, from any state at all and
  without another commit (`Delivery.WaitingRecovers`).
- **Clients do not look at versions**, although `internal/grpcserver/server.go:66-68` says that they
  apply upserts idempotently by version. Without loss and with per-key publication order the client
  still ends at the store's state (`Convergence.LossFreeConvergence`), but not without going back: an
  event older than the snapshot is applied over it, so a reader can see an old value again, and the
  change callback is told of it, until the newer event arrives (`Anomalies.ClientGoesBack`). That
  happens after a snapshot read if and only if the key is current and the first event of it still on
  its way is older than the store's version (`VersionGuard.GoingBack`); without loss that means that
  at least two changes of the key are on their way (`VersionGuard.GoingBackWithoutLoss`), and only the
  first of them can take the client back (`VersionGuard.OnlyFirstTakesBack`). A deleted key can
  reappear in the same way (`VersionGuard.DeletedReappears`). A client with the version check never
  goes back (`VersionGuard.GuardNeverGoesBack`), would end at the same state
  (`VersionGuard.UnguardedRefinesGuarded`), and would heal every current key at every new subscription
  (`VersionGuard.GuardWouldHeal`).
- **The Go client's backoff is never reset.** `stream` returns only with an error, a drained server
  included, so the line that resets the backoff is not reached (`Backoff.GoNeverResets`). The Java
  client does reset it after a stream that ended cleanly.
- **The parser drops a variable called `__proto__`** and does not undo the agent's escapes;
  `EnvParser.ParseUndoesRendering` and `EnvParser.ParseUndoesListing` say exactly which files are
  read back.
- **An import skips keys the API would refuse**, which the Telegram `/set` command can create
  (`internal/tgbot/bot.go:295-297`), so copying a contour is exact if and only if there are none
  (`Transfer.ImportIntoEmpty`).
- **A replica that shuts down is uncounted at once**, while its streams stay open for up to 20 seconds
  (`cmd/server/main.go:152-168`); a stream that registers after that counts until its row is a TTL old
  (`Connections.ShutdownUncounts`, `Connections.CountIsExact`).
- `internal/httpserver/helpers.go:9-11` and the repository's README name `service_connections` as
  the table behind the connection counts. The queries read `connection_clients`, and so does the model.

## Model

| member | source | states |
|---|---|---|
| `StoreTransactions.Store.UpsertVariable` | internal/store/variables.go:55-100 | fails exactly when one of its six statements fails and then changes nothing; otherwise, in consistent tables, it logs the value and author as a create or an update under the history's length plus one, makes that row current, reports it, and touches no other key |
| `StoreTransactions.Store.BulkUpsertVariables` | internal/store/variables.go:105-149 | all or nothing: fails exactly when a statement of some key fails, leaving both tables as they were; otherwise the tables and the reported changes are those of single upserts in some order that lists every entry once |
| `StoreTransactions.Store.DeleteVariable` | internal/store/variables.go:153-189 | not found exactly when the key is absent; a success, in consistent tables, removes the current row and logs the removed value, with the author, under the history's length plus one; no failure changes anything |
| `StoreTransactions.Store.RollbackVariable` | internal/store/variables.go:193-242 | in consistent tables: a target outside the key's history is not found, a delete row is refused, and any other row's value becomes a new version by the author, whatever kind of row it was, unless a statement fails; no failure changes anything |
| `VersionedStoreProofs.NextIsLength` | internal/store/variables.go:39-50 | in consistent tables MAX(version)+1 is the length of the key's history plus one, so numbering survives delete and recreate |
| `VersionedStoreProofs.UpsertLogs` | internal/store/variables.go:55-100 | in consistent tables an upsert appends one row, a create or an update by whether the key was current, with the value, the author and the next version, makes it current, and changes no other key |
| `VersionedStoreProofs.RemoveLogs` | internal/store/variables.go:153-189 | a delete is refused iff the key is absent; otherwise it appends the removed value as a delete row under the next version and removes exactly this key |
| `VersionedStoreProofs.RollbackLogs` | internal/store/variables.go:193-242 | which rollbacks are refused and how, in terms of the rows of the key's history; every other one appends the target row's value as a rollback row under the next version and makes it current |
| `VersionedStoreProofs.TransactConsistent` | internal/store/variables.go:55-242 | every transaction, refused or not, keeps each key's history legal and the current row in agreement with its last row |
| `VersionedStoreProofs.RunConsistent` | internal/store/variables.go:55-242 | the same after every run from empty tables |
| `VersionedStoreProofs.TableIsReplay` | internal/store/variables.go:55-242 | after every run the current table equals a replay of the log |
| `VersionedStoreProofs.RunGrammar` | internal/store/variables.go:62-77 | in every run each key's versions are 1..n, the first row is a create, creates follow only deletes, updates and deletes follow only a present row, a delete logs the value removed; the key is current iff its last row is no delete, with that row's value and version |
| `VersionedStoreProofs.TargetsFollowed` | internal/store/variables.go:200-235 | in every run a row is a rollback exactly if a target was asked for, and then it carries the value of that target's row, which is an earlier row of the key and no delete |
| `VersionedStoreProofs.RollbackOrigin` | internal/store/variables.go:193-242 | in every run, following the targets of rollbacks from any row that is no delete ends at a create or update row of the key with the same value, strictly earlier when the row is a rollback |
| `VersionedStoreProofs.OnlySuppliedValues` | internal/store/variables.go:193-242 | no run logs or makes current a value that no upsert of that very key supplied |
| `VersionedStoreProofs.BulkOrderIrrelevant` | internal/store/variables.go:113-144 | every iteration order of the map gives the same current table and the same history of every key |
| `VersionedStoreProofs.BulkSets` | internal/store/variables.go:113-144 | a bulk upsert leaves in each key it names exactly one more row, current, whatever the other entries do |
| `Fanout.Subscriber.TrySend` | internal/events/broker.go:99-113 | a wanted event enters the channel unless it holds 64, nothing else changes; received plus buffered stays the offered sequence with the dropped events left out |
| `Fanout.Subscriber.Receive` | internal/grpcserver/server.go:96-99 | takes the oldest buffered event and only that one |
| `Fanout.Broker.Subscribe` | internal/events/broker.go:73-78 | registers a fresh open channel that will be offered exactly what it wants of the events dispatched from now on |
| `Fanout.Broker.Cancel` | internal/events/broker.go:79-86 | removes and closes the channel once; calling it again does nothing, so nothing is closed twice |
| `Fanout.Broker.Dispatch` | internal/events/broker.go:99-113 | every registered channel changes as if it were alone: one for this service, or for all (id 0), gets the event unless it holds 64 (`DispatchInFull`), any other stays; no send on a closed channel |
| `Fanout.Broker.ListenLoop` | internal/events/broker.go:141-152 | exactly the payloads that decode are dispatched, in order; each channel ends as if it had been offered these events one by one |
| `Fanout.DecodedEach` | internal/events/broker.go:146-152 | a payload that does not decode is skipped and stops nothing that follows |
| `Fanout.AccountedNext` | internal/events/broker.go:106-111 | keeping or dropping the next event keeps the received sequence an in-order subsequence, equal to the whole one while nothing was dropped |
| `StreamServer.SendSnapshot` | internal/grpcserver/server.go:118-131 | the message carries key, value and version of every row read, in the order read; when the rows are those of one service, it is what the protocol reads as a snapshot, and applied it gives exactly the service's current variables |
| `StreamServer.Forward` | internal/grpcserver/server.go:91-105 | draining a channel sends its variable events in order and skips the others |
| `StreamServer.ForwardedSettles` | internal/grpcserver/server.go:133-146 | those messages, applied by a client, are what the protocol model calls settling the channel |
| `Events.SettleAt` | examples/go-client/configclient/client.go:176-186 | a key settles on the effect of the last event for it, or keeps its value when there is none |
| `Events.ListingIsVars` | examples/go-client/configclient/client.go:162-169 | a snapshot replaces the overrides with exactly the service's current variables |
| `DistributionProofs.CommitKeepsInv` | internal/httpserver/handlers_variables.go:55-62 | a commit keeps the protocol invariant: what is in flight per key ascends and ends with the latest version unless that one was lost |
| `DistributionProofs.PublishKeepsInv` | internal/events/broker.go:91-97 | so does publishing any event that is the first unpublished one of its key, heard by listening replicas and lost to the others |
| `DistributionProofs.PublishFailsKeepsInv` | internal/httpserver/handlers_variables.go:100-111 | so does a publication that fails and is only logged |
| `DistributionProofs.ListenDownKeepsInv` | internal/events/broker.go:117-127 | so does losing the LISTEN connection with everything queued on it |
| `DistributionProofs.DispatchKeepsInv` | internal/events/broker.go:99-113 | so does dispatching the next notification to all subscribers of a replica, full or not |
| `DistributionProofs.SubscribeEstablishes` | internal/grpcserver/server.go:66-70 | a new subscription satisfies the invariant, inheriting as lost exactly the latest versions overtaken by older events still arriving |
| `DistributionProofs.SnapshotKeepsClient` | internal/grpcserver/server.go:82-86 | so does reading the snapshot at any later moment, which repairs every earlier loss except where an older event of the key is still on its way |
| `DistributionProofs.SendKeepsClient` | internal/grpcserver/server.go:91-105 | so does sending the channel's next event |
| `DistributionProofs.ReceiveKeepsClient` | examples/go-client/configclient/client.go:156-192 | so does applying the next message |
| `DistributionProofs.DoKeepsInv` | internal/events/broker.go:73-153 | every step of the protocol keeps the invariant |
| `DistributionProofs.ExecInv` | internal/grpcserver/server.go:48-116 | every reachable state satisfies it, for any interleaving of commits, publications, losses, subscriptions, snapshots and receipts |
| `Convergence.LossIsContained` | internal/events/broker.go:99-113 | in every reachable state, whatever was lost, a client that has its snapshot drains to the store's value of every key whose latest version was not lost on the way to it |
| `Convergence.LostIsGone` | internal/events/broker.go:106-111 | a version recorded as lost was committed and is on its way to the client no longer |
| `Convergence.QuietClientDiffersOnlyOnLost` | internal/events/broker.go:69-72 | with nothing on its way, a client that differs from the store on a key has lost that key's latest version |
| `Convergence.CommitHeals` | examples/go-client/configclient/client.go:176-186 | once a transaction commits a new version of a key, every client with a snapshot drains to it again, whatever it had lost of that key |
| `Convergence.LossFreeConvergence` | internal/grpcserver/server.go:66-116 | in every reachable state of a loss-free run, wherever the subscription and the snapshot read fell, the client drains to exactly the service's current variables |
| `Convergence.LossFreeQuiescence` | internal/grpcserver/server.go:66-116 | so at quiescence the overrides equal the store |
| `Convergence.LossFreeLosesNothing` | internal/events/broker.go:106-111 | a run without failed publications, deaf replicas, dropped queues and full channels records no loss anywhere |
| `Convergence.OverlapAbsorbed` | internal/grpcserver/server.go:66-69 | for any log and i <= j, replaying the log from i over the state after j gives the state after the whole log |
| `Convergence.SettleIdempotent` | examples/go-client/configclient/client.go:176-186 | applying the same events once more, in order, changes nothing |
| `Convergence.LogSettles` | examples/go-client/configclient/client.go:161-187 | a client fed every event of the log from the start holds what the log makes current |
| `Convergence.SnapshotSettlesAt` | internal/grpcserver/server.go:66-86 | at every snapshot read of every run, whatever happened since the subscription, the client drains per key to the last version still on its way, or to the store's value when there is none; it drains to the store's value iff none is on its way or the last one has that value |
| `Convergence.NewSubscriptionSettlesAt` | internal/grpcserver/server.go:66-86 | the special case of a snapshot read right after the subscription, in terms of what is queued at the replica or not yet published |
| `Delivery.DrainedIsReached` | internal/grpcserver/server.go:91-105 | from every reachable state, publishing, dispatching, sending and receiving, in a bounded number of steps that can be taken, leave a client on a listening replica quiet and holding exactly what it was said to drain to |
| `Delivery.Flush` | internal/events/broker.go:131-152 | publishing and dispatching empty the unpublished events and a listening replica's queue, whatever the channels hold |
| `Delivery.Reconnect` | examples/go-client/configclient/client.go:121-159 | from any state a client can disconnect, subscribe to any replica, have its snapshot read and receive it, and then holds exactly the store's variables of its service, with on its way only what the replica has queued and what is unpublished |
| `Delivery.WaitingRecovers` | internal/events/broker.go:69-72 | from any state at all, whatever was lost, a client that subscribes anew once its replica has nothing queued and nothing is unpublished ends quiet with exactly the store's variables, without any further commit |
| `Components.PublishQueues` | internal/events/broker.go:91-97 | a publication joins the queue of every listening replica and of no other, and touches no stream |
| `Components.ListenDownForgets` | internal/events/broker.go:117-127 | a lost LISTEN connection empties the replica's queue and touches no stream |
| `Components.DispatchIsBroker` | internal/events/broker.go:99-113 | the protocol's dispatch step changes each channel of the replica as the broker's method does and leaves the streams connected and everything else as it was |
| `Components.LossesInFull` | internal/events/broker.go:99-127 | the steps that count as losses are exactly those after which a replica has not got a publication, a dispatcher a queued change, or a stream an event it wants |
| `Components.SendsAreForward` | internal/grpcserver/server.go:91-105 | send steps until the channel is empty put on the wire exactly what the stream server's loop sends |
| `Components.ClientIsLibrary` | examples/go-client/configclient/client.go:106-117 | in every reachable state the client library's configuration after the same messages is the defaults overlaid with the protocol client's overrides |
| `Components.ApplicationSeesStore` | examples/go-client/configclient/client.go:100-117 | after any run without loss, delivering what is on its way leaves the application with its defaults overlaid by exactly the store's current variables |
| `Anomalies.NewSubscriptionNeedNotHeal` | internal/events/broker.go:109-110 | a reachable run after which a fresh subscription with a correct snapshot drains to an old value |
| `Anomalies.GapNeedNotHeal` | internal/grpcserver/server.go:69-86 | a reachable run in which nothing of the key is on its way when the client subscribes, and which nevertheless ends at an old value, because of what happens before the snapshot is read |
| `Anomalies.ClientGoesBack` | internal/grpcserver/server.go:66-69 | a run without any loss in which a client that held the store's value holds an older one later, while the store does not change |
| `Anomalies.PublicationOrderMatters` | internal/httpserver/handlers_variables.go:55-62 | a reachable state in which publishing the newer of two changes first makes a connected client settle on the old value without any loss |
| `Unordered.ExecGenuine` | internal/httpserver/handlers_variables.go:55-62 | with publication in any order, everything on its way in every reachable state announces a logged change under its version |
| `Unordered.AnyOrderSettlesAt` | internal/httpserver/handlers_variables.go:94-112 | with publication in any order and whatever is lost, a client with its snapshot drains per key to the effect of the last event on its way, or keeps what it was sent; to the store's value if the latest version comes last |
| `Unordered.LossFreeAnyOrderSettlesAt` | internal/httpserver/handlers_variables.go:94-112 | with publication in any order but without loss, in every reachable state, quiet or not, a client drains per key to the effect of the last version that follows its snapshot, sent or on its way, or to the store's value when none does |
| `HeldVersions.ViewHeld` | examples/go-client/configclient/client.go:161-187 | without their versions, the entries a client was last sent are its overrides |
| `HeldVersions.HoldAllAt` | examples/go-client/configclient/client.go:176-187 | a client that ignores versions ends with the last of a key's events, whatever it held |
| `VersionGuard.UnguardedRefinesGuarded` | internal/grpcserver/server.go:66-68 | in every reachable state of a loss-free run, whatever the snapshot overlaps, the client that ignores versions and the version-checking one with tombstones drain to the same map, the store's, and both hold every live key, touched by later events or not, under the store's version |
| `VersionGuard.GuardAgreesUnlessLost` | internal/grpcserver/server.go:66-68 | in every reachable state of any run the two drain to the same entry for every key whose latest version was not lost |
| `VersionGuard.GoingBack` | internal/grpcserver/server.go:66-86 | at every snapshot read of every run: at some point while what is on its way arrives, the client holds an older version of a key than the snapshot gave it, iff the key is current and the first event of it on its way is older than the store's version |
| `VersionGuard.GoingBackWithoutLoss` | internal/grpcserver/server.go:66-69 | without loss that is so iff the key is current and at least two of its events are on their way |
| `VersionGuard.OnlyFirstTakesBack` | examples/go-client/configclient/client.go:176-187 | only the first event of a key that arrives can take the client back; from then on its version never falls |
| `VersionGuard.DeletedReappears` | examples/go-client/configclient/client.go:176-187 | at every snapshot read of every run, a deleted key shows a value again while the rest arrives iff some event of it on its way is no delete |
| `VersionGuard.ReceiveStepsBack` | examples/go-client/configclient/client.go:161-187 | in every reachable state a received message takes the client to the version it carries, and the overrides are what these entries show; it never lowers a version of the version-checking client |
| `VersionGuard.GuardNeverGoesBack` | internal/grpcserver/server.go:66-68 | no step of any run lowers a version that the version-checking client has recorded |
| `VersionGuard.GuardWouldHeal` | internal/grpcserver/server.go:66-86 | at every snapshot read of every run a version check would let the client drain to the store's value and version of every live key; for a deleted key it would do no better than ignoring versions |
| `ConfigClient.GoClient.constructor` | examples/go-client/configclient/client.go:91-98 | a new client publishes the defaults before it has connected |
| `ConfigClient.GoClient.Load` | examples/go-client/configclient/client.go:100-102 | readers are given the object published last |
| `ConfigClient.GoClient.Handle` | examples/go-client/configclient/client.go:161-195 | with readers at any point, also while maps are filled, one message makes the overrides those after it, publishes a new object, and leaves every object published or loaded before as it was; the change callback is told the new value, after a delete the default or, without one, the empty string |
| `ConfigClient.LoadsArePrefixes` | examples/go-client/configclient/client.go:30-34 | at any moment every configuration ever loaded holds the defaults overlaid with the overrides after a complete prefix of the messages, and successive loads never go back to a shorter prefix |
| `ConfigClient.LoadsUnchanged` | examples/go-client/configclient/client.go:30-34 | between any two moments no configuration a reader holds has changed |
| `ConfigClient.GoClient.Merge` | examples/go-client/configclient/client.go:106-115 | the new map is the defaults overlaid with the overrides, whatever readers load while it is filled |
| `ConfigClient.GoClient.Rebuild` | examples/go-client/configclient/client.go:106-117 | the object swapped in is new and not reachable through the overrides |
| `ConfigClient.DeleteFallsBack` | examples/go-client/configclient/client.go:181-182 | a delete makes its key fall back to the default and touches no other key |
| `ConfigClient.OverrideWins` | examples/go-client/configclient/client.go:106-115 | in the configuration an override wins over the default of its key, and a key with neither is absent |
| `ConfigClient.JavaClient.Handle` | examples/java-client/src/main/java/com/example/dynoconf/DynoconfConfigClient.java:159-200 | the same for the Java client, which clears and refills one map in place, is silent on heartbeats, and tells its callback null where Go tells the empty string |
| `ConfigClient.FeedBoth` | examples/java-client/src/main/java/com/example/dynoconf/DynoconfConfigClient.java:159-200 | fed the same messages over the same defaults, both clients hold the same configuration |
| `Backoff.RunLoop` | examples/java-client/src/main/java/com/example/dynoconf/DynoconfConfigClient.java:114-134 | the wait after a failed stream is min(2^n, 30) seconds, n being the failures in a row before it |
| `Backoff.FirstWait` | examples/java-client/src/main/java/com/example/dynoconf/DynoconfConfigClient.java:114-134 | no wait follows a stream that ended cleanly; the first failure of all, and the first after a clean stream, is followed by one unit |
| `Backoff.DoubledWait` | examples/java-client/src/main/java/com/example/dynoconf/DynoconfConfigClient.java:114-134 | the waits after two failures in a row are some wait and twice that wait, up to 30 units |
| `Backoff.GoNeverResets` | examples/go-client/configclient/client.go:121-159 | since every Go stream ends in an error, the i-th wait of a process is min(2^i, 30) seconds whatever happened in between |
| `Handlers.Api.PutVariable` | internal/httpserver/handlers_variables.go:34-66 | which status for which key and failures; a success stores one upsert and publishes exactly the row it appended; anything else changes and publishes nothing |
| `Handlers.Api.DeleteVariable` | internal/httpserver/handlers_variables.go:68-92 | the same for deletes, published as deletes |
| `Handlers.Api.RollbackVariable` | internal/httpserver/handlers_history.go:51-82 | version 0 or less is a bad request; in consistent tables a version beyond the history is not found, a delete row a bad request, and any other success appends exactly the target's value as a rollback row by the author and publishes it as an upsert |
| `Handlers.Api.BulkUpsert` | internal/httpserver/handlers_features.go:101-135 | one invalid key refuses the whole request before the database is touched; a success applies every entry once, reports their number and publishes one event per appended row, in the log's order |
| `Handlers.OneAnnouncement` | internal/httpserver/handlers_variables.go:96-112 | the event published for a change is the one the appended row stands for |
| `Handlers.AcceptedKeys` | internal/httpserver/handlers_services.go:16 | the accepted keys are the non-empty strings over the 26 letters in both cases, the digits, underscore, dot and hyphen |
| `Handlers.BulkAnnouncements` | internal/httpserver/handlers_features.go:129-131 | publishing the reported changes one by one announces exactly the appended rows |
| `Transfer.Contour.Export` | internal/httpserver/handlers_export.go:32-53 | the document lists every service once, with its name, description and exactly its current variables |
| `Transfer.Contour.Import` | internal/httpserver/handlers_export.go:73-131 | a success merges the document and nothing else; created + existing is the number of entries; imported variables is both the number of rows appended and of events published; an empty document changes nothing; an empty service key stops it with exactly the entries before it merged; after a database failure each variable stands where the completed entries leave it or where the failing entry would; whatever happens, the log only grows and all appended rows are announced |
| `Transfer.Contour.ImportEntry` | internal/httpserver/handlers_export.go:92-130 | one entry creates its service if missing, sets its acceptable variables once each under the importer's name and changes no other variable |
| `Transfer.ImportOfExport` | internal/httpserver/handlers_export.go:92-130 | importing an export of one contour into another overlays the target's variables with the source's, service by service, and keeps everything else of the target |
| `Transfer.ImportIntoEmpty` | internal/httpserver/handlers_export.go:97-128 | into a contour without services an export reproduces the services with their descriptions and, unless empty, names, and the variables of each one exactly if and only if every key among them matches the key pattern |
| `Transfer.Reimport` | internal/httpserver/handlers_export.go:117-128 | importing a document again changes no value and raises each variable's version by exactly the number of entries that set it |
| `Transfer.ReimportServices` | internal/httpserver/handlers_export.go:97-115 | and leaves all services as they are |
| `Connections.ConnectionTable.Register` | internal/store/connections.go:6-14 | the row counts as live from now on and no other row changes; a row that was there keeps its service, peer and time of connection; the service's set of live rows gains exactly this one |
| `Connections.ConnectionTable.Unregister` | internal/store/connections.go:17-21 | every service's set of live rows loses exactly this one |
| `Connections.ConnectionTable.Touch` | internal/store/connections.go:25-29 | sets the time of every row of the replica and nothing else of them; rows of other replicas stay as they are |
| `Connections.ConnectionTable.Purge` | internal/store/connections.go:86-91 | keeps exactly the rows not older than the TTL, as they are, and so changes no service's count |
| `Connections.ConnectionTable.Clear` | internal/store/connections.go:94-98 | removes the replica's rows and no others |
| `Connections.ConnectionTable.ActiveConnections` | internal/store/connections.go:32-39 | counts the service's rows touched within the TTL |
| `Connections.ConnectionTable.ActiveConnectionsAll` | internal/store/connections.go:42-61 | the grouped query carries for each service the count of the single query, and leaves out the services at zero |
| `Connections.ConnectionTable.ListConnectionClients` | internal/store/connections.go:64-83 | the detail view lists exactly the rows the counts count, each once, ordered by replica in the database's collation and then by time of connection |
| `Connections.ExecInv` | internal/grpcserver/conntracker.go:37-94 | in every reachable state a live replica's rows are exactly its open streams, none older than its last heartbeat, and a draining replica's rows are open streams |
| `Connections.CountIsExact` | internal/grpcserver/conntracker.go:14-94 | a service's count is its open streams on live replicas plus the rows touched less than 30 s ago of replicas that no longer beat |
| `Connections.ShutdownUncounts` | cmd/server/main.go:152-168 | a shutdown takes the replica's rows out of every count at once, leaves its streams open, and affects no other replica |
| `Connections.PurgeIsInvisible` | internal/grpcserver/conntracker.go:78-83 | a purge changes no count and removes no row of an open stream on a live replica |
| `Connections.OrphansExpire` | internal/grpcserver/conntracker.go:12-14 | when no row of a replica that no longer beats is younger than the TTL, the count is exactly the open streams on live replicas |
| `Connections.CountRecovers` | internal/grpcserver/conntracker.go:12-94 | from any reachable state, whatever else happens: once 30 s have passed in which no replica exited leaving rows and no stream opened on a draining replica, the count is exactly the open streams on live replicas; no other replica's heartbeat keeps a row young |
| `Connections.OrphaningMiscounts` | internal/grpcserver/conntracker.go:12-94 | each step excepted there does make some service's count exceed its open streams on live replicas |
| `EnvFile.WriteEnv` | cmd/agent/main.go:83-94 | whatever order the map yields, the text is one line per key in strictly ascending key order, and it decodes to the map when no key contains an equals sign or a newline |
| `EnvFile.KeyListUnique` | cmd/agent/main.go:84-88 | there is only one such list of keys, so the bytes do not depend on iteration order |
| `EnvFile.StringLessFirstDifference` | cmd/agent/main.go:88 | the order is lexicographic: a is less than b iff they agree up to some place where a ends, and b does not, or a has the smaller character |
| `EnvFile.UnescapeEscape` | cmd/agent/main.go:106-110 | the one-pass escape has an inverse |
| `EnvFile.EscapePieces` | cmd/agent/main.go:106-110 | a backslash, a double quote and a newline are escaped wherever they stand, and no other character is changed |
| `EnvFile.EscapeHasNoNewline` | cmd/agent/main.go:106-110 | a rendered value never contains a raw newline |
| `EnvFile.DecodeRendered` | cmd/agent/main.go:89-93 | splitting the file into lines and decoding them gives back the map, for all values and all keys without '=' and newline |
| `EnvParser.ParseEnv` | web/src/pages/ServiceDetail.tsx:344-358 | the loop computes, line by line, what the laws below say of lines |
| `EnvParser.TrimSplits` | web/src/pages/ServiceDetail.tsx:348 | trimming takes the 25 whitespace characters of ECMAScript, the carriage return among them, off both ends of a string and nothing else |
| `EnvParser.LineWithoutBinding` | web/src/pages/ServiceDetail.tsx:348-351 | a line binds nothing iff, trimmed, it is empty, starts with '#' or '=', or has no '=' |
| `EnvParser.LineWithBinding` | web/src/pages/ServiceDetail.tsx:349-356 | any other line is split at its first '='; key and value are trimmed and the value unquoted |
| `EnvParser.UnquoteLayer` | web/src/pages/ServiceDetail.tsx:353-355 | one layer of double quotes is removed, and nothing else |
| `EnvParser.LastLineWins` | web/src/pages/ServiceDetail.tsx:345-357 | of the lines that bind a key the last one decides its value |
| `EnvParser.UnboundIsAbsent` | web/src/pages/ServiceDetail.tsx:345-357 | a key no line binds is not in the result, and `__proto__` never is |
| `EnvParser.LineEndsDoNotMatter` | web/src/pages/ServiceDetail.tsx:346-348 | a text with CRLF line ends parses as the same text with LF |
| `EnvParser.ParseBinding` | web/src/pages/ServiceDetail.tsx:349-355 | a line KEY=rest binds KEY to the trimmed and unquoted rest, however it ends |
| `EnvParser.ParseUndoesRendering` | web/src/pages/ServiceDetail.tsx:344-358 | the parser reads the agent's file back exactly iff no value contains a backslash, a double quote or a newline and no key is `__proto__` |
| `EnvParser.ParseUndoesListing` | cmd/cli/main.go:125-134 | it reads the CLI listing back exactly, in any order, iff every value is free of newlines, trimmed and not itself quoted, and no key is `__proto__` |
| `AuditLog.Log.Insert` | internal/store/audit.go:9-21 | appends a row under a higher id; the surviving rows stay a suffix of all rows ever inserted |
| `AuditLog.Log.Prune` | internal/store/audit.go:26-39 | leaves the newest min(keep, number of rows) rows, which are the newest `keep` of all rows ever inserted, or everything when `keep` is 0 or less, and reports exactly the number removed |
| `AuditLog.PruneKeepsNewest` | internal/store/audit.go:30-34 | deleting the ids below the minimum of the newest `keep` is keeping the newest `keep` rows |
| `AuditLog.PruneSurvives` | internal/store/audit.go:30-34 | one prune keeps the newest rows of everything ever inserted, not only of what it found |
| `AuditLog.RunSurvives` | cmd/server/main.go:180-203 | after every run of inserts and prunes the surviving rows are a suffix of everything inserted with at least min(keep, total) rows, and right after a prune with exactly that many |

## Left out

- Row ids and timestamps of variables and history (`id`, `updated_at`, `changed_at`), and the 64-bit width of versions.
- A commit whose outcome the client of the database never learns: a failed commit counts as rolled back.
- Concurrent transactions on one key, and publication out of commit order, beyond the counterexample: the code guarantees neither.
- NOTIFY itself: one totally ordered channel per listening replica, nothing reordered; a payload that does not encode counts as a failed publication.
- Subscriptions to all services (id 0, the web page's event stream): modelled in the broker (`Fanout.dfy`), not as clients of the protocol.
- The service key carried by events, which no gRPC client reads.
- Streams opened with `send_snapshot=false`, heartbeat messages on streams, unknown service keys at Subscribe.
- Connection errors inside one stream: a failed send is a disconnect.
- The client's mutex, loggers and callbacks other than what callbacks are told.
- The map of defaults, which the caller passes in and could change afterwards: it is a value here. What readers do to the copies that Go's `All` gives them.
- AuditLog.Log.Insert: the JSON encoding of details, and rows that become visible out of id order.
- Connections.CountIsExact: assumes that database calls succeed, that ids are fresh and that a live replica's heartbeats are less than 30 s apart, as the tracker intends; failed heartbeats are only logged there.
- EnvFile.WriteEnv: the JSON branch, the temporary file and its rename; `sort.Strings` is modelled by insertion into a sorted list, compared by code point rather than by UTF-8 byte, which is the same order.
- EnvParser.ParseEnv: characters are code points, not UTF-16 units; no character it tests is affected.
- Transfer.Contour.Import: does not say which of a failing entry's variables were already set, because that depends on map iteration order.
- Transfer.Contour.Export: an empty contour exports a null list of services; the body size limit and JSON decoding of imports are left out.
- Deletion of services, tags, favorites, users, permissions, search, settings, and authorization.
- JSON, gRPC and HTTP encoding, server-sent events, OIDC, cookies and tokens, and the Telegram bot beyond its `/set` command as one more upsert.
