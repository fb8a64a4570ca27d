# Verified model of the masterfabric gateway

A Dafny model of the hard parts of a multi-tenant API gateway written in Go: the policy gate and its Redis
rate limiter, the permission cache, the dynamic CRUD handler, the event transports, and the interceptors
that rewrite requests and responses. `dafny verify dfyconfig.toml` checks the whole project.

Code that changes things step by step is a class or a method with a loop, proved against a function or a
state machine. The promises are then proved of that function or machine, for every input, every run and
every interleaving. Postgres, Redis and Kafka are small state machines inside the model. They are assumed to
execute single commands atomically, never to return a key that has expired, and to let a commit of an offset
cover every earlier offset of its partition.

| module | what it models |
|---|---|
| `RateLimiter` | INCR and EXPIRE of one rate key as separate commands of concurrent requests; either may be delayed, lost or sent again |
| `PolicyGate` | the checks of `Enforce` in order, and many requests going through the gate interleaved |
| `RoleStore`, `PermissionCache`, `RbacService` | the role tables and their join; the cache as single Redis and database commands of any readers and writers; the service and `AssignRole` as objects whose operations do not overlap |
| `GatePermissions` | the gate and the permission cache as one system: requests whose checks read through the cache while roles change |
| `Sql`, `DynamicHandler`, `TenantIsolation` | a small SQL evaluator; the INSERT and UPDATE builders and the handlers; runs of calls by many tenants on one table |
| `InProcessBus` | the bounded channel, the dispatcher and the handler lists |
| `EndpointLifecycle`, `EventReplay` | defining, retiring and activating endpoints, and replay of their events, directly and through the bus |
| `KafkaConsumer` | fetch, dispatch and commit on one partition, with crashes and restarts |
| `PiiMasker`, `Templates`, `InterceptorChain` | in-place masking of JSON trees; template variables; the interceptor chain |
| `EventTypes`, `Pagination` | dotted event type names; page arithmetic |
| `Headers`, `Results`, `Text` | shared types and ASCII letter case |

## What the proofs found

- The comment on `checkRateLimit` calls it a sliding window. It is a fixed window that opens at the first INCR.
  Any `k` windows in a row admit at most `(k+1)·L - 1` requests, timed at their INCR, and some run attains that
  number for every `L` and `k` (`RateBound`, `BoundAttained`). A limit is shut out for ever exactly when the key has
  no TTL, no EXPIRE is on its way and the count has reached the limit (`RefusesForeverExactlyWhen`); one lost EXPIRE
  is enough to get there (`StuckIsReachable`).
- `AssignRole` deletes the cache entry after its insert, but a reader between its database read and its SET can
  put the old list back (`DelIsNotEnough`). Later reads see the grant exactly when no readable entry and no pending
  SET lacks something (`InvalidationWorksExactlyWhen`). A user's first grant is the exception: it is seen even if the
  DEL fails, because empty lists are never cached (`FirstGrantIsSeen`).
- Removing a role or a permission never invalidates. Later reads answer no more than the tables then grant exactly
  when no readable entry and no pending SET holds anything else (`RevocationSeenExactlyWhen`). Otherwise the bound on
  staleness is attained: TTL + read-to-SET delay + return delay, less a nanosecond (`RevokedRoleLingers`).
- A NULL `app_id` equals nothing, so the uniqueness constraint on role assignments keeps one row for each key exactly
  when the key has an app (`UniqueExactlyWhen`).
- The consumer's comment promises at-least-once delivery. A message can be handed out again after a restart exactly
  as long as no later offset has been committed (`RedeliveredExactlyWhen`); a failed message can be lost that way
  (`FailedMessageLost`).
- The masker leaves a list inside a list, and a body that is a list, as they are. A body comes out clean exactly
  when nothing sensitive stands in such a place (`CleanExactlyWhen`, `BodyCleanExactlyWhen`, `NestedListLeak`, `ListBodyLeak`).
- For values without braces and a chain of any length, the chain of `ReplaceAll` calls is one simultaneous
  substitution for every template exactly when no value occurs between the braces of a later placeholder
  (`OnePassExactlyWhen`). With the organization `er`, `{us{org_id}_id}` becomes `{user_id}` and is replaced once more
  (`GatewayNamesCanCollide`). The gateway itself only ever puts UUID strings in the context, and those and decimal
  status codes are safe (`GatewayTemplates`).
- A full event queue drops endpoint events silently. What a consumer then believes of an endpoint is right exactly
  when it has seen some event of it and an even number was dropped after the last one it saw
  (`BusReplayRightExactlyWhen`); a queue of one and two use cases are enough for it to be wrong (`DropBreaksReplay`).
- A record that does not exist is answered with status 500, as any database error is (`HandleGeneric`, `StepAnswers`).

## Model

| member | source | states |
|---|---|---|
| RateLimiter.RateBound | internal/gateway/pipeline.go:252-271 | in every interleaving of INCR and EXPIRE, with EXPIRE late, lost or repeated and limits changing below L, any k windows of 60 seconds admit at most (k+1)L-1 requests (2L-1 for one window) |
| RateLimiter.BoundAttained | internal/gateway/pipeline.go:252-271 | for every limit and every number of windows there is a run that admits exactly that many, so the bound is exact |
| RateLimiter.RunKeepsInv | internal/gateway/pipeline.go:255-264 | in every reachable state a TTL lasts at least a window from the first INCR of the key, so the key is never gone, and counting never starts again, before that |
| RateLimiter.OneExpireOutstanding | internal/gateway/pipeline.go:260-264 | in every run in which no EXPIRE is sent twice, at most one is outstanding, and while it is the key is there without a TTL |
| RateLimiter.IncarnationAdmitsFirst | internal/gateway/pipeline.go:260-270 | in every run, if its calls had one limit and no lost answer, the present incarnation of the key has admitted exactly min(count, L) |
| RateLimiter.LostExpireRefusesForever | internal/gateway/pipeline.go:260-268 | once the EXPIRE is lost and the count has reached a limit, no later call under that limit is admitted |
| RateLimiter.RefusesForeverExactlyWhen | internal/gateway/pipeline.go:252-271 | after any run, no continuation ever admits a call under a limit if and only if the key has no TTL, no EXPIRE is outstanding and the count has reached the limit |
| RateLimiter.StuckIsReachable | internal/gateway/pipeline.go:260-263 | for every limit, one lost EXPIRE leads to that state |
| RateLimiter.Limiter.CheckRateLimit | internal/gateway/pipeline.go:252-271 | the new key and the answer for each case of a readable, missing or expired key and of a failing INCR or EXPIRE |
| PolicyGate.Screen | internal/gateway/pipeline.go:70-139 | for every request, which verdict it gets and exactly when: paths under `/health`, `/api/v1/auth` and `/api/v1/admin` pass; otherwise the endpoint is looked up with a leading `/api/v1` removed, and each of the refusals, the need for a token and the free pass is given if and only if its condition holds |
| PolicyGate.GateRateBound | internal/gateway/pipeline.go:133-139 | every (app, endpoint) counter keeps its rate bound whatever else the gate's requests do |
| PolicyGate.GateAccounting | internal/gateway/pipeline.go:100-186 | a counter was incremented once for each request that needed a token of it, except those still waiting or whose INCR failed; those that reached the backend are among the admitted ones |
| PolicyGate.CountDecides | internal/gateway/pipeline.go:252-271 | a request is admitted if and only if its INCR was answered with a count within the limit; count 1 owes the EXPIRE |
| PolicyGate.AnswersBecomeOutcomes | internal/gateway/pipeline.go:160-206 | an interceptor's refusal, a failing backend, its answer and its absence each end the request with their own outcome |
| PolicyGate.WhyDone | internal/gateway/pipeline.go:69-218 | in every run a request that has ended did so by its verdict, or by a limit that did not admit it, or by an interceptor, or by the backend it called |
| PolicyGate.OwnStepsEnd | internal/gateway/pipeline.go:69-218 | a request changes by its own steps only, and each takes it nearer to its outcome |
| PolicyGate.OneOutcome | internal/gateway/pipeline.go:69-218 | an outcome, once given, is never changed |
| PolicyGate.EveryRequestCanEnd | internal/gateway/pipeline.go:69-218 | from every reachable state every request can be brought to an outcome |
| PolicyGate.NeverStuck | internal/gateway/pipeline.go:69-218 | a request without an outcome always has a step it can take |
| GatePermissions.BackendCallersWerePermitted | internal/gateway/pipeline.go:110-131 | in every interleaving of requests, readers and role changes, whoever reached a backend whose policy asks for a permission held it, by the role tables, at an instant no older than the request's arrival less the TTL and the read-to-SET delay, and before the check |
| GatePermissions.RunKeepsInv | internal/gateway/pipeline.go:113-131 | every verdict was given on a read of that user's permissions that began after the request arrived, and a request let through had the permission in the list that read returned |
| RoleStore.AssignJoins | internal/infrastructure/postgres/iam/role_repository.go:142-158 | assigning a role adds exactly that role's permissions to the user's join in that organization and changes nobody else's |
| RoleStore.GrantsGrow | internal/infrastructure/postgres/iam/role_repository.go:100-158 | assignments and added permissions never take anything from any join |
| RoleStore.AdditionJoins | internal/infrastructure/postgres/iam/role_repository.go:100-109 | adding a permission to a role gives it to exactly those who have the role, and changes nothing else in any join |
| RoleStore.RemovalJoins | internal/infrastructure/postgres/iam/role_repository.go:160-168 | taking a role from a user leaves, in every organization, exactly what the user's other roles give, and changes nobody else's join |
| RoleStore.PermissionRemovalJoins | internal/infrastructure/postgres/iam/role_repository.go:111-120 | taking a permission from a role takes it exactly from the users who have it by no other role, and takes nothing else |
| RoleStore.RevokesShrink | internal/infrastructure/postgres/iam/role_repository.go:111-168 | removals never add anything to any join |
| RoleStore.UniqueExactlyWhen | internal/infrastructure/postgres/iam/role_repository.go:148-152 | whatever changes an empty table goes through, a (user, role, organization, app) key keeps at most one row, if and only if the app is present |
| RoleStore.RoleRepo.AssignRoleToUser | internal/infrastructure/postgres/iam/role_repository.go:142-158 | inserts the row unless it conflicts |
| RoleStore.RoleRepo.RemoveRoleFromUser | internal/infrastructure/postgres/iam/role_repository.go:160-168 | the new tables; `RemovalJoins` says what that does to every join |
| RoleStore.RoleRepo.AddPermissionTo | internal/infrastructure/postgres/iam/role_repository.go:100-109 | the new tables; `AdditionJoins` says what that does to every join |
| RoleStore.RoleRepo.RemovePermissionFrom | internal/infrastructure/postgres/iam/role_repository.go:111-120 | the new tables; `PermissionRemovalJoins` says what that does to every join |
| RoleStore.RoleRepo.GetUserPermissions | internal/infrastructure/postgres/iam/role_repository.go:191-212 | the rows are the join, each permission once, in some order |
| PermissionCache.BoundedStaleness | internal/infrastructure/auth/rbac_service.go:31-56 | under any role changes, every answer is the role join of a past instant no older than the TTL, plus its filling reader's read-to-SET delay, plus the delay in returning it |
| PermissionCache.RunKeepsInv | internal/infrastructure/auth/rbac_service.go:31-56 | every cached list and every list in flight was the join when it was read, no empty list is cached, and an entry expires one TTL after its SET |
| PermissionCache.NoOverGrant | internal/infrastructure/auth/rbac_service.go:31-56 | under grants alone no cached list, no list in hand and no list of a SET still on its way or to be repeated grants more than the tables do |
| PermissionCache.FirstGrantIsSeen | internal/infrastructure/auth/rbac_service.go:47-53 | a user's first grant is seen by every read that starts after it, whatever happens to DEL |
| PermissionCache.StaysInformed | internal/infrastructure/auth/rbac_service.go:31-56 | once no readable entry and no pending SET lacks a grant, no later reader under grants alone is told of less; likewise, with more in place of less, under revocations alone |
| PermissionCache.InvalidationWorksExactlyWhen | internal/application/iam/usecase/assign_role.go:36-41 | after an assignment, with its DEL done or failed, all later reads see the grant if and only if no readable entry and no pending SET, waited for or not, lacks something |
| PermissionCache.AnswersAreFresh | internal/application/iam/usecase/assign_role.go:28-41 | when nothing is read between an insert and its DEL, every answer of every run is the current join |
| PermissionCache.RedisIsOptional | internal/infrastructure/auth/rbac_service.go:31-56 | from every state, a read whose Redis commands all fail answers the present join and leaves the cache alone |
| PermissionCache.RevocationSeenExactlyWhen | internal/infrastructure/postgres/iam/role_repository.go:111-168 | after a removal, which never invalidates, all later reads under revocations answer no more than the tables then grant if and only if no readable entry and no pending SET holds anything else |
| PermissionCache.InvalidationRaces | internal/application/iam/usecase/assign_role.go:36-41 | for any assignment that adds something to a non-empty join, a run in which insert and DEL both get through and later reads still miss it |
| PermissionCache.DelIsNotEnough | internal/application/iam/usecase/assign_role.go:36-41 | a concrete such run: a reader of orders who is given a role that writes them |
| PermissionCache.RevokedRoleLingers | internal/infrastructure/auth/rbac_service.go:31-56 | for every read-to-SET delay d and return delay e, a run in which a removed role is answered TTL + d + e - 1 after it was removed, so the staleness bound is exact |
| RbacService.Service.GetUserPermissions | internal/infrastructure/auth/rbac_service.go:31-56 | the answer is the readable entry or the join; the cache is filled only after a miss, only with a non-empty list, for one TTL; a coherent cache stays coherent |
| RbacService.Service.HasPermission | internal/infrastructure/auth/rbac_service.go:58-69 | true exactly if the permission is among those visible |
| RbacService.Service.HasAnyPermission | internal/infrastructure/auth/rbac_service.go:71-86 | true exactly if `HasPermission` would be of one of them |
| RbacService.Service.InvalidateCache | internal/infrastructure/auth/rbac_service.go:88-93 | removes that entry and no other; without Redis it succeeds and does nothing |
| RbacService.AssignRoleUseCase.Execute | internal/application/iam/usecase/assign_role.go:28-52 | the new tables and cache, and the event; a coherent cache is coherent afterwards exactly if the DEL got through, nothing was left to read, or the role added nothing |
| RbacService.AssignRoleUseCase.Serve | internal/application/iam/usecase/assign_role.go:28-52 | over any sequence of reads and assignments whose DELs get through, with any other command failing, every answer is the join of the tables at its turn |
| Sql.NewestSorts | internal/gateway/dynamic_handler.go:327-330 | ORDER BY created_at DESC gives a permutation of the rows in which none is newer than an earlier one |
| Sql.NewestFirst | internal/gateway/dynamic_handler.go:327-330 | read off the rows: their times go down, and rows without one come first |
| DynamicHandler.BuildInsert | internal/gateway/dynamic_handler.go:389-414 | for any input and range order: distinct columns, `$1`, `$2`, ... each used once and bound to the value of its column in the input overridden by the fixed columns |
| DynamicHandler.BuildUpdate | internal/gateway/dynamic_handler.go:431-457 | the same for the assignments, and the filter's placeholders are the last three, bound to id, organization and app |
| DynamicHandler.WritesAssign | internal/gateway/dynamic_handler.go:393-406 | such columns and placeholders assign exactly the intended record |
| DynamicHandler.InsertMeans | internal/gateway/dynamic_handler.go:408-417 | the compiled INSERT does what creating the record does: fixed columns win, absent columns default, unknown columns and a used id are errors |
| DynamicHandler.UpdateMeans | internal/gateway/dynamic_handler.go:437-463 | the compiled UPDATE changes the given columns of the rows with that id, organization and app, and nothing else |
| DynamicHandler.ChangesUpdate | internal/gateway/dynamic_handler.go:437-449 | column by column: an update writes every given value and the time, and leaves the rest as it was |
| DynamicHandler.NewRecordIsCreated | internal/gateway/dynamic_handler.go:394-406 | column by column: a new record has every given value, the fixed columns and defaults |
| DynamicHandler.FilterMeans | internal/gateway/dynamic_handler.go:451-457 | the numbered filter selects exactly the addressed record of that tenant |
| DynamicHandler.Handler.HandleList | internal/gateway/dynamic_handler.go:306-357 | a listing exactly if the columns exist and the offset is not negative: the tenant's records newest first, the limit as given from 1 to 100 and otherwise 20, the rows from the offset on, and the total |
| DynamicHandler.Handler.HandleGet | internal/gateway/dynamic_handler.go:360-386 | a record of the table with that id, organization and app, exactly if there is one |
| DynamicHandler.Handler.HandleCreate | internal/gateway/dynamic_handler.go:389-428 | exactly if the columns exist and the id is unused, one row is added and answered: every given value in its column, the five fixed columns, defaults elsewhere |
| DynamicHandler.Handler.HandleUpdate | internal/gateway/dynamic_handler.go:431-474 | row by row: an addressed record has every given value in its column, the new time, and all else as it was; every other row is unchanged; a record is answered exactly if one was addressed |
| DynamicHandler.Handler.HandleDelete | internal/gateway/dynamic_handler.go:477-496 | exactly the addressed rows are gone, and the answer says whether there were any |
| DynamicHandler.Handler.HandleGeneric | internal/gateway/dynamic_handler.go:216-303 | the refusals in order with their statuses; for each action, in any letter case, its operation on the tenant of the request, with no input for GET and DELETE; 400 and an untouched table for any other action |
| DynamicHandler.StepAnswers | internal/gateway/dynamic_handler.go:306-496 | a call answers with what its operation asks for, or fails for a bad id, a missing record or a database error |
| TenantIsolation.NonInterference | internal/gateway/dynamic_handler.go:306-496 | for any interleaving of calls by many tenants with fresh ids, deleting all other tenants' calls changes neither a tenant's answers nor its rows |
| TenantIsolation.AloneInTheTable | internal/gateway/dynamic_handler.go:306-496 | nor does deleting the other tenants' rows |
| TenantIsolation.MyCall | internal/gateway/dynamic_handler.go:306-496 | a call's answer and effect on the tenant's rows depend on the tenant's rows alone |
| TenantIsolation.OthersCall | internal/gateway/dynamic_handler.go:389-496 | a call leaves every other tenant's rows as they were, in the same order |
| TenantIsolation.TouchesAtMostOne | internal/gateway/dynamic_handler.go:431-496 | after any run an id addresses at most one row |
| TenantIsolation.FailureChangesNothing | internal/gateway/dynamic_handler.go:389-496 | a call that fails has left the table as it was |
| TenantIsolation.CreatedIsRead | internal/gateway/dynamic_handler.go:360-428 | after a create and any calls by anybody that spare the record, GET answers exactly the created record |
| TenantIsolation.UpdatedIsRead | internal/gateway/dynamic_handler.go:360-474 | after an update and any calls that spare the record, GET answers the old record with every given value in its column, the new time, and all else as it was |
| TenantIsolation.RemovedIsGone | internal/gateway/dynamic_handler.go:360-496 | after a delete, GET answers not found |
| InProcessBus.BusConserves | internal/shared/events/inprocess.go:44-82 | in every reachable state the accepted events are dispatched, then in hand, then queued, in order; the queue never exceeds its capacity; events are dropped only when it is full; once the dispatcher is done all accepted events were dispatched |
| InProcessBus.HandlerGetsItsRun | internal/shared/events/inprocess.go:55-82 | each handler gets, once each and in order, a contiguous run of its topic's events from the first one started after its subscription |
| InProcessBus.CloseDelivers | internal/shared/events/inprocess.go:63-67 | when Close returns, each handler has had every accepted event of its topic since its subscription |
| InProcessBus.Bus.Publish | internal/shared/events/inprocess.go:44-52 | appends the event or drops it when the buffer is full |
| InProcessBus.Bus.Subscribe | internal/shared/events/inprocess.go:55-60 | appends the handler to its topic's list |
| InProcessBus.Bus.DispatchOne | internal/shared/events/inprocess.go:69-82 | one turn takes the oldest event and leaves it dispatched, with every handler of its topic called once |
| InProcessBus.Bus.Close | internal/shared/events/inprocess.go:63-67 | whatever the dispatcher has in hand, returns with all accepted events dispatched, in order |
| EndpointLifecycle.EventsAreLawful | internal/application/apimanagement/usecase/define_endpoint.go:28-70 | over any run, with lookups and writes failing at will, an endpoint's events are Created, then Retired and Activated in turn |
| EndpointLifecycle.ReplayGivesStatuses | internal/application/apimanagement/usecase/retire_endpoint.go:27-50 | folding everything that was published gives exactly the stored statuses |
| EndpointLifecycle.ReplayRightExactlyWhen | internal/shared/events/inprocess.go:44-52 | after arbitrary drops a consumer is right about an endpoint if and only if it never existed, or some event survived and an even number was dropped after the last survivor |
| EndpointLifecycle.Endpoints.DefineEndpoint | internal/application/apimanagement/usecase/define_endpoint.go:28-70 | duplicate check, default version, creation as active, event |
| EndpointLifecycle.Endpoints.RetireEndpoint | internal/application/apimanagement/usecase/retire_endpoint.go:27-50 | guarded transition to retired, and its event only if the row was stored |
| EndpointLifecycle.Endpoints.ActivateEndpoint | internal/application/apimanagement/usecase/activate_endpoint.go:27-50 | guarded transition to active, and its event only if the row was stored |
| EventReplay.BusReplaysToStore | internal/shared/events/inprocess.go:44-82 | in every interleaving of use cases and dispatcher without drops, dispatched, in-hand and queued events replay to the stored statuses |
| EventReplay.BusReplayRightExactlyWhen | internal/shared/events/inprocess.go:44-82 | with drops, in every interleaving, the bus is right about an endpoint if and only if it never existed, or the bus has seen some event of it and an even number was dropped after the last |
| EventReplay.DropBreaksReplay | internal/shared/events/inprocess.go:44-52 | a run with a queue of one, an endpoint defined and retired, in which the bus still tells of an active endpoint |
| KafkaConsumer.CommittedMeansAttempted | internal/infrastructure/kafka/consumer.go:78-118 | across crashes and restarts every offset below the watermark was undecodable or handed to every handler copied at some Start |
| KafkaConsumer.WatermarkSucceeded | internal/infrastructure/kafka/consumer.go:89-117 | the message whose commit set the watermark was undecodable or succeeded in every handler |
| KafkaConsumer.CommittedMeansSucceeded | internal/infrastructure/kafka/consumer.go:97-117 | if no handler ever fails, every decodable offset below the watermark succeeded everywhere |
| KafkaConsumer.CommittedIsFinal | internal/infrastructure/kafka/consumer.go:78-118 | an offset below the watermark is never handed to a handler again |
| KafkaConsumer.RedeliveredExactlyWhen | internal/infrastructure/kafka/consumer.go:111-117 | a message can be handed out again by a later session if and only if the watermark is not past it |
| KafkaConsumer.FailedMessageLost | internal/infrastructure/kafka/consumer.go:97-117 | a run in which a message fails, its successor commits, and it is never handed out again |
| KafkaConsumer.LoopGoesOn | internal/infrastructure/kafka/consumer.go:78-117 | a session starts at the committed offset, and after a commit, one that fails or none it can fetch the next offset as soon as there is one, and then has that message in hand |
| KafkaConsumer.SessionAttemptsAll | internal/infrastructure/kafka/consumer.go:78-117 | until it crashes, a session hands every decodable message from its start up to where it stands to every handler |
| KafkaConsumer.EveryMessageCanBeReached | internal/infrastructure/kafka/consumer.go:78-117 | from every reachable state with the loop up, the same session can go on, without a crash, until any given message ahead has been handed to every handler |
| KafkaConsumer.Consumer.Subscribe | internal/infrastructure/kafka/consumer.go:39-43 | appends the handler to its topic's list and disturbs no running loop |
| KafkaConsumer.Consumer.Start | internal/infrastructure/kafka/consumer.go:47-76 | in any range order, one loop for each topic over the handlers as they are now |
| KafkaConsumer.Consumer.Deliver | internal/infrastructure/kafka/consumer.go:89-117 | all handlers are called in order even after a failure; the offset is committed exactly if none failed or the message is undecodable; these are the steps the state machine allows there, and they end at the fetch of the next offset |
| PiiMasker.Masker.constructor | internal/infrastructure/gateway/interceptors/pii_masker.go:20-36 | an empty mask value stands for three asterisks |
| PiiMasker.Masker.MaskMap | internal/infrastructure/gateway/interceptors/pii_masker.go:123-144 | for any range order, the heap tree ends up standing for the recursively masked JSON, and stays a tree |
| PiiMasker.Masker.MaskEntries | internal/infrastructure/gateway/interceptors/pii_masker.go:124-143 | every field is the mask or the old field with its maps masked, the detached ones under sensitive keys included |
| PiiMasker.Masker.MaskItems | internal/infrastructure/gateway/interceptors/pii_masker.go:136-142 | the maps among a list's items are masked, and nothing else |
| PiiMasker.Masker.MaskKey | internal/infrastructure/gateway/interceptors/pii_masker.go:126-131 | the mask is written exactly if the key contains some field, in any letter case; otherwise the field stays |
| PiiMasker.Masker.MaskInPlace | internal/infrastructure/gateway/interceptors/pii_masker.go:110-120 | for every body, building the heap tree, masking it in place and reading it back gives the masked form of an object, with the mask at exactly the keys that contain a field and other plain values unchanged, and anything else as it was |
| PiiMasker.SensitiveExactlyWhen | internal/infrastructure/gateway/interceptors/pii_masker.go:26-30 | a key is sensitive if and only if some stretch of it reads like some field in lower case |
| PiiMasker.SensitiveAround | internal/infrastructure/gateway/interceptors/pii_masker.go:28 | whatever stands before and after the field, and however it is capitalised |
| PiiMasker.MaskedAtClearPath | internal/infrastructure/gateway/interceptors/pii_masker.go:123-144 | along every path with no sensitive key, what is there is masked in its place |
| PiiMasker.MaskedAtSensitiveKey | internal/infrastructure/gateway/interceptors/pii_masker.go:126-131 | at the first sensitive key of a path stands the mask value |
| PiiMasker.KeysKept | internal/infrastructure/gateway/interceptors/pii_masker.go:123-144 | along every path the walk takes short of a sensitive key, maps keep their keys, lists their length and their items that are not maps, and other values stay |
| PiiMasker.MaskTwice | internal/infrastructure/gateway/interceptors/pii_masker.go:123-144 | masking with Q and then P is masking once with both, on every JSON tree |
| PiiMasker.PatternsAsSet | internal/infrastructure/gateway/interceptors/pii_masker.go:25-30 | only which keys match matters, not the order or repetition of the patterns |
| PiiMasker.MaskIdempotent | internal/infrastructure/gateway/interceptors/pii_masker.go:123-144 | masking a second time changes nothing |
| PiiMasker.CleanExactlyWhen | internal/infrastructure/gateway/interceptors/pii_masker.go:133-142 | the result holds no sensitive value if and only if none stands in a list inside a list |
| PiiMasker.BodyCleanExactlyWhen | internal/infrastructure/gateway/interceptors/pii_masker.go:110-120 | a body that is not an object comes out clean if and only if it went in clean |
| PiiMasker.NestedListLeak | internal/infrastructure/gateway/interceptors/pii_masker.go:136-142 | a body whose password survives |
| PiiMasker.ListBodyLeak | internal/infrastructure/gateway/interceptors/pii_masker.go:110-115 | a body with a list on top whose password survives |
| Templates.ChainIsOnePass | internal/infrastructure/gateway/interceptors/request_transformer.go:77-95 | with values that have no brace and occur between the braces of no later placeholder, a chain of any length is one left-to-right simultaneous substitution |
| Templates.ChainIgnoresOrder | internal/infrastructure/gateway/interceptors/request_transformer.go:77-95 | and any other order that keeps values out of later placeholders gives the same result |
| Templates.OneMoreCall | internal/infrastructure/gateway/interceptors/request_transformer.go:84-92 | a further call on the result of a simultaneous pass is one more variable in the pass |
| Templates.OnePassExactlyWhen | internal/infrastructure/gateway/interceptors/request_transformer.go:77-95 | for values without braces, distinct names and any number of variables, chain and simultaneous substitution agree on every template if and only if no value occurs between the braces of a later placeholder |
| Templates.BracelessIsNotEnough | internal/infrastructure/gateway/interceptors/request_transformer.go:84-92 | for any value that occurs there, a template that the chain turns into the later value and the simultaneous substitution into the later placeholder |
| Templates.GatewayNamesCanCollide | internal/infrastructure/gateway/interceptors/request_transformer.go:84-89 | the gateway's own names allow that, with an organization called `user` or `er` |
| Templates.GatewayTemplates | internal/gateway/pipeline.go:146-156 | with UUIDs (section 4 of RFC 9562) and a decimal status code in the context, any template comes out as the simultaneous substitution, in any order of calls |
| Templates.TransformRequest | internal/infrastructure/gateway/interceptors/request_transformer.go:77-95 | one call for each variable that is present; with inert values the simultaneous substitution |
| Templates.TransformResponse | internal/infrastructure/gateway/interceptors/response_transformer.go:73-92 | the same with the status code |
| Templates.ContextBinds | internal/infrastructure/gateway/interceptors/response_transformer.go:77-89 | each of the four names stands for its own value, exactly when there is one |
| Templates.DecimalIsTheNumber | internal/infrastructure/gateway/interceptors/response_transformer.go:89 | the status code is replaced by its decimal digits, without a leading zero |
| InterceptorChain.Chain.InterceptRequest | internal/domain/gateway/interceptor.go:51-61 | the loop is the forward fold, and runs as many interceptors |
| InterceptorChain.Chain.InterceptResponse | internal/domain/gateway/interceptor.go:64-74 | the loop is the backward fold, and runs as many interceptors |
| InterceptorChain.RequestPassAppend | internal/domain/gateway/interceptor.go:51-61 | the request pass of a+b is a, then b, and nothing of b after an error in a |
| InterceptorChain.ResponsePassAppend | internal/domain/gateway/interceptor.go:64-74 | the response pass of a+b is b, then a |
| InterceptorChain.PassOfOne | internal/domain/gateway/interceptor.go:51-74 | a chain of one runs that one on what it is given, and an empty chain changes nothing; with the two laws above this fixes both passes |
| InterceptorChain.StopsAtFirstError | internal/domain/gateway/interceptor.go:53-58 | a failing pass ends at the first interceptor that fails, with its error |
| InterceptorChain.ChainUndoes | internal/domain/gateway/interceptor.go:51-74 | if each response step undoes its request step, the whole chain's passes do, for any length |
| EventTypes.CamelToDotCase | internal/infrastructure/kafka/bus.go:95-106 | the cutting loop lowers every letter and puts a dot before each capital but the first letter |
| EventTypes.DottedWords | internal/infrastructure/kafka/bus.go:98-103 | where a capital begins a new word there is a dot, and nothing else changes |
| EventTypes.TwoWords | internal/infrastructure/kafka/bus.go:73-92 | two words become the two in lower case with a dot between; an envelope keeps its type; a type without a name is `unknown` |
| EventTypes.UndottedDotted | internal/infrastructure/kafka/bus.go:95-106 | splitting at the dots and capitalising gives the name back |
| EventTypes.EventTypesDistinct | internal/infrastructure/kafka/bus.go:75-92 | distinct struct names get distinct types |
| Text.LetterCase | internal/infrastructure/kafka/bus.go:100-104 | the 26 capitals go to the 26 small letters and back, and every other character stays |
| Pagination.FromRequest | internal/shared/pagination/pagination.go:55-70 | the ranges and defaults of the parameters |
| Pagination.NewResult | internal/shared/pagination/pagination.go:40-52 | the page count is the least whose pages hold everything |
| Pagination.PagesTile | internal/shared/pagination/pagination.go:21-70 | the pages up to the total, one after the other, are the list exactly once and in order |
| Pagination.OnlyLastIsShort | internal/shared/pagination/pagination.go:21-70 | every page before the last is full, the last is not empty, every later page is empty |
| Pagination.TotalPagesLeast | internal/shared/pagination/pagination.go:40-44 | the page count holds everything and no smaller one does |

## Left out

- HTTP handlers, routing, CORS, request ids, logging, health, telemetry and configuration: plumbing.
- JWT, bcrypt, SHA-256, UUID generation and regular expressions: library calls. UUIDs are opaque numbers, a pattern is a substring up to ASCII letter case.
- `handleHTTPProxy`, `buildTargetURL`, `isURL`, `ResolveHandler`: a network client and `net/url`.
- `deriveTableName` and `extractIDFromPath`: the table name and the record id are inputs.
- JSON encoding and the schema validator: JSON is a tree, a body that does not decode is None.
- SQL text, quoting, identifier case and column types: statements are a small syntax tree, body keys are plain lower-case column names, and the primary key is the only constraint of a tenant's table.
- TenantIsolation.NonInterference: compares column names as they are written. Postgres folds unquoted names to lower case, so the theorem speaks of bodies whose keys are plain lower-case column names.
- Concurrent statements of one list call: COUNT and SELECT see the same table, and each handler call is one step of a run.
- Rows created at the same instant stay in stored order, which Postgres does not promise.
- Foreign keys and other failures of the role tables; deleting a whole role.
- RbacService.Service.GetUserPermissions: one clock reading stands for the whole call; `PermissionCache` models the commands one by one.
- RateLimiter.Limiter.CheckRateLimit: is one undisturbed call; interleaved calls are the state machine of `RateLimiter`.
- PolicyGate.GateAccounting: counts each INCR once, executed before its request is refused or never; a client that sends an INCR again after a lost answer would count twice. `RateBound` covers repeated INCRs; repeated EXPIREs and SETs are steps of the state machines.
- Redis evicting or losing keys, and deleting rate keys by hand.
- PolicyGate.Screen: takes the answers of the endpoint and policy repositories and of the permission check as inputs, and a repository error as "not found", as the code does.
- The response pass of the interceptor chain inside `Enforce`: the code returns before that step on every branch.
- The interceptors and the backend inside the gate succeed or fail as they please; copying the backend's response and the unused `responseWriter` are not modelled.
- InProcessBus.Bus.Publish: requires that the bus is open, since publishing after Close panics in Go.
- EndpointLifecycle.EventsAreLawful: the use cases run one at a time on the endpoint table; their steps interleave only with the bus.
- Kafka rebalancing, several partitions, topic administration and the producer; a fetch error, after which the loop only tries again.
- KafkaConsumer.Consumer.Subscribe: a handler registered after Start is not given to a running loop, which is what the contract says and what the source forbids.
- PiiMasker.Masker.MaskMap: a list that is an item of a list is an immutable value, since the code never looks inside it.
- PiiMasker.CleanExactlyWhen: sensitive means sensitive by ASCII letter case; Unicode case folding is not modelled.
- `cmd/server/main.go` does not put the two transformers into the gateway's chain; their templates are modelled as the package offers them.
- Header canonicalisation, query encoding and the body and status functions of the transformers: only `transformTemplate` is modelled.
- EventTypes.CamelToDotCase: is for ASCII names, the ones the repository's event structs have.
- Integer width: page and offset products and counters are mathematical integers, and `strconv.Atoi` yields a number or nothing.
- Organization, app, workspace, user and API-key use cases and their repositories: they check and then insert, and rely on database constraints.
