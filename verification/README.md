# A verified model of the marketplace API's stateful services

The project models, in Dafny, the parts of a marketplace backend whose behaviour depends on
shared state and on the order in which concurrent requests touch it: what its services keep
in Redis (locks, recorded responses, cached products, refresh tokens) and in Postgres
(products, orders, messages, users), plus three self-contained algorithms (query building with
pagination, retry with backoff, log masking).

`dafny verify dfyconfig.toml` checks everything.

## How the model is laid out

| file | what it holds |
|---|---|
| `Results.dfy`, `Clock.dfy`, `Texts.dfy` | null returns and thrown errors as values; time in milliseconds; lower-casing |
| `Redis.dfy` | the commands used, on a keyspace whose entries expire, as a value and as a server object |
| `IdempotencyProtocol.dfy`, `IdempotencyReplay.dfy` | any number of requests through get, lock, run, set, unlock, with store failures, and what they keep; what replays return and when handlers repeat, in every run |
| `IdempotencyExclusion.dfy` | exactly when a key has one handler at a time, and what follows for its executions |
| `IdempotencyRefinement.dfy` | the atomic "run once, then replay" object, and exactly which runs refine it |
| `IdempotencyTraces.dfy` | runs that show the conditions are needed |
| `IdempotencyStore.dfy`, `IdempotencyMiddleware.dfy`, `IdempotencyClients.dfy` | the two source files as objects over one Redis server, the proof that the protocol describes all their runs, and what clients can count on |
| `Pagination.dfy`, `Catalog.dfy`, `ProductQuery.dfy`, `ProductTable.dfy` | page arithmetic, rows and DTOs, the filter and the list key, the product table |
| `ProductCache.dfy`, `ProductStaleness.dfy`, `ProductTightness.dfy` | readers, writers, orders and replication interleaved around the two caches; how stale answers can be; runs that show the bounds are tight |
| `ProductService.dfy`, `ProductHistory.dfy` | the service as an object, one operation at a time, and cache transparency; which earlier table a cached answer shows, and when there is one |
| `OrderPlacement.dfy`, `OrderService.dfy`, `OrderRuns.dfy`, `OrderLedger.dfy`, `OrderProgress.dfy` | what `createOrder` computes; the service as an object; any number of calls interleaved, failing anywhere; what then holds of orders, payments, events and stock; what a call comes to when nothing fails |
| `Chat.dfy`, `Auth.dfy`, `RefreshOverlap.dfy`, `RefreshOnce.dfy`, `Retry.dfy` | chat windows and read flags, refresh-token rotation, the same with overlapping calls, backoff |
| `LogMask.dfy`, `Events.dfy` | masking of an object graph in place, and what it does to emitted events |

Each `await` is a step boundary. A run is a list of enabled events, and a theorem about
reachable states is a theorem about every interleaving of any number of requests. A service
whose methods change state is a class; every method's contract gives its result and its whole
new state as a function of the old one, and the lemmas are about those functions. History
fields (when a command took effect, who wrote a record) never influence a step. Prices and
ordered quantities are positive, as the request schemas demand; that all stored prices are is
then an invariant of every run.

## Where the code does less than it says

The repository's own README (line 32) says that idempotency keys ensure atomic execution of
mutations. The code does not ensure that. What it does ensure, and when, is proved:

- Between a missed `get` and the `lock` another request may record and unlock; the handler then
  runs again while that record is live (`LateLockRepeats`). For each key by itself, a run is a
  run of an atomic "run once, then replay" object if and only if none of the key's `get`, `lock`
  and `set` commands fails, none of its handlers answers through `res.send`, and whoever finds
  its lock free finds no handler still running and has missed no live record (`RunRefinesIff`).
- A handler that outlives the 30 s lock can be joined by a second one, and its `unlock` then
  removes the second one's lock (`OverrunBreaksExclusion`). That is the only way: a key has one
  lock holder at a time throughout a run if and only if nobody takes the lock while a holder
  past its 30 s is not done (`ExclusionIff`), and its unlocks remove no other request's lock if
  and only if none takes effect while another request claims the key (`UnlocksOwnIff`). A failed `get` or `lock`, and nothing else, runs
  the handler with no lock at all (`UnprotectedIff`, `FailOpenBreaksExclusion`).
- A handler that ends with `res.send()`, as product deletion does, records nothing; its lock
  keeps answering 409 until it expires, although nothing runs; a lost unlock does the same, and
  nothing else does (`RefusedThoughIdleIff`).
- Only POST, PATCH and DELETE are covered; product update is routed as PUT
  (`src/modules/product/routes/product.routes.ts:15`). The middleware is installed before the
  body parser (`src/app.ts:30` and `42`), so `req.body` is undefined when the fingerprint is
  taken, and the fingerprint contains the request id. The model takes the fingerprint as given.
- Records and locks share one keyspace: the record entry of key `a` is the lock entry of key `b`
  exactly when `a` is `lock:` followed by `b` (`KeysCollideIff`). On a set of keys the middleware
  behaves as the protocol describes if and only if no two of them are so related (`FollowsIff`).

Other findings of the same kind, each with a lemma that says exactly when it happens or by how
much:

- A `maxPrice` of 0 is dropped from the filter and changes its meaning (`FilterFaithfulIff`).
- An order is attributed to the seller of whichever row the database returns first
  (`SellerStableIff`).
- A cached product shows a stock that is too high by exactly what orders have taken since it was
  cached (`CachedStockIff`).
- A deleted product stays on cached lists, until they expire (`DeletedStillListedIff`,
  `DeletedIsNotListedLate`).
- A refresh within the second in which a token was issued returns the same token and so does not
  retire it (`OldTokenRefusedIff`). Two refreshes with one token both succeed when the second
  reads the stored token before the first has replaced it (`AcceptedOnceIff`). Refreshing does
  not check that the account is still active, and a refresh token is a 30-day JWT by default but
  is kept in Redis for 7 days; both are modelled as they are.
- The first retry delay is never capped (`ClosedFormIff`).
- The listed sensitive names `cardNumber` and `creditCard` never match, so those fields are
  logged in the clear (`SensitiveIff`). Logging an emitted event masks the payload its listeners
  then receive (`DeliveredUnchangedIff`), so USER_REGISTERED arrives without the email.
- A message that another user saves while the room is being fetched is marked read unseen
  (`UnseenKeptIff`), and messages repeat on the next page when others are saved in between
  (`NextPageRepeats`).

## Model

| member | source | states |
|---|---|---|
| `IdempotencyRefinement.RunRefinesIff` | src/middleware/idempotency.middleware.ts:25-56 | in every run, for every key and whatever other keys do: the run refines the atomic run-once-then-replay object of the key if and only if no `get`, `lock` or `set` of the key fails, nobody answers it through res.send, and whoever finds its lock free finds no handler running and has missed no live record |
| `IdempotencyRefinement.RunRefines` | src/middleware/idempotency.middleware.ts:25-52 | and the object then ends in the state that the key's record and handlers stand for |
| `IdempotencyRefinement.TimelyRunRefines` | src/middleware/idempotency.middleware.ts:25-52 | the conditional refinement: no failing `get`, `lock` or `set`, answers through res.json, holds of this key under 30 s and no `set` of a live record between a request's `get` and its `lock` are enough, in every interleaving of any number of requests |
| `IdempotencyRefinement.DoneOnlyReplays` | src/middleware/idempotency.middleware.ts:27-30 | the atomic object, once it holds an answer, starts no handler and replays only that answer until 24 hours have passed |
| `IdempotencyRefinement.BusyRunsAlone` | src/middleware/idempotency.middleware.ts:32-37 | while the object's handler runs, no other starts and nothing is replayed |
| `IdempotencyReplay.ReplayIsLatestAnswer` | src/middleware/idempotency.middleware.ts:26-30 | in every run, failures and overruns included, a replayed response is the answer of the last request that recorded under the key before the replay's `get`, less than 24 hours earlier |
| `IdempotencyReplay.RepeatNeedsEarlierGet` | src/middleware/idempotency.middleware.ts:26-50 | in every run, a request that executes under its lock while another's record is live did its `get` before that record's `set` |
| `IdempotencyExclusion.ExclusionIff` | src/infrastructure/idempotency/idempotency.store.ts:25-38 | in every run, failures and overruns included, a key has at most one holder throughout if and only if nobody takes its lock while a holder past its 30 s is not done |
| `IdempotencyExclusion.OneHandlerIff` | src/middleware/idempotency.middleware.ts:32-56 | the same of handlers, locked or not, when no `get` or `lock` call of the key fails |
| `IdempotencyExclusion.UnprotectedIff` | src/middleware/idempotency.middleware.ts:53-56 | a handler runs without a lock exactly when its request's `get` or `lock` call failed |
| `IdempotencyExclusion.TimelyIsUncontested` | src/infrastructure/idempotency/idempotency.store.ts:25-34 | handlers of a key that end within 30 s are never taken over, whatever other keys do |
| `IdempotencyExclusion.MutualExclusion` | src/infrastructure/idempotency/idempotency.store.ts:25-38 | where nobody was taken over, two holders of a key are the same request, and until its 30 s are over it is the holder of the live lock entry |
| `IdempotencyExclusion.OnlyHolderUnlocks` | src/infrastructure/idempotency/idempotency.store.ts:36-38 | there an unlock, which checks no owner, removes the request's own lock or, after an overrun, nothing or what a failed `lock` call left; it takes no other request's claim |
| `IdempotencyExclusion.UnlocksOwnIff` | src/infrastructure/idempotency/idempotency.store.ts:36-38 | in every run, takeovers and failures included: no unlock of a key removes a lock another request still claims, if and only if no unlock takes effect while another request of the key is under its 30 s with its lock not removed |
| `IdempotencyExclusion.ExecutionsAreSpaced` | src/middleware/idempotency.middleware.ts:32-52 | there the first of two executions of a key is over when the second starts, 30 s apart if it removed no lock; the second starts during the first's record only if the first's `set` fell between the second's `get` and `lock` |
| `IdempotencyExclusion.AtMostOncePerLiveRecord` | src/middleware/idempotency.middleware.ts:25-52 | where nobody was taken over: unless its `set` fell between the later request's `get` and `lock`, an execution that recorded is followed by another of the key no earlier than 24 hours after it recorded |
| `IdempotencyExclusion.SentBlocksUntilExpiry` | src/modules/product/controllers/product.controller.ts:51-59 | where nobody was taken over: a handler that ended with res.send has recorded nothing, and until its lock expires every other request of the key gets 409 |
| `IdempotencyExclusion.RefusedThoughIdleIff` | src/middleware/idempotency.middleware.ts:32-37 | there, with a live lock not left by a failed `lock` call: a request is refused, and nothing runs if and only if the request that took the lock ended through res.send or its unlock was lost |
| `IdempotencyTraces.LateLockRepeats` | src/middleware/idempotency.middleware.ts:26-32 | a timely run without failures in which a second handler runs while the first one's record is live; it does not refine the object |
| `IdempotencyTraces.OverrunBreaksExclusion` | src/infrastructure/idempotency/idempotency.store.ts:25-38 | a run in which an overrun lets two handlers of a key run and the first one's unlock removes the second one's lock |
| `IdempotencyTraces.FailOpenBreaksExclusion` | src/middleware/idempotency.middleware.ts:53-56 | a run in which one failed `get` lets a handler run without a lock beside another of the same key |
| `IdempotencyTraces.UnlockBeforeSetWouldRepeat` | src/middleware/idempotency.middleware.ts:42-47 | in every state such runs reach: if the lock of an answered request went before its record came, a waiting request would run the handler instead of being refused |
| `IdempotencyStore.KeysCollideIff` | src/infrastructure/idempotency/idempotency.store.ts:9-37 | the record entry of one key is the lock entry of another exactly when the first key is `lock:` followed by the second |
| `IdempotencyStore.CollidingRecordActsAsLock` | src/infrastructure/idempotency/idempotency.store.ts:17-38 | in that case a live record denies the other key's lock, and removing that lock removes the record |
| `IdempotencyStore.IdempotencyStore.Get` | src/infrastructure/idempotency/idempotency.store.ts:12-15 | the live record under the prefix, null when there is none, an error when the entry is not JSON |
| `IdempotencyStore.IdempotencyStore.Set` | src/infrastructure/idempotency/idempotency.store.ts:17-23 | the record entry is written with 24 hours to live and no other entry changes |
| `IdempotencyStore.IdempotencyStore.Lock` | src/infrastructure/idempotency/idempotency.store.ts:25-34 | true exactly when no live lock was there; then, and only then, the lock is written with 30 s to live |
| `IdempotencyStore.IdempotencyStore.Unlock` | src/infrastructure/idempotency/idempotency.store.ts:36-38 | whatever lock entry the key has is removed, nothing else |
| `IdempotencyMiddleware.Middleware.Receive` | src/middleware/idempotency.middleware.ts:8-23 | a request is intercepted exactly if its method is POST, PATCH or DELETE and it sends a non-empty key; it then waits for its `get` under key, colon and fingerprint |
| `IdempotencyMiddleware.Middleware.AfterGet` | src/middleware/idempotency.middleware.ts:26-30 | the step from `get`: replay the record, go on to the lock, or fail open when the entry is unreadable |
| `IdempotencyMiddleware.Middleware.AfterLock` | src/middleware/idempotency.middleware.ts:32-41 | the step from `lock`: into the handler with the lock written, or 409 with nothing changed |
| `IdempotencyMiddleware.Middleware.Json` | src/middleware/idempotency.middleware.ts:41-50 | the replaced res.json issues `set` and then `unlock`, and waits for neither |
| `IdempotencyMiddleware.Middleware.Deliver` | src/middleware/idempotency.middleware.ts:42-47 | the issued commands take effect, or are lost, one at a time in the order issued |
| `IdempotencyMiddleware.Middleware.Catch` | src/middleware/idempotency.middleware.ts:53-56 | a rejected store call lets the handler run with res.json untouched; a rejected `lock` may have written the lock |
| `IdempotencyMiddleware.Middleware.Send` | src/modules/product/controllers/product.controller.ts:51-55 | an answer through res.send issues no store command |
| `IdempotencyClients.MiddlewareFollowsProtocol` | src/middleware/idempotency.middleware.ts:6-57 | every run of the middleware over the shared keyspace, on keys that are apart, is a run of the protocol and ends in a state the protocol's state represents, entry by entry |
| `IdempotencyClients.FollowsIff` | src/infrastructure/idempotency/idempotency.store.ts:9-37 | that holds on a set of keys if and only if no key of it is `lock:` followed by another |
| `IdempotencyClients.CollisionDeparts` | src/infrastructure/idempotency/idempotency.store.ts:17-34 | on two such keys a run of the middleware refuses a request although nobody holds its lock |
| `IdempotencyClients.OneHandlerPerKey` | src/middleware/idempotency.middleware.ts:32-52 | mutual exclusion, stated of the middleware's own state, for a key nobody was taken over on |
| `IdempotencyClients.RepliesAreRecordedAnswers` | src/middleware/idempotency.middleware.ts:26-30 | a reply from the store is an answer given through res.json under the same key and recorded less than 24 hours before |
| `IdempotencyClients.StorageKeyPlainIff` | src/middleware/idempotency.middleware.ts:23 | a storage key is clear of the lock prefix exactly when the client's key, with its colon, does not begin with `lock:` |
| `IdempotencyClients.StorageKeysIff` | src/middleware/idempotency.middleware.ts:17-23 | two requests share a storage key if and only if they sent the same idempotency key and have the same fingerprint |
| `IdempotencyClients.RepliesMatchRequests` | src/middleware/idempotency.middleware.ts:8-30 | over every run a reply from the store is an answer given less than 24 hours before to a request with the same idempotency key and the same fingerprint |
| `IdempotencyClients.PlainClientsFollow` | src/middleware/idempotency.middleware.ts:23 | it is enough that no client's key, with the colon after it, begins with `lock:`, whatever the fingerprints |
| `ProductStaleness.ServedDetailIsRecent` | src/modules/product/services/product.service.ts:81-105 | in every interleaving a product served at t is what the uncached lookup would have given at some instant in [t - 120 s - delay, t]; `delay` bounds the time from a query for this product to its cache write, for writes that happen |
| `ProductStaleness.NotFoundIsExact` | src/modules/product/services/product.service.ts:86-100 | a NotFound is never stale: at the query's instant the read database had no active row |
| `ProductStaleness.ServedListIsRecent` | src/modules/product/services/product.service.ts:54-79 | the same for lists with 60 s and the cache writes under the list's own key, also for a hit on an entry another query wrote; rows and total come from two instants in the bound |
| `ProductStaleness.ServedListIsAsked` | src/modules/product/services/product.service.ts:22-75 | a served list is the page the query asks for, of rows and total selected by the query itself from the two versions read |
| `ProductStaleness.DeletionIsFinal` | src/modules/product/schemas/product.schema.ts:3-13 | over every run a deleted product is never active again and a seller never changes |
| `ProductStaleness.DeletedIsNotServedLate` | src/modules/product/services/product.service.ts:130-137 | getProductById serves a deleted product no later than 120 s + delay after the deletion reached the read database |
| `ProductStaleness.DeletedIsNotListedLate` | src/modules/product/services/product.service.ts:54-77 | a list, which nothing invalidates, shows a deleted product no later than 60 s + delay after the deletion reached the read database |
| `ProductStaleness.OnlyOwnersWrite` | src/modules/product/services/product.service.ts:119-135 | a write past its check is by the product's seller on the primary too, although the check reads a lagging replica |
| `ProductStaleness.InvalidatedIsReadAfresh` | src/modules/product/services/product.service.ts:124-136 | after an invalidation, and until some reader writes to the cache again, whoever asks for the product goes to the read database |
| `ProductTightness.BoundIsTight` | src/modules/product/services/product.service.ts:102-137 | for every `delay` and every time short of 120 s there is a run from the empty shop that keeps to `delay`, in which a product is served that time plus `delay` after its deletion reached the read database and after its invalidation |
| `ProductTightness.ListBoundIsTight` | src/modules/product/services/product.service.ts:54-79 | the same for lists, with 60 s: for every query, a list computed before a product's deletion is served that long after the deletion reached the read database, and its first page shows the product if the product meets the filter |
| `ProductTightness.LateWriteIsServed` | src/modules/product/services/product.service.ts:102-104 | from any state, whatever was invalidated before, a late cache write is served for any time short of 120 s |
| `ProductService.CacheTransparent` | src/modules/product/services/product.service.ts:81-137 | after any sequence of operations getProductById gives the uncached outcome, NotFound included, on every column but stock and updatedAt, and on all columns if no order occurred |
| `ProductService.CachedStockIff` | src/modules/product/services/product.service.ts:81-137 | after any sequence of operations getProductById agrees with the uncached lookup on all columns if and only if the entry is not live or orders took none of the product since it was written; a live entry's stock is too high by exactly what they took |
| `ProductService.OrderLeavesCachedStock` | src/modules/order/services/order.service.ts:49-54 | after a read and an order, the stock served is too high by exactly the quantity ordered |
| `ProductService.DeletedStaysNotFound` | src/modules/product/services/product.service.ts:130-137 | without overlap, getProductById answers NotFound after an owner's deletion and any later operations |
| `ProductService.DeletedStillListedIff` | src/modules/product/services/product.service.ts:54-77 | getProducts then shows the deleted product if and only if the cache held, at the deletion, a list under the query's key that shows it, and that entry has not expired |
| `ProductService.DeletedStaysListed` | src/modules/product/services/product.service.ts:130-137 | and it happens: a product listed just before its deletion is NotFound by id and still on the list |
| `ProductService.FreshListIsAsked` | src/modules/product/services/product.service.ts:18-79 | after any sequence of operations a list that is not cached is the page the query asks for |
| `ProductHistory.DetailIsRecent` | src/modules/product/services/product.service.ts:81-105 | after every sequence of operations getProductById answers, column by column or with NotFound, what the table held after some prefix of them, less than 120000 ms ago |
| `ProductHistory.LiveIff` | src/modules/product/services/product.service.ts:102-136 | a product's entry is live if and only if less than 120000 ms ago somebody asked, missed and found it, and no update or deletion was accepted since |
| `ProductHistory.ListIsRecent` | src/modules/product/services/product.service.ts:54-78 | after every sequence of operations getProducts answers the page asked for of the table after some prefix of them, less than 60000 ms ago |
| `ProductHistory.ListLiveIff` | src/modules/product/services/product.service.ts:54-77 | a list is live if and only if a query with its key missed less than 60000 ms ago; nothing removes it before |
| `ProductService.ProductService.GetProductById` | src/modules/product/services/product.service.ts:81-105 | cached answer or active row or NotFound, with the cache entry written for 120 s on a found miss only |
| `ProductService.ProductService.GetProducts` | src/modules/product/services/product.service.ts:18-79 | cached page or the page and meta computed from the table, then cached for 60 s under the list key |
| `ProductService.ProductService.CreateProduct` | src/modules/product/services/product.service.ts:107-117 | one new active row of the seller with the columns given, shown in the DTO, and its event; the caches are untouched |
| `ProductService.ProductService.UpdateProduct` | src/modules/product/services/product.service.ts:119-128 | NotFound without a row, Forbidden for another seller, or the given columns set, the others kept, and the cache entry dropped |
| `ProductService.ProductService.DeleteProduct` | src/modules/product/services/product.service.ts:130-137 | NotFound without a row, Forbidden for another seller, or the row deactivated, its other columns kept, and the cache entry dropped |
| `ProductTable.DecrementEvolves` | src/modules/order/services/order.service.ts:49-54 | the stock loop moves no product to another seller and revives none |
| `ProductTable.DecrementTakesQuantity` | src/modules/order/services/order.service.ts:49-54 | the loop takes from each product what the order asks of it and changes no other column but updatedAt |
| `ProductTable.DecrementSparesOthers` | src/modules/order/services/order.service.ts:49-54 | a product the order does not ask for keeps every column |
| `ProductQuery.FilterFaithfulIff` | src/modules/product/services/product.service.ts:22-44 | among rows with positive prices the built filter selects exactly what the query asks for, if and only if maxPrice is not 0 |
| `ProductQuery.FilterMeaning` | src/modules/product/services/product.service.ts:30-44 | product by product: dropping a minPrice of 0 is harmless; with a maxPrice of 0 the filter means the query without it |
| `ProductQuery.BuildWhere` | src/modules/product/services/product.service.ts:22-44 | filling the filter in step by step gives the filter the lemmas are about |
| `ProductQuery.ListingShowsExactlyTheMatches` | src/modules/product/services/product.service.ts:46-75 | over a fixed table, pages 1 to totalPages show every row the query asks for, as often as it occurs, and no other, by price up or down, oldest or newest first as sortBy says and newest first without it; each entry shows its row column by column, and total counts them |
| `ProductQuery.SortedInOrder` | src/modules/product/services/product.service.ts:46-52 | the ordered rows are a permutation, with prices or creation times rising or falling as asked |
| `ProductQuery.KeyDeterminesQuery` | src/modules/product/services/product.service.ts:54 | for limits of at least 1, equal list keys mean equal filter, order, limit and page, and conversely |
| `ProductQuery.SameKeySameListing` | src/modules/product/services/product.service.ts:54-56 | so a cached list is the right answer, meta included, to every query with its key |
| `ProductQuery.KeyTellsPageIff` | src/modules/product/services/product.service.ts:20-54 | leaving the page out of the key is safe exactly because the limit is not 0 |
| `Pagination.PagesPartition` | src/modules/product/services/product.service.ts:58-75 | pages 1 to totalPages concatenate to the full result; all but the last are full, the last is not empty, later ones are |
| `Pagination.TotalPagesIsLeast` | src/modules/product/services/product.service.ts:74 | totalPages is the least number of pages that holds every row |
| `Pagination.SkipDeterminesPage` | src/modules/product/services/product.service.ts:20 | for a positive limit the skip tells the page |
| `OrderPlacement.LengthCheckIff` | src/modules/order/services/order.service.ts:20-24 | by pigeonhole, as many rows as items come back if and only if the items name pairwise distinct products that all exist |
| `OrderPlacement.CheckedItemsAreFound` | src/modules/order/services/order.service.ts:27-42 | after the check no `find` misses, so the `\|\| 0` fallback is dead, and each finds the snapshot's row |
| `OrderPlacement.TotalIsSumOfItems` | src/modules/order/services/order.service.ts:26-44 | the reduced total is the sum of price times quantity over the stored items, which repeat the request, all priced by one snapshot |
| `OrderPlacement.RowOrderIrrelevant` | src/modules/order/services/order.service.ts:20-44 | items and total do not depend on the order in which the rows come back |
| `OrderPlacement.ItemOrderIrrelevant` | src/modules/order/services/order.service.ts:26-29 | nor does the total depend on the order of the requested items |
| `OrderPlacement.ChargeIsClose` | src/modules/order/services/order.service.ts:57 | the charge is within half a cent of 100 times the total, and equal to it exactly for whole-cent totals |
| `OrderPlacement.ExactChargeForCents` | src/modules/order/services/order.service.ts:26-57 | with whole-cent prices the charge is exact |
| `OrderPlacement.SellerStableIff` | src/modules/order/services/order.service.ts:35 | the order's seller is the same for every order of the returned rows if and only if all its products share a seller, and it is always the seller of one of them |
| `OrderService.OrderService.CreateOrder` | src/modules/order/services/order.service.ts:17-68 | NotFound exactly for repeated or missing products; success writes together the decrements and an order of this buyer, the first row's seller, status PENDING, the requested lines at the prices read and their sum; a failure, an update without a row included, leaves both unchanged, while intent and event stay if they came first |
| `OrderService.OrderService.TakeStock` | src/modules/order/services/order.service.ts:49-54 | the loop ends with every quantity taken, or fails at the first update that has no row or is rejected |
| `OrderService.OrderService.GetMyOrders` | src/modules/order/services/order.service.ts:70-93 | the requested page of the user's orders, newest first, with total and page count |
| `OrderService.NewerOrdersFirst` | src/modules/order/services/order.service.ts:79-85 | what later orders contribute to a user's list comes before what earlier ones do |
| `OrderService.MyPagesShowEachOrderOnce` | src/modules/order/services/order.service.ts:74-92 | a user's pages together show each order with this user as buyer or seller, and the status asked for, exactly once, also when buyer and seller are the same, and no other |
| `OrderLedger.CommittedOrdersMatch` | src/modules/order/services/order.service.ts:31-67 | with failures at any step of any interleaving, every committed order has exactly one intent, for its own amount, exactly one ORDER_CREATED, and one job exactly if its enqueueing succeeded |
| `OrderLedger.OrphanIntents` | src/modules/order/services/order.service.ts:56-61 | intents without an order are exactly those of runs past the payment call that are unfinished or aborted |
| `OrderLedger.OrphanAnnouncements` | src/modules/order/services/order.service.ts:63-64 | ORDER_CREATED emissions, and jobs, without an order are exactly those of runs past the emission that are unfinished or aborted; a job follows an emission, and neither happens twice |
| `OrderLedger.AbortedLeavesNoOrder` | src/modules/order/services/order.service.ts:31-67 | an aborted run leaves no order; if its event went out, so did its charge |
| `OrderLedger.StockLedger` | src/modules/order/services/order.service.ts:49-54 | over every run a product's stock is the value last set explicitly less what the orders committed since asked for |
| `OrderLedger.CommittedTotals` | src/modules/order/services/order.service.ts:20-47 | every committed order's total is the sum of its own lines, for distinct products all priced by one version of the table, whatever updates ran meanwhile |
| `OrderLedger.CommittedParties` | src/modules/order/services/order.service.ts:32-46 | every committed order belongs to the buyer whose call it was, is PENDING, and its seller sells, in the version read, a product on one of its lines |
| `OrderLedger.DecrementsFindTheirRows` | src/modules/order/services/order.service.ts:49-54 | the transaction's updates always find their rows on the primary, whatever version the check read |
| `OrderProgress.CheckDecides` | src/modules/order/services/order.service.ts:20-24 | a call gets past the check exactly if its items are distinct and exist in the version it read |
| `OrderProgress.CheckedCallCompletes` | src/modules/order/services/order.service.ts:31-67 | from any state a checked call can be completed, and then its order, decrements, intent, event and job are there once each, and nothing else is |
| `Retry.WithRetry` | src/utils/retry.ts:17-39 | the calls stop at the first success or after retries + 1 failures, the last error is rethrown, the waits follow the delays, and the final throw is reached exactly for negative retries |
| `Retry.ClosedFormIff` | src/utils/retry.ts:21-34 | every wait is min(minTimeout * factor^i, maxTimeout) if and only if minTimeout is at most maxTimeout |
| `Retry.DelayClosedForm` | src/utils/retry.ts:33-34 | capping at every step equals capping the uncapped delay once, for growing and for shrinking delays |
| `Retry.UncappedIsExponential` | src/utils/retry.ts:34 | without the cap the delay is minTimeout * factor^i |
| `Retry.TotalWaitBounds` | src/utils/retry.ts:21-36 | a run waits at most retries * maxTimeout and at most the geometric sum |
| `Chat.WindowOfReversed` | src/modules/chat/services/chat.service.ts:28-51 | a page read newest first and reversed is the slice of the ascending history cut from its end |
| `Chat.PagesRebuildHistory` | src/modules/chat/services/chat.service.ts:36-52 | the pages totalPages down to 1 join to the whole history, each message once |
| `Chat.NewestIsLastOfFirstPage` | src/modules/chat/services/chat.service.ts:36-51 | a saved message comes last on page 1, after the newest limit - 1 of the others |
| `Chat.OnPageIff` | src/modules/chat/services/chat.service.ts:28-41 | after any number of saves, a message stands on exactly the page its distance from the newest one gives |
| `Chat.PageAfterSaves` | src/modules/chat/services/chat.service.ts:28-51 | what any page shows after any saves: the old messages that many places nearer to the end, then the new ones' own page |
| `Chat.NextPageRepeats` | src/modules/chat/services/chat.service.ts:28-51 | fetching the next page after at most a page of saves shows again exactly as many messages of the first page as were saved, and skips none |
| `Chat.MarkReadHistory` | src/modules/chat/services/chat.service.ts:45-48 | marking changes flags only, in its own room only, and leaves nothing there unread for the reader |
| `Chat.FlagChangesIff` | src/modules/chat/services/chat.service.ts:45-48 | a flag changes if and only if the message is in the room, was sent by somebody else and was unread; nothing but flags changes |
| `Chat.ReadIff` | src/modules/chat/services/chat.service.ts:25-66 | over every sequence of saves and fetches, a message is read if and only if a member other than its sender has fetched its room since it was saved |
| `Chat.FetchingMarksOnlyTheRoom` | src/modules/chat/services/chat.service.ts:45-48 | after a fetch every page of every room shows the same messages, with flags changed in the fetched room alone |
| `Chat.UnseenKeptIff` | src/modules/chat/services/chat.service.ts:35-48 | messages saved between the transaction and the update keep their flags exactly if none is another user's message in the room |
| `Chat.MarkedAfterSaves` | src/modules/chat/services/chat.service.ts:35-48 | the page comes from the messages before those saves, the flags change on all of them |
| `Chat.Reverse` | src/modules/chat/services/chat.service.ts:51 | the array is reversed in place |
| `Chat.ChatService.GetMessages` | src/modules/chat/services/chat.service.ts:25-54 | only members get in; the page is the history slice with its flags from before the call, and the room is then read |
| `Chat.ChatService.LoadPage` | src/modules/chat/services/chat.service.ts:35-43 | page and total are the history slice and the length of one snapshot |
| `Chat.ChatService.MarkRoomRead` | src/modules/chat/services/chat.service.ts:45-48 | what others wrote in the room is read, nothing else changes |
| `Chat.ChatService.SaveMessage` | src/modules/chat/services/chat.service.ts:56-66 | a member's message is appended unread; a non-member changes nothing |
| `Auth.RefreshAcceptsIff` | src/modules/auth/services/auth.service.ts:50-74 | after any sequence of operations a token is accepted if and only if our key signed it less than 30 days ago, its user exists, and it is the last one saved, less than 7 days ago and not logged out since; the user found is the token's |
| `Auth.LoginIff` | src/modules/auth/services/auth.service.ts:18-48 | over every run a login is accepted and saves a token if and only if an earlier operation was an accepted registration of that email with exactly that password |
| `Auth.RefusalsInOrder` | src/modules/auth/services/auth.service.ts:36-42 | over any users: an unknown email or a user without password, then a disabled account, then a wrong password, each with its own refusal, by the first user with the email |
| `Auth.AtMostOneAcceptable` | src/modules/auth/services/auth.service.ts:50-74 | a user has at most one acceptable token |
| `Auth.OldTokenRefusedIff` | src/modules/auth/services/auth.service.ts:52-62 | right after a refresh the old token is refused exactly if it was issued in an earlier second or from other account data |
| `Auth.EachTokenRefreshesOnce` | src/modules/auth/services/auth.service.ts:50-74 | if signing always yields a new token, each token succeeds in a refresh at most once over any run |
| `Auth.AcceptedNoMoreThanSaved` | src/modules/auth/services/auth.service.ts:50-74 | with any signing, a token succeeds in no more refreshes than times it was saved |
| `RefreshOnce.AcceptedRefreshesOverlap` | src/modules/auth/services/auth.service.ts:50-62 | with calls interleaved at every await and signing that never repeats, two accepted refreshes with one token overlap: each read the stored token before the other stored its new one |
| `RefreshOnce.AcceptedOnceIff` | src/modules/auth/services/auth.service.ts:50-62 | with signing that never repeats, once every call that passed its check has stored: no token was accepted twice if and only if no call found its token stored while another call with it was between its check and its store |
| `RefreshOnce.TwoCallsAccepted` | src/modules/auth/services/auth.service.ts:53-60 | such a pair exists: both are accepted, and the token the first one got is refused afterwards |
| `Auth.AuthService.Register` | src/modules/auth/services/auth.service.ts:18-34 | refused exactly for a used email; otherwise the user is added and its token saved |
| `Auth.AuthService.Login` | src/modules/auth/services/auth.service.ts:36-48 | the three refusals in the source's order with nothing changed, or the user's new token replacing the old one |
| `Auth.AuthService.RefreshTokens` | src/modules/auth/services/auth.service.ts:50-66 | any failed check is one and the same error and changes nothing; success replaces the token |
| `Auth.AuthService.Logout` | src/modules/auth/services/auth.service.ts:68-70 | the user's token is removed, nothing else |
| `Auth.AuthService.SaveRefreshToken` | src/modules/auth/services/auth.service.ts:72-74 | the user's token is replaced, with 7 days to live |
| `LogMask.Mask` | src/observability/logger.ts:11-22 | on every graph on which it ends, the recursive loop masks, in place, exactly the objects followed from the start, sharing included |
| `LogMask.MaskPII` | src/observability/logger.ts:8-26 | what is not an object passes untouched |
| `LogMask.LogPipeline` | src/observability/logger.ts:30-43 | the logger's format and the transport's together do what masking once does |
| `LogMask.MaskingHidesAndSpares` | src/observability/logger.ts:11-22 | every property still reachable whose lower-cased name is listed is masked; all other properties, and all objects not visited, are unchanged |
| `LogMask.MaskingIsIdempotent` | src/observability/logger.ts:30-39 | masking again visits the same objects and changes nothing |
| `LogMask.ReachableAfter` | src/observability/logger.ts:14-20 | after masking, what can be reached at all is what was visited |
| `LogMask.SensitiveIff` | src/observability/logger.ts:9-15 | the effective list is password, token, email and cvv, in any case of letters: the two names with capitals never match |
| `Texts.LowerCaseIff` | src/observability/logger.ts:15 | lower-casing gives a text without capitals if and only if the two differ in case alone |
| `LogMask.EndsIffLoopFree` | src/observability/logger.ts:11-22 | the recursion ends from every object exactly when the references it follows have no loop; loops through sensitive names do no harm |
| `LogMask.MaskingSparesIff` | src/observability/logger.ts:11-22 | masking changes nothing exactly when every sensitive property it gets to is masked already |
| `Events.Emit` | src/events/eventBus.ts:27-30 | listeners get the very object that was emitted, masked in place if the line was logged |
| `Events.DeliveredUnchangedIff` | src/events/eventBus.ts:27-30 | they get it unchanged exactly if it was not logged or nothing sensitive followed from it needed masking |
| `Events.RegisteredEmailIsMasked` | src/modules/auth/services/auth.service.ts:31 | a logged USER_REGISTERED is delivered with its email masked and its user id intact |
| `Events.OrderCreatedIsDelivered` | src/modules/order/services/order.service.ts:64 | an ORDER_CREATED is delivered as it was, so the job gets its order id |

## Left out

- Express wiring, routes, validation, controllers, sockets, metrics, tracing, health checks: no state of their own to prove anything about.
- Rate limiter, circuit breaker, feature flags, BullMQ workers, Stripe, SHA-256, bcrypt, JWT signatures, zod: their logic is in libraries; where a step depends on one, its outcome is a parameter or an abstract value.
- A handler that throws synchronously into the middleware's catch branch, or calls res.json twice: each handler answers at most once, through res.json or res.send.
- ProductService.ProductService.GetProducts: page and limit are at least 1; what the database does with others, and with NaN from parseInt, is not modelled.
- Chat.ChatService.GetMessages: page and limit are at least 1, for the same reason; the sender columns that go with a message are left out.
- ProductService.CacheTransparent: compares the product's own columns; the seller, category, review and count columns joined into the DTO are left out, and `tags` is not in the DTO.
- ProductQuery.ListingShowsExactlyTheMatches: rows that compare equal keep the table's order, while Postgres may order them anew at every query; case folding covers ASCII letters only.
- ProductQuery.KeyDeterminesQuery: the key is the value that is serialised, not its JSON text.
- OrderLedger.StockLedger: a transaction's decrements are applied together at commit; row locks, deadlocks and stock below zero are not modelled further.
- Events.Emit: what the logging library does with its metadata is one shallow copy around the payload; a payload with a reference loop is excluded, on which logging does not end.
- OrderLedger.CommittedOrdersMatch: the job count is one exactly if enqueueing succeeded, since a rejected enqueue is not retried; processing of the job is left out.
- OrderPlacement.TotalIsSumOfItems: prices are reals, so floating-point rounding of the sum is not modelled.
- Retry.WithRetry: delays are reals and the merging of default options is left out.
- LogMask.Mask: inherited properties and read-only objects are left out, and lower-casing covers ASCII letters only.
- Auth.RefreshAcceptsIff: about operations that do not overlap; RefreshOverlap splits refreshTokens at its awaits, while register, login and logout act there in one step each. The access token plays no part.
- getMyChatRooms, order status changes, mappers and error-to-status mapping: one branch or none.
