# Product service: catalogue, cache and price reads

A Dafny model of the product service's write path, its read caches and its price
read, with proofs about whole runs of them together.

- **The catalogue.** `Catalog` gives each privileged command (create, edit, publish,
  archive, restore, category create and edit) as one atomic step over products,
  categories and an append-only audit log. `CatalogRepository` is the repository
  class as it runs, transaction by transaction, with rollback, and each method is
  proved equal to its atomic step. `Transactions` splits a product transaction into
  lock, check, write, audit, read-back and commit, interleaved in any order;
  `Linearizability` says exactly when the interleaving is the atomic commands in
  commit order, and `Schedules` builds the runs in which it is not. `History`,
  `AuditReplay` and `AuditOrder` say what versions and audit rows mean over a whole
  run, and `TraceHistory` and `TraceReplay` say it of every interleaving.
  `CommandLaws` says column by column what each command refuses, writes, logs and
  answers, and `ReadLaws` what the reads then show.
- **The cache.** `ValkeyStore` is the store and its client; `ReadProtocol` the
  GetProductOrSet protocol as an automaton; `CacheAside` the same call as it runs,
  with its lock, its ticker and its timeout, its requests on a log that is proved to
  be a conversation of the automaton; `ListService` and `WriteHandlers` the list read and the write handlers.
  `CacheSystem` puts any number of detail and list reads, commits, their later
  invalidations, lost requests, lost replies and the clock into one step machine.
  `CacheInvariant` is its invariant; `CacheTheorems`, `CacheLocks` and `CacheLists`
  say what follows for provenance, staleness, drafts, locks and lists, and `CacheLaws`
  what a second read is served.
- **Queries.** `ListQuery` has the statement builders and the list cache key,
  `PublicReads` what FindByID, FindAll and Count answer, `Paging` the operator's pages,
  and `QueryLaws` what a request means in its own terms: search, sort words, windows.
- **Prices.** `MinorUnits` models binary64 numbers and rounding, `Prices` the batch
  price read.

Ids are numbers here, which is to say canonical decimal strings in the service.
`Text.DecimalInjective`, `ValkeyStore.KeySpacesDisjoint` and `Prices.AtoiReadsBack` say
what that buys; a detail request for an id such as `007` or `list:x` is outside the
cache model. Steps of the system are the routes that `cmd/main.go` mounts.

## What the proofs found

1. *Cache key collisions.* `category=all` and `search=none` share their cache entry
   with the unfiltered list and ask for something else. Apart from a separator inside
   a text field this is the only way two filter sets with one key differ
   (`ListQuery.SameKeySameQueryExactly`).
2. *Audit history order.* Audit ids follow commit order, but the history is sorted by
   `created_at`, the start of the transaction. It shows two commits in the wrong order
   exactly when the one that committed later began earlier
   (`AuditOrder.AuditReadsBack`).
3. *Commit order.* Rows, audit log and answers are those of the answered commands run
   one after the other exactly when every commit finds the categories as its
   transaction read them. A category created between an edit's UPDATE and its commit
   leaves the product row of the opposite order
   (`Schedules.LateCategoryInvertsOrder`). A rename between a lifecycle command's
   read-back and its commit leaves the right rows and an answer with the old name
   (`Schedules.LateRenameDatesAnswer`).
4. *Retries.* The claim that every command is its own retry guard
   (`internal/web/v1/protected.go:25-30`) holds for edits and publishes. It fails for
   creates: once the new product has been renamed, the retried create is accepted and
   makes a second one, and categories likewise; it is accepted exactly when nobody
   holds the name any more. It fails for a retried archive after somebody else's
   restore. And it fails for category edits, which carry no version: a retry is
   accepted whenever no other category holds its name, and after another operator's
   edit it overwrites that edit (`History.CategoryEditReplayOverwrites`). The comment in
   `internal/core/domain/lifecycle.go:78-79` says retries are handled by an
   idempotency key; protected.go says there is none, and the model follows the latter.
5. *Audit completeness.* The log tells the tables at every point of a run exactly when
   every accepted price has at most two decimals and every category exists or is
   empty. With transactions interleaved, what counts is whether the name in the audit
   row is the committed row's at the commit (`TraceReplay.TraceReplayExactly`): a rename
   between the lock and the UPDATE of an edit breaks it, and takes the product's
   category (`Schedules.RenameDuringEditIsNotTold`). A create's description is not in the log at all
   (`AuditReplay.CreateDoesNotAuditDescription`).
6. *Long audit fields.* A request id of more than 64 characters, a header nobody
   bounds, does not fit the audit table, and the write it belongs to is rolled back
   with an internal error; up to 64 it is accepted (`History.RequestIdExactly`).
7. *A dead branch.* The version conflict for `RowsAffected() == 0` is never reached
   (`Transactions.LockedRowIsMatched`).

## Model

| member | source | states |
|---|---|---|
| `Domain.NextStatus` | internal/core/domain/lifecycle.go:80-98 | No legal edge leads to DRAFT or to where it started, ARCHIVED is reached by archive only, and an unknown action is an input error rather than an illegal edge. |
| `Catalog.AllOrNothing` | internal/core/repository/catalog_admin_repository.go:131-175 | A refused command changes nothing; an accepted one writes one row of one table and appends one audit row about that row, with the actor's name. |
| `Catalog.ExecKeepsValid` | db/migrations/sql/000001_init_schema.up.sql:16-38 | Every command keeps names unique in both tables, prices in range and category references resolvable. |
| `CommandLaws.AuditRowSays` | internal/core/repository/catalog_admin_repository.go:515-541 | The audit row of an accepted command carries the actor, the reason and the request id it was sent with, each in its own column, and NULL for an empty one. |
| `CommandLaws.AnswersWithItsRow` | internal/core/repository/catalog_admin_repository.go:161-169 | An accepted command answers with the row its resulting state holds, every column of it, for all five commands. |
| `CommandLaws.CreateProductRefusals` | internal/core/repository/catalog_admin_repository.go:139-159 | Exactly when a create is refused, and as what. |
| `CommandLaws.CreateProductLeaves` | internal/core/repository/catalog_admin_repository.go:135-157 | A new product has the columns sent, the nearest cent, a category of that name or none, DRAFT, version 1 and the transaction's time; its audit row has name, price and category. |
| `CommandLaws.UpdateProductRefusals` | internal/core/repository/catalog_admin_repository.go:204-233 | Exactly when an edit is refused, in order: not found, version conflict, out of range, name taken, audit row too long. |
| `CommandLaws.UpdateProductLeaves` | internal/core/repository/catalog_admin_repository.go:215-221 | An accepted edit writes the columns sent, counts the version up and leaves status and creation time alone. |
| `CommandLaws.UpdateProductLogs` | internal/core/repository/catalog_admin_repository.go:235-256 | Its audit row has each field that differs, with what it was and what was asked for, no other field, and both versions. |
| `CommandLaws.TransitionRefusals` | internal/core/repository/catalog_admin_repository.go:296-325 | Exactly when a lifecycle command is refused, edge by edge, and as what. |
| `CommandLaws.TransitionLeaves` | internal/core/repository/catalog_admin_repository.go:308-325 | It changes status and version only, and logs both statuses and both versions. |
| `CommandLaws.CreateCategoryRefusals` | internal/core/repository/catalog_admin_repository.go:376-394 | Exactly when a category create is refused, and as what. |
| `CommandLaws.CreateCategoryLeaves` | internal/core/repository/catalog_admin_repository.go:376-395 | It writes and logs the name and description sent, and touches no product. |
| `CommandLaws.UpdateCategoryRefusals` | internal/core/repository/catalog_admin_repository.go:416-449 | Exactly when a category edit is refused, and as what. |
| `CommandLaws.UpdateCategoryLeaves` | internal/core/repository/catalog_admin_repository.go:423-450 | It writes the name and description sent and logs each that differs with both values. |
| `CommandLaws.NearestCent` | db/migrations/sql/000001_init_schema.up.sql:33 | A price is stored as the nearest cent, halves away from zero. |
| `ReadLaws.EditIsRead` | internal/core/repository/postgres_product_repository.go:48-71 | After an accepted edit the public read answers name, description, price and category as sent, `Uncategorized` if there is no such category, when the product is ACTIVE, and nothing when it is not. |
| `ReadLaws.CreateThenPublishIsRead` | internal/core/repository/postgres_product_repository.go:48-71 | A new product is hidden until it is published and then read as it was created. |
| `ReadLaws.ArchiveThenRestoreIsRead` | internal/core/repository/postgres_product_repository.go:48-71 | An archive hides the product, a restore shows again what was hidden. |
| `ReadLaws.RenameIsRead` | internal/core/repository/postgres_product_repository.go:49-54 | A category rename is read in every ACTIVE product of the category and changes nothing else of any. |
| `ReadLaws.OperatorSees` | internal/core/repository/catalog_admin_repository.go:32-63 | The operator's row shows every column of the stored one. |
| `Catalog.CentsOfDollars` | db/migrations/sql/000001_init_schema.up.sql:33 | A stored price, read as a number and stored again, is the same number of cents. |
| `CatalogRepository.CatalogAdminRepository.CreateProduct` | internal/core/repository/catalog_admin_repository.go:131-175 | The transaction as it runs answers and leaves the database as the atomic create with the sequence's next id does, rollback included; names stay unique. |
| `CatalogRepository.CatalogAdminRepository.UpdateProduct` | internal/core/repository/catalog_admin_repository.go:197-274 | Lock, version check, write, field-by-field change set and audit together are the atomic edit, in every refusal too. |
| `CatalogRepository.CatalogAdminRepository.Transition` | internal/core/repository/catalog_admin_repository.go:288-341 | Lock, lifecycle decision, write and audit together are the atomic lifecycle command. |
| `CatalogRepository.CatalogAdminRepository.CreateCategory` | internal/core/repository/catalog_admin_repository.go:372-402 | The transaction is the atomic category create; a taken name is a conflict. |
| `CatalogRepository.CatalogAdminRepository.UpdateCategory` | internal/core/repository/catalog_admin_repository.go:409-457 | The transaction is the atomic category edit, with an audit row even when no field differs. |
| `CatalogRepository.CatalogAdminRepository.InsertAudit` | internal/core/repository/catalog_admin_repository.go:515-541 | An audit row is appended exactly when it fits its columns; an empty change set is stored as NULL. |
| `CatalogRepository.CatalogAdminRepository.ListProducts` | internal/core/repository/catalog_admin_repository.go:68-101 | The page is the slice of the one newest-first order of the matching rows, and the total is their number. |
| `Paging.ListingUnique` | internal/core/repository/catalog_admin_repository.go:82-85 | The order (created_at, id) descending determines the listing: two listings of the same rows are equal. |
| `QueryLaws.OperatorsOrder` | internal/core/repository/catalog_admin_repository.go:68-85 | The operator's list has the rows of the status asked for, or all, newest first, the higher id first among those created together. |
| `Paging.PagesPartitionListing` | internal/core/repository/catalog_admin_repository.go:68-101 | For every filter and page size, the pages in sequence are every matching row once, in order, as many as the total says. |
| `History.VersionNamesOneRow` | internal/core/repository/catalog_admin_repository.go:191-220 | Over any run, two states in which a product has the same version agree on its whole row. |
| `History.EditOverwritesWhatWasRead` | internal/core/repository/catalog_admin_repository.go:191-220 | An accepted edit overwrites exactly the row its operator read, whatever committed in between. |
| `History.OneEditPerVersion` | internal/core/repository/catalog_admin_repository.go:210-220 | Of all edits of a product that carry one version, at most one ever succeeds; the others get a version conflict. |
| `History.AuditIsLifecyclePath` | internal/core/repository/catalog_admin_repository.go:288-325 | Over any run, a product's audit rows are a path of the lifecycle table whose version pairs chain without gaps to the row's status and version. |
| `History.LifecycleCounts` | internal/core/domain/lifecycle.go:80-98 | At most one PUBLISH, only out of DRAFT; ARCHIVE minus RESTORE is the change in being archived; the version counts the audit rows. |
| `History.EditReplayRefused` | internal/web/v1/protected.go:25-30 | An accepted edit replayed after any later run is a version conflict and changes nothing. |
| `History.PublishReplayRefused` | internal/web/v1/protected.go:25-30 | An accepted publish replayed after any later run is an illegal edge and changes nothing. |
| `History.CreateReplayExact` | internal/core/repository/catalog_admin_repository.go:139-147 | A retried create is accepted if and only if no product holds its name any more and the sequence's id is free; otherwise it is a conflict that changes nothing. |
| `History.CreateReplayRefused` | internal/core/repository/catalog_admin_repository.go:140-145 | After any run in which the created product was not renamed, the retried create is a conflict and changes nothing. |
| `History.CreateReplayAfterRename` | internal/web/v1/protected.go:25-30 | Create, rename, retried create: two products and three audit rows. The retry-safety claim fails here. |
| `History.CreateCategoryReplayExact` | internal/core/repository/catalog_admin_repository.go:376-386 | A retried category create is accepted if and only if no category holds its name any more and the id is free. |
| `History.CreateCategoryReplayRefused` | internal/core/repository/catalog_admin_repository.go:381-383 | After any run in which the created category was not renamed, the retried create is a conflict and changes nothing. |
| `History.CreateCategoryReplayAfterRename` | internal/web/v1/protected.go:288-290 | Create, rename, retried create of a category: two categories and three audit rows. |
| `History.TransitionReplayExact` | internal/core/repository/catalog_admin_repository.go:303-306 | An immediate retry of a lifecycle command is refused; a later one is applied exactly when the row is back in a status the command leads out of. |
| `History.ArchiveReplayAfterRestore` | internal/web/v1/protected.go:25-30 | Archive, restore, retried archive: applied twice, three audit rows. The retry-safety claim fails here. |
| `History.CategoryEditReplayExact` | internal/core/repository/catalog_admin_repository.go:409-457 | After any later run, a replayed category edit is accepted if and only if no other category holds its name, else a conflict that changes nothing; accepted, it makes the row what it asked for, adds one audit row with the differences from the row as it then was, and is without effect on the rows if and only if the row still was as asked for. |
| `History.CategoryEditReplayOverwrites` | internal/web/v1/protected.go:25-30 | One operator's category edit, another's, the first one retried: the second edit is overwritten, with three audit rows. The retry-safety claim fails here. |
| `History.CategoryEditReplay` | internal/core/repository/catalog_admin_repository.go:409-457 | An immediate replay is accepted, leaves every row as it is and adds one audit row without a change set. |
| `History.RequestIdExactly` | internal/core/repository/catalog_admin_repository.go:531-539 | A command accepted under one request id is accepted under another if and only if that has at most 64 characters; otherwise it is rolled back with an internal error. |
| `AuditReplay.ReplayStepExact` | internal/core/repository/catalog_admin_repository.go:149-258 | After one accepted command, a replica that reads its audit row agrees with the tables if and only if price and category were of the kind the row can express. |
| `AuditReplay.ReplayReproducesTables` | internal/core/repository/catalog_admin_repository.go:149-449 | Folding the audit log over the initial snapshot reproduces both tables after any such run, renames and refusals included. |
| `AuditReplay.ReplayExactly` | internal/core/repository/catalog_admin_repository.go:149-449 | The log tells the tables at every point of a run if and only if every accepted write of the run could be expressed by its audit row. |
| `AuditReplay.CreateDoesNotAuditDescription` | internal/core/repository/catalog_admin_repository.go:153-155 | Two creates that differ in description leave the same log and different rows. |
| `Transactions.StepKeepsInv` | internal/core/repository/catalog_admin_repository.go:197-233 | Every micro-step of every interleaving keeps the row a transaction locked as it read it, and keeps row locks and pending names exclusive. |
| `Transactions.LockedRowIsMatched` | internal/core/repository/catalog_admin_repository.go:229-233 | Behind the row lock the version in the WHERE clause always matches: the zero-rows branch is unreachable. |
| `Linearizability.CommitIsAtomicExactly` | internal/core/repository/catalog_admin_repository.go:197-269 | A commit leaves the rows and log of the atomic command run at that instant if and only if the categories its row and audit row were made from are unchanged; with its answer, which was read back before, it is that command's outcome if and only if the category name read back is unchanged too. |
| `Linearizability.RenameAfterReadBack` | internal/core/repository/catalog_admin_repository.go:327-341 | A rename between a lifecycle command's read-back and its commit leaves the atomic command's rows and log and answers with the old category name. |
| `Linearizability.LinearizableExactly` | internal/core/repository/catalog_admin_repository.go:131-341 | An interleaving equals the answered commands in order at every instant, in rows, audit log and answers, if and only if every commit finds all categories its transaction read, for its row, its audit row and its answer, unchanged. |
| `Linearizability.InterleavingIsLinearizable` | internal/core/repository/catalog_admin_repository.go:197-341 | With no category command amid transactions that read categories, every interleaving is linearizable. |
| `Linearizability.LateCategoryBreaksAtomicity` | internal/core/repository/catalog_admin_repository.go:215-220 | A category created between an edit's UPDATE and its commit makes the commit differ from the edit run at that instant. |
| `Schedules.LateCategoryInvertsOrder` | internal/core/repository/catalog_admin_repository.go:215-220 | The whole run: the category is answered first and the edit second, and the product rows are those of the opposite order. |
| `Schedules.LateRenameDatesAnswer` | internal/core/repository/catalog_admin_repository.go:288-341 | The whole run of the late rename: rows and log in answered order, answer not. |
| `TraceHistory.TraceVersionNamesOneRow` | internal/core/repository/catalog_admin_repository.go:191-220 | Over every interleaving, fresh or not, two instants at which a product has one version agree on its whole row. |
| `TraceHistory.TraceOneEditPerVersion` | internal/core/repository/catalog_admin_repository.go:210-233 | Over every interleaving, of all edits of a product that carry one version at most one is accepted and those answered after it get a version conflict. |
| `TraceHistory.TraceAuditIsLifecyclePath` | internal/core/repository/catalog_admin_repository.go:288-325 | Over every interleaving, a product's audit rows in commit order are a path of the lifecycle table with chained versions. |
| `TraceHistory.TraceLifecycleCounts` | internal/core/repository/catalog_admin_repository.go:288-325 | Over every interleaving, the counts of LifecycleCounts hold of a product's audit rows. |
| `TraceReplay.TraceReplayExactly` | internal/core/repository/catalog_admin_repository.go:197-269 | Over every interleaving, the log tells the tables at every instant if and only if every committing audit row has a price of at most two decimals and leaves its reader with the category name the committed row then has. |
| `TraceReplay.FreshAndSayableTells` | internal/core/repository/catalog_admin_repository.go:235-258 | A commit of an expressible write that finds its categories unchanged is told. |
| `Schedules.RenameDuringEditIsNotTold` | internal/core/repository/catalog_admin_repository.go:200-247 | A run: an edit that keeps its product's category, and a rename of that category between the edit's lock and its UPDATE, end in a product without a category and an audit row that does not say so. |
| `AuditOrder.AuditReadsBack` | internal/core/repository/catalog_admin_repository.go:473-480 | Audit ids of one target follow commit order in every interleaving; the history list shows two commits in that order if and only if the later one did not begin earlier. |
| `Schedules.HistoryListCanInvert` | internal/core/repository/catalog_admin_repository.go:473-480 | A run of an archive and a publish whose history reads back in the wrong order. |
| `ValkeyStore.ValkeyCacheClient.SetNX` | internal/core/cache/valkey_client.go:85-98 | Stores only over a missing or expired key and says whether it did; on a failure the store may or may not hold the value. |
| `ValkeyStore.ValkeyCacheClient.DeleteIfEqual` | internal/core/cache/valkey_client.go:105-118 | Removes a live entry only when it still holds the given value. |
| `ValkeyStore.ValkeyCacheClient.DeleteByPattern` | internal/core/cache/valkey_client.go:122-147 | For a scan of any length, duplicates included, complete or broken off: only yielded keys go, and success means a complete scan all of whose keys are gone, through full and partial batches. |
| `ValkeyStore.CoveringScanLeavesTheRest` | internal/core/cache/valkey_client.go:120-147 | If the scan covers the pattern, what is left is exactly the keys that do not match. |
| `ValkeyStore.KeySpacesDisjoint` | internal/core/cache/product_cache.go:55-95 | Detail, lock and list keys never coincide, and equal keys name the same thing. |
| `ValkeyStore.ListPatternExact` | internal/core/cache/product_cache.go:231-233 | The list pattern matches list keys and no detail or lock key. |
| `ReadProtocol.FetchAttribution` | internal/core/cache/product_cache.go:131-183 | In every conversation the database is asked at most once, and only after acquiring the lock, after a lock error, or 500 ms after a refusal. |
| `CacheAside.ProductCache.GetProductOrSet` | internal/core/cache/product_cache.go:131-184 | The requests the call made, as the store and the database logged them, are a conversation of the protocol that ends with its answer, whatever fails: at most one fetch, with a license. A hit changes nothing. Past a miss: the answer is what was fetched; an owner leaves the fetched product under the detail key until the TTL, no lock unless the unlock was lost, and every other key; a lock that was got lasts five seconds; a waiter writes nothing, polls at most ten times if polls are shorter than a tick, and gives up after half a second. |
| `CacheAside.ProductCache.AwaitHolder` | internal/core/cache/product_cache.go:163-183 | A waiter's logged polls and timeout extend the conversation to its answer, it leaves the store as the others have left it, and if polls are shorter than a tick it polls at most ten times, and at least nine unless it finds the entry or is cancelled. |
| `CacheAside.ProductCache.FetchAsOwner` | internal/core/cache/product_cache.go:143-161 | The owner answers what was fetched, stores exactly that for the TTL and no absence, removes its own lock only, and leaves every other key. |
| `CacheLaws.StoredIsServed` | internal/core/cache/product_cache.go:154-159 | The entry an owner leaves is read back as what was fetched up to its expiry, and as a miss after. |
| `CacheLaws.HeldForFiveSeconds` | internal/core/cache/product_cache.go:138-141 | A lock that was got and not released keeps every other call out for five seconds, and no longer. |
| `CacheLaws.ReadTwice` | internal/core/cache/product_cache.go:131-161 | A read that fills the cache, then an undisturbed one within the TTL: the second answers the first one's product from the cache and does not ask the database. |
| `CacheLaws.ReadAbsentTwice` | internal/core/cache/product_cache.go:154-157 | An absence is not cached: the next read answers what the database then says. |
| `CacheAside.ProductCache.InvalidateProductList` | internal/core/cache/product_cache.go:228-233 | Whatever the scan yields before it ends or breaks off, detail and lock entries stay as they are; on success no list entry remains. |
| `CacheInvariant.ChangeIsTouched` | internal/web/v1/protected.go:202-252 | The public row of a product changes only by an edit or transition of it or a rename of its category. |
| `CacheInvariant.StepKeepsInv` | internal/core/cache/product_cache.go:131-184 | Every step of readers, writers, invalidations and clock, in any order and with any fault, keeps the service's invariant. |
| `CacheTheorems.AnswersAreHistoric` | internal/logic/v1/service.go:130-163 | Every answer of every read, on the hit, owner, waiter and fail-open paths, is what FindByID answered for that id at some instant of the run, and within the call itself unless it was served from the cache. |
| `CacheTheorems.StaleEntryHasCulprit` | internal/web/v1/protected.go:327-357 | A detail entry that differs from the current ACTIVE row has a commit to blame: an edit whose invalidation is owed, lost or came before the entry was stored, or a rename of its category, after the entry was read. |
| `CacheTheorems.UnblamedEntryIsFresh` | internal/core/cache/product_cache.go:235-241 | The same read the other way: an entry with no such commit is the current row. |
| `CacheTheorems.ServedFromCacheIsRecent` | internal/core/cache/product_cache.go:18-26 | If fetched values are stored within a delay, a value served from the cache was the row at most the delay, the TTL and a tenth of the TTL ago. |
| `CacheTheorems.DraftIsNeverCached` | internal/web/v1/protected.go:185-187 | In every reachable state a DRAFT product has no detail entry, is in the hands of no detail or list read and on no cached list. |
| `CacheLocks.MutualExclusion` | internal/core/cache/product_cache.go:138-161 | Reads of one product that were told they hold the lock and are within its TTL are at most one, and the live record carries its token. |
| `CacheLocks.LiveLockEndsOnlyByItsOwner` | internal/core/cache/valkey_client.go:105-118 | A live lock record survives every step but the unlock of the read whose token it holds. |
| `CacheLocks.OverrunReleaseRemovesNothing` | internal/core/cache/product_cache.go:148-150 | A read that overran the lock's TTL removes no lock when it releases. |
| `CacheLists.ListAnswersAreHistoric` | internal/core/cache/product_cache.go:60-95 | In a run in which no two filter sets share a key and ask for different things, every list answer is a page and a total that its own filters had at instants of the run, though another filter set may have stored it. |
| `CacheLists.PlainFiltersAgree` | internal/core/cache/product_cache.go:60-95 | Separator-free filters other than `all` and `none` never share a key and ask for different things. |
| `CacheLists.CategoryAllIsServedEverything` | internal/core/cache/product_cache.go:62-65 | A run in which a request for the category `all` is served a page its own filters never had. |
| `CacheLists.StaleListHasCulprit` | internal/web/v1/protected.go:327-357 | A live list entry whose page or total is not the present one has a commit to blame, after it was read, at which that page or that total went from right to wrong and whose list invalidation is owed, under way, lost or began before the entry was stored. |
| `CacheLists.ServedPageIsRecent` | internal/core/cache/product_cache.go:18-26 | If pages are stored within a delay of being read, a page served from the cache is no older than the delay, the TTL and a tenth of the TTL. |
| `ListService.ListProducts` | internal/logic/v1/service.go:52-106 | A live page under the filters' key is returned as it is; otherwise the two statements' page and total are returned and stored, and a failed store changes neither. |
| `WriteHandlers.ProtectedHandler.UpdateProduct` | internal/web/v1/protected.go:202-224 | A refused edit leaves the cache alone; an accepted one is answered as committed whatever the cache does, a scan broken off midway included; other details and locks stay, and if the cache is spared the product's detail and all lists are gone. |
| `WriteHandlers.ProtectedHandler.Transition` | internal/web/v1/protected.go:230-253 | The same for lifecycle commands. |
| `WriteHandlers.ProtectedHandler.CreateProduct` | internal/web/v1/protected.go:169-189 | A create drops lists only. |
| `WriteHandlers.ProtectedHandler.UpdateCategory` | internal/web/v1/protected.go:309-330 | A category edit drops lists and keeps every detail entry. |
| `ListQuery.BuildFindAll` | internal/core/repository/postgres_product_repository.go:125-175 | For every filter set the text is the ACTIVE condition, the conditions asked for, the order and the window, the placeholders are 1..len(args) in order, the arguments are the category, the search text between wildcards, limit and offset, and text and arguments together mean the query that was asked for. |
| `QueryLaws.MatchesExactly` | internal/core/repository/postgres_product_repository.go:126-147 | A request matches exactly the ACTIVE products whose category has the name asked for and whose name contains the wildcard-free search text, capitals or not. |
| `QueryLaws.AscendsExactly` | internal/core/repository/postgres_product_repository.go:162-166 | The list ascends if and only if the order is the word `asc`, capitals or not, blanks around it or not. |
| `QueryLaws.PageIsSorted` | internal/core/repository/postgres_product_repository.go:149-167 | Every page is sorted by the column asked for, by creation time when none or an unknown one is, in that direction, and shows each product once. |
| `QueryLaws.PageIsMatches` | internal/core/repository/postgres_product_repository.go:125-200 | Only matches are on a page, and with room for all of them all are. |
| `QueryLaws.TextOrder` | internal/core/repository/postgres_product_repository.go:149-167 | Names are ordered by the first character in which they differ. |
| `QueryLaws.PageStarts` | internal/core/repository/postgres_product_repository.go:168-174 | Page p of size limit has LIMIT limit and OFFSET (p - 1) * limit, short of overflow. |
| `QueryLaws.PageDefaults` | internal/core/repository/postgres_product_repository.go:168-174 | No size is 20, a page before the first is the first, a negative size is an error. |
| `QueryLaws.WindowsArePrefix` | internal/core/repository/postgres_product_repository.go:168-175 | Over one order of the matches, the windows of pages 1 to n are its first n * limit rows, in order. |
| `ListQuery.BuildCount` | internal/core/repository/postgres_product_repository.go:203-227 | Count's placeholders are 1..len(args) and it selects by the same predicate as FindAll. |
| `PublicReads.PageAgreesWithCountAndDetail` | internal/core/repository/postgres_product_repository.go:125-227 | In one state, a page has min(limit, max(0, count - offset)) rows and each is what FindByID answers for its id. |
| `ListQuery.ListKeyInjective` | internal/core/cache/product_cache.go:84-95 | For separator-free filters the key determines all six defaulted fields. |
| `ListQuery.SameKeySameQueryExactly` | internal/core/cache/product_cache.go:60-95 | Two filter sets with one key ask for the same query if and only if LIMIT is invalid for both or they agree on being the word `all` and the word `none`. |
| `ListQuery.CategoryAllCollides` | internal/core/cache/product_cache.go:62-65 | `category=all` shares the key of the unfiltered list and asks for another query. |
| `ListQuery.SearchNoneCollides` | internal/core/cache/product_cache.go:66-69 | `search=none` likewise. |
| `ListQuery.SeparatorCollides` | internal/core/cache/product_cache.go:87-93 | A separator inside a text field can give two different queries one key. |
| `Text.PrefixPattern` | internal/core/cache/valkey_client.go:125 | A literal prefix followed by a star matches exactly the keys with that prefix. |
| `MinorUnits.ToDoubleIsNearest` | internal/grpc/v1/server.go:80-82 | Rounding to nearest, ties to even, gives a double that no other double is closer than, within a relative error of 2^-53. |
| `MinorUnits.MinorUnitsExact` | internal/grpc/v1/server.go:80-82 | For 0 to 9999999999 cents, two roundings, whichever way ties go, and round-half-away give back exactly the cents. |
| `Prices.AtoiReadsBack` | internal/core/repository/postgres_product_repository.go:88-94 | Every int that was printed is parsed back. |
| `Prices.SpellingsAgree` | internal/core/repository/postgres_product_repository.go:88-94 | A plus sign or a leading zero asks for the same row. |
| `Prices.NoNumberNoRow` | internal/core/repository/postgres_product_repository.go:88-94 | A text with anything but digits after its sign asks for no row. |
| `Prices.FindByIDs` | internal/core/repository/postgres_product_repository.go:86-122 | Every existing row asked for under any spelling of its number, once; other ids are skipped; with no numeric id the database is not asked. |
| `Prices.BatchGetCurrentPrices` | internal/grpc/v1/server.go:57-91 | 1 to 200 ids, else an argument error; then exactly the asked-for existing rows, each once, at their stored cents. |
| `Prices.PriceSays` | internal/grpc/v1/server.go:76-89 | A price has the id in canonical form, the row's name, its stored cents, USD, and is sellable. |
| `Prices.PricesIgnoreLifecycle` | internal/core/repository/postgres_product_repository.go:78-86 | No run of publish, archive and restore commands changes any batch's prices. |
| `Prices.ArchivedIsHiddenButPriced` | internal/core/repository/postgres_product_repository.go:74-86 | After an archive the public read finds nothing and the price read answers as before. |

## Left out

- HTTP binding and its length checks, tokens and roles, tracing, metrics, logging, shutdown: plumbing without state of its own.
- The review and inventory clients and the aggregated detail page: remote calls with one-branch fallbacks.
- The repository's Create, Update and Delete and the service's CreateProduct: no mounted route reaches them, and they bypass version and audit.
- Related products and the replica pool: uncached, stale by design, no order.
- Category commands inside an interleaving are single steps; a product transaction's lock read sees the categories committed at the instant the lock is granted, while the database may join the categories of the statement's start.
- CacheSystem commits are atomic commands, the case that Linearizability characterises; a commit that lands after a category it read has changed is not one of its steps.
- The call in CacheAside takes no time between its own requests but for the waits; what others do in between is CacheSystem's matter. Its log has the requests of a read; DEL and UNLINK are not on it.
- Abort of a transaction (lost connection, deadlock, cancellation) leaves no trace; a commit whose reply is lost is not told apart from one that was answered.
- Prices in the catalogue are real numbers; the binary64 form is modelled where the price read uses it. Reading NUMERIC into a float64 is taken to round to nearest.
- SERIAL sequences and versions do not overflow; an id the sequence repeats is a conflict on the primary key.
- VARCHAR limits refuse longer text, trailing blanks included, which the database would cut off instead.
- NULL descriptions are empty descriptions, and the public reads, which would fail to scan a NULL one, never meet one.
- ILIKE and upper-casing fold ASCII letters only, TrimSpace trims ASCII space, and names sort by code point rather than by collation.
- SHA-256 is taken as injective, and JSON as giving back what was encoded.
- The store serves a request at one instant; a request that arrives after its caller gave up, and eviction before expiry, are not steps. A lock's TTL counts from the instant it was set.
- Lock tokens are fresh, though 16 random bytes could repeat.
- ReadProtocol.FetchAttribution: says nothing of how many reads fetch at once, because a read that missed before the lock was released does not look again and fetches too.
- Prices.FindByIDs: a number too large for the id column is one of the failures of the query that `dbFails` stands for, because the database decides it.
- PublicReads.PageAgreesWithCountAndDetail: is about one page, because ORDER BY price or created_at has no tie-breaker and two pages may be cut from different orders.
- CacheLists.StaleListHasCulprit: is about live entries, because a scan need not yield an expired key.
- CacheLists.ListAnswersAreHistoric: page and total are each historic and may be from different instants, because they are two statements.
