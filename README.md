# Collaborative document service: change-log cache and session registry

This project models the core of the document service of doscenario-services, a
backend for a collaborative editor. Clients edit a text document by sending
batches of edits (insert, remove, replace). The service keeps those edits in a
per-document change log instead of writing each one to the database. A document's
current content is the stored content with its whole log replayed on top. A
background sweep writes a document back to the store once its log has been idle
for more than 30 seconds or holds more than 100 batches. The RPC façade keeps,
for each document, the sessions subscribed to it, and pushes open, write, close
and remove events to them.

Modules:

- `Wrappers`: `Option`, `Result` and the gRPC `Status` values used for errors.
- `Models`: the database rows (`DocumentModel`, `SheetModel`, `UserModel`).
- `Proto`: the wire records: requests, responses and the three edit kinds.
- `Utils`: `to_remove_range` and `unpack_req` of the newer crate.
- `LegacyUtils`: `to_remove_range` and the edit conversion of the older service.
- `Storage`: the queries the core issues, over a `Database` object whose tables are maps.
- `Events`: the events pushed to sessions, and an `Outbox` holding each session's channel.
- `Mapper`: the row-to-response conversions.
- `Cache`: the `DocsCache` class. It also holds the replay semantics (`ApplyChange`, `ApplyAll`, `Flatten`) against which the cache's methods are proved.
- `Service` and `LegacyService`: the two versions of the RPC façade.

Modelling choices:

- **Errors.** Every fallible operation returns a `Result` whose error is a `Status`.
- **Store failures.** Whether the store can serve reads and writes is state of the `Database` (`readable`, `writable`). So a flush can fail after a good rebuild.
- **Injected behaviour.** The CRC-32 of the content and the rendering of dates are function parameters. So are the session id from the snowflake generator, the document's UUID and the current time (integer milliseconds).
- **Cast to `usize`.** `as usize` of a signed value is the two's-complement wrap-around to 64 bits.
- **Session channels.** Each session's sender is the queue of events it has been sent so far.

Behaviour of the code worth noting:

- `close_doc` never touches the cache: when the last session leaves, the pending edits stay in the cache until the sweep writes them back.
- `remove_doc` does not delete the document row. It writes the pending log back through the cache's `remove_doc` and evicts the entry, and a failed write-back is reported to the caller.
- The close event carries the user and the document.
- The 100-batch threshold counts batches (entries of the log), not single edits.

## Model

| member | source | states |
|---|---|---|
| Utils.ToRemoveRange | crates/doscenario-docs/src/utils.rs:11-19 | the loop keeps exactly the characters whose index is below `start` or at least `stop`, in order; for `start <= stop` that is the prefix before `start` plus the suffix from `stop`, both clamped to the length; the result is shorter by exactly the number of indices in `[start, stop)` that exist |
| Utils.RemoveRangeSplice | crates/doscenario-docs/src/utils.rs:11-19 | for `start <= stop` the filter equals `s[..min(start,n)] + s[min(stop,n)..]`: a removal range past the end is clamped, never an error |
| Utils.RemoveRangeIdentity | crates/doscenario-docs/src/utils.rs:11-19 | an empty or inverted range, or one starting at or past the end, leaves the string unchanged |
| Utils.RemoveRangeLength | crates/doscenario-docs/src/utils.rs:11-19 | the result loses exactly the overlap of `[start, stop)` with the string and is never longer than it |
| Utils.RemoveRangeAt | crates/doscenario-docs/src/utils.rs:11-19 | every character of the result is the source character at a kept index |
| Utils.SourceIndexIncreasing | crates/doscenario-docs/src/utils.rs:13-17 | the kept characters keep their relative order |
| Utils.ClampedRemoveExample | crates/doscenario-docs/src/utils.rs:11-19 | removing `(1, 101)` from `"abc"` yields `"a"` |
| Utils.UnpackReq | crates/doscenario-docs/src/utils.rs:33-36 | returns the payload and the attached `UserId` unchanged: repacking them gives back the request |
| LegacyUtils.ToRemoveRange | docs/utils.rs:10-18 | the older crate's copy of the range removal meets the same reference definition, the clamped splice, the identity cases and the length bound |
| LegacyUtils.ToEventChange | docs/utils.rs:21-31 | each edit kind maps to the event kind of the same name with its payload unchanged, in both directions |
| LegacyUtils.ToEventChangeInjective | docs/utils.rs:21-31 | the conversion loses nothing: distinct edits give distinct event edits |
| Mapper.ToOpenDocResponse | crates/doscenario-docs/src/docs_mapper.rs:5-19 | id, title and uid are copied; missing color and content become `""`; dates are rendered; sheets start empty and the version at 0 |
| Mapper.MissingReadsAsEmpty | crates/doscenario-docs/src/docs_mapper.rs:5-19 | a missing color or content and an empty one give the same response |
| Mapper.ResponseIgnoresOwnership | crates/doscenario-docs/src/docs_mapper.rs:5-19 | the response does not depend on the row's project, author or last editor |
| Mapper.ToSheetEntity | crates/doscenario-docs/src/docs_mapper.rs:20-33 | id, title, uid and project are copied; missing color and author become `""`; dates are rendered |
| Mapper.ToSheetEntities | crates/doscenario-docs/src/docs_service.rs:101 | one entity per sheet row, in the order the query returned them |
| Storage.SheetsOf | crates/doscenario-docs/src/queries.rs:64-81 | a row is returned iff it belongs to the document |
| Storage.Database.GetUser | crates/doscenario-docs/src/queries.rs:6-13 | succeeds iff the store is readable and the user exists, with that user's row |
| Storage.Database.GetDocument | crates/doscenario-docs/src/queries.rs:34-50 | succeeds iff readable and the row exists; the returned row has no content, because the query does not select that column |
| Storage.Database.GetDocumentContent | crates/doscenario-docs/src/queries.rs:55-62 | succeeds iff readable and the row exists; a NULL content reads as `""` |
| Storage.Database.GetDocSheets | crates/doscenario-docs/src/queries.rs:64-81 | succeeds iff readable, with exactly the document's sheet rows |
| Storage.Database.CreateDocument | crates/doscenario-docs/src/queries.rs:15-33 | when writable, inserts a row at the next auto-increment id, with the given title, project, author and uid and NULL content and color, and returns that id; otherwise fails and changes nothing |
| Storage.Database.SetDocContent | crates/doscenario-docs/src/queries.rs:83-91 | fails iff the store is not writable; otherwise sets the row's content, and a missing row is silently unaffected |
| Events.Outbox.OpenChannel | crates/doscenario-docs/src/docs_service.rs:41 | a fresh session gets an empty channel; no other channel changes |
| Events.Outbox.Send | crates/doscenario-docs/src/docs_service.rs:66-78 | appends the event to one session's channel only |
| Events.Outbox.Broadcast | crates/doscenario-docs/src/macros.rs:2-5 | every recipient receives the event exactly once and nobody else receives anything, whatever order the sends run in |
| Cache.AsUsize | crates/doscenario-docs/src/docs_cache.rs:101-102 | the `as usize` cast: non-negative values are kept, negative ones wrap around by 2^64 |
| Cache.ApplyChange | crates/doscenario-docs/src/docs_cache.rs:92-108 | an edit fails iff it is an insert at a position below 0 or past the end |
| Cache.ApplyAllAppend | crates/doscenario-docs/src/docs_cache.rs:89-110 | replaying `a + b` is replaying `a`, then `b` over its result; a failure in `a` fails the whole replay |
| Cache.FlattenAppend | crates/doscenario-docs/src/docs_cache.rs:89-90 | the edits of two consecutive log parts are those of the first followed by those of the second |
| Cache.InsertSplices | crates/doscenario-docs/src/docs_cache.rs:93-98 | an in-range insert splices its text in at the given offset |
| Cache.InvalidInsertFails | crates/doscenario-docs/src/docs_cache.rs:94-96 | an out-of-range insert makes the whole replay fail, whatever follows it |
| Cache.RemoveClamps | crates/doscenario-docs/src/docs_cache.rs:99-104 | a removal with non-negative operands never fails and removes `[p, p + s)` clamped to the content |
| Cache.ReplaceResets | crates/doscenario-docs/src/docs_cache.rs:105-107 | a replace discards everything replayed before it; later edits apply to its text |
| Cache.InsertAtEndExample | crates/doscenario-docs/src/docs_cache.rs:93-98 | inserting `" world"` at 5 into `"hello"` gives `"hello world"` |
| Cache.RemoveSuffixExample | crates/doscenario-docs/src/docs_cache.rs:99-104 | removing `(5, 6)` from `"hello world"` gives `"hello"` |
| Cache.ReplaceThenInsertExample | crates/doscenario-docs/src/docs_cache.rs:89-110 | replace with `"xyz"` then insert `"!"` at 3 gives `"xyz!"` |
| Cache.ClampedRemoveReplayExample | crates/doscenario-docs/src/docs_cache.rs:99-104 | removing `(1, 100)` from `"abc"` gives `"a"` |
| Cache.InsertPastEndExample | crates/doscenario-docs/src/docs_cache.rs:94-96 | inserting at 10 into `"abc"` fails |
| Cache.ReplayFailsFrom | crates/doscenario-docs/src/docs_cache.rs:94-95 | the first failing edit decides the result of the whole rebuild |
| Cache.AppendBatch | crates/doscenario-docs/src/docs_cache.rs:151-164 | a batch from the session that wrote the last batch is merged into it, otherwise it is appended as a new batch; the version moves by one and the touch time is refreshed |
| Cache.AppendBatchFlatten | crates/doscenario-docs/src/docs_cache.rs:153-162 | merging or appending, the log's edits are the old edits followed by the new ones |
| Cache.AppendBatchReplay | crates/doscenario-docs/src/docs_cache.rs:151-168 | a write never changes the content rebuilt before it; it only adds its edits on top |
| Cache.SameSessionCoalesces | crates/doscenario-docs/src/docs_cache.rs:153-164 | two consecutive writes of one session on an empty log leave one batch and move the version by two |
| Cache.NeedsFlush | crates/doscenario-docs/src/docs_cache.rs:66-70 | the sweep's filter in closed form: a document is selected iff its log is non-empty and either it was last written at least 31 seconds ago or it holds more than 100 batches |
| Cache.DocsCache.Due | crates/doscenario-docs/src/docs_cache.rs:64-70 | the sweep selects exactly the cached documents that pass the filter |
| Cache.ElapsedSecs | crates/doscenario-docs/src/docs_cache.rs:68 | whole seconds since the last touch, rounded down, and 0 when the clock went back |
| Cache.LargeLogIsFlushed | crates/doscenario-docs/src/docs_cache.rs:66-70 | more than 100 pending batches select a document however recent its last write |
| Cache.EmptyLogIsKept | crates/doscenario-docs/src/docs_cache.rs:67 | a document with no pending batch is never selected |
| Cache.RecentSmallLogIsKept | crates/doscenario-docs/src/docs_cache.rs:66-70 | at most 100 batches and fewer than 31 seconds idle: not selected |
| Cache.IdleLogIsFlushed | crates/doscenario-docs/src/docs_cache.rs:66-70 | pending batches and 31 seconds or more idle: selected |
| Cache.NeedsFlushPersists | crates/doscenario-docs/src/docs_cache.rs:66-70 | an untouched document that is selected stays selected as time passes |
| Cache.RebuildIn | crates/doscenario-docs/src/docs_cache.rs:83-112 | a store failure or missing row, then a document not in the cache, are errors; otherwise the result is the replay of the whole log over the stored content |
| Cache.RebuildInLocal | crates/doscenario-docs/src/docs_cache.rs:83-112 | rebuilding one document depends on its own row and its own cache entry only |
| Cache.DocsCache.BuildDocChanges | crates/doscenario-docs/src/docs_cache.rs:83-112 | the two nested loops compute exactly the replay of the flattened log; they fail iff the store fails, the row or the cache entry is missing, or some insert is out of range |
| Cache.ApplyOne | crates/doscenario-docs/src/docs_cache.rs:92-108 | one step of the loop computes `ApplyChange` |
| Cache.DocsCache.ApplyDocChanges | crates/doscenario-docs/src/docs_cache.rs:114-121 | succeeds iff the rebuild succeeds and the store accepts the write; then the row holds the rebuilt content and the log is empty, and on any failure neither the cache nor the rows change |
| Cache.DocsCache.RegisterDoc | crates/doscenario-docs/src/docs_cache.rs:125-138 | creates an empty entry with version 0 only when none exists, and returns the rebuilt content with the entry's current version |
| Cache.DocsCache.RemoveDoc | crates/doscenario-docs/src/docs_cache.rs:142-146 | evicts the entry iff the flush succeeded, after writing the rebuilt content; a failed flush keeps everything |
| Cache.DocsCache.ClearDocCache | crates/doscenario-docs/src/docs_cache.rs:148-150 | drops the entry and its pending edits without writing them |
| Cache.DocsCache.UpdateDoc | crates/doscenario-docs/src/docs_cache.rs:151-168 | on a cached document the entry becomes `AppendBatch` of it; an uncached document is left alone, and no entry is created |
| Cache.DocsCache.CrcCheck | crates/doscenario-docs/src/docs_cache.rs:171-175 | fails iff the rebuild fails; otherwise answers whether the checksum of the rebuilt content equals the client's |
| Cache.DocsCache.SweepOnce | crates/doscenario-docs/src/docs_cache.rs:59-80 | one sweep clears the log and writes back the content of exactly the selected documents whose flush succeeds; the others are left as they were, in any visiting order |
| Service.ToEventChanges | crates/doscenario-docs/src/docs_service.rs:144 | a write event carries every edit of the batch, converted element by element, in order |
| Service.DocsService.SubscribeDoc | crates/doscenario-docs/src/docs_service.rs:37-80 | fails with nothing changed iff the caller's user cannot be read; otherwise the existing sessions get an open event naming the caller, the new session is registered, and it alone receives its subscribed event |
| Service.DocsService.LoadDoc | crates/doscenario-docs/src/docs_service.rs:91-104 | registers the document in the cache in all cases; succeeds iff the row, the sheets and the rebuild all succeed, with the mapped row, its sheets, the cache's content and the cache's version |
| Service.DocsService.OpenDoc | crates/doscenario-docs/src/docs_service.rs:85-105 | registers the document in all cases; succeeds iff the row, the sheets and the rebuild all succeed, with the mapped row, its sheets, and the cache's content and version instead of the row's |
| Service.DocsService.CreateDoc | crates/doscenario-docs/src/docs_service.rs:108-125 | when the store accepts the insert, a row authored by the caller is added at the next id and then opened exactly as in `open_doc`, with the full response; otherwise it fails with nothing changed; sheets, users and the store's availability are untouched |
| Service.DocsService.WriteDoc | crates/doscenario-docs/src/docs_service.rs:128-152 | with a batch, the cache appends it and every session of the document, the writer's included, receives it converted; without one, nothing changes; the call never fails |
| Service.DocsService.CloseDoc | crates/doscenario-docs/src/docs_service.rs:154-176 | removes the session, sends the remaining sessions a close event, drops the entry once empty, and leaves the cache untouched |
| Service.DocsService.RemoveDoc | crates/doscenario-docs/src/docs_service.rs:178-202 | on a subscribed document, the other sessions get a remove event and the entry is dropped; then the row receives the rebuilt content and the cache entry is evicted, and the call fails iff that write-back fails, leaving cache and row as they were; an unsubscribed document is left alone; the rest of the store is untouched |
| Service.DocsService.CrcCheck | crates/doscenario-docs/src/docs_service.rs:204-211 | answers the cache's checksum comparison |
| LegacyService.DocsService.SubscribeDoc | docs/docs_service.rs:37-80 | as in the newer service, with the caller taken from the request body |
| LegacyService.DocsService.OpenDoc | docs/docs_service.rs:82-102 | registers the document in all cases; succeeds iff row, sheets and rebuild succeed, with the mapped row, its sheets and the cache's content and version |
| LegacyService.DocsService.WriteDoc | docs/docs_service.rs:104-128 | a single edit is appended to the cache as a batch of one and sent, converted, to every session of the document |
| LegacyService.DocsService.CloseDoc | docs/docs_service.rs:130-152 | as in the newer service, with the caller taken from the request body |
| LegacyService.DocsService.RemoveDoc | docs/docs_service.rs:154-178 | as in the newer service, including the write-back of the rebuilt content, with the caller taken from the request body |
| LegacyService.DocsService.CrcCheck | docs/docs_service.rs:180-187 | answers the cache's checksum comparison |

## Left out

- Concurrency is not modelled. Each RPC and each sweep runs as one sequential step. Lock granularity of the concurrent maps, interleavings of writes with a flush, and the concurrent sends of `join_all` are outside the model.
- A concurrent write can be lost during a flush, because the log is cleared after the rebuild was computed. The model has no such interleaving.
- Service.DocsService.RemoveDoc: self-deadlock. The method holds a read guard on the document's registry entry while asking for a write guard on the same key, so it never returns. The model gives the sequential effect the code evidently intends.
- LegacyService.DocsService.RemoveDoc: the same self-deadlock as the newer service. The model gives the sequential effect.
- Service.DocsService.CloseDoc: self-deadlock when the last session leaves. The write guard on the entry is still held when the entry is removed from the same map, so the call never returns and that part of the map stays locked. The model gives the sequential effect: the empty entry is dropped.
- LegacyService.DocsService.CloseDoc: the same self-deadlock as the newer service. The model gives the sequential effect.
- Outcome of `tokio::try_join!`. In `open_doc` and `create_doc` the three lookups run concurrently, and which error is reported depends on timing. `Service.DocsService.LoadDoc` and `LegacyService.DocsService.OpenDoc` report the sheets error first, then the row's, then the cache's.
- Channels: the channel capacity of 64, send failures ("Cannot send message"), stream ends and the returned receiver stream are left out. A session's channel is an unbounded queue, and sends always succeed.
- Timers and logging: the 2-second timer of the sweep, the background job that logs the cache state every 30 seconds, and all logging. `Cache.DocsCache.SweepOnce` is one tick of the sweep, and its failures are dropped as the source only logs them.
- Cache.ElapsedSecs: the system clock is an integer number of milliseconds passed in by the caller.
- Authentication: the interceptor that attaches `UserId` is not modelled. `Utils.UnpackReq` takes the identity as present, since the source unwraps it.
- Identifier generation: snowflake session ids and UUIDs are parameters. A new session id is assumed not to be in use, which is the generator's promise.
- CRC-32 and date rendering are function parameters, since their algorithms are outside the core.
- Cache.DocsCache.UpdateDoc: the `u64` version counter is unbounded, so its overflow after 2^64 writes is not modelled.
- Cache.ApplyChange: the `i32` addition `position + size` is unbounded, so its overflow (a panic in debug builds) is not modelled. Only the cast to `usize` wraps.
- Cache.ApplyChange: strings are sequences of one-byte characters. The source checks insert offsets against the byte length and panics off a character boundary, while the range removal counts characters. The two agree only for one-byte text.
- Storage.Database.CreateDocument: `last_insert_id() as i32` truncation is not modelled. Ids are unbounded integers, and the store's clock is the `now` parameter.
- Storage.Database.GetDocSheets: the order of rows of an unordered SQL query is taken to be table order. The sheet rows keep their content column, which no response reads.
- `delete_doc` of the queries is not modelled, because no modelled operation calls it.
- Service.ToEventChanges: the conversion of a newer-crate batch into the event's edits is not in the source files of this model. It is taken to be the variant mapping of docs/utils.rs:21-31, applied to each edit in order.
- The older service's cache file is not part of this model. `LegacyService` uses the same `Cache.DocsCache` and passes its single edit as a batch of one.
- The crate's `main.rs` (server setup), the database pool, the models of tables the core does not read, and the gRPC transport are not part of this model.
