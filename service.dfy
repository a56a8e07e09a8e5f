/**
 * The RPC façade of the newer crate (crates/doscenario-docs/src/docs_service.rs):
 * the registry of sessions subscribed to each document, and the glue between
 * the registry, the change-log cache and the store. The caller's identity is
 * the `UserId` the authentication interceptor attached to the request.
 */
module Service {
  import opened Wrappers
  import opened Proto
  import Models
  import Storage
  import Cache
  import Events
  import Mapper
  import Utils
  import LegacyUtils

  /**
   * The batch carried by a write event (`change.clone().into()`): every edit
   * converted by the variant mapping of the older crate, in order.
   */
  function ToEventChanges(cs: seq<Change>): (r: seq<Events.EventChange>)
    ensures |r| == |cs|
    ensures forall i :: 0 <= i < |cs| ==> r[i] == LegacyUtils.ToEventChange(cs[i])
  {
    seq(|cs|, i requires 0 <= i < |cs| => LegacyUtils.ToEventChange(cs[i]))
  }

  class DocsService {
    /**
     * `doc_streams`: for each document with at least one subscriber, the ids
     * of its sessions. A session's sender is its queue in `outbox`.
     */
    var docStreams: map<int, set<int>>
    const cache: Cache.DocsCache
    const outbox: Events.Outbox
    const db: Storage.Database

    /** Every registered session has a channel, and a document's entry disappears with its last session. */
    ghost predicate Valid()
      reads this, outbox, db
    {
      && cache.db == db
      && db.Valid()
      && (forall id :: id in docStreams ==> docStreams[id] != {} && docStreams[id] <= outbox.queues.Keys)
    }

    constructor (db: Storage.Database)
      requires db.Valid()
      ensures Valid() && this.db == db && fresh(cache) && fresh(outbox)
      ensures docStreams == map[] && cache.docCache == map[] && outbox.queues == map[]
    {
      this.db := db;
      cache := new Cache.DocsCache(db);
      outbox := new Events.Outbox();
      docStreams := map[];
    }

    /**
     * `subscribe_doc`: announces the caller to the sessions already watching
     * the document, registers the fresh session `sessionId` (the snowflake id),
     * and sends that session alone its own identity.
     */
    method SubscribeDoc(req: Request<DocIdentityRequest>, sessionId: int) returns (r: Result<int>)
      requires Valid()
      requires sessionId !in outbox.queues
      modifies this, outbox
      ensures Valid()
      ensures r.Ok? <==> db.GetUser(req.userId.id).Ok?
      ensures r.Err? ==> docStreams == old(docStreams) && outbox.queues == old(outbox.queues)
      ensures r.Ok? ==> r.value == sessionId
      ensures r.Ok? ==> docStreams == old(docStreams)[req.inner.id := Events.Members(old(docStreams), req.inner.id) + {sessionId}]
      ensures r.Ok? ==>
                var announce := Events.Open(req.userId.id, db.GetUser(req.userId.id).value.name, req.inner.id);
                outbox.queues == Events.Delivered(old(outbox.queues), Events.Members(old(docStreams), req.inner.id), announce)
                                 [sessionId := [Events.Subscribed(req.inner.id, sessionId)]]
    {
      var (data, userId) := Utils.UnpackReq(req);
      assert data == req.inner && userId == req.userId;
      var user :- db.GetUser(userId.id);
      var announce := Events.Open(userId.id, user.name, data.id);
      if data.id in docStreams {
        var subs := docStreams[data.id];
        outbox.Broadcast(subs, announce);
        docStreams := docStreams[data.id := subs + {sessionId}];
      } else {
        assert Events.Delivered(outbox.queues, {}, announce) == outbox.queues;
        docStreams := docStreams[data.id := {} + {sessionId}];
      }
      outbox.OpenChannel(sessionId);
      outbox.Send(sessionId, Events.Subscribed(data.id, sessionId));
      assert [] + [Events.Subscribed(data.id, sessionId)] == [Events.Subscribed(data.id, sessionId)];
      r := Ok(sessionId);
    }

    /**
     * `open_doc` and the second half of `create_doc`: the document row, its
     * sheets and the cache registration are fetched together; the response's
     * content and version come from the cache, not from the row.
     */
    method LoadDoc(id: int, now: int, render: Models.DateTime -> string) returns (r: Result<OpenDocResponse>)
      requires Valid()
      modifies cache
      ensures Valid()
      ensures id in old(cache.docCache) ==> cache.docCache == old(cache.docCache)
      ensures id !in old(cache.docCache) ==> cache.docCache == old(cache.docCache)[id := Cache.DocCacheEntry([], now, 0)]
      ensures r.Ok? <==> db.GetDocument(id).Ok? && db.GetDocSheets(id).Ok? && cache.Rebuild(id).Ok?
      ensures r.Ok? ==> r.value.content == cache.Rebuild(id).value && r.value.changeId == cache.docCache[id].changeId
      ensures r.Ok? ==> r.value == Mapper.ToOpenDocResponse(db.GetDocument(id).value, render).(
                          sheets := Mapper.ToSheetEntities(db.GetDocSheets(id).value, render),
                          content := cache.Rebuild(id).value,
                          changeId := cache.docCache[id].changeId)
    {
      var doc := db.GetDocument(id);
      var sheets := db.GetDocSheets(id);
      var registered := cache.RegisterDoc(id, now);
      if sheets.Err? {
        return Err(sheets.error);
      }
      if doc.Err? {
        return Err(doc.error);
      }
      if registered.Err? {
        return Err(registered.error);
      }
      var (content, changeId) := registered.value;
      var res: OpenDocResponse := Mapper.ToOpenDocResponse(doc.value, render);
      res := res.(sheets := Mapper.ToSheetEntities(sheets.value, render));
      res := res.(content := content, changeId := changeId);
      r := Ok(res);
    }

    /** `open_doc`. */
    method OpenDoc(req: OpenDocRequest, now: int, render: Models.DateTime -> string) returns (r: Result<OpenDocResponse>)
      requires Valid()
      modifies cache
      ensures Valid()
      ensures req.id in old(cache.docCache) ==> cache.docCache == old(cache.docCache)
      ensures req.id !in old(cache.docCache) ==> cache.docCache == old(cache.docCache)[req.id := Cache.DocCacheEntry([], now, 0)]
      ensures r.Ok? <==> db.GetDocument(req.id).Ok? && db.GetDocSheets(req.id).Ok? && cache.Rebuild(req.id).Ok?
      ensures r.Ok? ==> r.value.content == cache.Rebuild(req.id).value && r.value.changeId == cache.docCache[req.id].changeId
      ensures r.Ok? ==> r.value == Mapper.ToOpenDocResponse(db.GetDocument(req.id).value, render).(
                          sheets := Mapper.ToSheetEntities(db.GetDocSheets(req.id).value, render),
                          content := cache.Rebuild(req.id).value,
                          changeId := cache.docCache[req.id].changeId)
    {
      r := LoadDoc(req.id, now, render);
    }

    /**
     * `create_doc`: inserts a row authored by the caller (`uid` and `created`
     * stand for the generated UUID and the store's clock), then opens it.
     */
    method CreateDoc(req: Request<CreateDocRequest>, uid: string, created: Models.DateTime, now: int, render: Models.DateTime -> string)
      returns (r: Result<OpenDocResponse>)
      requires Valid()
      modifies cache, db
      ensures Valid()
      ensures !old(db.writable) ==> r.Err? && db.documents == old(db.documents) && cache.docCache == old(cache.docCache)
      ensures old(db.writable) ==>
                var id := old(db.nextId);
                && db.documents == old(db.documents)[id := Models.DocumentModel(id, None, created, req.inner.projectId,
                                      Some(req.userId.id), Some(req.userId.id), req.inner.title, created, uid, None)]
                && (id !in old(cache.docCache) ==> cache.docCache == old(cache.docCache)[id := Cache.DocCacheEntry([], now, 0)])
                && (id in old(cache.docCache) ==> cache.docCache == old(cache.docCache))
                && db.nextId == old(db.nextId) + 1
                && (r.Ok? <==> db.readable && cache.Rebuild(id).Ok?)
                && (r.Ok? ==> r.value.id == id && r.value.title == req.inner.title && r.value.uid == uid
                              && r.value.content == cache.Rebuild(id).value && r.value.changeId == cache.docCache[id].changeId)
                && (r.Ok? ==> r.value == Mapper.ToOpenDocResponse(db.GetDocument(id).value, render).(
                                           sheets := Mapper.ToSheetEntities(db.GetDocSheets(id).value, render),
                                           content := cache.Rebuild(id).value,
                                           changeId := cache.docCache[id].changeId))
      ensures !old(db.writable) ==> db.nextId == old(db.nextId)
      ensures unchanged(db`sheets, db`users, db`readable, db`writable)
    {
      var (data, userId) := Utils.UnpackReq(req);
      assert data == req.inner && userId == req.userId;
      var docId :- db.CreateDocument(data.title, data.projectId, userId.id, uid, created);
      r := LoadDoc(docId, now, render);
    }

    /**
     * `write_doc`: with a batch, records it in the cache and then sends it to
     * every session of the document, the writer's own included; without one,
     * does nothing. The call itself never fails.
     */
    method WriteDoc(req: Request<DocWriteRequest>, now: int) returns (r: Result<()>)
      requires Valid()
      modifies cache, outbox
      ensures Valid() && r == Ok(())
      ensures req.inner.change.None? ==> cache.docCache == old(cache.docCache) && outbox.queues == old(outbox.queues)
      ensures req.inner.change.Some? ==>
                var id := req.inner.id;
                var cs := req.inner.change.value;
                && (id in old(cache.docCache) ==>
                      cache.docCache == old(cache.docCache)[id := Cache.AppendBatch(old(cache.docCache[id]), req.inner.sessionId, cs, now)])
                && (id !in old(cache.docCache) ==> cache.docCache == old(cache.docCache))
                && outbox.queues == Events.Delivered(old(outbox.queues), Events.Members(docStreams, id),
                                                     Events.Write(req.userId.id, id, ToEventChanges(cs)))
    {
      var (data, userId) := Utils.UnpackReq(req);
      assert data == req.inner && userId == req.userId;
      if data.change.Some? {
        var change := data.change.value;
        cache.UpdateDoc(data.sessionId, data.id, change, data.changeId, now);
        if data.id in docStreams {
          outbox.Broadcast(docStreams[data.id], Events.Write(userId.id, data.id, ToEventChanges(change)));
        }
      }
      r := Ok(());
    }

    /**
     * `close_doc`: removes the caller's session (a no-op when it is absent),
     * tells the remaining sessions, and drops the document's entry once it is
     * empty. The cache is not touched.
     */
    method CloseDoc(req: Request<DocIdentityRequest>) returns (r: Result<()>)
      requires Valid()
      modifies this, outbox
      ensures Valid() && r == Ok(())
      ensures cache.docCache == old(cache.docCache)
      ensures req.inner.id !in old(docStreams) ==> docStreams == old(docStreams) && outbox.queues == old(outbox.queues)
      ensures req.inner.id in old(docStreams) ==>
                var rest := old(docStreams)[req.inner.id] - {req.inner.sessionId};
                && outbox.queues == Events.Delivered(old(outbox.queues), rest, Events.Close(req.userId.id, req.inner.id))
                && docStreams == if rest == {} then old(docStreams) - {req.inner.id} else old(docStreams)[req.inner.id := rest]
    {
      var (data, userId) := Utils.UnpackReq(req);
      assert data == req.inner && userId == req.userId;
      if data.id in docStreams {
        var subs := docStreams[data.id] - {data.sessionId};
        docStreams := docStreams[data.id := subs];
        outbox.Broadcast(subs, Events.Close(userId.id, data.id));
        if subs == {} {
          docStreams := docStreams - {data.id};
        }
      }
      r := Ok(());
    }

    /**
     * `remove_doc`: on a document with subscribers, removes the caller's
     * session, tells the others, drops the document's entry, then flushes and
     * evicts the cache entry, reporting a failed flush. On any other document
     * it does nothing.
     */
    method RemoveDoc(req: Request<DocIdentityRequest>) returns (r: Result<()>)
      requires Valid()
      modifies this, outbox, cache, db
      ensures Valid()
      ensures req.inner.id !in old(docStreams) ==>
                && r == Ok(()) && docStreams == old(docStreams) && outbox.queues == old(outbox.queues)
                && cache.docCache == old(cache.docCache) && db.documents == old(db.documents)
      ensures req.inner.id in old(docStreams) ==>
                var id := req.inner.id;
                && outbox.queues == Events.Delivered(old(outbox.queues), old(docStreams)[id] - {req.inner.sessionId},
                                                     Events.DocEvent.Remove(req.userId.id, id))
                && docStreams == old(docStreams) - {id}
                && (r.Ok? <==> old(cache.FlushSucceeds(id)))
                && (r.Ok? ==> cache.docCache == old(cache.docCache) - {id})
                && (r.Ok? ==> db.documents == old(db.documents)[id := old(db.documents[id]).(content := Some(old(cache.Rebuild(id)).value))])
                && (r.Err? ==> cache.docCache == old(cache.docCache) && db.documents == old(db.documents))
      ensures unchanged(db`sheets, db`users, db`nextId, db`readable, db`writable)
    {
      var (data, userId) := Utils.UnpackReq(req);
      assert data == req.inner && userId == req.userId;
      if data.id in docStreams {
        var subs := docStreams[data.id] - {data.sessionId};
        docStreams := docStreams[data.id := subs];
        outbox.Broadcast(subs, Events.DocEvent.Remove(userId.id, data.id));
        docStreams := docStreams - {data.id};
        var evicted :- cache.RemoveDoc(data.id);
      }
      r := Ok(());
    }

    /** `crc_check`: whether the client's checksum matches the rebuilt content. */
    method CrcCheck(req: CrcCheckRequest, crc32: string -> nat) returns (r: Result<CrcCheckResponse>)
      ensures r.Ok? <==> cache.Rebuild(req.id).Ok?
      ensures r.Ok? ==> (r.value.valid <==> crc32(cache.Rebuild(req.id).value) == req.crc)
    {
      var valid :- cache.CrcCheck(req.id, req.crc, crc32);
      r := Ok(CrcCheckResponse(valid));
    }
  }
}
