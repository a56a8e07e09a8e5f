/**
 * The older RPC façade (docs/docs_service.rs). It keeps the same registry and
 * uses the same change-log cache as the newer crate, but takes the caller's
 * identity from the `user_id` field of each request body, and a write carries
 * at most one edit, which the cache receives as a batch of one.
 */
module LegacyService {
  import opened Wrappers
  import opened Proto
  import Models
  import Storage
  import Cache
  import Events
  import Mapper
  import LegacyUtils

  class DocsService {
    /** `doc_streams`: for each document with at least one subscriber, the ids of its sessions. */
    var docStreams: map<int, set<int>>
    const cache: Cache.DocsCache
    const outbox: Events.Outbox
    const db: Storage.Database

    /** Every registered session has a channel, and a document's entry disappears with its last session. */
    ghost predicate Valid()
      reads this, outbox, db
    {
      && cache.db == db
      && db.Valid()
      && (forall id :: id in docStreams ==> docStreams[id] != {} && docStreams[id] <= outbox.queues.Keys)
    }

    constructor (db: Storage.Database)
      requires db.Valid()
      ensures Valid() && this.db == db && fresh(cache) && fresh(outbox)
      ensures docStreams == map[] && cache.docCache == map[] && outbox.queues == map[]
    {
      this.db := db;
      cache := new Cache.DocsCache(db);
      outbox := new Events.Outbox();
      docStreams := map[];
    }

    /**
     * `subscribe_doc`: announces the body's user to the sessions already
     * watching the document, registers the fresh session `sessionId`, and
     * sends that session alone its own identity.
     */
    method SubscribeDoc(req: LegacyIdentityRequest, sessionId: int) returns (r: Result<int>)
      requires Valid()
      requires sessionId !in outbox.queues
      modifies this, outbox
      ensures Valid()
      ensures r.Ok? <==> db.GetUser(req.userId).Ok?
      ensures r.Err? ==> docStreams == old(docStreams) && outbox.queues == old(outbox.queues)
      ensures r.Ok? ==> r.value == sessionId
      ensures r.Ok? ==> docStreams == old(docStreams)[req.id := Events.Members(old(docStreams), req.id) + {sessionId}]
      ensures r.Ok? ==>
                var announce := Events.Open(req.userId, db.GetUser(req.userId).value.name, req.id);
                outbox.queues == Events.Delivered(old(outbox.queues), Events.Members(old(docStreams), req.id), announce)
                                 [sessionId := [Events.Subscribed(req.id, sessionId)]]
    {
      var user :- db.GetUser(req.userId);
      var announce := Events.Open(req.userId, user.name, req.id);
      if req.id in docStreams {
        var subs := docStreams[req.id];
        outbox.Broadcast(subs, announce);
        docStreams := docStreams[req.id := subs + {sessionId}];
      } else {
        assert Events.Delivered(outbox.queues, {}, announce) == outbox.queues;
        docStreams := docStreams[req.id := {} + {sessionId}];
      }
      outbox.OpenChannel(sessionId);
      outbox.Send(sessionId, Events.Subscribed(req.id, sessionId));
      assert [] + [Events.Subscribed(req.id, sessionId)] == [Events.Subscribed(req.id, sessionId)];
      r := Ok(sessionId);
    }

    /**
     * `open_doc`: the document row, its sheets and the cache registration are
     * fetched together; the response's content and version come from the
     * cache, not from the row.
     */
    method OpenDoc(req: OpenDocRequest, now: int, render: Models.DateTime -> string) returns (r: Result<OpenDocResponse>)
      requires Valid()
      modifies cache
      ensures Valid()
      ensures req.id in old(cache.docCache) ==> cache.docCache == old(cache.docCache)
      ensures req.id !in old(cache.docCache) ==> cache.docCache == old(cache.docCache)[req.id := Cache.DocCacheEntry([], now, 0)]
      ensures r.Ok? <==> db.GetDocument(req.id).Ok? && db.GetDocSheets(req.id).Ok? && cache.Rebuild(req.id).Ok?
      ensures r.Ok? ==> r.value.content == cache.Rebuild(req.id).value && r.value.changeId == cache.docCache[req.id].changeId
      ensures r.Ok? ==> r.value == Mapper.ToOpenDocResponse(db.GetDocument(req.id).value, render).(
                          sheets := Mapper.ToSheetEntities(db.GetDocSheets(req.id).value, render),
                          content := cache.Rebuild(req.id).value,
                          changeId := cache.docCache[req.id].changeId)
    {
      var doc := db.GetDocument(req.id);
      var sheets := db.GetDocSheets(req.id);
      var registered := cache.RegisterDoc(req.id, now);
      if sheets.Err? {
        return Err(sheets.error);
      }
      if doc.Err? {
        return Err(doc.error);
      }
      if registered.Err? {
        return Err(registered.error);
      }
      var (content, changeId) := registered.value;
      var res: OpenDocResponse := Mapper.ToOpenDocResponse(doc.value, render);
      res := res.(sheets := Mapper.ToSheetEntities(sheets.value, render));
      res := res.(content := content, changeId := changeId);
      r := Ok(res);
    }

    /**
     * `write_doc`: with an edit, records it in the cache (even when nobody is
     * subscribed) and then sends it, converted, to every session of the
     * document, the writer's own included; without one, does nothing.
     */
    method WriteDoc(req: LegacyWriteRequest, now: int) returns (r: Result<()>)
      requires Valid()
      modifies cache, outbox
      ensures Valid() && r == Ok(())
      ensures req.change.None? ==> cache.docCache == old(cache.docCache) && outbox.queues == old(outbox.queues)
      ensures req.change.Some? ==>
                && (req.id in old(cache.docCache) ==>
                      cache.docCache == old(cache.docCache)[req.id := Cache.AppendBatch(old(cache.docCache[req.id]), req.sessionId, [req.change.value], now)])
                && (req.id !in old(cache.docCache) ==> cache.docCache == old(cache.docCache))
                && outbox.queues == Events.Delivered(old(outbox.queues), Events.Members(docStreams, req.id),
                                                     Events.Write(req.userId, req.id, [LegacyUtils.ToEventChange(req.change.value)]))
    {
      if req.change.Some? {
        var change := req.change.value;
        cache.UpdateDoc(req.sessionId, req.id, [change], req.changeId, now);
        if req.id in docStreams {
          outbox.Broadcast(docStreams[req.id], Events.Write(req.userId, req.id, [LegacyUtils.ToEventChange(change)]));
        }
      }
      r := Ok(());
    }

    /**
     * `close_doc`: removes the caller's session, tells the remaining sessions,
     * and drops the document's entry once it is empty. The cache is not touched.
     */
    method CloseDoc(req: LegacyIdentityRequest) returns (r: Result<()>)
      requires Valid()
      modifies this, outbox
      ensures Valid() && r == Ok(())
      ensures cache.docCache == old(cache.docCache)
      ensures req.id !in old(docStreams) ==> docStreams == old(docStreams) && outbox.queues == old(outbox.queues)
      ensures req.id in old(docStreams) ==>
                var rest := old(docStreams)[req.id] - {req.sessionId};
                && outbox.queues == Events.Delivered(old(outbox.queues), rest, Events.Close(req.userId, req.id))
                && docStreams == if rest == {} then old(docStreams) - {req.id} else old(docStreams)[req.id := rest]
    {
      if req.id in docStreams {
        var subs := docStreams[req.id] - {req.sessionId};
        docStreams := docStreams[req.id := subs];
        outbox.Broadcast(subs, Events.Close(req.userId, req.id));
        if subs == {} {
          docStreams := docStreams - {req.id};
        }
      }
      r := Ok(());
    }

    /**
     * `remove_doc`: on a document with subscribers, removes the caller's
     * session, tells the others, drops the document's entry, then flushes and
     * evicts the cache entry. On any other document it does nothing.
     */
    method RemoveDoc(req: LegacyIdentityRequest) returns (r: Result<()>)
      requires Valid()
      modifies this, outbox, cache, db
      ensures Valid()
      ensures req.id !in old(docStreams) ==>
                && r == Ok(()) && docStreams == old(docStreams) && outbox.queues == old(outbox.queues)
                && cache.docCache == old(cache.docCache) && db.documents == old(db.documents)
      ensures req.id in old(docStreams) ==>
                && outbox.queues == Events.Delivered(old(outbox.queues), old(docStreams)[req.id] - {req.sessionId},
                                                     Events.DocEvent.Remove(req.userId, req.id))
                && docStreams == old(docStreams) - {req.id}
                && (r.Ok? <==> old(cache.FlushSucceeds(req.id)))
                && (r.Ok? ==> cache.docCache == old(cache.docCache) - {req.id})
                && (r.Ok? ==> db.documents == old(db.documents)[req.id := old(db.documents[req.id]).(content := Some(old(cache.Rebuild(req.id)).value))])
                && (r.Err? ==> cache.docCache == old(cache.docCache) && db.documents == old(db.documents))
      ensures unchanged(db`sheets, db`users, db`nextId, db`readable, db`writable)
    {
      if req.id in docStreams {
        var subs := docStreams[req.id] - {req.sessionId};
        docStreams := docStreams[req.id := subs];
        outbox.Broadcast(subs, Events.DocEvent.Remove(req.userId, req.id));
        docStreams := docStreams - {req.id};
        var evicted :- cache.RemoveDoc(req.id);
      }
      r := Ok(());
    }

    /** `crc_check`: whether the client's checksum matches the rebuilt content. */
    method CrcCheck(req: CrcCheckRequest, crc32: string -> nat) returns (r: Result<CrcCheckResponse>)
      ensures r.Ok? <==> cache.Rebuild(req.id).Ok?
      ensures r.Ok? ==> (r.value.valid <==> crc32(cache.Rebuild(req.id).value) == req.crc)
    {
      var valid :- cache.CrcCheck(req.id, req.crc, crc32);
      r := Ok(CrcCheckResponse(valid));
    }
  }
}
