/**
 * The per-document change-log cache (crates/doscenario-docs/src/docs_cache.rs):
 * pending edit batches per document, replayed over the stored content on
 * demand and written back to the store when flushed.
 *
 * Content is a sequence of characters, one byte each: the source measures
 * insert offsets in bytes and removal ranges in characters, which agree only
 * under that assumption.
 */
module Cache {
  import opened Wrappers
  import opened Proto
  import Utils
  import Storage
  import Models

  /** A document is flushed by the sweep once it has been idle for more than this many whole seconds. */
  const STALE_AFTER_SECS: nat := 30
  /** ... or once it holds more than this many pending batches. */
  const MAX_PENDING_BATCHES: nat := 100
  /** Range of `usize` on a 64-bit target. */
  const USIZE_MODULUS: int := 0x1_0000_0000_0000_0000

  /** A batch of edits and the session that submitted it. */
  datatype ChangeEntry = ChangeEntry(changes: seq<Change>, session: int)

  /** The cache entry of one document; `lastUpdate` is a time in milliseconds. */
  datatype DocCacheEntry = DocCacheEntry(changes: seq<ChangeEntry>, lastUpdate: int, changeId: nat)

  /** The `as usize` cast of a signed integer: two's-complement wrap-around. */
  function AsUsize(x: int): (r: nat)
    ensures 0 <= x < USIZE_MODULUS ==> r == x
    ensures -USIZE_MODULUS <= x < 0 ==> r == x + USIZE_MODULUS
  {
    x % USIZE_MODULUS
  }

  // ---------------------------------------------------------------------
  // Replay: the meaning of a change log
  // ---------------------------------------------------------------------

  /** Applies one edit; only an insert at an offset outside `[0, |content|]` fails. */
  function ApplyChange(content: string, c: Change): (r: Result<string>)
    ensures r.Err? <==> c.Insert? && (c.insert.position < 0 || c.insert.position > |content|)
  {
    match c
    case Insert(ins) =>
      if ins.position > |content| || ins.position < 0 then Err(DataLoss(INVALID_INSERT_POSITION))
      else Ok(content[..ins.position] + ins.content + content[ins.position..])
    case Remove(rem) =>
      Ok(Utils.RemoveRange(content, AsUsize(rem.position), AsUsize(rem.position + rem.size)))
    case Replace(rep) =>
      Ok(rep.content)
  }

  /** Applies the edits in order, stopping at the first failure. */
  function ApplyAll(base: string, cs: seq<Change>): Result<string>
    decreases |cs|
  {
    if cs == [] then Ok(base)
    else
      match ApplyAll(base, cs[..|cs| - 1])
      case Err(e) => Err(e)
      case Ok(content) => ApplyChange(content, cs[|cs| - 1])
  }

  /** The edits of a log, batch after batch, each batch in its own order. */
  function Flatten(log: seq<ChangeEntry>): seq<Change>
    decreases |log|
  {
    if log == [] then [] else Flatten(log[..|log| - 1]) + log[|log| - 1].changes
  }

  /** Continues a replay from the result of a shorter one. */
  function Then(r: Result<string>, cs: seq<Change>): Result<string>
  {
    match r
    case Err(e) => Err(e)
    case Ok(content) => ApplyAll(content, cs)
  }

  /** Replaying `a + b` replays `a`, then `b` over its result; a failure in `a` fails the whole. */
  lemma {:induction false} ApplyAllAppend(base: string, a: seq<Change>, b: seq<Change>)
    ensures ApplyAll(base, a + b) == Then(ApplyAll(base, a), b)
    decreases |b|
  {
    if b == [] {
      assert a + b == a;
    } else {
      var b' := b[..|b| - 1];
      ApplyAllAppend(base, a, b');
      DropLast(a, b);
      if ApplyAll(base, a).Err? {
        assert ApplyAll(base, a + b').Err?;
      }
    }
  }

  lemma {:induction false} FlattenAppend(a: seq<ChangeEntry>, b: seq<ChangeEntry>)
    ensures Flatten(a + b) == Flatten(a) + Flatten(b)
    decreases |b|
  {
    if b == [] {
      assert a + b == a;
    } else {
      FlattenAppend(a, b[..|b| - 1]);
      DropLast(a, b);
    }
  }

  /** Dropping the last element of a concatenation drops it from the second part. */
  lemma DropLast<T>(a: seq<T>, b: seq<T>)
    requires b != []
    ensures (a + b)[..|a + b| - 1] == a + b[..|b| - 1] && (a + b)[|a + b| - 1] == b[|b| - 1]
  {
  }

  /** An insert at an offset inside the content splices the text in at that offset. */
  lemma InsertSplices(base: string, pre: seq<Change>, content: string, p: int, text: string)
    requires ApplyAll(base, pre) == Ok(content)
    requires 0 <= p <= |content|
    ensures ApplyAll(base, pre + [Insert(InsertChange(p, text))]) == Ok(content[..p] + text + content[p..])
  {
    assert (pre + [Insert(InsertChange(p, text))])[..|pre|] == pre;
  }

  /** An insert at an offset outside the content makes the whole replay fail, whatever follows it. */
  lemma InvalidInsertFails(base: string, pre: seq<Change>, content: string, p: int, text: string, post: seq<Change>)
    requires ApplyAll(base, pre) == Ok(content)
    requires p < 0 || p > |content|
    ensures ApplyAll(base, pre + [Insert(InsertChange(p, text))] + post).Err?
  {
    var mid := pre + [Insert(InsertChange(p, text))];
    assert mid[..|pre|] == pre;
    ApplyAllAppend(base, mid, post);
  }

  /** A removal with non-negative operands never fails and removes the clamped range `[p, p + s)`. */
  lemma RemoveClamps(base: string, pre: seq<Change>, content: string, p: nat, s: nat)
    requires ApplyAll(base, pre) == Ok(content)
    requires p + s < USIZE_MODULUS
    ensures ApplyAll(base, pre + [Remove(RemoveChange(p, s))])
         == Ok(content[..Utils.Min(p, |content|)] + content[Utils.Min(p + s, |content|)..])
  {
    assert (pre + [Remove(RemoveChange(p, s))])[..|pre|] == pre;
    Utils.RemoveRangeSplice(content, p, p + s);
  }

  /** A replace discards everything replayed before it; the edits after it apply to its content. */
  lemma ReplaceResets(base: string, pre: seq<Change>, text: string, post: seq<Change>)
    requires ApplyAll(base, pre).Ok?
    ensures ApplyAll(base, pre + [Replace(ReplaceChange(text))] + post) == ApplyAll(text, post)
  {
    var mid := pre + [Replace(ReplaceChange(text))];
    assert mid[..|pre|] == pre;
    ApplyAllAppend(base, mid, post);
  }

  /** Reconstruction example: an insert at the end appends. */
  lemma InsertAtEndExample()
    ensures ApplyAll("hello", [Insert(InsertChange(5, " world"))]) == Ok("hello world")
  {
    var ins: seq<Change> := [Insert(InsertChange(5, " world"))];
    InsertSplices("hello", [], "hello", 5, " world");
    assert [] + ins == ins;
    assert "hello"[..5] + " world" + "hello"[5..] == "hello world";
  }

  /** Reconstruction example: removing a suffix. */
  lemma RemoveSuffixExample()
    ensures ApplyAll("hello world", [Remove(RemoveChange(5, 6))]) == Ok("hello")
  {
    var rem: seq<Change> := [Remove(RemoveChange(5, 6))];
    RemoveClamps("hello world", [], "hello world", 5, 6);
    assert [] + rem == rem;
    assert "hello world"[..5] + "hello world"[11..] == "hello";
  }

  /** Reconstruction example: a replace followed by an insert applies to the replaced text. */
  lemma ReplaceThenInsertExample()
    ensures ApplyAll("abc", [Replace(ReplaceChange("xyz")), Insert(InsertChange(3, "!"))]) == Ok("xyz!")
  {
    var tail: seq<Change> := [Insert(InsertChange(3, "!"))];
    ReplaceResets("abc", [], "xyz", tail);
    assert [] + [Replace(ReplaceChange("xyz"))] + tail == [Replace(ReplaceChange("xyz")), Insert(InsertChange(3, "!"))];
    InsertSplices("xyz", [], "xyz", 3, "!");
    assert [] + tail == tail;
    assert "xyz"[..3] + "!" + "xyz"[3..] == "xyz!";
  }

  /** Reconstruction example: a removal running past the end is cut at the end. */
  lemma ClampedRemoveReplayExample()
    ensures ApplyAll("abc", [Remove(RemoveChange(1, 100))]) == Ok("a")
  {
    var clamp: seq<Change> := [Remove(RemoveChange(1, 100))];
    RemoveClamps("abc", [], "abc", 1, 100);
    assert [] + clamp == clamp;
    assert "abc"[..1] + "abc"[3..] == "a";
  }

  /** Reconstruction example: an insert past the end fails the replay. */
  lemma InsertPastEndExample()
    ensures ApplyAll("abc", [Insert(InsertChange(10, "x"))]).Err?
  {
    var bad: seq<Change> := [Insert(InsertChange(10, "x"))];
    InvalidInsertFails("abc", [], "abc", 10, "x", []);
    assert [] + bad + [] == bad;
  }

  // ---------------------------------------------------------------------
  // Appending a batch
  // ---------------------------------------------------------------------

  /**
   * The entry after one write: the batch is merged into the last batch when
   * that one came from the same session, appended otherwise; the version
   * counter moves by one either way and the touch time becomes `now`.
   */
  function AppendBatch(e: DocCacheEntry, session: int, cs: seq<Change>, now: int): (r: DocCacheEntry)
    ensures r.changeId == e.changeId + 1 && r.lastUpdate == now
    ensures |e.changes| > 0 && e.changes[|e.changes| - 1].session == session ==>
              |r.changes| == |e.changes|
              && r.changes[..|e.changes| - 1] == e.changes[..|e.changes| - 1]
              && r.changes[|e.changes| - 1] == ChangeEntry(e.changes[|e.changes| - 1].changes + cs, session)
    ensures !(|e.changes| > 0 && e.changes[|e.changes| - 1].session == session) ==>
              r.changes == e.changes + [ChangeEntry(cs, session)]
  {
    var n := |e.changes|;
    if n > 0 && e.changes[n - 1].session == session then
      e.(changes := e.changes[..n - 1] + [ChangeEntry(e.changes[n - 1].changes + cs, session)],
         lastUpdate := now, changeId := e.changeId + 1)
    else
      e.(changes := e.changes + [ChangeEntry(cs, session)], lastUpdate := now, changeId := e.changeId + 1)
  }

  /** Merging or appending, the log replays as before followed by the new edits. */
  lemma AppendBatchFlatten(e: DocCacheEntry, session: int, cs: seq<Change>, now: int)
    ensures Flatten(AppendBatch(e, session, cs, now).changes) == Flatten(e.changes) + cs
  {
    var n := |e.changes|;
    var r := AppendBatch(e, session, cs, now);
    if n > 0 && e.changes[n - 1].session == session {
      assert r.changes[..n - 1] == e.changes[..n - 1];
    } else {
      assert r.changes[..n] == e.changes;
    }
  }

  /** So a write never changes the content reconstructed before it; it only adds its own edits on top. */
  lemma AppendBatchReplay(base: string, e: DocCacheEntry, session: int, cs: seq<Change>, now: int)
    ensures ApplyAll(base, Flatten(AppendBatch(e, session, cs, now).changes)) == Then(ApplyAll(base, Flatten(e.changes)), cs)
  {
    AppendBatchFlatten(e, session, cs, now);
    ApplyAllAppend(base, Flatten(e.changes), cs);
  }

  /** Two consecutive writes of one session on a flushed log leave a single batch and move the version by two. */
  lemma SameSessionCoalesces(e: DocCacheEntry, session: int, cs1: seq<Change>, cs2: seq<Change>, t1: int, t2: int)
    requires e.changes == []
    ensures AppendBatch(AppendBatch(e, session, cs1, t1), session, cs2, t2).changes == [ChangeEntry(cs1 + cs2, session)]
    ensures AppendBatch(AppendBatch(e, session, cs1, t1), session, cs2, t2).changeId == e.changeId + 2
  {
  }

  // ---------------------------------------------------------------------
  // The sweep's selection
  // ---------------------------------------------------------------------

  /** `elapsed().unwrap_or_default().as_secs()`: whole seconds since `since`, zero if the clock went back. */
  function ElapsedSecs(since: int, now: int): (r: nat)
    ensures now >= since ==> r * 1000 <= now - since < (r + 1) * 1000
    ensures now < since ==> r == 0
  {
    if now < since then 0 else (now - since) / 1000
  }

  /** The filter of `interval_update`: a document is flushed when it has pending batches and is stale or large. */
  predicate NeedsFlush(e: DocCacheEntry, now: int)
    ensures NeedsFlush(e, now) <==>
              e.changes != [] && (now - e.lastUpdate >= (STALE_AFTER_SECS + 1) * 1000 || |e.changes| > MAX_PENDING_BATCHES)
  {
    |e.changes| > 0 && (ElapsedSecs(e.lastUpdate, now) > STALE_AFTER_SECS || |e.changes| > MAX_PENDING_BATCHES)
  }

  /** More than 100 pending batches trigger a flush however recent the last write. */
  lemma LargeLogIsFlushed(e: DocCacheEntry, now: int)
    requires |e.changes| > MAX_PENDING_BATCHES
    ensures NeedsFlush(e, now)
  {
  }

  /** A flushed log is never selected. */
  lemma EmptyLogIsKept(e: DocCacheEntry, now: int)
    requires e.changes == []
    ensures !NeedsFlush(e, now)
  {
  }

  /** A small log written to less than 31 seconds ago is not selected. */
  lemma RecentSmallLogIsKept(e: DocCacheEntry, now: int)
    requires |e.changes| <= MAX_PENDING_BATCHES
    requires now < e.lastUpdate + (STALE_AFTER_SECS + 1) * 1000
    ensures !NeedsFlush(e, now)
  {
  }

  /** A pending log idle for 31 seconds or more is selected. */
  lemma IdleLogIsFlushed(e: DocCacheEntry, now: int)
    requires |e.changes| > 0
    requires now >= e.lastUpdate + (STALE_AFTER_SECS + 1) * 1000
    ensures NeedsFlush(e, now)
  {
  }

  /** Once selected, an untouched entry stays selected as time goes on. */
  lemma NeedsFlushPersists(e: DocCacheEntry, now: int, later: int)
    requires NeedsFlush(e, now) && now <= later
    ensures NeedsFlush(e, later)
  {
    if ElapsedSecs(e.lastUpdate, now) > STALE_AFTER_SECS {
      assert ElapsedSecs(e.lastUpdate, now) <= ElapsedSecs(e.lastUpdate, later) by {
        DivMonotone(now - e.lastUpdate, later - e.lastUpdate);
      }
    }
  }

  lemma DivMonotone(a: nat, b: nat)
    requires a <= b
    ensures a / 1000 <= b / 1000
  {
  }

  // ---------------------------------------------------------------------
  // Rebuilding and writing back, over the state as values
  // ---------------------------------------------------------------------

  /**
   * What `build_doc_changes` yields for `id` given the store (`readable`,
   * `documents`) and the cache entries: a storage failure or a missing row
   * first, then a document not held, then the replay of its whole log over
   * the stored content (a NULL content reads as empty).
   */
  function RebuildIn(readable: bool, documents: map<int, Models.DocumentModel>,
                     cache: map<int, DocCacheEntry>, id: int): (r: Result<string>)
    ensures !readable || id !in documents ==> r == Err(DataLoss(Wrappers.STORAGE_ERROR))
    ensures readable && id in documents && id !in cache ==> r == Err(DataLoss(DOCUMENT_NOT_FOUND))
    ensures readable && id in documents && id in cache ==>
              r == ApplyAll(documents[id].content.UnwrapOr(""), Flatten(cache[id].changes))
  {
    if !readable || id !in documents then Err(DataLoss(Wrappers.STORAGE_ERROR))
    else if id !in cache then Err(DataLoss(DOCUMENT_NOT_FOUND))
    else ApplyAll(documents[id].content.UnwrapOr(""), Flatten(cache[id].changes))
  }

  /** The rebuild of one document depends on its own row and its own entry only. */
  lemma RebuildInLocal(readable: bool, d1: map<int, Models.DocumentModel>, d2: map<int, Models.DocumentModel>,
                       c1: map<int, DocCacheEntry>, c2: map<int, DocCacheEntry>, id: int)
    requires (id in d1 <==> id in d2) && (id in d1 ==> d1[id] == d2[id])
    requires (id in c1 <==> id in c2) && (id in c1 ==> c1[id] == c2[id])
    ensures RebuildIn(readable, d1, c1, id) == RebuildIn(readable, d2, c2, id)
  {
  }

  /** The cache entries once the logs of the documents in `flushed` have been cleared. */
  function Cleared(cache: map<int, DocCacheEntry>, flushed: set<int>): (r: map<int, DocCacheEntry>)
    ensures r.Keys == cache.Keys
    ensures forall id :: id in r ==> r[id] == if id in flushed then cache[id].(changes := []) else cache[id]
  {
    map id | id in cache :: if id in flushed then cache[id].(changes := []) else cache[id]
  }

  /** The stored rows once each document of `flushed` has been written back with its rebuilt content. */
  function WrittenBack(readable: bool, documents: map<int, Models.DocumentModel>,
                       cache: map<int, DocCacheEntry>, flushed: set<int>): (r: map<int, Models.DocumentModel>)
    ensures r.Keys == documents.Keys
    ensures forall id :: id in r ==>
              r[id] == if id in flushed && RebuildIn(readable, documents, cache, id).Ok?
                       then documents[id].(content := Some(RebuildIn(readable, documents, cache, id).value))
                       else documents[id]
  {
    map id | id in documents ::
      if id in flushed && RebuildIn(readable, documents, cache, id).Ok?
      then documents[id].(content := Some(RebuildIn(readable, documents, cache, id).value))
      else documents[id]
  }

  /** Clearing one more log is one more map update. */
  lemma ClearedStep(cache: map<int, DocCacheEntry>, flushed: set<int>, id: int)
    requires id in cache && id !in flushed
    ensures Cleared(cache, flushed + {id}) == Cleared(cache, flushed)[id := cache[id].(changes := [])]
  {
  }

  /** Writing back one more document is one more map update. */
  lemma WrittenBackStep(readable: bool, documents: map<int, Models.DocumentModel>,
                        cache: map<int, DocCacheEntry>, flushed: set<int>, id: int)
    requires id in documents && id !in flushed
    requires RebuildIn(readable, documents, cache, id).Ok?
    ensures WrittenBack(readable, documents, cache, flushed + {id})
         == WrittenBack(readable, documents, cache, flushed)[id := documents[id].(content := Some(RebuildIn(readable, documents, cache, id).value))]
  {
  }

  // ---------------------------------------------------------------------
  // The cache
  // ---------------------------------------------------------------------

  class DocsCache {
    /** `doc_cache`: one entry per document currently held. */
    var docCache: map<int, DocCacheEntry>
    /** The store the base contents are read from and written back to. */
    const db: Storage.Database

    constructor (db: Storage.Database)
      ensures this.db == db && docCache == map[]
    {
      this.db := db;
      docCache := map[];
    }

    /** What `build_doc_changes` computes: the stored content with every pending edit replayed. */
    function Rebuild(id: int): Result<string>
      reads this, db
    {
      RebuildIn(db.readable, db.documents, docCache, id)
    }

    /** Whether a flush of `id` would go through: the replay succeeds and the store accepts the write. */
    predicate FlushSucceeds(id: int)
      reads this, db
    {
      Rebuild(id).Ok? && db.writable
    }

    /** The documents one sweep at time `now` writes back: those selected whose flush goes through. */
    function Flushable(now: int): (r: set<int>)
      reads this, db
      ensures forall id :: id in r <==> id in Due(now) && FlushSucceeds(id)
    {
      set id | id in Due(now) && FlushSucceeds(id)
    }

    /** The documents the sweep selects at time `now`. */
    function Due(now: int): (r: set<int>)
      reads this
      ensures forall id :: id in r <==> id in docCache && NeedsFlush(docCache[id], now)
    {
      set id | id in docCache && NeedsFlush(docCache[id], now)
    }

    /**
     * `build_doc_changes`: reads the stored content, then replays every batch
     * and every edit of each batch in order; an out-of-range insert aborts.
     */
    method BuildDocChanges(id: int) returns (r: Result<string>)
      ensures r == Rebuild(id)
      ensures r.Err? <==> !db.readable || id !in db.documents || id !in docCache
                          || ApplyAll(db.GetDocumentContent(id).value, Flatten(docCache[id].changes)).Err?
    {
      var base :- db.GetDocumentContent(id);
      if id !in docCache {
        return Err(DataLoss(DOCUMENT_NOT_FOUND));
      }
      var log := docCache[id].changes;
      var content := base;
      var i := 0;
      while i < |log|
        invariant 0 <= i <= |log|
        invariant ApplyAll(base, Flatten(log[..i])) == Ok(content)
      {
        var batch := log[i].changes;
        assert log[..i + 1][..i] == log[..i];
        assert Flatten(log[..i + 1]) == Flatten(log[..i]) + batch;
        var j := 0;
        assert Flatten(log[..i]) + batch[..j] == Flatten(log[..i]);
        while j < |batch|
          invariant 0 <= j <= |batch|
          invariant ApplyAll(base, Flatten(log[..i]) + batch[..j]) == Ok(content)
        {
          var done := Flatten(log[..i]) + batch[..j];
          assert (done + [batch[j]])[..|done|] == done;
          assert Flatten(log[..i]) + batch[..j + 1] == done + [batch[j]];
          var next := ApplyOne(content, batch[j]);
          if next.Err? {
            ReplayFailsFrom(base, log, i, j);
            return next;
          }
          content := next.value;
          j := j + 1;
        }
        assert batch[..j] == batch;
        i := i + 1;
      }
      assert log[..i] == log;
      r := Ok(content);
    }

    /** `apply_doc_changes`: rebuilds, writes the result back, then clears the log; any failure leaves the log as it was. */
    method ApplyDocChanges(id: int) returns (r: Result<()>)
      modifies this, db
      ensures r.Ok? <==> old(FlushSucceeds(id))
      ensures r.Ok? ==> id in old(docCache) && id in old(db.documents)
      ensures r.Ok? ==> docCache == old(docCache)[id := old(docCache[id]).(changes := [])]
      ensures r.Ok? ==> db.documents == old(db.documents)[id := old(db.documents[id]).(content := Some(old(Rebuild(id)).value))]
      ensures r.Err? ==> docCache == old(docCache) && db.documents == old(db.documents)
      ensures unchanged(db`sheets, db`users, db`nextId, db`readable, db`writable)
    {
      var content :- BuildDocChanges(id);
      var saved :- db.SetDocContent(id, content);
      docCache := docCache[id := docCache[id].(changes := [])];
      r := Ok(());
    }

    /**
     * `register_doc`: creates an empty entry with version 0 only when the
     * document has none, then returns the rebuilt content and the current version.
     */
    method RegisterDoc(id: int, now: int) returns (r: Result<(string, nat)>)
      modifies this
      ensures id in old(docCache) ==> docCache == old(docCache)
      ensures id !in old(docCache) ==> docCache == old(docCache)[id := DocCacheEntry([], now, 0)]
      ensures r.Ok? <==> Rebuild(id).Ok?
      ensures r.Ok? ==> r.value == (Rebuild(id).value, docCache[id].changeId)
      ensures r.Err? ==> r.error == Rebuild(id).error
    {
      if id !in docCache {
        docCache := docCache[id := DocCacheEntry([], now, 0)];
      }
      var content :- BuildDocChanges(id);
      r := Ok((content, docCache[id].changeId));
    }

    /** `remove_doc`: flushes, and only when the flush succeeded evicts the entry. */
    method RemoveDoc(id: int) returns (r: Result<()>)
      modifies this, db
      ensures r.Ok? <==> old(FlushSucceeds(id))
      ensures r.Ok? ==> docCache == old(docCache) - {id}
      ensures r.Ok? ==> db.documents == old(db.documents)[id := old(db.documents[id]).(content := Some(old(Rebuild(id)).value))]
      ensures r.Err? ==> docCache == old(docCache) && db.documents == old(db.documents)
      ensures unchanged(db`sheets, db`users, db`nextId, db`readable, db`writable)
    {
      var flushed :- ApplyDocChanges(id);
      docCache := docCache - {id};
      r := Ok(());
    }

    /** `clear_doc_cache`: drops the entry and its pending edits without writing them back. */
    method ClearDocCache(id: int)
      modifies this
      ensures docCache == old(docCache) - {id}
    {
      docCache := docCache - {id};
    }

    /**
     * `update_doc`: on a held document, merges or appends the batch, refreshes
     * the touch time and bumps the version; on any other document it changes
     * nothing. The client's version is accepted and not used.
     */
    method UpdateDoc(session: int, id: int, changes: seq<Change>, clientChangeId: nat, now: int)
      modifies this
      ensures id in old(docCache) ==> docCache == old(docCache)[id := AppendBatch(old(docCache[id]), session, changes, now)]
      ensures id !in old(docCache) ==> docCache == old(docCache)
    {
      if id in docCache {
        var doc := docCache[id];
        var log := doc.changes;
        if |log| > 0 && log[|log| - 1].session == session {
          var last := log[|log| - 1];
          log := log[..|log| - 1] + [last.(changes := last.changes + changes)];
        } else {
          log := log + [ChangeEntry(changes, session)];
        }
        docCache := docCache[id := doc.(changes := log, lastUpdate := now, changeId := doc.changeId + 1)];
      }
    }

    /** `crc_check`: whether the checksum of the rebuilt content equals the client's. */
    method CrcCheck(id: int, crc: nat, crc32: string -> nat) returns (r: Result<bool>)
      ensures r.Ok? <==> Rebuild(id).Ok?
      ensures r.Ok? ==> (r.value <==> crc32(Rebuild(id).value) == crc)
      ensures r.Err? ==> r.error == Rebuild(id).error
    {
      var content :- BuildDocChanges(id);
      r := Ok(crc32(content) == crc);
    }

    /**
     * One tick of `interval_update`: flushes every document `Due(now)`. Each
     * flush either succeeds or leaves its document as it was; a failure is
     * only logged and does not affect the others, so the outcome does not
     * depend on the order the documents are visited in.
     */
    method SweepOnce(now: int)
      modifies this, db
      ensures docCache == Cleared(old(docCache), old(Flushable(now)))
      ensures db.documents == WrittenBack(old(db.readable), old(db.documents), old(docCache), old(Flushable(now)))
      ensures unchanged(db`sheets, db`users, db`nextId, db`readable, db`writable)
    {
      ghost var c0, d0 := docCache, db.documents;
      ghost var target := Flushable(now);
      ghost var flushed: set<int> := {};
      var pending := Due(now);
      while pending != {}
        invariant pending <= old(Due(now)) && flushed == target - pending
        invariant docCache == Cleared(c0, flushed)
        invariant db.documents == WrittenBack(db.readable, d0, c0, flushed)
        invariant unchanged(db`sheets, db`users, db`nextId, db`readable, db`writable)
        decreases pending
      {
        var id := Utils.Pick(pending);
        RebuildInLocal(db.readable, db.documents, d0, docCache, c0, id);
        assert id in target <==> FlushSucceeds(id);
        var r := ApplyDocChanges(id);
        if r.Ok? {
          ClearedStep(c0, flushed, id);
          WrittenBackStep(db.readable, d0, c0, flushed, id);
          flushed := flushed + {id};
        }
        pending := pending - {id};
      }
    }
  }

  /** The failing edit at `log[i].changes[j]` makes the replay of the whole log fail. */
  lemma ReplayFailsFrom(base: string, log: seq<ChangeEntry>, i: nat, j: nat)
    requires i < |log| && j < |log[i].changes|
    requires ApplyAll(base, Flatten(log[..i]) + log[i].changes[..j + 1]).Err?
    ensures ApplyAll(base, Flatten(log)) == ApplyAll(base, Flatten(log[..i]) + log[i].changes[..j + 1])
  {
    var batch := log[i].changes;
    var pre := Flatten(log[..i]) + batch[..j + 1];
    var post := batch[j + 1..] + Flatten(log[i + 1..]);
    FlattenAround(log, i);
    assert Flatten(log) == pre + post by {
      SplitAt(Flatten(log[..i]), batch, j + 1, Flatten(log[i + 1..]));
    }
    ApplyAllAppend(base, pre, post);
  }

  /** The flattened log around batch `i`. */
  lemma FlattenAround(log: seq<ChangeEntry>, i: nat)
    requires i < |log|
    ensures Flatten(log) == Flatten(log[..i]) + log[i].changes + Flatten(log[i + 1..])
  {
    Around(log, i);
    FlattenMiddle(log[..i], log[i], log[i + 1..]);
  }

  /** A sequence is its prefix, the element at `i` and its suffix. */
  lemma Around<T>(s: seq<T>, i: nat)
    requires i < |s|
    ensures s == s[..i] + [s[i]] + s[i + 1..]
  {
  }

  /** Flattening a log with one batch singled out. */
  lemma FlattenMiddle(p: seq<ChangeEntry>, x: ChangeEntry, q: seq<ChangeEntry>)
    ensures Flatten(p + [x] + q) == Flatten(p) + x.changes + Flatten(q)
  {
    FlattenAppend(p + [x], q);
    assert (p + [x])[..|p|] == p;
  }

  /** Re-associating a three-part sequence around a cut inside the middle part. */
  lemma SplitAt<T>(a: seq<T>, b: seq<T>, k: nat, c: seq<T>)
    requires k <= |b|
    ensures a + b + c == (a + b[..k]) + (b[k..] + c)
  {
    assert b == b[..k] + b[k..];
  }

  /**
   * One step of the replay loop of `build_doc_changes`: the `match` over the
   * edit kinds. `ApplyChange` is its specification; this method exists
   * because the removal arm runs the `to_remove_range` loop, which only a
   * method can call.
   */
  method ApplyOne(content: string, c: Change) returns (r: Result<string>)
    ensures r == ApplyChange(content, c)
  {
    match c {
      case Insert(ins) =>
        if ins.position > |content| || ins.position < 0 {
          return Err(DataLoss(INVALID_INSERT_POSITION));
        }
        r := Ok(content[..ins.position] + ins.content + content[ins.position..]);
      case Remove(rem) =>
        var rest := Utils.ToRemoveRange(content, AsUsize(rem.position), AsUsize(rem.position + rem.size));
        r := Ok(rest);
      case Replace(rep) =>
        r := Ok(rep.content);
    }
  }
}
