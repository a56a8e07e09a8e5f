/**
 * The events pushed to subscribed sessions, and the sessions' outbound
 * channels. Each session's sender is modelled by the queue of events it has
 * been sent so far.
 */
module Events {
  import Proto
  import Utils

  /** One edit as carried by a write event (`doc_event_write::Change`). */
  datatype EventChange =
    | Insert(insert: Proto.InsertChange)
    | Remove(remove: Proto.RemoveChange)
    | Replace(replace: Proto.ReplaceChange)

  datatype DocEvent =
    | Open(userId: string, userName: string, id: int)
    | Subscribed(id: int, sessionId: int)
    | Write(userId: string, id: int, change: seq<EventChange>)
    | Close(userId: string, id: int)
    | Remove(userId: string, id: int)

  /** The sessions a document-to-sessions registry holds for `id`, or none. */
  function Members(streams: map<int, set<int>>, id: int): (r: set<int>)
    ensures id in streams ==> r == streams[id]
    ensures id !in streams ==> r == {}
  {
    if id in streams then streams[id] else {}
  }

  /** The queues after `ev` has been sent once to every session of `recipients`. */
  function Delivered(queues: map<int, seq<DocEvent>>, recipients: set<int>, ev: DocEvent): (r: map<int, seq<DocEvent>>)
    ensures r.Keys == queues.Keys
    ensures forall s :: s in r ==> r[s] == if s in recipients then queues[s] + [ev] else queues[s]
  {
    map s | s in queues :: if s in recipients then queues[s] + [ev] else queues[s]
  }

  /** Delivering to the sessions of `a` and then to those of `b` is one delivery to `a + b` when they are disjoint. */
  lemma DeliveredStep(queues: map<int, seq<DocEvent>>, done: set<int>, s: int, ev: DocEvent)
    requires s in queues && s !in done
    ensures Delivered(queues, done + {s}, ev) == Delivered(queues, done, ev)[s := Delivered(queues, done, ev)[s] + [ev]]
  {
  }

  /** The outbound channels of every session ever subscribed, keyed by session id. */
  class Outbox {
    var queues: map<int, seq<DocEvent>>

    constructor ()
      ensures queues == map[]
    {
      queues := map[];
    }

    /** Creates the channel of a fresh session (`mpsc::channel`). */
    method OpenChannel(session: int)
      requires session !in queues
      modifies this
      ensures queues == old(queues)[session := []]
    {
      queues := queues[session := []];
    }

    /** Sends one event to one session. */
    method Send(session: int, ev: DocEvent)
      requires session in queues
      modifies this
      ensures queues == old(queues)[session := old(queues)[session] + [ev]]
    {
      queues := queues[session := queues[session] + [ev]];
    }

    /**
     * `broadcast_message!`: sends `ev` to each recipient's sender. The source
     * sends concurrently with `join_all`; here the sends happen one after the
     * other, which yields the same queues since each queue gets exactly one event.
     */
    method Broadcast(recipients: set<int>, ev: DocEvent)
      requires recipients <= queues.Keys
      modifies this
      ensures queues == Delivered(old(queues), recipients, ev)
    {
      var rest := recipients;
      while rest != {}
        invariant rest <= recipients
        invariant queues == Delivered(old(queues), recipients - rest, ev)
        decreases rest
      {
        var s := Utils.Pick(rest);
        DeliveredStep(old(queues), recipients - rest, s, ev);
        assert recipients - (rest - {s}) == (recipients - rest) + {s};
        queues := queues[s := queues[s] + [ev]];
        rest := rest - {s};
      }
    }
  }
}
