/**
 * The relational store behind the service (crates/doscenario-docs/src/queries.rs),
 * reduced to the tables and queries the core uses. Whether the store can
 * currently serve reads and writes is explicit state: the driver's failures
 * themselves are not modelled, only that a query may fail.
 */
module Storage {
  import opened Wrappers
  import opened Models

  /** The rows of `sheets` that belong to document `docId`, in table order. */
  function SheetsOf(rows: seq<SheetModel>, docId: int): (r: seq<SheetModel>)
    ensures forall s :: s in r ==> s.documentId == docId && s in rows
    ensures forall s :: s in rows && s.documentId == docId ==> s in r
  {
    if rows == [] then []
    else (if rows[0].documentId == docId then [rows[0]] else []) + SheetsOf(rows[1..], docId)
  }

  class Database {
    var documents: map<int, DocumentModel>
    var sheets: seq<SheetModel>
    var users: map<string, UserModel>
    /** The `AUTO_INCREMENT` counter of the document table. */
    var nextId: int
    /** Whether SELECT queries currently succeed. */
    var readable: bool
    /** Whether INSERT and UPDATE queries currently succeed. */
    var writable: bool

    ghost predicate Valid()
      reads this
    {
      forall id :: id in documents ==> id < nextId
    }

    constructor (documents: map<int, DocumentModel>, sheets: seq<SheetModel>, users: map<string, UserModel>, nextId: int)
      requires forall id :: id in documents ==> id < nextId
      ensures Valid()
      ensures this.documents == documents && this.sheets == sheets && this.users == users && this.nextId == nextId
      ensures readable && writable
    {
      this.documents := documents;
      this.sheets := sheets;
      this.users := users;
      this.nextId := nextId;
      readable, writable := true, true;
    }

    /** `get_user`: the user row, or a data-loss status when the row is missing or the store fails. */
    function GetUser(id: string): (r: Result<UserModel>)
      reads this
      ensures r.Ok? <==> readable && id in users
      ensures r.Ok? ==> r.value == users[id]
    {
      if readable && id in users then Ok(users[id]) else Err(DataLoss(STORAGE_ERROR))
    }

    /**
     * `get_document`: the document row without its `content` column, which the
     * query does not select, so the field takes its default `None`.
     */
    function GetDocument(id: int): (r: Result<DocumentModel>)
      reads this
      ensures r.Ok? <==> readable && id in documents
      ensures r.Ok? ==> r.value == documents[id].(content := None)
    {
      if readable && id in documents then Ok(documents[id].(content := None)) else Err(DataLoss(STORAGE_ERROR))
    }

    /** `get_document_content`: the stored content; a NULL content reads as the empty string. */
    function GetDocumentContent(id: int): (r: Result<string>)
      reads this
      ensures r.Ok? <==> readable && id in documents
      ensures r.Ok? && documents[id].content.None? ==> r.value == ""
      ensures r.Ok? && documents[id].content.Some? ==> r.value == documents[id].content.value
    {
      if readable && id in documents then Ok(documents[id].content.UnwrapOr("")) else Err(DataLoss(STORAGE_ERROR))
    }

    /** `get_doc_sheets`: every sheet row whose `documentId` is `docId`. */
    function GetDocSheets(docId: int): (r: Result<seq<SheetModel>>)
      reads this
      ensures r.Ok? <==> readable
      ensures r.Ok? ==> r.value == SheetsOf(sheets, docId)
    {
      if readable then Ok(SheetsOf(sheets, docId)) else Err(DataLoss(STORAGE_ERROR))
    }

    /**
     * `create_document`: inserts a row with the given title, project, author
     * and uid; every other column takes its default (NULL content and color,
     * `now` for the two dates). Returns the new row's id.
     */
    method CreateDocument(title: string, projectId: int, userId: string, uid: string, now: DateTime) returns (r: Result<int>)
      requires Valid()
      modifies this
      ensures Valid()
      ensures r.Ok? <==> old(writable)
      ensures r.Ok? ==> r.value == old(nextId) && r.value !in old(documents)
      ensures r.Ok? ==> documents == old(documents)[r.value := DocumentModel(
                  r.value, None, now, projectId, Some(userId), Some(userId), title, now, uid, None)]
      ensures r.Err? ==> documents == old(documents)
      ensures nextId == if r.Ok? then old(nextId) + 1 else old(nextId)
      ensures sheets == old(sheets) && users == old(users)
      ensures readable == old(readable) && writable == old(writable)
    {
      if !writable {
        return Err(DataLoss(STORAGE_ERROR));
      }
      var id := nextId;
      documents := documents[id := DocumentModel(id, None, now, projectId, Some(userId), Some(userId), title, now, uid, None)];
      nextId := nextId + 1;
      r := Ok(id);
    }

    /** `set_doc_content`: an UPDATE of the content column; a missing row is updated in no place and is not an error. */
    method SetDocContent(id: int, content: string) returns (r: Result<()>)
      modifies this
      ensures r.Ok? <==> old(writable)
      ensures r.Ok? && id in old(documents) ==> documents == old(documents)[id := old(documents)[id].(content := Some(content))]
      ensures r.Err? || id !in old(documents) ==> documents == old(documents)
      ensures unchanged(this`sheets, this`users, this`nextId, this`readable, this`writable)
    {
      if !writable {
        return Err(DataLoss(STORAGE_ERROR));
      }
      if id in documents {
        documents := documents[id := documents[id].(content := Some(content))];
      }
      r := Ok(());
    }
  }
}
