/** Request and response records of the document RPC surface. */
module Proto {
  import opened Wrappers

  datatype InsertChange = InsertChange(position: int, content: string)
  datatype RemoveChange = RemoveChange(position: int, size: int)
  datatype ReplaceChange = ReplaceChange(content: string)

  /** One edit of a write request (`doc_write_request::Change`). */
  datatype Change =
    | Insert(insert: InsertChange)
    | Remove(remove: RemoveChange)
    | Replace(replace: ReplaceChange)

  /** The caller identity the authentication interceptor attaches to a request. */
  datatype UserId = UserId(id: string)

  /** A request body together with the extension the interceptor attached. */
  datatype Request<T> = Request(inner: T, userId: UserId)

  /** Newer variant: the actor is the request's `UserId` extension. */
  datatype DocIdentityRequest = DocIdentityRequest(id: int, sessionId: int)
  /** Newer variant: a write carries a whole batch of edits. */
  datatype DocWriteRequest = DocWriteRequest(id: int, sessionId: int, change: Option<seq<Change>>, changeId: nat)

  /** Older variant: the actor is a field of the body. */
  datatype LegacyIdentityRequest = LegacyIdentityRequest(id: int, sessionId: int, userId: string)
  /** Older variant: a write carries at most one edit. */
  datatype LegacyWriteRequest = LegacyWriteRequest(id: int, sessionId: int, userId: string, change: Option<Change>, changeId: nat)

  datatype OpenDocRequest = OpenDocRequest(id: int)
  datatype CreateDocRequest = CreateDocRequest(title: string, projectId: int)
  datatype CrcCheckRequest = CrcCheckRequest(id: int, crc: nat)
  datatype CrcCheckResponse = CrcCheckResponse(valid: bool)

  datatype SheetEntity = SheetEntity(
    id: int,
    title: string,
    color: string,
    createdDate: string,
    lastEditing: string,
    uid: string,
    createdById: string,
    projectId: int)

  datatype OpenDocResponse = OpenDocResponse(
    color: string,
    createdDate: string,
    lastEditing: string,
    id: int,
    title: string,
    uid: string,
    content: string,
    sheets: seq<SheetEntity>,
    changeId: nat)
}
