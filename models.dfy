/** Rows of the relational store, as the core reads them. */
module Models {
  import opened Wrappers

  /** A `PrimitiveDateTime` column value (seconds since the epoch). */
  datatype DateTime = DateTime(seconds: int)

  datatype DocumentModel = DocumentModel(
    id: int,
    content: Option<string>,
    createdDate: DateTime,
    projectId: int,
    createdById: Option<string>,
    lastEditorId: Option<string>,
    title: string,
    lastEditing: DateTime,
    uid: string,
    color: Option<string>)

  datatype SheetModel = SheetModel(
    id: int,
    content: Option<string>,
    uid: string,
    color: Option<string>,
    createdDate: DateTime,
    lastEditing: DateTime,
    projectId: int,
    title: string,
    documentId: int,
    createdById: Option<string>,
    lastEditorId: Option<string>)

  datatype UserModel = UserModel(id: string, name: string, password: string)
}
