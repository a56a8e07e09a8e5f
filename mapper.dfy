/** Conversions from store rows to response records (crates/doscenario-docs/src/docs_mapper.rs). */
module Mapper {
  import opened Wrappers
  import opened Models
  import opened Proto

  /**
   * `Into<OpenDocResponse> for DocumentModel`. Dates are rendered by `render`
   * (`PrimitiveDateTime::to_string`). `sheets` and `changeId` are placeholders
   * that `open_doc` overwrites.
   */
  function ToOpenDocResponse(d: DocumentModel, render: DateTime -> string): (r: OpenDocResponse)
    ensures r.id == d.id && r.title == d.title && r.uid == d.uid
    ensures r.color == (if d.color.Some? then d.color.value else "")
    ensures r.content == (if d.content.Some? then d.content.value else "")
    ensures r.createdDate == render(d.createdDate) && r.lastEditing == render(d.lastEditing)
    ensures r.sheets == [] && r.changeId == 0
  {
    OpenDocResponse(
      color := d.color.UnwrapOr(""),
      createdDate := render(d.createdDate),
      lastEditing := render(d.lastEditing),
      id := d.id,
      title := d.title,
      uid := d.uid,
      content := d.content.UnwrapOr(""),
      sheets := [],
      changeId := 0)
  }

  /** `Into<SheetEntity> for SheetModel`. */
  function ToSheetEntity(s: SheetModel, render: DateTime -> string): (r: SheetEntity)
    ensures r.id == s.id && r.title == s.title && r.uid == s.uid && r.projectId == s.projectId
    ensures r.color == (if s.color.Some? then s.color.value else "")
    ensures r.createdById == (if s.createdById.Some? then s.createdById.value else "")
    ensures r.createdDate == render(s.createdDate) && r.lastEditing == render(s.lastEditing)
  {
    SheetEntity(
      id := s.id,
      title := s.title,
      color := s.color.UnwrapOr(""),
      createdDate := render(s.createdDate),
      lastEditing := render(s.lastEditing),
      uid := s.uid,
      createdById := s.createdById.UnwrapOr(""),
      projectId := s.projectId)
  }

  /**
   * Defaulting loses one distinction: a document with no color or content and
   * one with an empty color or content give the same response.
   */
  lemma MissingReadsAsEmpty(d: DocumentModel, render: DateTime -> string)
    requires d.color.None? && d.content.None?
    ensures ToOpenDocResponse(d, render) == ToOpenDocResponse(d.(color := Some(""), content := Some("")), render)
  {
  }

  /** The response does not depend on the project, author or last editor of the row. */
  lemma ResponseIgnoresOwnership(d: DocumentModel, projectId: int, createdBy: Option<string>, lastEditor: Option<string>, render: DateTime -> string)
    ensures ToOpenDocResponse(d, render) == ToOpenDocResponse(d.(projectId := projectId, createdById := createdBy, lastEditorId := lastEditor), render)
  {
  }

  /** The response lists sheets in the order `get_doc_sheets` returned them, one entity per row. */
  function ToSheetEntities(rows: seq<SheetModel>, render: DateTime -> string): (r: seq<SheetEntity>)
    ensures |r| == |rows|
    ensures forall i :: 0 <= i < |rows| ==> r[i] == ToSheetEntity(rows[i], render)
  {
    seq(|rows|, i requires 0 <= i < |rows| => ToSheetEntity(rows[i], render))
  }
}
