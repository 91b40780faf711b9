/** The Language Server Protocol shapes the completion decoder works with
    (coq/lsp/types.py): completion items and their text edits, item defaults
    of a completion list, and inline completion items (LSP 3.18). Every
    `Optional[Any]` field is a raw `Json.Value`, `JNull` standing for `None`. */
module LspTypes {
  import opened Wrappers
  import Json

  datatype LabelDetails = LabelDetails(detail: Option<string>, description: Option<string>)

  datatype Position = Position(line: int, character: int)

  datatype LspRange = LspRange(start: Position, end: Position)

  /** The three accepted `textEdit` shapes. The non-standard one is a range
      with a snake-case `new_text`; an insert-replace edit carries both
      ranges. */
  datatype TextEditLike =
    | TextEditNonStandard(start: Position, end: Position, new_text: string)
    | TextEdit(newText: string, range: LspRange)
    | InsertReplaceEdit(newText: string, insert: LspRange, replace: LspRange)

  /** `additionalTextEdits` are plain `TextEdit`s. */
  type StandardTextEdit = e: TextEditLike | e.TextEdit?
    witness TextEdit("", LspRange(Position(0, 0), Position(0, 0)))

  datatype MarkupContent = MarkupContent(kind: string, value: string)

  datatype Documentation = DocString(text: string) | DocMarkup(markup: MarkupContent)

  datatype Command = Command(title: string, command: string, arguments: Json.Value)

  datatype CompletionItem = CompletionItem(
    labelText: string,
    labelDetails: Option<LabelDetails>,
    kind: Option<int>,
    tags: Option<seq<int>>,
    detail: Option<string>,
    documentation: Option<Documentation>,
    preselect: Option<bool>,
    filterText: Option<string>,
    insertText: Option<string>,
    insertTextFormat: Option<int>,
    insertTextMode: Option<int>,
    textEdit: Option<TextEditLike>,
    additionalTextEdits: Option<seq<StandardTextEdit>>,
    command: Option<Command>,
    data: Json.Value)

  /** `CompletionItem(label=...)`: every other field absent (`labelText` is the
      `label` field). */
  function NewCompletionItem(labelText: string): (item: CompletionItem)
    ensures item.labelText == labelText
    ensures item.labelDetails == None && item.kind == None && item.tags == None
    ensures item.detail == None && item.documentation == None && item.preselect == None
    ensures item.filterText == None && item.insertText == None
    ensures item.insertTextFormat == None && item.insertTextMode == None
    ensures item.textEdit == None && item.additionalTextEdits == None
    ensures item.command == None && item.data == Json.JNull
  {
    CompletionItem(labelText, None, None, None, None, None, None, None, None, None, None, None, None, None, Json.JNull)
  }

  /** The range a completion list lends to items without a `textEdit`. */
  datatype EditRange =
    | PlainRange(range: LspRange)
    | InsertReplaceRange(insert: LspRange, replace: LspRange)

  datatype ItemDefaults = ItemDefaults(
    commitCharacters: Option<set<string>>,
    editRange: Option<EditRange>,
    insertTextFormat: Option<int>,
    insertTextMode: Option<int>,
    data: Json.Value)

  /** `ItemDefaults()`: no commit characters, every other default absent. */
  function NoItemDefaults(): (d: ItemDefaults)
    ensures d.commitCharacters == Some({})
    ensures d.editRange == None && d.insertTextFormat == None && d.insertTextMode == None
    ensures d.data == Json.JNull
  {
    ItemDefaults(Some({}), None, None, None, Json.JNull)
  }

  /** An inline item's text: a plain string or a snippet string value. */
  datatype InlineText =
    | InlinePlain(text: string)
    | InlineSnippet(kind: string, value: string)

  datatype InlineCompletionItem = InlineCompletionItem(
    insertText: InlineText,
    filterText: Option<string>,
    range: Option<LspRange>,
    command: Option<Command>)

  /** The three shapes of a `textDocument/completion` result. */
  datatype ResponseShape = NullResponse | ItemSequence | CompletionList | Unknown

  /** Which shape a raw result has: null, `False` or `0` (and the other
      `_falsy` values); a sequence of items; or a mapping, the completion list
      with `isIncomplete`, `items` and `itemDefaults`. */
  function ShapeOf(resp: Json.Value): (shape: ResponseShape)
    ensures shape == NullResponse <==> Json.Falsy(resp)
    ensures shape == CompletionList <==> resp.JObj?
    ensures shape == ItemSequence <==> Json.IsSequence(resp) && !Json.Falsy(resp)
    ensures shape == Unknown <==> !Json.Falsy(resp) && !Json.IsSequence(resp) && !resp.JObj?
  {
    if Json.Falsy(resp) then NullResponse
    else if resp.JObj? then CompletionList
    else if Json.IsSequence(resp) then ItemSequence
    else Unknown
  }
}
