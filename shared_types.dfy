/** The value types shared by every part of the pipeline (coq/shared/types.py):
    offset encodings, cursors, the edit hierarchy, snippet marks and the
    completion record. */
module SharedTypes {
  import opened Wrappers
  import Json
  import LspTypes

  /** The three text-offset encodings; no other value exists. */
  datatype Encoding = UTF8 | UTF16 | UTF32

  /** The literal each encoding stands for. */
  function EncodingName(e: Encoding): (name: string)
    ensures name == "UTF-8" || name == "UTF-16-LE" || name == "UTF-32-LE"
    ensures |name| >= 5 && name[..4] == "UTF-"
  {
    match e
    case UTF8 => "UTF-8"
    case UTF16 => "UTF-16-LE"
    case UTF32 => "UTF-32-LE"
  }

  /** `BYTE_TRANS`: bytes per code unit of each encoding. */
  function ByteTrans(e: Encoding): (width: nat)
    ensures width == 1 || width == 2 || width == 4
  {
    match e
    case UTF8 => 1
    case UTF16 => 2
    case UTF32 => 4
  }

  /** `EncodingName` and `ByteTrans` each tell the encodings apart. */
  lemma EncodingsDistinct(a: Encoding, b: Encoding)
    ensures EncodingName(a) == EncodingName(b) ==> a == b
    ensures ByteTrans(a) == ByteTrans(b) ==> a == b
  {
    if a != b {
      assert EncodingName(a)[4] != EncodingName(b)[4];
    }
  }

  /** A (row, column) position; the column is a byte or code-unit offset. */
  datatype Pos = Pos(row: int, col: int)

  /** Python's tuple order on positions. */
  predicate PosLe(a: Pos, b: Pos) {
    a.row < b.row || (a.row == b.row && a.col <= b.col)
  }

  predicate PosLt(a: Pos, b: Pos) {
    a.row < b.row || (a.row == b.row && a.col < b.col)
  }

  /** `Cursors`: the row and the cursor column in UTF-8, UTF-16 and UTF-32 units. */
  datatype Cursors = Cursors(row: int, u8: int, u16: int, u32: int)

  datatype SnippetGrammar = Lit | Lsp | Snu

  /** The edit hierarchy. `Plain` is the base `Edit`; `Range` is `RangeEdit`;
      `SnippetRange` is both a snippet edit and a range edit; `Parsed` is the
      range edit the snippet parser produces (it also carries `new_prefix`;
      the snippet parser is not part of this model). Range ends are exclusive. */
  datatype Edit =
    | Plain(newText: string)
    | Contextual(newText: string, oldPrefix: string, newPrefix: string, oldSuffix: string)
    | Range(newText: string, begin: Pos, end: Pos, cursorPos: int, encoding: Encoding, fallback: Option<string>)
    | Snippet(newText: string, grammar: SnippetGrammar)
    | SnippetRange(newText: string, grammar: SnippetGrammar, begin: Pos, end: Pos, cursorPos: int,
                   encoding: Encoding, fallback: Option<string>)
    | Parsed(newText: string, begin: Pos, end: Pos, cursorPos: int, encoding: Encoding, newPrefix: string)
  {
    /** `isinstance(edit, SnippetEdit)`. */
    predicate IsSnippet() {
      Snippet? || SnippetRange?
    }

    /** `isinstance(edit, BaseRangeEdit)`. */
    predicate IsRange() {
      Range? || SnippetRange? || Parsed?
    }
  }

  type ContextualEdit = e: Edit | e.Contextual? witness Contextual("", "", "", "")

  type RangedEdit = e: Edit | e.IsRange() witness Range("", Pos(0, 0), Pos(0, 0), 0, UTF8, None)

  /** `ContextualEdit(new_text, old_prefix, new_prefix)`: `old_suffix` defaults to "". */
  function MkContextualEdit(newText: string, oldPrefix: string, newPrefix: string): (e: ContextualEdit)
    ensures e.oldSuffix == "" && e.newText == newText
    ensures e.oldPrefix == oldPrefix && e.newPrefix == newPrefix
  {
    Contextual(newText, oldPrefix, newPrefix, "")
  }

  /** A snippet placeholder mark. */
  datatype Mark = Mark(idx: int, begin: Pos, end: Pos, text: string)

  datatype Doc = Doc(text: string, syntax: string)

  /** The raw item a completion came from, kept for later resolution. */
  datatype Extern =
    | ExternLsp(inline: bool, client: Option<string>, item: Json.Value, command: Option<LspTypes.Command>)
    | ExternLua(inline: bool, client: Option<string>, item: Json.Value, command: Option<LspTypes.Command>)
    | ExternPath(isDir: bool, path: string)

  datatype Completion = Completion(
    source: string,
    alwaysOnTop: bool,
    weightAdjust: real,
    labelText: string,
    sortBy: string,
    primaryEdit: Edit,
    adjustIndent: bool,
    iconMatch: Option<string>,
    uid: nat,
    secondaryEdits: seq<Edit>,
    preselect: bool,
    kind: string,
    doc: Option<Doc>,
    extern: Option<Extern>)

  /** `Completion(...)` with only the required fields given: no secondary
      edits, not preselected, no kind, no documentation, no extern. */
  function MkCompletion(source: string, alwaysOnTop: bool, weightAdjust: real, labelText: string,
                        sortBy: string, primaryEdit: Edit, adjustIndent: bool,
                        iconMatch: Option<string>, uid: nat): (c: Completion)
    ensures c.secondaryEdits == [] && !c.preselect && c.kind == ""
    ensures c.doc == None && c.extern == None
    ensures c.labelText == labelText && c.sortBy == sortBy && c.primaryEdit == primaryEdit && c.uid == uid
  {
    Completion(source, alwaysOnTop, weightAdjust, labelText, sortBy, primaryEdit, adjustIndent,
               iconMatch, uid, [], false, "", None, None)
  }
}
