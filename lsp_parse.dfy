/** Decoding of `textDocument/completion` and `textDocument/inlineCompletion`
    results into completions (coq/lsp/parse.py). The decision logic is a
    dispatch on the shape of the raw result; the generic dataclass decoders,
    the LSP enumeration tables and `uuid4` are parameters. */
module LspParse {
  import opened Wrappers
  import opened Json
  import opened Text
  import opened LspTypes
  import opened SharedTypes
  import opened Seqs

  /** The LSP enumeration tables (`LSProtocol`) that decoding consults. */
  datatype Protocol = Protocol(insertTextFormat: map<int, string>, completionItemKind: map<int, string>)

  /** Which extern record a completion keeps of its raw item. */
  datatype ExternType = ExternTypeLsp | ExternTypeLua

  /** `LSPcomp`: the optional client name, whether the client allows its items
      to be cached locally, the items the lazy stream yields and whether the
      stream raises after them. */
  datatype LspComp = LspComp(client: Option<string>, localCache: bool, items: seq<Completion>, raised: bool)

  /** The arguments `parse`/`parse_inline` pass down to every item. */
  datatype ParseContext = ParseContext(
    protocol: Protocol,
    externType: ExternType,
    alwaysOnTop: Option<set<Option<string>>>,
    client: Option<string>,
    encoding: Encoding,
    shortName: string,
    cursors: Cursors,
    weightAdjust: real)

  /** The collaborators decoding relies on: the non-strict dataclass decoders
      (an item decoder reports failure as `None`; the defaults decoder raises,
      `Err`) and a source of fresh completion uids, by item position. */
  datatype Decoders = Decoders(
    item: Json.Value -> Option<CompletionItem>,
    inlineItem: Json.Value -> Option<InlineCompletionItem>,
    defaults: Json.Value -> Result<Option<ItemDefaults>, string>,
    uuid: nat -> nat)

  /** Python `a or b` on raw values. */
  function Or(a: Json.Value, b: Json.Value): (r: Json.Value)
    ensures Truthy(a) ==> r == a
    ensures !Truthy(a) ==> r == b
  {
    if Truthy(a) then a else b
  }

  /** `opt or default` on an optional string: an empty string counts as absent. */
  function OrText(opt: Option<string>, default: string): (r: string)
    ensures opt.Some? && opt.value != "" ==> r == opt.value
    ensures opt.None? || opt.value == "" ==> r == default
  {
    if opt.Some? && opt.value != "" then opt.value else default
  }

  function IntOrNull(o: Option<int>): Json.Value {
    if o.Some? then JInt(o.value) else JNull
  }

  function PositionJson(p: Position): Json.Value {
    JObj(map["line" := JInt(p.line), "character" := JInt(p.character)])
  }

  function RangeJson(r: LspRange): Json.Value {
    JObj(map["start" := PositionJson(r.start), "end" := PositionJson(r.end)])
  }

  /** `asdict(edit_range)`. */
  function EditRangeFields(er: EditRange): map<string, Json.Value> {
    match er
    case PlainRange(r) => map["start" := PositionJson(r.start), "end" := PositionJson(r.end)]
    case InsertReplaceRange(ins, rep) => map["insert" := RangeJson(ins), "replace" := RangeJson(rep)]
  }

  /** Whether `_with_defaults` synthesises a `textEdit`: the item's `insertText`
      or else its `label` is a string, and the defaults carry an edit range. */
  predicate SynthesisesTextEdit(defaults: ItemDefaults, fields: map<string, Json.Value>) {
    Or(Get(JObj(fields), "insertText"), Get(JObj(fields), "label")).JStr? && defaults.editRange.Some?
  }

  /** `_with_defaults`: fills in the list's defaults with `setdefault`. A key
      the item already has is never overwritten, a non-mapping item is left
      alone, and a `textEdit` appears only when the defaults carry an edit
      range and the item has a string `insertText` or `label`. */
  function WithDefaults(defaults: ItemDefaults, item: Json.Value): (r: Json.Value)
    ensures !item.JObj? ==> r == item
    ensures item.JObj? ==> r.JObj?
  {
    if !item.JObj? then item
    else
      var m0 := SetDefault(item.fields, "insertTextFormat", IntOrNull(defaults.insertTextFormat));
      var m1 := SetDefault(m0, "insertTextMode", IntOrNull(defaults.insertTextMode));
      var m2 := SetDefault(m1, "data", defaults.data);
      var text := Or(Get(JObj(m2), "insertText"), Get(JObj(m2), "label"));
      if text.JStr? && defaults.editRange.Some? then
        JObj(SetDefault(m2, "textEdit", JObj(EditRangeFields(defaults.editRange.value)["new_text" := text])))
      else JObj(m2)
  }

  /** The three defaults only add keys; a `textEdit` key is added only when
      one is synthesised. */
  lemma WithDefaultsKeys(defaults: ItemDefaults, item: Json.Value)
    requires item.JObj?
    ensures var r := WithDefaults(defaults, item);
      r.fields.Keys == item.fields.Keys + {"insertTextFormat", "insertTextMode", "data"}
                       + (if SynthesisesTextEdit(defaults, item.fields) then {"textEdit"} else {})
  {
    var m0 := SetDefault(item.fields, "insertTextFormat", IntOrNull(defaults.insertTextFormat));
    var m1 := SetDefault(m0, "insertTextMode", IntOrNull(defaults.insertTextMode));
    var m2 := SetDefault(m1, "data", defaults.data);
    assert m2.Keys == item.fields.Keys + {"insertTextFormat", "insertTextMode", "data"};
    assert Get(JObj(m2), "insertText") == Get(item, "insertText");
    assert Get(JObj(m2), "label") == Get(item, "label");
  }

  /** A key the item already has is never overwritten. */
  lemma WithDefaultsKeeps(defaults: ItemDefaults, item: Json.Value)
    requires item.JObj?
    ensures var r := WithDefaults(defaults, item);
      forall k :: k in item.fields ==> k in r.fields && r.fields[k] == item.fields[k]
  {
  }

  /** An absent `insertTextFormat`, `insertTextMode` or `data` takes the
      list's default (`null` for an absent integer default). */
  lemma WithDefaultsFills(defaults: ItemDefaults, item: Json.Value)
    requires item.JObj?
    ensures var r := WithDefaults(defaults, item);
      && ("insertTextFormat" !in item.fields ==> r.fields["insertTextFormat"] == IntOrNull(defaults.insertTextFormat))
      && ("insertTextMode" !in item.fields ==> r.fields["insertTextMode"] == IntOrNull(defaults.insertTextMode))
      && ("data" !in item.fields ==> r.fields["data"] == defaults.data)
  {
  }

  /** A synthesised `textEdit` inserts the item's `insertText`, or else its
      `label`, over the default edit range. */
  lemma WithDefaultsTextEdit(defaults: ItemDefaults, item: Json.Value)
    requires item.JObj? && "textEdit" !in item.fields && SynthesisesTextEdit(defaults, item.fields)
    ensures var te := WithDefaults(defaults, item).fields["textEdit"];
      && te.JObj? && "new_text" in te.fields && te.fields["new_text"] == Or(Get(item, "insertText"), Get(item, "label"))
      && forall k :: k in EditRangeFields(defaults.editRange.value) ==> k in te.fields
  {
    var m0 := SetDefault(item.fields, "insertTextFormat", IntOrNull(defaults.insertTextFormat));
    var m1 := SetDefault(m0, "insertTextMode", IntOrNull(defaults.insertTextMode));
    var m2 := SetDefault(m1, "data", defaults.data);
    assert Get(JObj(m2), "insertText") == Get(item, "insertText");
    assert Get(JObj(m2), "label") == Get(item, "label");
  }

  /** The cursor column of `cursors` in the given encoding's units. */
  function CursorIn(encoding: Encoding, cursors: Cursors): int {
    match encoding
    case UTF8 => cursors.u8
    case UTF16 => cursors.u16
    case UTF32 => cursors.u32
  }

  function TextOf(edit: TextEditLike): string {
    match edit
    case TextEditNonStandard(_, _, t) => t
    case TextEdit(t, _) => t
    case InsertReplaceEdit(t, _, _) => t
  }

  function PosOf(p: Position): Pos {
    Pos(p.line, p.character)
  }

  /** `_range_edit`: a range edit with the cursor in the edit's encoding; an
      insert-replace edit contributes its `replace` range. */
  function RangeEditOf(encoding: Encoding, cursors: Cursors, fallback: Option<string>, edit: TextEditLike): (r: Edit)
    ensures r.Range? && r.encoding == encoding && r.fallback == fallback && r.newText == TextOf(edit)
    ensures encoding == UTF8 ==> r.cursorPos == cursors.u8
    ensures encoding == UTF16 ==> r.cursorPos == cursors.u16
    ensures encoding == UTF32 ==> r.cursorPos == cursors.u32
    ensures edit.InsertReplaceEdit? ==> r.begin == PosOf(edit.replace.start) && r.end == PosOf(edit.replace.end)
    ensures edit.TextEdit? ==> r.begin == PosOf(edit.range.start) && r.end == PosOf(edit.range.end)
    ensures edit.TextEditNonStandard? ==> r.begin == PosOf(edit.start) && r.end == PosOf(edit.end)
  {
    var (start, end) := match edit
      case TextEditNonStandard(s, e, _) => (s, e)
      case TextEdit(_, rng) => (rng.start, rng.end)
      case InsertReplaceEdit(_, _, rep) => (rep.start, rep.end);
    Range(TextOf(edit), PosOf(start), PosOf(end), CursorIn(encoding, cursors), encoding, fallback)
  }

  /** Whether the item's insert text format is the protocol's "Snippet". */
  predicate IsSnippetFormat(protocol: Protocol, format: Option<int>) {
    format.Some? && format.value in protocol.insertTextFormat
    && protocol.insertTextFormat[format.value] == "Snippet"
  }

  /** `_primary`: with the snippet insert format, a snippet range edit when the
      item has a `textEdit` and a plain snippet edit otherwise; without it, a
      range edit when the item has a `textEdit` and a plain edit of
      `insertText or label` otherwise. */
  function Primary(protocol: Protocol, encoding: Encoding, cursors: Cursors, item: CompletionItem): (r: Edit)
    ensures r.SnippetRange? <==> IsSnippetFormat(protocol, item.insertTextFormat) && item.textEdit.Some?
    ensures r.Snippet? <==> IsSnippetFormat(protocol, item.insertTextFormat) && item.textEdit.None?
    ensures r.Range? <==> !IsSnippetFormat(protocol, item.insertTextFormat) && item.textEdit.Some?
    ensures r.Plain? <==> !IsSnippetFormat(protocol, item.insertTextFormat) && item.textEdit.None?
    ensures item.textEdit.None? ==> r.newText == OrText(item.insertText, item.labelText)
    ensures item.textEdit.Some? ==>
      && r.newText == TextOf(item.textEdit.value) && r.fallback == item.insertText
      && r.encoding == encoding && r.cursorPos == CursorIn(encoding, cursors)
    ensures r.SnippetRange? || r.Snippet? ==> r.grammar == Lsp
  {
    var fallback := OrText(item.insertText, item.labelText);
    if IsSnippetFormat(protocol, item.insertTextFormat) then
      if item.textEdit.Some? then
        var re := RangeEditOf(encoding, cursors, item.insertText, item.textEdit.value);
        SnippetRange(re.newText, Lsp, re.begin, re.end, re.cursorPos, re.encoding, re.fallback)
      else Snippet(fallback, Lsp)
    else if item.textEdit.Some? then RangeEditOf(encoding, cursors, item.insertText, item.textEdit.value)
    else Plain(fallback)
  }

  /** `_adjust_indent`. */
  predicate AdjustIndent(mode: Option<int>, edit: Edit) {
    !edit.IsRange() && (mode == Some(2) || edit.IsSnippet())
  }

  /** Indentation is adjusted for a decoded item exactly when it has no
      `textEdit` and either asks for insert text mode 2 or is a snippet. */
  lemma AdjustIndentOfPrimary(protocol: Protocol, encoding: Encoding, cursors: Cursors, item: CompletionItem)
    ensures AdjustIndent(item.insertTextMode, Primary(protocol, encoding, cursors, item))
            <==> item.textEdit.None? && (item.insertTextMode == Some(2) || IsSnippetFormat(protocol, item.insertTextFormat))
  {
  }

  /** `_doc`: markup documentation first, then string documentation, then a
      non-empty `detail`, else none. */
  function DocOf(item: CompletionItem): (r: Option<Doc>)
    ensures item.documentation.Some? && item.documentation.value.DocMarkup? ==>
      r == Some(Doc(item.documentation.value.markup.value, item.documentation.value.markup.kind))
    ensures item.documentation.Some? && item.documentation.value.DocString? ==>
      r == Some(Doc(item.documentation.value.text, ""))
    ensures item.documentation.None? && item.detail.Some? && item.detail.value != "" ==>
      r == Some(Doc(item.detail.value, ""))
    ensures r.None? <==> item.documentation.None? && (item.detail.None? || item.detail.value == "")
  {
    match item.documentation
    case Some(DocMarkup(m)) => Some(Doc(m.value, m.kind))
    case Some(DocString(s)) => Some(Doc(s, ""))
    case None => if item.detail.Some? && item.detail.value != "" then Some(Doc(item.detail.value, "")) else None
  }

  function InlineTextOf(t: InlineText): string {
    match t
    case InlinePlain(s) => s
    case InlineSnippet(_, v) => v
  }

  predicate IsInlineSnippet(t: InlineText) {
    t.InlineSnippet? && AsciiLower(t.kind) == "snippet"
  }

  /** `_inline_primary`: like `_primary`, with the snippet decision taken from
      the shape of `insertText` and the optional `range` standing for the
      text edit; no fallback is kept. */
  function InlinePrimary(encoding: Encoding, cursors: Cursors, item: InlineCompletionItem): (r: Edit)
    ensures r.newText == InlineTextOf(item.insertText)
    ensures r.SnippetRange? <==> IsInlineSnippet(item.insertText) && item.range.Some?
    ensures r.Snippet? <==> IsInlineSnippet(item.insertText) && item.range.None?
    ensures r.Range? <==> !IsInlineSnippet(item.insertText) && item.range.Some?
    ensures r.Plain? <==> !IsInlineSnippet(item.insertText) && item.range.None?
    ensures r.IsRange() ==>
      && r.fallback == None && r.begin == PosOf(item.range.value.start) && r.end == PosOf(item.range.value.end)
      && r.cursorPos == CursorIn(encoding, cursors)
  {
    var text := InlineTextOf(item.insertText);
    if IsInlineSnippet(item.insertText) then
      if item.range.Some? then
        var re := RangeEditOf(encoding, cursors, None, TextEdit(text, item.range.value));
        SnippetRange(re.newText, Lsp, re.begin, re.end, re.cursorPos, re.encoding, re.fallback)
      else Snippet(text, Lsp)
    else if item.range.Some? then RangeEditOf(encoding, cursors, None, TextEdit(text, item.range.value))
    else Plain(text)
  }

  /** `always_on_top`: none given means never, an empty set means every
      client, otherwise membership of the client decides. */
  function OnTop(alwaysOnTop: Option<set<Option<string>>>, client: Option<string>): (r: bool)
    ensures alwaysOnTop.None? ==> !r
    ensures alwaysOnTop == Some({}) ==> r
    ensures alwaysOnTop.Some? && alwaysOnTop.value != {} ==> (r <==> client in alwaysOnTop.value)
  {
    if alwaysOnTop.None? then false
    else alwaysOnTop.value == {} || client in alwaysOnTop.value
  }

  function ExternOf(t: ExternType, inline: bool, client: Option<string>, item: Json.Value,
                    command: Option<Command>): Extern {
    match t
    case ExternTypeLsp => ExternLsp(inline, client, item, command)
    case ExternTypeLua => ExternLua(inline, client, item, command)
  }

  /** The protocol's name for the raw item's `kind`, or "". */
  function KindName(protocol: Protocol, raw: Json.Value): string {
    if raw.JInt? && raw.i in protocol.completionItemKind then protocol.completionItemKind[raw.i] else ""
  }

  /** The secondary edits: each additional text edit as a range edit with no
      cursor and no fallback. */
  function SecondaryEdits(encoding: Encoding, edits: seq<StandardTextEdit>): (r: seq<Edit>)
    ensures |r| == |edits|
    ensures forall i :: 0 <= i < |r| ==>
      r[i] == RangeEditOf(encoding, Cursors(-1, -1, -1, -1), None, edits[i])
  {
    if |edits| == 0 then [] else [RangeEditOf(encoding, Cursors(-1, -1, -1, -1), None, edits[0])] + SecondaryEdits(encoding, edits[1..])
  }

  /** The label shown: `label` extended by `labelDetails.detail`. */
  function LabelOf(item: CompletionItem): (r: string)
    ensures item.labelText <= r
    ensures item.labelDetails.None? ==> r == item.labelText
    ensures item.labelDetails.Some? && item.labelDetails.value.detail.Some? ==>
      r == item.labelText + item.labelDetails.value.detail.value
  {
    if item.labelDetails.Some? then item.labelText + OrText(item.labelDetails.value.detail, "")
    else item.labelText
  }

  /** `parse_item`: a falsy or undecodable item gives nothing; otherwise a
      completion whose primary edit is `_primary`'s, whose sort text is
      `filterText`, else the label for snippet edits, else the primary text,
      and which keeps the raw item in its extern record. */
  function ParseItem(ctx: ParseContext, dec: Decoders, item: Json.Value, uid: nat): (r: Option<Completion>)
    ensures r.Some? <==> Truthy(item) && dec.item(item).Some?
    ensures r.Some? ==>
      var p := dec.item(item).value;
      var c := r.value;
      && c.source == ctx.shortName && c.weightAdjust == ctx.weightAdjust && c.uid == uid
      && c.alwaysOnTop == OnTop(ctx.alwaysOnTop, ctx.client)
      && c.primaryEdit == Primary(ctx.protocol, ctx.encoding, ctx.cursors, p)
      && c.labelText == LabelOf(p)
      && (p.filterText.Some? && p.filterText.value != "" ==> c.sortBy == p.filterText.value)
      && (OrText(p.filterText, "") == "" && c.primaryEdit.IsSnippet() ==> c.sortBy == p.labelText)
      && (OrText(p.filterText, "") == "" && !c.primaryEdit.IsSnippet() ==> c.sortBy == c.primaryEdit.newText)
      && c.adjustIndent == AdjustIndent(p.insertTextMode, c.primaryEdit)
      && c.iconMatch == Some(c.kind) && c.kind == KindName(ctx.protocol, Get(item, "kind"))
      && c.preselect == (p.preselect == Some(true))
      && c.doc == DocOf(p)
      && c.extern == Some(ExternOf(ctx.externType, false, ctx.client, item, p.command))
      && (p.additionalTextEdits.None? ==> c.secondaryEdits == [])
      && (p.additionalTextEdits.Some? ==> c.secondaryEdits == SecondaryEdits(ctx.encoding, p.additionalTextEdits.value))
  {
    if !Truthy(item) then None
    else match dec.item(item)
      case None => None
      case Some(p) =>
        var pEdit := Primary(ctx.protocol, ctx.encoding, ctx.cursors, p);
        var rEdits := if p.additionalTextEdits.Some? then SecondaryEdits(ctx.encoding, p.additionalTextEdits.value) else [];
        var sortBy := OrText(p.filterText, if pEdit.IsSnippet() then p.labelText else pEdit.newText);
        var kind := KindName(ctx.protocol, Get(item, "kind"));
        Some(Completion(ctx.shortName, OnTop(ctx.alwaysOnTop, ctx.client), ctx.weightAdjust, LabelOf(p), sortBy,
                        pEdit, AdjustIndent(p.insertTextMode, pEdit), Some(kind), uid, rEdits,
                        p.preselect == Some(true), kind, DocOf(p),
                        Some(ExternOf(ctx.externType, false, ctx.client, item, p.command))))
  }

  /** An item without `filterText` or `textEdit`, outside the snippet format,
      sorts and inserts by `insertText`, or by its label when that is empty. */
  lemma PlainItemSortsByInsertText(ctx: ParseContext, dec: Decoders, item: Json.Value, uid: nat)
    requires Truthy(item) && dec.item(item).Some?
    requires dec.item(item).value.filterText.None? && dec.item(item).value.textEdit.None?
    requires !IsSnippetFormat(ctx.protocol, dec.item(item).value.insertTextFormat)
    ensures ParseItem(ctx, dec, item, uid).Some?
    ensures var c := ParseItem(ctx, dec, item, uid).value;
            var p := dec.item(item).value;
            c.sortBy == c.primaryEdit.newText == OrText(p.insertText, p.labelText) && c.primaryEdit.Plain?
  {
  }

  /** `parse_item` of an element given the list's defaults, under the
      `j`-th fresh uid. */
  function ItemParser(ctx: ParseContext, dec: Decoders, defaults: ItemDefaults): (nat, Json.Value) -> Option<Completion> {
    (j: nat, item: Json.Value) => ParseItem(ctx, dec, WithDefaults(defaults, item), dec.uuid(j))
  }

  /** What `parse_item` makes of element `j` of the list, given the list's
      defaults: the completion of the `from + j`-th parsed element. */
  function ParsedAt(ctx: ParseContext, dec: Decoders, defaults: ItemDefaults, elems: seq<Json.Value>, from: nat,
                    j: nat): Option<Completion>
    requires j < |elems|
  {
    ParseItem(ctx, dec, WithDefaults(defaults, elems[j]), dec.uuid(from + j))
  }

  /** The lazy stream of `parse`: every element given the list's defaults and
      parsed, the elements that give nothing skipped. */
  function ParseItems(ctx: ParseContext, dec: Decoders, defaults: ItemDefaults, elems: seq<Json.Value>, from: nat)
    : (r: seq<Completion>)
    ensures |r| <= |elems|
    ensures forall c :: c in r ==>
      c.source == ctx.shortName && c.extern.Some? && !c.extern.value.ExternPath? && !c.extern.value.inline && c.extern.value.client == ctx.client
    ensures (forall j :: 0 <= j < |elems| ==> ParsedAt(ctx, dec, defaults, elems, from, j).Some?) ==> |r| == |elems|
  {
    var f := ItemParser(ctx, dec, defaults);
    var r := FilterMapIndexed(f, elems, from);
    assert forall c :: c in r ==>
      c.source == ctx.shortName && c.extern.Some? && !c.extern.value.ExternPath? && !c.extern.value.inline && c.extern.value.client == ctx.client
    by {
      forall c | c in r
        ensures c.source == ctx.shortName && c.extern.Some? && !c.extern.value.ExternPath?
        ensures !c.extern.value.inline && c.extern.value.client == ctx.client
      {
        var j := FilterMapIndexedFrom(f, elems, from, c);
        assert ParseItem(ctx, dec, WithDefaults(defaults, elems[j]), dec.uuid(from + j)) == Some(c);
      }
    }
    assert (forall j :: 0 <= j < |elems| ==> ParsedAt(ctx, dec, defaults, elems, from, j).Some?) ==> |r| == |elems| by {
      var all := forall j :: 0 <= j < |elems| ==> ParsedAt(ctx, dec, defaults, elems, from, j).Some?;
      if all {
        assert forall j :: 0 <= j < |elems| ==> f(from + j, elems[j]) == ParsedAt(ctx, dec, defaults, elems, from, j);
        FilterMapIndexedAllPresent(f, elems, from);
      }
    }
    r
  }

  /** Every completion of the stream is what some element parses to. */
  lemma ParseItemsFrom(ctx: ParseContext, dec: Decoders, defaults: ItemDefaults,
                       elems: seq<Json.Value>, from: nat, c: Completion) returns (j: nat)
    requires c in ParseItems(ctx, dec, defaults, elems, from)
    ensures j < |elems| && ParsedAt(ctx, dec, defaults, elems, from, j) == Some(c)
  {
    j := FilterMapIndexedFrom(ItemParser(ctx, dec, defaults), elems, from, c);
  }

  /** Every element that parses to a completion contributes it. */
  lemma ParseItemsKeeps(ctx: ParseContext, dec: Decoders, defaults: ItemDefaults,
                        elems: seq<Json.Value>, from: nat, j: nat)
    requires j < |elems| && ParsedAt(ctx, dec, defaults, elems, from, j).Some?
    ensures ParsedAt(ctx, dec, defaults, elems, from, j).value in ParseItems(ctx, dec, defaults, elems, from)
  {
    FilterMapIndexedKeeps(ItemParser(ctx, dec, defaults), elems, from, j);
  }

  /** The stream of a concatenation is the stream of the first part then
      that of the second, whose elements are counted on from the first's:
      elements are parsed in order. */
  lemma ParseItemsAppend(ctx: ParseContext, dec: Decoders, defaults: ItemDefaults,
                         a: seq<Json.Value>, b: seq<Json.Value>, from: nat)
    ensures ParseItems(ctx, dec, defaults, a + b, from)
         == ParseItems(ctx, dec, defaults, a, from) + ParseItems(ctx, dec, defaults, b, from + |a|)
  {
    FilterMapIndexedAppend(ItemParser(ctx, dec, defaults), a, b, from);
  }

  /** `parse`: a falsy result caches and yields nothing; a completion list
      caches iff `isIncomplete` is falsy and yields nothing when its `items`
      is not a sequence; a bare sequence caches; any other shape neither
      caches nor yields. Only a failing decode of `itemDefaults` raises. */
  function Parse(ctx: ParseContext, dec: Decoders, resp: Json.Value): (r: Result<LspComp, string>)
    ensures r.Ok? ==> r.value.client == ctx.client && !r.value.raised
    ensures Falsy(resp) ==> r == Ok(LspComp(ctx.client, true, [], false))
    ensures resp.JObj? && r.Ok? ==> r.value.localCache == Falsy(Get(resp, "isIncomplete"))
    ensures resp.JObj? && !IsSequence(Get(resp, "items")) ==> r.Ok? && r.value.items == []
    ensures resp.JObj? && IsSequence(Get(resp, "items")) ==>
      (r.Err? <==> dec.defaults(Get(resp, "itemDefaults")).Err?)
    ensures r.Err? ==> resp.JObj?
    ensures ShapeOf(resp) == ItemSequence ==> r.Ok? && r.value.localCache
    ensures resp.JObj? && IsSequence(Get(resp, "items")) && r.Ok? ==>
      var decoded := dec.defaults(Get(resp, "itemDefaults")).value;
      r.value.items == ParseItems(ctx, dec, if decoded.Some? then decoded.value else NoItemDefaults(),
                                  Elements(Get(resp, "items")), 0)
    ensures ShapeOf(resp) == ItemSequence ==> r.value.items == ParseItems(ctx, dec, NoItemDefaults(), Elements(resp), 0)
    ensures ShapeOf(resp) == Unknown ==> r == Ok(LspComp(ctx.client, false, [], false))
  {
    if Falsy(resp) then Ok(LspComp(ctx.client, true, [], false))
    else if resp.JObj? then
      var isComplete := Falsy(Get(resp, "isIncomplete"));
      var items := Get(resp, "items");
      if !IsSequence(items) then Ok(LspComp(ctx.client, isComplete, [], false))
      else
        match dec.defaults(Get(resp, "itemDefaults"))
        case Err(e) => Err(e)
        case Ok(decoded) =>
          var defaults := if decoded.Some? then decoded.value else NoItemDefaults();
          Ok(LspComp(ctx.client, isComplete, ParseItems(ctx, dec, defaults, Elements(items), 0), false))
    else if IsSequence(resp) then
      Ok(LspComp(ctx.client, true, ParseItems(ctx, dec, NoItemDefaults(), Elements(resp), 0), false))
    else Ok(LspComp(ctx.client, false, [], false))
  }

  /** Whether `parse_inline_item` raises on `item`: it decodes, and its text
      has no first line to unpack. */
  predicate InlineItemRaises(dec: Decoders, item: Json.Value) {
    Truthy(item) && dec.inlineItem(item).Some? && InlineTextOf(dec.inlineItem(item).value.insertText) == ""
  }

  /** What every completion of the inline stream carries: the source's short
      name and an inline, non-path extern record naming the client. */
  predicate InlineShaped(ctx: ParseContext, c: Completion) {
    && c.source == ctx.shortName && c.extern.Some? && !c.extern.value.ExternPath?
    && c.extern.value.inline && c.extern.value.client == ctx.client
  }

  /** Whether some element of `elems` makes `parse_inline_item` raise. */
  predicate AnyRaises(dec: Decoders, elems: seq<Json.Value>)
    decreases |elems|
  {
    |elems| > 0 && (InlineItemRaises(dec, elems[0]) || AnyRaises(dec, elems[1..]))
  }

  /** `AnyRaises` is "some element raises". */
  lemma {:induction false} AnyRaisesExists(dec: Decoders, elems: seq<Json.Value>)
    ensures AnyRaises(dec, elems) <==> exists e :: e in elems && InlineItemRaises(dec, e)
    decreases |elems|
  {
    if |elems| > 0 {
      AnyRaisesExists(dec, elems[1..]);
      assert forall e :: e in elems <==> e == elems[0] || e in elems[1..];
    }
  }

  /** The label of an inline item: the first line of its text, stripped. */
  function InlineLabel(text: string): (r: string)
    requires |text| > 0
    ensures r == Strip(SplitLines(text)[0])
    ensures forall i :: 0 <= i < |r| ==> !IsLineBoundary(r[i])
  {
    FirstLineStripped(text);
    Strip(SplitLines(text)[0])
  }

  /** `parse_inline_item`: like `parse_item`, the first line of the text
      giving the label (stripped) and the default sort text; an item whose
      text is empty raises when its first line is unpacked. */
  function ParseInlineItem(ctx: ParseContext, dec: Decoders, item: Json.Value, uid: nat)
    : (r: Result<Option<Completion>, string>)
    ensures r.Err? <==> InlineItemRaises(dec, item)
    ensures r.Ok? && r.value.Some? ==> InlineShaped(ctx, r.value.value)
    ensures r.Ok? && r.value.Some? <==> Truthy(item) && dec.inlineItem(item).Some? && InlineTextOf(dec.inlineItem(item).value.insertText) != ""
    ensures r.Ok? && r.value.Some? ==>
      var p := dec.inlineItem(item).value;
      var c := r.value.value;
      var first := SplitLines(InlineTextOf(p.insertText))[0];
      && c.primaryEdit == InlinePrimary(ctx.encoding, ctx.cursors, p)
      && c.labelText == Strip(first)
      && (forall i :: 0 <= i < |c.labelText| ==> !IsLineBoundary(c.labelText[i]))
      && c.sortBy == OrText(p.filterText, first)
      && c.kind == (if c.primaryEdit.IsSnippet() then "Snippet" else "Text") && c.iconMatch == Some(c.kind)
      && c.secondaryEdits == [] && !c.preselect
      && c.doc == Some(Doc(InlineTextOf(p.insertText), ""))
      && c.adjustIndent == (c.primaryEdit.Snippet?)
      && c.extern == Some(ExternOf(ctx.externType, true, ctx.client, item, p.command))
      && c.source == ctx.shortName && c.uid == uid && c.alwaysOnTop == OnTop(ctx.alwaysOnTop, ctx.client)
  {
    if !Truthy(item) then Ok(None)
    else match dec.inlineItem(item)
      case None => Ok(None)
      case Some(p) =>
        var pEdit := InlinePrimary(ctx.encoding, ctx.cursors, p);
        var lines := SplitLines(pEdit.newText);
        if |lines| == 0 then Err("ValueError")
        else
          var line := lines[0];
          var kind := if pEdit.IsSnippet() then "Snippet" else "Text";
          Ok(Some(Completion(ctx.shortName, OnTop(ctx.alwaysOnTop, ctx.client), ctx.weightAdjust, InlineLabel(pEdit.newText),
                             OrText(p.filterText, line), pEdit, AdjustIndent(None, pEdit), Some(kind), uid, [],
                             false, kind, Some(Doc(pEdit.newText, "")),
                             Some(ExternOf(ctx.externType, true, ctx.client, item, p.command)))))
  }

  /** The position of the first element that makes `parse_inline_item`
      raise, or the length when none does. */
  function FirstRaise(dec: Decoders, elems: seq<Json.Value>): (k: nat)
    ensures k <= |elems|
    ensures k < |elems| <==> AnyRaises(dec, elems)
    ensures k < |elems| ==> InlineItemRaises(dec, elems[k])
    ensures forall j :: 0 <= j < k ==> !InlineItemRaises(dec, elems[j])
    decreases |elems|
  {
    if |elems| == 0 || InlineItemRaises(dec, elems[0]) then 0
    else
      var k := FirstRaise(dec, elems[1..]);
      assert forall j :: 0 < j <= k ==> elems[j] == elems[1..][j - 1];
      1 + k
  }

  /** `parse_inline_item` of an element under the `j`-th fresh uid, as the
      stream sees it: the completion when there is one, nothing when the
      element is skipped or raises. */
  function InlineItemParser(ctx: ParseContext, dec: Decoders): (nat, Json.Value) -> Option<Completion> {
    (j: nat, item: Json.Value) =>
      var p := ParseInlineItem(ctx, dec, item, dec.uuid(j));
      if p.Ok? then p.value else None
  }

  /** The lazy stream of `parse_inline`: the completions of the elements
      before the first one that raises, in order, and whether one raised.
      The generator stops at the raise, so nothing after it is parsed. */
  function ParseInlineItems(ctx: ParseContext, dec: Decoders, elems: seq<Json.Value>, from: nat)
    : (r: (seq<Completion>, bool))
    ensures |r.0| <= FirstRaise(dec, elems) <= |elems|
    ensures forall c :: c in r.0 ==> InlineShaped(ctx, c)
    ensures r.1 == AnyRaises(dec, elems)
  {
    var f := InlineItemParser(ctx, dec);
    var k := FirstRaise(dec, elems);
    var items := FilterMapIndexed(f, elems[..k], from);
    assert forall c :: c in items ==> InlineShaped(ctx, c) by {
      forall c | c in items ensures InlineShaped(ctx, c) {
        var j := FilterMapIndexedFrom(f, elems[..k], from, c);
        assert ParseInlineItem(ctx, dec, elems[..k][j], dec.uuid(from + j)) == Ok(Some(c));
      }
    }
    (items, AnyRaises(dec, elems))
  }

  /** Every completion of the inline stream is what an element before the
      first raising one parses to. */
  lemma ParseInlineItemsFrom(ctx: ParseContext, dec: Decoders, elems: seq<Json.Value>, from: nat, c: Completion)
    returns (j: nat)
    requires c in ParseInlineItems(ctx, dec, elems, from).0
    ensures j < FirstRaise(dec, elems) && ParseInlineItem(ctx, dec, elems[j], dec.uuid(from + j)) == Ok(Some(c))
  {
    var k := FirstRaise(dec, elems);
    j := FilterMapIndexedFrom(InlineItemParser(ctx, dec), elems[..k], from, c);
    assert elems[..k][j] == elems[j];
  }

  /** Every element before the first raising one that parses to a
      completion contributes it. */
  lemma ParseInlineItemsKeeps(ctx: ParseContext, dec: Decoders, elems: seq<Json.Value>, from: nat, j: nat, c: Completion)
    requires j < FirstRaise(dec, elems) && ParseInlineItem(ctx, dec, elems[j], dec.uuid(from + j)) == Ok(Some(c))
    ensures c in ParseInlineItems(ctx, dec, elems, from).0
  {
    var k := FirstRaise(dec, elems);
    assert elems[..k][j] == elems[j];
    assert InlineItemParser(ctx, dec)(from + j, elems[..k][j]) == Some(c);
    FilterMapIndexedKeeps(InlineItemParser(ctx, dec), elems[..k], from, j);
  }

  /** After elements none of which raises, the first raise is that of the
      rest, shifted past them. */
  lemma FirstRaiseAppend(dec: Decoders, a: seq<Json.Value>, b: seq<Json.Value>)
    requires !AnyRaises(dec, a)
    ensures FirstRaise(dec, a) == |a|
    ensures FirstRaise(dec, a + b) == |a| + FirstRaise(dec, b)
    ensures AnyRaises(dec, a + b) == AnyRaises(dec, b)
  {
    var kb := FirstRaise(dec, b);
    assert forall j :: 0 <= j < |a| ==> (a + b)[j] == a[j];
    assert forall j :: 0 <= j < kb ==> (a + b)[|a| + j] == b[j];
    if kb < |b| {
      assert (a + b)[|a| + kb] == b[kb];
    }
  }

  /** After elements that all parse without raising, the stream goes on
      with the stream of the rest, counted on from them: elements are
      parsed in order, and a raise only cuts what follows it. */
  lemma ParseInlineItemsAppend(ctx: ParseContext, dec: Decoders, a: seq<Json.Value>, b: seq<Json.Value>, from: nat)
    requires !AnyRaises(dec, a)
    ensures ParseInlineItems(ctx, dec, a + b, from).0
         == ParseInlineItems(ctx, dec, a, from).0 + ParseInlineItems(ctx, dec, b, from + |a|).0
    ensures ParseInlineItems(ctx, dec, a + b, from).1 == ParseInlineItems(ctx, dec, b, from + |a|).1
  {
    FirstRaiseAppend(dec, a, b);
    FilterMapIndexedPrefixAppend(InlineItemParser(ctx, dec), a, b, from,
                                 FirstRaise(dec, a), FirstRaise(dec, b), FirstRaise(dec, a + b));
  }

  /** `parse_inline`: never caches locally, whatever the shape of the result;
      a list with a non-sequence `items`, a falsy result and any other shape
      yield nothing. */
  function ParseInline(ctx: ParseContext, dec: Decoders, resp: Json.Value): (r: LspComp)
    ensures !r.localCache && r.client == ctx.client
    ensures Falsy(resp) || ShapeOf(resp) == Unknown ==> r.items == [] && !r.raised
    ensures resp.JObj? && !IsSequence(Get(resp, "items")) ==> r.items == [] && !r.raised
    ensures ShapeOf(resp) == ItemSequence ==> |r.items| <= |Elements(resp)|
    ensures resp.JObj? && IsSequence(Get(resp, "items")) ==>
      (r.items, r.raised) == ParseInlineItems(ctx, dec, Elements(Get(resp, "items")), 0)
    ensures ShapeOf(resp) == ItemSequence ==> (r.items, r.raised) == ParseInlineItems(ctx, dec, Elements(resp), 0)
  {
    if Falsy(resp) then LspComp(ctx.client, false, [], false)
    else if resp.JObj? && IsSequence(Get(resp, "items")) then
      var (items, raised) := ParseInlineItems(ctx, dec, Elements(Get(resp, "items")), 0);
      LspComp(ctx.client, false, items, raised)
    else if !resp.JObj? && IsSequence(resp) then
      var (items, raised) := ParseInlineItems(ctx, dec, Elements(resp), 0);
      LspComp(ctx.client, false, items, raised)
    else LspComp(ctx.client, false, [], false)
  }
}
