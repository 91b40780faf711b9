/** The edit instruction algebra of coq/server/edit.py: the rows an edit
    touches, the translation of contextual and range edits into buffer
    instructions, the conflict resolution of `_consolidate`, the row and
    column shifting of `_shift`, the mark shift and the final cursor.

    Columns are UTF-8 byte offsets; `encode` is `Utf8Len`. A Python
    exception is an `Err` carrying the exception's name. */
module ServerEdit {
  import opened Wrappers
  import opened Text
  import opened Seqs
  import opened SharedTypes

  /** `Context.linefeed`: one of the three line separators. */
  datatype Linefeed = CRLF | LF | CR

  function LinefeedText(lf: Linefeed): (s: string)
    ensures |s| > 0
  {
    match lf
    case CRLF => "\r\n"
    case LF => "\n"
    case CR => "\r"
  }

  /** The parts of the editing context the translation reads: the cursor
      row and UTF-8 column (`position`), the buffer's line separator, and
      the text of the cursor line before the cursor. */
  datatype EditContext = EditContext(row: int, col: int, linefeed: Linefeed, lineBefore: string)

  /** `text.split(ctx.linefeed)`. */
  function SplitLf(ctx: EditContext, text: string): (parts: seq<string>)
    ensures |parts| >= 1
  {
    Split(text, LinefeedText(ctx.linefeed))
  }

  /** `EditInstruction`: replace `[begin, end)` by `newLines`; the cursor
      moves by `cursorYoffset` rows and lands on column `cursorXpos`. */
  datatype EditInstruction = EditInstruction(
    primary: bool,
    begin: Pos,
    end: Pos,
    cursorYoffset: int,
    cursorXpos: int,
    newLines: seq<string>)

  // ---------------------------------------------------------------------------
  // _rows_to_fetch

  /** The rows one edit touches: the rows its old prefix and suffix reach
      for a contextual edit, its two ends for a range edit, the cursor row
      otherwise. */
  function TouchedRows(ctx: EditContext, e: Edit): (rows: seq<int>)
    ensures |rows| >= 1
  {
    if e.Contextual? then
      [ctx.row - (|SplitLf(ctx, e.oldPrefix)| - 1), ctx.row + (|SplitLf(ctx, e.oldSuffix)| - 1)]
    else if e.IsRange() then [e.begin.row, e.end.row]
    else [ctx.row]
  }

  /** The rows of all the edits, edit by edit. */
  function RowsOf(ctx: EditContext, es: seq<Edit>): (rows: seq<int>)
    ensures |es| > 0 ==> |rows| > 0
    ensures forall k :: 0 <= k < |es| ==> forall t :: t in TouchedRows(ctx, es[k]) ==> t in rows
  {
    if |es| == 0 then []
    else
      var rest := RowsOf(ctx, es[1..]);
      assert forall k :: 1 <= k < |es| ==> es[k] == es[1..][k - 1];
      TouchedRows(ctx, es[0]) + rest
  }

  /** Every row collected is a row some edit touches: the `k`-th. */
  lemma {:induction false} RowsOfTouched(ctx: EditContext, es: seq<Edit>, t: int) returns (k: nat)
    requires t in RowsOf(ctx, es)
    ensures k < |es| && t in TouchedRows(ctx, es[k])
    decreases |es|
  {
    if t in TouchedRows(ctx, es[0]) {
      k := 0;
    } else {
      var j := RowsOfTouched(ctx, es[1..], t);
      assert es[1..][j] == es[j + 1];
      k := j + 1;
    }
  }

  function MinOf(s: seq<int>): (m: int)
    requires |s| > 0
    ensures m in s && forall i :: 0 <= i < |s| ==> m <= s[i]
  {
    if |s| == 1 then s[0]
    else
      var m := MinOf(s[1..]);
      assert forall i :: 1 <= i < |s| ==> s[i] == s[1..][i - 1];
      if s[0] <= m then s[0] else m
  }

  function MaxOf(s: seq<int>): (m: int)
    requires |s| > 0
    ensures m in s && forall i :: 0 <= i < |s| ==> s[i] <= m
  {
    if |s| == 1 then s[0]
    else
      var m := MaxOf(s[1..]);
      assert forall i :: 1 <= i < |s| ==> s[i] == s[1..][i - 1];
      if s[0] >= m then s[0] else m
  }

  /** `_rows_to_fetch`: the half-open row span `[lo, hi)` that holds every
      row the primary and the secondary edits touch. */
  function RowsToFetch(ctx: EditContext, edit: Edit, edits: seq<Edit>): (r: (int, int))
    ensures r.0 < r.1
    ensures forall t :: t in TouchedRows(ctx, edit) ==> r.0 <= t < r.1
    ensures forall k :: 0 <= k < |edits| ==> forall t :: t in TouchedRows(ctx, edits[k]) ==> r.0 <= t < r.1
  {
    var all := [edit] + edits;
    var rows := RowsOf(ctx, all);
    assert all[0] == edit;
    assert forall k :: 0 <= k < |edits| ==> edits[k] == all[k + 1];
    (MinOf(rows), MaxOf(rows) + 1)
  }

  /** The span is no wider than needed: its first row is touched by edit
      `lo` and its last row by edit `hi` of the primary edit followed by
      the secondary ones. */
  lemma RowsToFetchTight(ctx: EditContext, edit: Edit, edits: seq<Edit>) returns (lo: nat, hi: nat)
    ensures lo <= |edits| && RowsToFetch(ctx, edit, edits).0 in TouchedRows(ctx, ([edit] + edits)[lo])
    ensures hi <= |edits| && RowsToFetch(ctx, edit, edits).1 - 1 in TouchedRows(ctx, ([edit] + edits)[hi])
  {
    var rows := RowsOf(ctx, [edit] + edits);
    assert RowsToFetch(ctx, edit, edits) == (MinOf(rows), MaxOf(rows) + 1);
    lo := RowsOfTouched(ctx, [edit] + edits, MinOf(rows));
    hi := RowsOfTouched(ctx, [edit] + edits, MaxOf(rows));
  }

  // ---------------------------------------------------------------------------
  // _contextual_edit_trans

  /** Python's `lines[r]`: a negative index counts from the end; one out of
      range raises. */
  function LineAt(lines: seq<string>, r: int): Result<string, string> {
    if 0 <= r < |lines| then Ok(lines[r])
    else if -|lines| <= r < 0 then Ok(lines[|lines| + r])
    else Err("IndexError")
  }

  /** The position right after `text` when it starts at `p`: on the same row
      when `text` holds no separator, on a later row otherwise. */
  function After(ctx: EditContext, p: Pos, text: string): Pos {
    var parts := SplitLf(ctx, text);
    if |parts| == 1 then Pos(p.row, p.col + Utf8Len(text))
    else Pos(p.row + |parts| - 1, Utf8Len(parts[|parts| - 1]))
  }

  /** The end column of a contextual edit as coq/server/edit.py:135-139
      computes it: the prefix's line count decides whether the suffix is
      measured from the cursor. */
  function SuffixEndColAsWritten(ctx: EditContext, e: ContextualEdit): int {
    var oldPrefixLines, oldSuffixLines := SplitLf(ctx, e.oldPrefix), SplitLf(ctx, e.oldSuffix);
    if |oldPrefixLines| > 1 then Utf8Len(oldSuffixLines[|oldSuffixLines| - 1])
    else ctx.col + Utf8Len(oldSuffixLines[0])
  }

  /** The end column of a contextual edit: the suffix's own line count
      decides whether it is measured from the cursor. */
  function SuffixEndCol(ctx: EditContext, e: ContextualEdit): int {
    var oldSuffixLines := SplitLf(ctx, e.oldSuffix);
    if |oldSuffixLines| > 1 then Utf8Len(oldSuffixLines[|oldSuffixLines| - 1])
    else ctx.col + Utf8Len(oldSuffixLines[0])
  }

  /** `_contextual_edit_trans` with the end column given: the instruction
      replaces the old prefix before the cursor and the old suffix after it
      by the new text. The start row of a prefix spanning several lines is
      read from `lines`. */
  function ContextualInstruction(ctx: EditContext, lines: seq<string>, e: ContextualEdit, endCol: int)
    : Result<EditInstruction, string>
  {
    var oldPrefixLines, oldSuffixLines := SplitLf(ctx, e.oldPrefix), SplitLf(ctx, e.oldSuffix);
    var r1 := ctx.row - (|oldPrefixLines| - 1);
    var r2 := ctx.row + (|oldSuffixLines| - 1);
    var first := if |oldPrefixLines| > 1 then LineAt(lines, r1) else Ok("");
    if first.Err? then Err(first.error)
    else
      var c1 := if |oldPrefixLines| > 1 then Utf8Len(first.value) - Utf8Len(oldPrefixLines[0])
                else ctx.col - Utf8Len(oldPrefixLines[0]);
      var newPrefixLines := SplitLf(ctx, e.newPrefix);
      var xpos := if |newPrefixLines| > 1 then Utf8Len(newPrefixLines[|newPrefixLines| - 1])
                  else Utf8Len(ctx.lineBefore) - Utf8Len(oldPrefixLines[|oldPrefixLines| - 1])
                       + Utf8Len(newPrefixLines[0]);
      Ok(EditInstruction(true, Pos(r1, c1), Pos(r2, endCol), |newPrefixLines| - |oldPrefixLines|, xpos,
                         SplitLf(ctx, e.newText)))
  }

  /** `_contextual_edit_trans` as coq/server/edit.py:120-163 writes it. */
  function ContextualEditTransAsWritten(ctx: EditContext, lines: seq<string>, e: ContextualEdit)
    : Result<EditInstruction, string>
  {
    ContextualInstruction(ctx, lines, e, SuffixEndColAsWritten(ctx, e))
  }

  /** `_contextual_edit_trans` with the end column measured as the old
      suffix demands. */
  function ContextualEditTrans(ctx: EditContext, lines: seq<string>, e: ContextualEdit)
    : (r: Result<EditInstruction, string>)
    ensures var oldPrefixLines := SplitLf(ctx, e.oldPrefix);
      r.Ok? <==> |oldPrefixLines| <= 1 || -|lines| <= ctx.row - (|oldPrefixLines| - 1) < |lines|
    ensures r.Ok? ==>
      var oldPrefixLines, oldSuffixLines := SplitLf(ctx, e.oldPrefix), SplitLf(ctx, e.oldSuffix);
      && r.value.primary
      && r.value.begin.row == ctx.row - (|oldPrefixLines| - 1)
      && r.value.end.row == ctx.row + (|oldSuffixLines| - 1)
      && r.value.cursorYoffset == |SplitLf(ctx, e.newPrefix)| - |oldPrefixLines|
      && r.value.newLines == SplitLf(ctx, e.newText)
    ensures r.Ok? && |SplitLf(ctx, e.oldPrefix)| == 1 ==>
      r.value.begin == Pos(ctx.row, ctx.col - Utf8Len(e.oldPrefix))
    ensures r.Ok? && |SplitLf(ctx, e.oldPrefix)| > 1 ==>
      r.value.begin.col == Utf8Len(LineAt(lines, r.value.begin.row).value) - Utf8Len(SplitLf(ctx, e.oldPrefix)[0])
    ensures r.Ok? ==>
      var oldPrefixLines, newPrefixLines := SplitLf(ctx, e.oldPrefix), SplitLf(ctx, e.newPrefix);
      r.value.cursorXpos == if |newPrefixLines| > 1 then Utf8Len(newPrefixLines[|newPrefixLines| - 1])
                            else Utf8Len(ctx.lineBefore) - Utf8Len(oldPrefixLines[|oldPrefixLines| - 1])
                                 + Utf8Len(newPrefixLines[0])
  {
    JoinSplit(e.oldPrefix, LinefeedText(ctx.linefeed));
    ContextualInstruction(ctx, lines, e, SuffixEndCol(ctx, e))
  }

  /** The instruction ends right after the old suffix: at the cursor plus
      the suffix when it is one line, at the end of its last line on a later
      row otherwise. */
  lemma ContextualEndsAfterSuffix(ctx: EditContext, lines: seq<string>, e: ContextualEdit)
    requires ContextualEditTrans(ctx, lines, e).Ok?
    ensures ContextualEditTrans(ctx, lines, e).value.end == After(ctx, Pos(ctx.row, ctx.col), e.oldSuffix)
  {
    var parts := SplitLf(ctx, e.oldSuffix);
    if |parts| == 1 {
      JoinSplit(e.oldSuffix, LinefeedText(ctx.linefeed));
      assert Join(parts, LinefeedText(ctx.linefeed)) == parts[0];
    }
  }

  /** When the old prefix spans lines and its first line ends the row it
      starts on, the instruction begins where that line starts. */
  lemma ContextualBeginsAtPrefixStart(ctx: EditContext, lines: seq<string>, e: ContextualEdit, keep: string)
    requires ContextualEditTrans(ctx, lines, e).Ok? && |SplitLf(ctx, e.oldPrefix)| > 1
    requires LineAt(lines, ctx.row - (|SplitLf(ctx, e.oldPrefix)| - 1)) == Ok(keep + SplitLf(ctx, e.oldPrefix)[0])
    ensures ContextualEditTrans(ctx, lines, e).value.begin
         == Pos(ctx.row - (|SplitLf(ctx, e.oldPrefix)| - 1), Utf8Len(keep))
  {
    Utf8LenAppend(keep, SplitLf(ctx, e.oldPrefix)[0]);
  }

  /** With one-line prefixes, when the text before the cursor ends with the
      old prefix the cursor lands right after the new prefix put in its
      place. */
  lemma ContextualCursorAfterNewPrefix(ctx: EditContext, lines: seq<string>, e: ContextualEdit, keep: string)
    requires ContextualEditTrans(ctx, lines, e).Ok?
    requires |SplitLf(ctx, e.oldPrefix)| == 1 && |SplitLf(ctx, e.newPrefix)| == 1
    requires ctx.lineBefore == keep + e.oldPrefix
    ensures ContextualEditTrans(ctx, lines, e).value.cursorXpos == Utf8Len(keep + e.newPrefix)
  {
    var sep := LinefeedText(ctx.linefeed);
    JoinSplit(e.oldPrefix, sep);
    JoinSplit(e.newPrefix, sep);
    assert Join(SplitLf(ctx, e.oldPrefix), sep) == SplitLf(ctx, e.oldPrefix)[0];
    assert Join(SplitLf(ctx, e.newPrefix), sep) == SplitLf(ctx, e.newPrefix)[0];
    Utf8LenAppend(keep, e.oldPrefix);
    Utf8LenAppend(keep, e.newPrefix);
  }

  /** With an old prefix over two lines and the default empty old suffix,
      the instruction as written ends at column 0 of the cursor row, short
      of the cursor, so the part of the old prefix on the cursor row is
      kept. */
  lemma ContextualAsWrittenEndsShort()
    ensures var ctx := EditContext(1, 1, LF, "b");
      var e := MkContextualEdit("xy", "a\nb", "xy");
      && ContextualEditTransAsWritten(ctx, ["a", "b"], e).Ok?
      && ContextualEditTransAsWritten(ctx, ["a", "b"], e).value.end == Pos(1, 0)
      && After(ctx, Pos(1, 1), e.oldSuffix) == Pos(1, 1)
      && ContextualEditTrans(ctx, ["a", "b"], e).value.end == Pos(1, 1)
  {
    var ctx := EditContext(1, 1, LF, "b");
    var e := MkContextualEdit("xy", "a\nb", "xy");
    SplitTwoLines();
    assert Split("", "\n") == [""];
    ContextualEndsAfterSuffix(ctx, ["a", "b"], e);
  }

  lemma SplitTwoLines()
    ensures Split("a\nb", "\n") == ["a", "b"]
  {
    var nl, ab, b := "\n", "a\nb", "b";
    assert Split("", nl) == [""];
    assert b[..|nl|][0] != nl[0] && b[1..] == "";
    var t := Split(b[1..], nl);
    assert t == [""];
    assert Split(b, nl) == [[b[0]] + t[0]] + t[1..];
    assert [b[0]] + t[0] == b && t[1..] == [];
    var nb := ab[1..];
    assert nb[..|nl|] == nl && nb[1..] == b;
    assert Split(nb, nl) == [""] + Split(b, nl);
    assert ab[..|nl|][0] != nl[0];
    var u := Split(nb, nl);
    assert u == ["", "b"];
    assert Split(ab, nl) == [[ab[0]] + u[0]] + u[1..];
    assert [ab[0]] + u[0] == "a" && u[1..] == ["b"];
  }

  // ---------------------------------------------------------------------------
  // _range_edit_trans

  /** `len(b_lines8[r][:ec])` or `len(encode(decode(b_lines16[r][:ec * 2])))`:
      the UTF-8 column of code-unit column `ec` of a line; any other
      encoding raises. */
  function ByteCol(line: string, ec: int, enc: Encoding): (r: Result<int, string>)
    ensures r.Err? <==> enc == UTF32
  {
    match enc
    case UTF8 => Ok(SliceLen(Utf8Len(line), ec))
    case UTF16 => Ok(Utf8OfUtf16Prefix(line, SliceLen(Utf16Len(line), ec)))
    case UTF32 => Err("ValueError")
  }

  /** The length of `s` in the code units of an offset encoding. */
  function CodeUnits(s: string, enc: Encoding): nat {
    match enc
    case UTF8 => Utf8Len(s)
    case UTF16 => Utf16Len(s)
    case UTF32 => |s|
  }

  /** The column of a character boundary, in UTF-8 bytes or in UTF-16
      units, designates the same byte column: the UTF-8 length of the
      characters before it. */
  lemma ByteColAtBoundary(line: string, k: nat, enc: Encoding)
    requires k <= |line| && enc != UTF32
    ensures ByteCol(line, CodeUnits(line[..k], enc), enc) == Ok(Utf8Len(line[..k]))
  {
    PrefixLens(line, k);
    if enc == UTF16 {
      Utf8OfUtf16Boundary(line, k);
    }
  }

  /** On an ASCII line a column in either encoding is a character column,
      sliced as Python slices the line. */
  lemma ByteColAscii(line: string, ec: int, enc: Encoding)
    requires Ascii(line) && enc != UTF32
    ensures ByteCol(line, ec, enc) == Ok(SliceLen(|line|, ec))
  {
    AsciiLens(line);
    if enc == UTF16 {
      AsciiUtf16Prefix(line, SliceLen(|line|, ec));
    }
  }

  /** The earlier and the later end of a range edit. */
  function RangeLo(e: RangedEdit): Pos {
    if PosLe(e.begin, e.end) then e.begin else e.end
  }

  function RangeHi(e: RangedEdit): Pos {
    if PosLe(e.begin, e.end) then e.end else e.begin
  }

  /** `lines_before`: the new prefix's lines for a parsed snippet, the new
      text's lines otherwise. */
  function LinesBefore(ctx: EditContext, e: RangedEdit): (parts: seq<string>)
    ensures |parts| >= 1
  {
    if e.Parsed? then SplitLf(ctx, e.newPrefix) else SplitLf(ctx, e.newText)
  }

  /** A primary, unparsed, one-line insertion at a point is handed to
      `_edit_trans`. */
  predicate Delegated(ctx: EditContext, primary: bool, e: RangedEdit) {
    primary && !e.Parsed? && |SplitLf(ctx, e.newText)| <= 1 && e.begin == e.end
  }

  /** What `_range_edit_trans` makes of a range edit it converts itself:
      the ends are sorted and their columns converted to byte columns of
      the lines they lie on, the rows the cursor moves are the rows the
      range spans plus the lines of the text before the cursor, and the
      cursor lands after that text (no cursor column for a secondary
      edit). */
  predicate RangeConverted(ctx: EditContext, primary: bool, lines: seq<string>, e: RangedEdit,
                           inst: EditInstruction) {
    && e.encoding != UTF32 && LineAt(lines, RangeLo(e).row).Ok? && LineAt(lines, RangeHi(e).row).Ok?
    && var lo, hi, before := RangeLo(e), RangeHi(e), LinesBefore(ctx, e);
       var line1, line2 := LineAt(lines, lo.row).value, LineAt(lines, hi.row).value;
       && inst.primary == primary
       && inst.begin == Pos(lo.row, ByteCol(line1, lo.col, e.encoding).value)
       && inst.end == Pos(hi.row, ByteCol(line2, hi.col, e.encoding).value)
       && inst.begin.row <= inst.end.row
       && inst.newLines == SplitLf(ctx, e.newText)
       && inst.cursorYoffset == (hi.row - lo.row) + (|SplitLines(Join(before, ""))| - 1)
       && inst.cursorXpos == if !primary then -1
                             else if |before| > 1 then Utf8Len(before[|before| - 1])
                             else SliceLen(Utf8Len(line2), inst.begin.col) + Utf8Len(before[0])
  }

  /** `_range_edit_trans`. `adjust` is `trans_adjusted` for the request's
      unifying characters, smartness and context (coq/shared/trans.py is not
      part of this model). Otherwise the ends are sorted and their columns
      converted to byte columns of the fetched lines; the call fails for an
      encoding other than UTF-8 or UTF-16 and for an end outside the lines. */
  function RangeEditTrans(ctx: EditContext, adjust: string -> ContextualEdit, primary: bool, lines: seq<string>,
                          e: RangedEdit): (r: Result<EditInstruction, string>)
    ensures Delegated(ctx, primary, e) ==> r == ContextualEditTrans(ctx, lines, adjust(e.newText))
    ensures !Delegated(ctx, primary, e) && e.encoding == UTF32 ==> r == Err("ValueError")
    ensures !Delegated(ctx, primary, e) ==>
      (r.Ok? <==> e.encoding != UTF32 && LineAt(lines, RangeLo(e).row).Ok? && LineAt(lines, RangeHi(e).row).Ok?)
    ensures !Delegated(ctx, primary, e) && r.Ok? ==> RangeConverted(ctx, primary, lines, e, r.value)
  {
    if Delegated(ctx, primary, e) then ContextualEditTrans(ctx, lines, adjust(e.newText))
    else if e.encoding == UTF32 then Err("ValueError")
    else
      var line1, line2 := LineAt(lines, RangeLo(e).row), LineAt(lines, RangeHi(e).row);
      if line1.Err? then Err(line1.error)
      else if line2.Err? then Err(line2.error)
      else Ok(RangeInstruction(ctx, primary, e, line1.value, line2.value))
  }

  /** The instruction of a range edit whose two end rows hold `line1` and
      `line2`. */
  function RangeInstruction(ctx: EditContext, primary: bool, e: RangedEdit, line1: string, line2: string)
    : EditInstruction
    requires e.encoding != UTF32
  {
    var lo, hi := RangeLo(e), RangeHi(e);
    var c1 := ByteCol(line1, lo.col, e.encoding).value;
    var before := LinesBefore(ctx, e);
    var xpos :=
      if !primary then -1
      else if |before| > 1 then Utf8Len(before[|before| - 1])
      else SliceLen(Utf8Len(line2), c1) + Utf8Len(before[0]);
    EditInstruction(primary, Pos(lo.row, c1), Pos(hi.row, ByteCol(line2, hi.col, e.encoding).value),
                    (hi.row - lo.row) + (|SplitLines(Join(before, ""))| - 1), xpos, SplitLf(ctx, e.newText))
  }

  /** A range edit whose earlier end sits on the boundary before the `k`-th
      character of its line begins at that character's byte column,
      whichever of the two encodings the column was given in. */
  lemma RangeBeginAtBoundary(ctx: EditContext, adjust: string -> ContextualEdit, primary: bool,
                             lines: seq<string>, e: RangedEdit, k: nat)
    requires !Delegated(ctx, primary, e) && RangeEditTrans(ctx, adjust, primary, lines, e).Ok?
    requires k <= |LineAt(lines, RangeLo(e).row).value|
    requires RangeLo(e).col == CodeUnits(LineAt(lines, RangeLo(e).row).value[..k], e.encoding)
    ensures RangeEditTrans(ctx, adjust, primary, lines, e).value.begin
         == Pos(RangeLo(e).row, Utf8Len(LineAt(lines, RangeLo(e).row).value[..k]))
  {
    ByteColAtBoundary(LineAt(lines, RangeLo(e).row).value, k, e.encoding);
  }

  /** For a primary edit whose text before the cursor is one line, the
      cursor lands right after that text, counted from the edit's begin
      column when that column lies within the end row's line. */
  lemma RangeCursorAfterText(ctx: EditContext, adjust: string -> ContextualEdit, lines: seq<string>, e: RangedEdit)
    requires !Delegated(ctx, true, e) && RangeEditTrans(ctx, adjust, true, lines, e).Ok?
    requires |LinesBefore(ctx, e)| == 1
    requires RangeEditTrans(ctx, adjust, true, lines, e).value.begin.col <= Utf8Len(LineAt(lines, RangeHi(e).row).value)
    ensures var inst := RangeEditTrans(ctx, adjust, true, lines, e).value;
      inst.cursorXpos == inst.begin.col + Utf8Len(Join(LinesBefore(ctx, e), ""))
  {
    assert Join(LinesBefore(ctx, e), "") == LinesBefore(ctx, e)[0];
  }

  // ---------------------------------------------------------------------------
  // _instructions

  /** The instruction of the primary edit: a range edit by `_range_edit_trans`,
      a contextual edit directly, any other edit through `trans_adjusted`. */
  function PrimaryInstruction(ctx: EditContext, adjust: string -> ContextualEdit, lines: seq<string>, primary: Edit)
    : (r: Result<EditInstruction, string>)
    ensures r.Ok? ==> r.value.primary
  {
    if primary.IsRange() then RangeEditTrans(ctx, adjust, true, lines, primary)
    else if primary.Contextual? then ContextualEditTrans(ctx, lines, primary)
    else ContextualEditTrans(ctx, lines, adjust(primary.newText))
  }

  /** The instructions of the secondary edits, in order; the first failure
      is the result. */
  function SecondaryInstructions(ctx: EditContext, adjust: string -> ContextualEdit, lines: seq<string>,
                                 secondary: seq<RangedEdit>): (r: Result<seq<EditInstruction>, string>)
    ensures r.Ok? <==> forall i :: 0 <= i < |secondary| ==> RangeEditTrans(ctx, adjust, false, lines, secondary[i]).Ok?
    ensures r.Ok? ==>
      && |r.value| == |secondary|
      && (forall i :: 0 <= i < |secondary| ==>
            r.value[i] == RangeEditTrans(ctx, adjust, false, lines, secondary[i]).value && !r.value[i].primary)
  {
    if |secondary| == 0 then Ok([])
    else
      var head := RangeEditTrans(ctx, adjust, false, lines, secondary[0]);
      assert head.Ok? ==> !head.value.primary;
      var rest := SecondaryInstructions(ctx, adjust, lines, secondary[1..]);
      assert forall i :: 1 <= i < |secondary| ==> secondary[i] == secondary[1..][i - 1];
      if head.Err? then Err(head.error)
      else if rest.Err? then Err(rest.error)
      else Ok([head.value] + rest.value)
  }

  /** `_instructions`: the primary edit's instruction, then one non-primary
      instruction per secondary edit, in order; exactly one is primary. */
  function Instructions(ctx: EditContext, adjust: string -> ContextualEdit, lines: seq<string>, primary: Edit,
                        secondary: seq<RangedEdit>): (r: Result<seq<EditInstruction>, string>)
    ensures r.Ok? <==> PrimaryInstruction(ctx, adjust, lines, primary).Ok?
                       && SecondaryInstructions(ctx, adjust, lines, secondary).Ok?
    ensures r.Ok? ==>
      && |r.value| == 1 + |secondary| && r.value[0].primary
      && (forall i :: 1 <= i < |r.value| ==> !r.value[i].primary)
  {
    var p := PrimaryInstruction(ctx, adjust, lines, primary);
    var s := SecondaryInstructions(ctx, adjust, lines, secondary);
    if p.Err? then Err(p.error)
    else if s.Err? then Err(s.error)
    else Ok([p.value] + s.value)
  }

  // ---------------------------------------------------------------------------
  // _consolidate

  /** The sort key `(i.begin, i.end)` compared as Python tuples. */
  predicate KeyLe(a: EditInstruction, b: EditInstruction) {
    PosLt(a.begin, b.begin) || (a.begin == b.begin && PosLe(a.end, b.end))
  }

  lemma KeyLeTotal()
    ensures TotalPreorder(KeyLe)
  {
  }

  /** An instruction whose begin does not come after its end. */
  predicate WellFormed(i: EditInstruction) {
    PosLe(i.begin, i.end)
  }

  /** Each instruction of the stack ends at or before the next one begins. */
  predicate Chain(s: seq<EditInstruction>) {
    forall i :: 0 <= i < |s| - 1 ==> PosLe(s[i].end, s[i + 1].begin)
  }

  /** The loop state of `_consolidate`. */
  datatype Scan = Scan(stack: seq<EditInstruction>, pivot: Pos)

  /** The `while stack` loop as coq/server/edit.py:297-300 writes it: the
      instruction that no longer conflicts is popped too before the break. */
  function PopConflictsAsWritten(stack: seq<EditInstruction>, begin: Pos): (r: seq<EditInstruction>)
    ensures |r| < |stack| || |stack| == 0
    decreases |stack|
  {
    if |stack| == 0 then []
    else if PosLe(stack[|stack| - 1].end, begin) then stack[..|stack| - 1]
    else PopConflictsAsWritten(stack[..|stack| - 1], begin)
  }

  /** The `while stack` loop with the instruction that no longer conflicts
      put back: every instruction ending after `begin` is popped from the
      top. */
  function PopConflicts(stack: seq<EditInstruction>, begin: Pos): (r: seq<EditInstruction>)
    ensures r <= stack
    ensures |r| > 0 ==> PosLe(r[|r| - 1].end, begin)
    ensures forall j :: |r| <= j < |stack| ==> !PosLe(stack[j].end, begin)
    decreases |stack|
  {
    if |stack| == 0 then []
    else if PosLe(stack[|stack| - 1].end, begin) then stack
    else PopConflicts(stack[..|stack| - 1], begin)
  }

  /** One pass of the loop: an instruction at or after the pivot is pushed;
      a primary one before the pivot first pops what it conflicts with; any
      other one is dropped. */
  function Step(s: Scan, e: EditInstruction, asWritten: bool): Scan {
    if PosLe(s.pivot, e.begin) then Scan(s.stack + [e], e.end)
    else if e.primary then
      Scan((if asWritten then PopConflictsAsWritten(s.stack, e.begin) else PopConflicts(s.stack, e.begin)) + [e], e.end)
    else s
  }

  /** The loop over the sorted instructions, from an empty stack and the
      pivot `(0, 0)`. */
  function Scanned(edits: seq<EditInstruction>, asWritten: bool): Scan
    decreases |edits|
  {
    if |edits| == 0 then Scan([], Pos(0, 0))
    else Step(Scanned(edits[..|edits| - 1], asWritten), edits[|edits| - 1], asWritten)
  }

  /** `_consolidate` as coq/server/edit.py:284-307 writes it. */
  function ConsolidateAsWritten(insts: seq<EditInstruction>): seq<EditInstruction> {
    Scanned(Sort(insts, KeyLe), true).stack
  }

  /** `_consolidate` with the non-conflicting instruction kept. */
  function ConsolidateSpec(insts: seq<EditInstruction>): seq<EditInstruction> {
    Scanned(Sort(insts, KeyLe), false).stack
  }

  /** Two instructions that do not overlap a later primary instruction, and
      the primary one inside the second. */
  const ExampleA := EditInstruction(false, Pos(0, 0), Pos(0, 1), 0, -1, [])
  const ExampleB := EditInstruction(false, Pos(0, 2), Pos(0, 5), 0, -1, [])
  const ExampleP := EditInstruction(true, Pos(0, 3), Pos(0, 4), 0, 1, [])

  lemma ExampleSorted()
    ensures Sort([ExampleA, ExampleB, ExampleP], KeyLe) == [ExampleA, ExampleB, ExampleP]
  {
    var a, b, p := ExampleA, ExampleB, ExampleP;
    assert KeyLe(a, b) && KeyLe(b, p);
    assert Sort([p], KeyLe) == [p];
    assert [b, p][1..] == [p];
    assert Sort([b, p], KeyLe) == Insert(b, [p], KeyLe) == [b, p];
    assert [a, b, p][1..] == [b, p];
    assert Sort([a, b, p], KeyLe) == Insert(a, [b, p], KeyLe);
  }

  lemma ExampleScanned(asWritten: bool)
    ensures Scanned([ExampleA, ExampleB], asWritten) == Scan([ExampleA, ExampleB], ExampleB.end)
  {
    var a, b := ExampleA, ExampleB;
    assert [a, b][..1] == [a] && [a][..0] == [];
    assert Scanned([a], asWritten) == Step(Scan([], Pos(0, 0)), a, asWritten) == Scan([a], a.end);
  }

  /** As written, the first instruction is lost although it ends before
      the primary one begins. */
  lemma ConsolidateAsWrittenDropsDisjoint()
    ensures PosLe(ExampleA.end, ExampleP.begin)
    ensures ConsolidateAsWritten([ExampleA, ExampleB, ExampleP]) == [ExampleP]
  {
    var a, b, p := ExampleA, ExampleB, ExampleP;
    var edits := [a, b, p];
    ExampleSorted();
    assert edits[..2] == [a, b];
    ExampleScanned(true);
    assert [a, b][..1] == [a] && [a][..0] == [];
    assert PopConflictsAsWritten([a, b], p.begin) == PopConflictsAsWritten([a], p.begin) == [];
    assert Scanned(edits, true) == Step(Scan([a, b], b.end), p, true);
  }

  /** With the non-conflicting instruction put back, it is kept. */
  lemma ConsolidateKeepsDisjoint()
    ensures ConsolidateSpec([ExampleA, ExampleB, ExampleP]) == [ExampleA, ExampleP]
  {
    var a, b, p := ExampleA, ExampleB, ExampleP;
    var edits := [a, b, p];
    ExampleSorted();
    assert edits[..2] == [a, b];
    ExampleScanned(false);
    assert [a, b][..1] == [a];
    assert PopConflicts([a, b], p.begin) == PopConflicts([a], p.begin) == [a];
    assert Scanned(edits, false) == Step(Scan([a, b], b.end), p, false);
  }

  /** On a chained stack of well-formed instructions, the corrected pop
      keeps exactly the instructions that end at or before the primary
      instruction's begin. */
  lemma PopKeepsDisjoint(stack: seq<EditInstruction>, begin: Pos)
    requires Chain(stack) && forall i :: 0 <= i < |stack| ==> WellFormed(stack[i])
    ensures var r := PopConflicts(stack, begin);
      forall j :: 0 <= j < |stack| ==> (j < |r| <==> PosLe(stack[j].end, begin))
  {
    var r := PopConflicts(stack, begin);
    forall j | 0 <= j < |r|
      ensures PosLe(stack[j].end, begin)
    {
      ChainEnds(stack, j, |r| - 1);
    }
  }

  /** Along a chain of well-formed instructions, ends do not decrease. */
  lemma {:induction false} ChainEnds(s: seq<EditInstruction>, i: nat, j: nat)
    requires Chain(s) && forall k :: 0 <= k < |s| ==> WellFormed(s[k])
    requires i <= j < |s|
    ensures PosLe(s[i].end, s[j].end)
    decreases j - i
  {
    if i < j {
      ChainEnds(s, i + 1, j);
      assert PosLe(s[i].end, s[i + 1].begin);
      assert WellFormed(s[i + 1]);
    }
  }

  /** A loop state whose stack is chained and made of well-formed
      instructions, with the pivot at the end of its top instruction (or
      `(0, 0)` before anything is pushed). */
  predicate ChainedScan(s: Scan) {
    && Chain(s.stack)
    && (forall i :: 0 <= i < |s.stack| ==> WellFormed(s.stack[i]))
    && (|s.stack| == 0 ==> s.pivot == Pos(0, 0))
    && (|s.stack| > 0 ==> s.pivot == s.stack[|s.stack| - 1].end)
  }

  /** One pass of the corrected loop keeps its state chained. */
  lemma StepChained(s: Scan, e: EditInstruction)
    requires ChainedScan(s) && WellFormed(e)
    ensures ChainedScan(Step(s, e, false))
  {
    if !PosLe(s.pivot, e.begin) && e.primary {
      var kept := PopConflicts(s.stack, e.begin);
      assert forall i :: 0 <= i < |kept| ==> kept[i] == s.stack[i];
    }
  }

  /** The corrected loop keeps its stack chained. */
  lemma {:induction false} ScannedChain(edits: seq<EditInstruction>)
    requires forall i :: 0 <= i < |edits| ==> WellFormed(edits[i])
    ensures ChainedScan(Scanned(edits, false))
    decreases |edits|
  {
    if |edits| > 0 {
      var init := edits[..|edits| - 1];
      assert forall i :: 0 <= i < |init| ==> init[i] == edits[i];
      ScannedChain(init);
      StepChained(Scanned(init, false), edits[|edits| - 1]);
    }
  }

  /** Every instruction kept is one of the inputs. */
  lemma {:induction false} ScannedFromInput(edits: seq<EditInstruction>)
    ensures forall x :: x in Scanned(edits, false).stack ==> x in edits
    decreases |edits|
  {
    if |edits| > 0 {
      var init := edits[..|edits| - 1];
      ScannedFromInput(init);
      var s := Scanned(init, false);
      var e := edits[|edits| - 1];
      if !PosLe(s.pivot, e.begin) && e.primary {
        var kept := PopConflicts(s.stack, e.begin);
        assert forall x :: x in kept ==> x in s.stack;
      }
      assert forall x :: x in init ==> x in edits;
    }
  }

  /** Once the last primary instruction is pushed, later (non-primary)
      instructions only push or are dropped, so it stays. */
  lemma {:induction false} ScannedKeepsLastPrimary(edits: seq<EditInstruction>, p: nat)
    requires p < |edits| && edits[p].primary
    requires forall j :: p < j < |edits| ==> !edits[j].primary
    ensures edits[p] in Scanned(edits, false).stack
    decreases |edits|
  {
    var init := edits[..|edits| - 1];
    var s := Scanned(init, false);
    var e := edits[|edits| - 1];
    if p < |edits| - 1 {
      ScannedKeepsLastPrimary(init, p);
      assert !e.primary;
      assert edits[p] in s.stack;
    }
  }

  /** The first primary instruction of a sequence, or its length when there
      is none. */
  function FirstPrimary(insts: seq<EditInstruction>): (p: nat)
    ensures p <= |insts|
    ensures forall i :: 0 <= i < p ==> !insts[i].primary
    ensures p < |insts| ==> insts[p].primary
  {
    if |insts| == 0 then 0
    else if insts[0].primary then 0
    else
      var p := FirstPrimary(insts[1..]);
      assert forall i :: 1 <= i < |insts| ==> insts[i] == insts[1..][i - 1];
      1 + p
  }

  function LastPrimary(insts: seq<EditInstruction>): (p: nat)
    requires exists i :: 0 <= i < |insts| && insts[i].primary
    ensures p < |insts| && insts[p].primary
    ensures forall j :: p < j < |insts| ==> !insts[j].primary
  {
    if insts[|insts| - 1].primary then |insts| - 1
    else
      var init := insts[..|insts| - 1];
      var i :| 0 <= i < |insts| && insts[i].primary;
      assert init[i] == insts[i];
      LastPrimary(init)
  }

  /** Sorting keeps the same instructions. */
  lemma SortSameMembers(insts: seq<EditInstruction>)
    ensures forall x :: x in Sort(insts, KeyLe) <==> x in insts
  {
    var edits := Sort(insts, KeyLe);
    assert forall x :: x in edits <==> x in multiset(edits);
    assert forall x :: x in insts <==> x in multiset(insts);
  }

  /** `_consolidate` (of instructions that each begin no later than they
      end): the kept instructions are inputs, and each ends at or before the
      next begins, so they are in `(begin, end)` order. */
  lemma ConsolidateOrdered(insts: seq<EditInstruction>)
    requires forall i :: 0 <= i < |insts| ==> WellFormed(insts[i])
    ensures Chain(ConsolidateSpec(insts))
    ensures SortedBy(ConsolidateSpec(insts), KeyLe)
    ensures forall x :: x in ConsolidateSpec(insts) ==> x in insts
  {
    var edits := Sort(insts, KeyLe);
    SortSameMembers(insts);
    forall i | 0 <= i < |edits| ensures WellFormed(edits[i]) {
      assert edits[i] in insts;
    }
    ScannedChain(edits);
    ScannedFromInput(edits);
    var r := ConsolidateSpec(insts);
    assert r == Scanned(edits, false).stack;
    forall i, j | 0 <= i < j < |r| ensures KeyLe(r[i], r[j]) {
      ChainEnds(r, i, j - 1);
      assert PosLe(r[j - 1].end, r[j].begin);
      assert WellFormed(r[i]) && WellFormed(r[j]);
    }
  }

  /** When every primary input is the same instruction, `_consolidate`
      keeps it, so the result still has a primary instruction. */
  lemma ConsolidateKeepsPrimary(insts: seq<EditInstruction>, x: EditInstruction)
    requires x in insts && x.primary
    requires forall y :: y in insts && y.primary ==> y == x
    ensures x in ConsolidateSpec(insts)
    ensures FirstPrimary(ConsolidateSpec(insts)) < |ConsolidateSpec(insts)|
  {
    var edits := Sort(insts, KeyLe);
    SortSameMembers(insts);
    var r := ConsolidateSpec(insts);
    var k :| 0 <= k < |edits| && edits[k] == x;
    var p := LastPrimary(edits);
    assert edits[p] in insts;
    ScannedKeepsLastPrimary(edits, p);
    var m :| 0 <= m < |r| && r[m] == x;
  }

  /** `while stack: conflicting = stack.pop(); if conflicting.end <=
      edit.begin: break`, with the non-conflicting instruction put back. */
  method PopConflicting(stack0: seq<EditInstruction>, begin: Pos) returns (stack: seq<EditInstruction>)
    ensures stack == PopConflicts(stack0, begin)
  {
    stack := stack0;
    while |stack| > 0
      invariant PopConflicts(stack, begin) == PopConflicts(stack0, begin)
      decreases |stack|
    {
      var conflicting := stack[|stack| - 1];
      var rest := stack[..|stack| - 1];
      if PosLe(conflicting.end, begin) {
        assert rest + [conflicting] == stack;
        break;
      }
      stack := rest;
    }
  }

  /** `_consolidate`: the instructions sorted by `(begin, end)`, then kept
      on a stack against a pivot. */
  method Consolidate(insts: seq<EditInstruction>) returns (stack: seq<EditInstruction>)
    ensures stack == ConsolidateSpec(insts)
  {
    var edits := Sort(insts, KeyLe);
    var pivot := Pos(0, 0);
    stack := [];
    for i := 0 to |edits|
      invariant Scan(stack, pivot) == Scanned(edits[..i], false)
    {
      var e := edits[i];
      assert edits[..i + 1][..i] == edits[..i];
      if PosLe(pivot, e.begin) {
        stack := stack + [e];
        pivot := e.end;
      } else if e.primary {
        stack := PopConflicting(stack, e.begin);
        stack := stack + [e];
        pivot := e.end;
      }
    }
    assert edits[..|edits|] == edits;
  }

  // ---------------------------------------------------------------------------
  // _shift, _shift_marks and _cursor

  /** The sum of the `cursor_yoffset` of the instructions. */
  function Yoffsets(insts: seq<EditInstruction>): int
    decreases |insts|
  {
    if |insts| == 0 then 0 else Yoffsets(insts[..|insts| - 1]) + insts[|insts| - 1].cursorYoffset
  }

  /** The column shift an instruction leaves on its end row: the new text's
      last line replaces what the instruction removed from that row. */
  function ColShift(inst: EditInstruction): int {
    var fLength := if |inst.newLines| > 0 then Utf8Len(inst.newLines[|inst.newLines| - 1]) else 0;
    if inst.begin.row == inst.end.row then -(inst.end.col - inst.begin.col) + fLength
    else -inst.end.col + fLength
  }

  /** `cols_shift` after the instructions: per original end row, the column
      shift of the last instruction ending there. */
  function ColsAfter(insts: seq<EditInstruction>): map<int, int>
    decreases |insts|
  {
    if |insts| == 0 then map[]
    else
      var last := insts[|insts| - 1];
      ColsAfter(insts[..|insts| - 1])[last.end.row := ColShift(last)]
  }

  /** `cols_shift.get(row, 0)`. */
  function ColsGet(cols: map<int, int>, row: int): int {
    if row in cols then cols[row] else 0
  }

  /** `m_shift.row`: the row shift in force at the last primary
      instruction, 0 when there is none. */
  function MarkRow(insts: seq<EditInstruction>): int
    decreases |insts|
  {
    if |insts| == 0 then 0
    else if insts[|insts| - 1].primary then Yoffsets(insts[..|insts| - 1])
    else MarkRow(insts[..|insts| - 1])
  }

  /** The mark shift is the sum of the row offsets of the instructions
      before the primary one. */
  lemma {:induction false} MarkRowAtPrimary(insts: seq<EditInstruction>, p: nat)
    requires p < |insts| && insts[p].primary
    requires forall j :: p < j < |insts| ==> !insts[j].primary
    ensures MarkRow(insts) == Yoffsets(insts[..p])
    decreases |insts|
  {
    var init := insts[..|insts| - 1];
    if p < |insts| - 1 {
      MarkRowAtPrimary(init, p);
      assert init[..p] == insts[..p];
    }
  }

  /** Without a primary instruction the marks do not move. */
  lemma {:induction false} MarkRowNoPrimary(insts: seq<EditInstruction>)
    requires forall j :: 0 <= j < |insts| ==> !insts[j].primary
    ensures MarkRow(insts) == 0
    decreases |insts|
  {
    if |insts| > 0 {
      MarkRowNoPrimary(insts[..|insts| - 1]);
    }
  }

  /** One more instruction extends the running sums of `_shift`. */
  lemma ShiftSums(insts: seq<EditInstruction>, i: nat)
    requires i < |insts|
    ensures Yoffsets(insts[..i + 1]) == Yoffsets(insts[..i]) + insts[i].cursorYoffset
    ensures ColsAfter(insts[..i + 1]) == ColsAfter(insts[..i])[insts[i].end.row := ColShift(insts[i])]
    ensures MarkRow(insts[..i + 1]) == if insts[i].primary then Yoffsets(insts[..i]) else MarkRow(insts[..i])
    ensures Shifted(insts[..i + 1]) == Shifted(insts[..i]) + [ShiftOne(insts[i], Yoffsets(insts[..i]), ColsAfter(insts[..i]))]
  {
    assert insts[..i + 1][..i] == insts[..i];
  }

  /** One instruction after `_shift`: its rows move by `rowShift`, each
      column by the shift recorded for its own row; its kind, cursor
      fields, new text and row span stay, and so does its width when it
      lies on one row. */
  function ShiftOne(inst: EditInstruction, rowShift: int, cols: map<int, int>): (r: EditInstruction)
    ensures r.primary == inst.primary && r.newLines == inst.newLines
    ensures r.cursorYoffset == inst.cursorYoffset && r.cursorXpos == inst.cursorXpos
    ensures r.end.row - r.begin.row == inst.end.row - inst.begin.row
    ensures inst.begin.row == inst.end.row ==> r.end.col - r.begin.col == inst.end.col - inst.begin.col
    ensures rowShift == 0 && cols == map[] ==> r == inst
  {
    inst.(begin := Pos(inst.begin.row + rowShift, inst.begin.col + ColsGet(cols, inst.begin.row)),
          end := Pos(inst.end.row + rowShift, inst.end.col + ColsGet(cols, inst.end.row)))
  }

  /** The instructions after `_shift`, each shifted by what the earlier
      ones leave behind. */
  function Shifted(insts: seq<EditInstruction>): (r: seq<EditInstruction>)
    ensures |r| == |insts|
    decreases |insts|
  {
    if |insts| == 0 then []
    else
      var init := insts[..|insts| - 1];
      Shifted(init) + [ShiftOne(insts[|insts| - 1], Yoffsets(init), ColsAfter(init))]
  }

  /** Instruction `i` moves by the row offsets of the instructions before
      it and by the column shift the last of them ending on its row left;
      the first instruction does not move. */
  lemma {:induction false} ShiftedAt(insts: seq<EditInstruction>, i: nat)
    requires i < |insts|
    ensures Shifted(insts)[i] == ShiftOne(insts[i], Yoffsets(insts[..i]), ColsAfter(insts[..i]))
    ensures i == 0 ==> Shifted(insts)[i] == insts[0]
    decreases |insts|
  {
    var init := insts[..|insts| - 1];
    if i < |insts| - 1 {
      ShiftedAt(init, i);
      assert init[..i] == insts[..i];
    }
  }

  /** `_shift`: the instructions shifted one after the other, and the mark
      shift, which is the row shift in force at the primary instruction. */
  method Shift(insts: seq<EditInstruction>) returns (out: seq<EditInstruction>, markRow: int)
    ensures out == Shifted(insts)
    ensures markRow == MarkRow(insts)
  {
    var rowShift := 0;
    var cols: map<int, int> := map[];
    markRow := 0;
    out := [];
    for i := 0 to |insts|
      invariant out == Shifted(insts[..i])
      invariant rowShift == Yoffsets(insts[..i]) && cols == ColsAfter(insts[..i]) && markRow == MarkRow(insts[..i])
    {
      var inst := insts[i];
      ShiftSums(insts, i);
      var newInst := ShiftOne(inst, rowShift, cols);
      if newInst.primary {
        markRow := rowShift;
      }
      rowShift := rowShift + inst.cursorYoffset;
      cols := cols[inst.end.row := ColShift(inst)];
      out := out + [newInst];
    }
    assert insts[..|insts|] == insts;
  }

  /** `_shift_marks`: every mark moves down by `row` rows; its index,
      columns and text stay. */
  function ShiftMarks(row: int, marks: seq<Mark>): (r: seq<Mark>)
    ensures |r| == |marks|
    ensures forall i :: 0 <= i < |marks| ==>
      && r[i].idx == marks[i].idx && r[i].text == marks[i].text
      && r[i].begin == Pos(marks[i].begin.row + row, marks[i].begin.col)
      && r[i].end == Pos(marks[i].end.row + row, marks[i].end.col)
  {
    if |marks| == 0 then []
    else
      var m := marks[0];
      assert forall i :: 1 <= i < |marks| ==> marks[i] == marks[1..][i - 1];
      [Mark(m.idx, Pos(m.begin.row + row, m.begin.col), Pos(m.end.row + row, m.end.col), m.text)]
      + ShiftMarks(row, marks[1..])
  }

  /** Shifting by 0 changes nothing, and two shifts are one shift by their
      sum. */
  lemma ShiftMarksCompose(a: int, b: int, marks: seq<Mark>)
    ensures ShiftMarks(0, marks) == marks
    ensures ShiftMarks(b, ShiftMarks(a, marks)) == ShiftMarks(a + b, marks)
  {
    var z := ShiftMarks(0, marks);
    assert forall i :: 0 <= i < |marks| ==> z[i] == marks[i];
    var l, r := ShiftMarks(b, ShiftMarks(a, marks)), ShiftMarks(a + b, marks);
    assert forall i :: 0 <= i < |marks| ==> l[i] == r[i];
  }

  /** Where `_cursor` stops: after the first primary instruction, or at the
      end when there is none. */
  function CursorStop(insts: seq<EditInstruction>): (stop: nat)
    ensures stop <= |insts|
  {
    var p := FirstPrimary(insts);
    if p < |insts| then p + 1 else |insts|
  }

  /** `_cursor`: the row moves by the row offsets of the instructions up to
      and including the first primary one, whose column becomes the
      cursor's; the assertion fails when no column was set. */
  method Cursor(cursor: Pos, insts: seq<EditInstruction>) returns (r: Result<Pos, string>)
    ensures var stop := CursorStop(insts);
      && (r.Ok? <==> stop > 0 && insts[stop - 1].cursorXpos != -1)
      && (r.Ok? ==> r.value == Pos(cursor.row + Yoffsets(insts[..stop]), insts[stop - 1].cursorXpos))
      && (r.Err? ==> r.error == "AssertionError")
  {
    var row := cursor.row;
    var col := -1;
    var i := 0;
    while i < |insts|
      invariant i <= |insts|
      invariant forall j :: 0 <= j < i ==> !insts[j].primary
      invariant row == cursor.row + Yoffsets(insts[..i])
      invariant col == if i == 0 then -1 else insts[i - 1].cursorXpos
    {
      assert insts[..i + 1][..i] == insts[..i];
      row := row + insts[i].cursorYoffset;
      col := insts[i].cursorXpos;
      i := i + 1;
      if insts[i - 1].primary {
        break;
      }
    }
    assert i == CursorStop(insts);
    if col == -1 {
      return Err("AssertionError");
    }
    return Ok(Pos(row, col));
  }
}
