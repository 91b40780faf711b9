/** Snippet mark navigation: listing the placeholder extmarks of a buffer in
    jump order, skipping the one the cursor already sits on, turning marks
    into edit instructions, and choosing between filling one mark and
    filling a group of linked marks. Reading and deleting extmarks, the
    prompt and the cursor moves are Neovim calls; their outcomes enter as
    parameters. */
module Marks {
  import opened Wrappers
  import opened Text
  import opened Seqs
  import opened SharedTypes
  import opened ServerEdit

  /** An extmark as the buffer reports it: its id (which encodes the
      placeholder index), its span and its metadata. */
  datatype ExtMark = ExtMark(idx: int, begin: Pos, end: Pos, meta: map<string, int>)

  /** The listing order `(idx == 0, idx, begin, end)`: placeholder 0, the
      final stop, sorts after every other index. */
  predicate KeyLe(a: ExtMark, b: ExtMark) {
    if (a.idx == 0) != (b.idx == 0) then a.idx != 0
    else if a.idx != b.idx then a.idx < b.idx
    else if a.begin != b.begin then PosLt(a.begin, b.begin)
    else PosLe(a.end, b.end)
  }

  lemma KeyLeTotal()
    ensures TotalPreorder(KeyLe)
  {
    forall a: ExtMark, b: ExtMark, c: ExtMark | KeyLe(a, b) && KeyLe(b, c)
      ensures KeyLe(a, c)
    {
    }
  }

  /** One listed mark: its index decoded and shifted down by one, its raw
      id kept in the metadata under `ogKey`. */
  function Listed(m: ExtMark, decode: int -> int, ogKey: string): (x: ExtMark)
    ensures x.begin == m.begin && x.end == m.end && ogKey in x.meta
  {
    m.(idx := decode(m.idx) - 1, meta := m.meta[ogKey := m.idx])
  }

  /** `_del_marks` sends a listed mark back under its raw id. */
  function Restored(x: ExtMark, ogKey: string): ExtMark {
    x.(idx := if ogKey in x.meta then x.meta[ogKey] else x.idx)
  }

  /** The raw mark a listed one came from, when `ogKey` was fresh. */
  function Original(x: ExtMark, ogKey: string): ExtMark {
    ExtMark(if ogKey in x.meta then x.meta[ogKey] else x.idx, x.begin, x.end, x.meta - {ogKey})
  }

  lemma OriginalListed(m: ExtMark, decode: int -> int, ogKey: string)
    requires ogKey !in m.meta
    ensures Original(Listed(m, decode, ogKey), ogKey) == m
    ensures Restored(Listed(m, decode, ogKey), ogKey).idx == m.idx
  {
    assert Listed(m, decode, ogKey).meta - {ogKey} == m.meta;
  }

  /** The generator inside `_ls_marks`: the marks that do not end before
      they begin, listed, in buffer order. */
  function Listing(raw: seq<ExtMark>, decode: int -> int, ogKey: string): (r: seq<ExtMark>)
    ensures |r| <= |raw|
    ensures forall i :: 0 <= i < |r| ==> PosLe(r[i].begin, r[i].end) && ogKey in r[i].meta
    decreases |raw|
  {
    if |raw| == 0 then []
    else
      var rest := Listing(raw[1..], decode, ogKey);
      if PosLe(raw[0].begin, raw[0].end) then [Listed(raw[0], decode, ogKey)] + rest else rest
  }

  /** A well-formed raw mark is listed. */
  lemma {:induction false} ListingHas(raw: seq<ExtMark>, decode: int -> int, ogKey: string, m: ExtMark)
    requires m in raw && PosLe(m.begin, m.end)
    ensures Listed(m, decode, ogKey) in Listing(raw, decode, ogKey)
    decreases |raw|
  {
    if m != raw[0] {
      assert m in raw[1..];
      ListingHas(raw[1..], decode, ogKey, m);
    }
  }

  /** A listed mark is a raw one, given back exactly by `Original` when the
      key was fresh. */
  lemma {:induction false} ListingFrom(raw: seq<ExtMark>, decode: int -> int, ogKey: string, x: ExtMark)
    requires forall m :: m in raw ==> ogKey !in m.meta
    requires x in Listing(raw, decode, ogKey)
    ensures Original(x, ogKey) in raw
    decreases |raw|
  {
    var rest := Listing(raw[1..], decode, ogKey);
    if x in rest {
      ListingFrom(raw[1..], decode, ogKey, x);
    } else {
      assert x == Listed(raw[0], decode, ogKey);
      OriginalListed(raw[0], decode, ogKey);
    }
  }

  /** `_ls_marks`: the listing in jump order. */
  function LsMarks(raw: seq<ExtMark>, decode: int -> int, ogKey: string): (r: seq<ExtMark>)
    ensures multiset(r) == multiset(Listing(raw, decode, ogKey))
  {
    Sort(Listing(raw, decode, ogKey), KeyLe)
  }

  /** The listing is in jump order, placeholder 0 comes last, and every
      listed mark spans a non-negative range. */
  lemma LsMarksOrdered(raw: seq<ExtMark>, decode: int -> int, ogKey: string)
    ensures SortedBy(LsMarks(raw, decode, ogKey), KeyLe)
    ensures var r := LsMarks(raw, decode, ogKey);
            forall i, j :: 0 <= i < j < |r| && r[i].idx == 0 ==> r[j].idx == 0
    ensures var r := LsMarks(raw, decode, ogKey);
            forall i :: 0 <= i < |r| ==> PosLe(r[i].begin, r[i].end)
  {
    var l := Listing(raw, decode, ogKey);
    var r := LsMarks(raw, decode, ogKey);
    KeyLeTotal();
    SortSorted(l, KeyLe);
    forall i | 0 <= i < |r| ensures PosLe(r[i].begin, r[i].end) {
      assert r[i] in multiset(l);
      var k :| 0 <= k < |l| && l[k] == r[i];
    }
  }

  /** The marks of the listing, with the raw mark each came from. */
  lemma LsMarksMembers(raw: seq<ExtMark>, decode: int -> int, ogKey: string)
    requires forall m :: m in raw ==> ogKey !in m.meta
    ensures forall m :: m in raw && PosLe(m.begin, m.end) ==> Listed(m, decode, ogKey) in LsMarks(raw, decode, ogKey)
    ensures forall x :: x in LsMarks(raw, decode, ogKey) ==> Original(x, ogKey) in raw
  {
    var l := Listing(raw, decode, ogKey);
    var r := LsMarks(raw, decode, ogKey);
    forall m | m in raw && PosLe(m.begin, m.end) ensures Listed(m, decode, ogKey) in r {
      ListingHas(raw, decode, ogKey, m);
      assert Listed(m, decode, ogKey) in multiset(l);
    }
    forall x | x in r ensures Original(x, ogKey) in raw {
      assert x in multiset(l);
      ListingFrom(raw, decode, ogKey, x);
    }
  }

  predicate ZeroWidthAt(m: ExtMark, cursor: Pos) {
    m.begin == cursor && m.end == cursor
  }

  /** `_marks`: the listing without its first mark when that one is empty
      and the cursor stands on it (that mark is deleted instead). */
  function MarksAt(listed: seq<ExtMark>, cursor: Pos): (r: seq<ExtMark>)
    ensures |listed| - 1 <= |r| <= |listed|
    ensures r == listed[|listed| - |r|..]
    ensures |r| < |listed| <==> |listed| > 0 && ZeroWidthAt(listed[0], cursor)
  {
    if |listed| > 0 && ZeroWidthAt(listed[0], cursor) then listed[1..] else listed
  }

  /** `_trans`: each mark's span is replaced by the lines of `newText`;
      none of these edits is primary or moves the cursor. */
  function MarkInstructions(newText: string, marks: seq<ExtMark>): (r: seq<EditInstruction>)
    ensures |r| == |marks|
    ensures forall i :: 0 <= i < |r| ==>
              && !r[i].primary && r[i].begin == marks[i].begin && r[i].end == marks[i].end
              && r[i].cursorYoffset == 0 && r[i].cursorXpos == -1
              && r[i].newLines == SplitLines(newText)
    decreases |marks|
  {
    if |marks| == 0 then []
    else
      var m := marks[|marks| - 1];
      MarkInstructions(newText, marks[..|marks| - 1])
        + [EditInstruction(false, m.begin, m.end, 0, -1, SplitLines(newText))]
  }

  /** Instructions for a concatenation of marks are the instructions of
      each part, in order. */
  lemma MarkInstructionsAppend(newText: string, a: seq<ExtMark>, b: seq<ExtMark>)
    ensures MarkInstructions(newText, a + b) == MarkInstructions(newText, a) + MarkInstructions(newText, b)
  {
    var l, r := MarkInstructions(newText, a + b), MarkInstructions(newText, a) + MarkInstructions(newText, b);
    assert |l| == |r|;
    forall i | 0 <= i < |l| ensures l[i] == r[i] {
      if i < |a| {
        assert (a + b)[i] == a[i];
      } else {
        assert (a + b)[i] == b[i - |a|];
      }
    }
  }

  /** The marks after the first that share its placeholder index. */
  function LinkedOf(marks: seq<ExtMark>): (r: seq<ExtMark>)
    requires |marks| > 0
  {
    Filter(marks[1..], (m: ExtMark) => m.idx == marks[0].idx)
  }

  lemma LinkedOfMembers(marks: seq<ExtMark>)
    requires |marks| > 0
    ensures forall m :: m in LinkedOf(marks) <==> m in marks[1..] && m.idx == marks[0].idx
  {
    FilterMembers(marks[1..], (m: ExtMark) => m.idx == marks[0].idx);
  }

  /** What `nav_mark` does to the buffer and the editor state. */
  datatype NavOutcome =
    | NoMarks
      /** The linked marks were all filled with the answer to the prompt. */
    | LinkedFilled(instructions: seq<EditInstruction>, deleted: seq<ExtMark>, cursor: Pos, inserted: Pos)
      /** The first mark was emptied for typing; `marksLeft` stop after it. */
    | SingleFilled(instructions: seq<EditInstruction>, deleted: seq<ExtMark>, cursor: Pos, inserted: Pos,
                   marksLeft: nat)
      /** Emptying the first mark failed; it is deleted all the same. */
    | SingleFailed(deleted: seq<ExtMark>)

  /** `nav_mark` over the marks `_marks` yields. `answer` is the reply to
      the prompt for the linked marks (None when it is cancelled) and
      `applied` whether emptying a single mark succeeded. With linked marks
      and an answer, all of them are replaced by the answer and the cursor
      goes to the first, the inserted position one column before it;
      otherwise the first mark alone is emptied. */
  function NavMark(marks: seq<ExtMark>, answer: Option<string>, applied: bool): (r: NavOutcome)
    ensures r.NoMarks? <==> |marks| == 0
    ensures r.LinkedFilled? <==> |marks| > 0 && |LinkedOf(marks)| > 0 && answer.Some?
    ensures r.LinkedFilled? ==>
              && r.deleted == [marks[0]] + LinkedOf(marks)
              && r.instructions == MarkInstructions(answer.value, r.deleted)
              && r.cursor == marks[0].begin && r.inserted == Pos(marks[0].begin.row, marks[0].begin.col - 1)
    ensures r.SingleFilled? || r.SingleFailed? ==> r.deleted == [marks[0]]
    ensures r.SingleFilled? ==>
              && r.instructions == MarkInstructions("", [marks[0]])
              && r.cursor == marks[0].begin && r.inserted == marks[0].begin && r.marksLeft == |marks| - 1
    ensures r.SingleFailed? <==> |marks| > 0 && (|LinkedOf(marks)| == 0 || answer.None?) && !applied
  {
    if |marks| == 0 then NoMarks
    else
      var mark := marks[0];
      var linked := LinkedOf(marks);
      if |linked| > 0 && answer.Some? then
        var group := [mark] + linked;
        LinkedFilled(MarkInstructions(answer.value, group), group, mark.begin,
                     Pos(mark.begin.row, mark.begin.col - 1))
      else if applied then
        SingleFilled(MarkInstructions("", [mark]), [mark], mark.begin, mark.begin, |marks| - 1)
      else SingleFailed([mark])
  }

  /** Every mark `nav_mark` deletes shares the first mark's index, every
      edit it applies covers exactly one deleted mark, and an emptied mark
      is replaced by nothing. */
  lemma NavMarkDeletesWhatItEdits(marks: seq<ExtMark>, answer: Option<string>, applied: bool)
    ensures var r := NavMark(marks, answer, applied);
            !r.NoMarks? ==> forall m :: m in r.deleted ==> m.idx == marks[0].idx
    ensures var r := NavMark(marks, answer, applied);
            r.LinkedFilled? || r.SingleFilled? ==>
              && |r.instructions| == |r.deleted|
              && forall i :: 0 <= i < |r.deleted| ==>
                   r.instructions[i].begin == r.deleted[i].begin && r.instructions[i].end == r.deleted[i].end
    ensures var r := NavMark(marks, answer, applied);
            r.SingleFilled? ==> r.instructions[0].newLines == []
  {
    if |marks| > 0 {
      LinkedOfMembers(marks);
    }
  }
}
