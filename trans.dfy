/** The completion menu pass of coq/server/trans.py: ranked metrics are
    pruned of duplicate texts and capped, the widest label decides the
    column layout, and each metric becomes a Vim completion item.

    The ranking key (`_cum`, `_sort_by`: float weights and locale
    collation) is a parameter `le`, a total preorder on metrics. Display
    widths are the metric's own `labelWidth` and `kindWidth`. */
module ServerTrans {
  import opened Text
  import opened Seqs
  import opened SharedTypes

  /** A completion with the display widths of its label and kind. */
  datatype Metric = Metric(comp: Completion, labelWidth: nat, kindWidth: nat)

  function NewText(m: Metric): string {
    m.comp.primaryEdit.newText
  }

  predicate IsSnippetMetric(m: Metric) {
    m.comp.primaryEdit.IsSnippet()
  }

  // ---------------------------------------------------------------------------
  // _prune

  /** The state of the `_prune` loop: what was yielded, at which input
      positions, the `seen` texts, and whether the loop broke off. */
  datatype PruneState = PruneState(out: seq<Metric>, kept: seq<nat>, seen: set<string>, stopped: bool)

  /** One pass of the loop over the metric at position `i`. */
  function PruneStep(manual: bool, maxResults: int, s: PruneState, i: nat, m: Metric): PruneState {
    if s.stopped then s
    else if !manual && |s.seen| > maxResults then s.(stopped := true)
    else if NewText(m) !in s.seen then
      PruneState(s.out + [m], s.kept + [i], if IsSnippetMetric(m) then s.seen else s.seen + {NewText(m)}, false)
    else s
  }

  /** The loop run over the ranked metrics. */
  function PruneScan(manual: bool, maxResults: int, ranked: seq<Metric>): PruneState
    decreases |ranked|
  {
    if |ranked| == 0 then PruneState([], [], {}, false)
    else
      var n := |ranked| - 1;
      PruneStep(manual, maxResults, PruneScan(manual, maxResults, ranked[..n]), n, ranked[n])
  }

  /** What `_prune` yields. */
  function Pruned(manual: bool, maxResults: int, ranked: seq<Metric>): seq<Metric> {
    PruneScan(manual, maxResults, ranked).out
  }

  /** The texts of the non-snippet metrics. */
  function SeenOf(ms: seq<Metric>): set<string>
    decreases |ms|
  {
    if |ms| == 0 then {}
    else
      var last := ms[|ms| - 1];
      SeenOf(ms[..|ms| - 1]) + if IsSnippetMetric(last) then {} else {NewText(last)}
  }

  /** Every non-snippet metric's text is in `SeenOf`. */
  lemma {:induction false} SeenOfMembers(ms: seq<Metric>)
    ensures forall k :: 0 <= k < |ms| && !IsSnippetMetric(ms[k]) ==> NewText(ms[k]) in SeenOf(ms)
    decreases |ms|
  {
    if |ms| > 0 {
      var init := ms[..|ms| - 1];
      SeenOfMembers(init);
      assert forall k :: 0 <= k < |init| ==> init[k] == ms[k];
    }
  }

  /** Every text in `SeenOf` is the text of a non-snippet metric: a
      snippet never claims a text. */
  lemma {:induction false} SeenOfWitness(ms: seq<Metric>, t: string) returns (k: nat)
    requires t in SeenOf(ms)
    ensures k < |ms| && !IsSnippetMetric(ms[k]) && NewText(ms[k]) == t
    decreases |ms|
  {
    var init := ms[..|ms| - 1];
    if t in SeenOf(init) {
      k := SeenOfWitness(init, t);
      assert init[k] == ms[k];
    } else {
      k := |ms| - 1;
    }
  }

  /** A broken-off loop yields nothing more. */
  lemma {:induction false} PruneStoppedStays(manual: bool, maxResults: int, ranked: seq<Metric>, i: nat)
    requires i <= |ranked| && PruneScan(manual, maxResults, ranked[..i]).stopped
    ensures PruneScan(manual, maxResults, ranked) == PruneScan(manual, maxResults, ranked[..i])
    decreases |ranked| - i
  {
    if i < |ranked| {
      var n := |ranked| - 1;
      assert ranked[..n][..i] == ranked[..i];
      PruneStoppedStays(manual, maxResults, ranked[..n], i);
      assert ranked[..|ranked|] == ranked;
    } else {
      assert ranked[..i] == ranked;
    }
  }

  /** The output sits in the input in order, at the positions `kept`. */
  predicate InOrderAt(out: seq<Metric>, kept: seq<nat>, ranked: seq<Metric>) {
    && |out| == |kept|
    && (forall k :: 0 <= k < |kept| ==> kept[k] < |ranked| && out[k] == ranked[kept[k]])
    && (forall k, l :: 0 <= k < l < |kept| ==> kept[k] < kept[l])
  }

  /** Positions in a prefix are positions in the whole input, and the
      next position may be added. */
  lemma InOrderExtend(out: seq<Metric>, kept: seq<nat>, ranked: seq<Metric>)
    requires |ranked| > 0 && InOrderAt(out, kept, ranked[..|ranked| - 1])
    ensures InOrderAt(out, kept, ranked)
    ensures InOrderAt(out + [ranked[|ranked| - 1]], kept + [|ranked| - 1], ranked)
  {
    var n := |ranked| - 1;
    assert forall k :: 0 <= k < |kept| ==> kept[k] < n && ranked[..n][kept[k]] == ranked[kept[k]];
  }

  lemma SeenOfAppend(ms: seq<Metric>, m: Metric)
    ensures SeenOf(ms + [m]) == SeenOf(ms) + if IsSnippetMetric(m) then {} else {NewText(m)}
  {
    assert (ms + [m])[..|ms|] == ms;
  }

  /** One pass of the loop keeps the output in order in the input and the
      `seen` set equal to the texts of the non-snippet output. */
  lemma PruneStepInvariant(manual: bool, maxResults: int, s: PruneState, ranked: seq<Metric>)
    requires |ranked| > 0
    requires InOrderAt(s.out, s.kept, ranked[..|ranked| - 1]) && s.seen == SeenOf(s.out)
    ensures var t := PruneStep(manual, maxResults, s, |ranked| - 1, ranked[|ranked| - 1]);
      InOrderAt(t.out, t.kept, ranked) && t.seen == SeenOf(t.out)
  {
    InOrderExtend(s.out, s.kept, ranked);
    SeenOfAppend(s.out, ranked[|ranked| - 1]);
  }

  /** `_prune` yields a subsequence of its input, in input order, and its
      `seen` set is the set of texts of the non-snippet metrics it yielded. */
  lemma {:induction false} PruneInvariant(manual: bool, maxResults: int, ranked: seq<Metric>)
    ensures var s := PruneScan(manual, maxResults, ranked);
      InOrderAt(s.out, s.kept, ranked) && s.seen == SeenOf(s.out)
    decreases |ranked|
  {
    if |ranked| > 0 {
      var n := |ranked| - 1;
      PruneInvariant(manual, maxResults, ranked[..n]);
      PruneStepInvariant(manual, maxResults, PruneScan(manual, maxResults, ranked[..n]), ranked);
    }
  }

  /** No two metrics share a text unless the earlier one is a snippet. */
  predicate DistinctTexts(out: seq<Metric>) {
    forall k, l :: 0 <= k < l < |out| && !IsSnippetMetric(out[k]) ==> NewText(out[k]) != NewText(out[l])
  }

  lemma PruneStepDistinct(manual: bool, maxResults: int, s: PruneState, i: nat, m: Metric)
    requires DistinctTexts(s.out) && s.seen == SeenOf(s.out)
    ensures DistinctTexts(PruneStep(manual, maxResults, s, i, m).out)
  {
    var out := PruneStep(manual, maxResults, s, i, m).out;
    if out != s.out {
      SeenOfMembers(s.out);
      assert out == s.out + [m];
      assert forall k :: 0 <= k < |s.out| ==> out[k] == s.out[k];
    }
  }

  /** No two yielded metrics share a text unless the earlier one is a
      snippet. */
  lemma {:induction false} PruneDistinct(manual: bool, maxResults: int, ranked: seq<Metric>)
    ensures DistinctTexts(Pruned(manual, maxResults, ranked))
    decreases |ranked|
  {
    if |ranked| > 0 {
      var n := |ranked| - 1;
      PruneDistinct(manual, maxResults, ranked[..n]);
      PruneInvariant(manual, maxResults, ranked[..n]);
      PruneStepDistinct(manual, maxResults, PruneScan(manual, maxResults, ranked[..n]), n, ranked[n]);
    }
  }

  /** Before the cap is reached, the metric at position `i` is yielded
      exactly when no non-snippet metric yielded before it has its text. */
  lemma PruneYieldsUnseen(manual: bool, maxResults: int, ranked: seq<Metric>, i: nat)
    requires i < |ranked|
    requires var s := PruneScan(manual, maxResults, ranked[..i]);
      !s.stopped && (manual || |s.seen| <= maxResults)
    ensures var s := PruneScan(manual, maxResults, ranked[..i]);
      var next := PruneScan(manual, maxResults, ranked[..i + 1]);
      && (NewText(ranked[i]) !in SeenOf(s.out) ==> next.out == s.out + [ranked[i]])
      && (NewText(ranked[i]) in SeenOf(s.out) ==> next.out == s.out)
  {
    PruneInvariant(manual, maxResults, ranked[..i]);
    assert ranked[..i + 1][..i] == ranked[..i];
  }

  /** Metrics a manual request yields are never capped. */
  lemma {:induction false} PruneManualNeverStops(maxResults: int, ranked: seq<Metric>)
    ensures !PruneScan(true, maxResults, ranked).stopped
    decreases |ranked|
  {
    if |ranked| > 0 {
      PruneManualNeverStops(maxResults, ranked[..|ranked| - 1]);
    }
  }

  /** Without `manual`, at most `max_results + 1` distinct texts are
      recorded (none when `max_results` is negative), and once more than
      `max_results` are recorded nothing further is yielded. */
  lemma {:induction false} PruneCapped(maxResults: int, ranked: seq<Metric>)
    ensures |PruneScan(false, maxResults, ranked).seen| <= if maxResults < 0 then 0 else maxResults + 1
    decreases |ranked|
  {
    if |ranked| > 0 {
      PruneCapped(maxResults, ranked[..|ranked| - 1]);
    }
  }

  /** Once more than `max_results` texts are recorded at position `i`,
      the rest of the input adds nothing. */
  lemma PruneStopsAtCap(maxResults: int, ranked: seq<Metric>, i: nat)
    requires i < |ranked| && |PruneScan(false, maxResults, ranked[..i]).seen| > maxResults
    ensures Pruned(false, maxResults, ranked) == Pruned(false, maxResults, ranked[..i])
  {
    assert ranked[..i + 1][..i] == ranked[..i];
    PruneStoppedStays(false, maxResults, ranked, i + 1);
  }

  /** `_prune`: walk the ranked metrics, break off once more than
      `max_results` texts are recorded (unless manual), and yield each
      metric whose text is not recorded yet, recording it unless the
      metric is a snippet. */
  method Prune(manual: bool, maxResults: int, ranked: seq<Metric>) returns (out: seq<Metric>)
    ensures out == Pruned(manual, maxResults, ranked)
  {
    var seen: set<string> := {};
    out := [];
    var i := 0;
    while i < |ranked|
      invariant i <= |ranked|
      invariant PruneScan(manual, maxResults, ranked[..i]).out == out
      invariant PruneScan(manual, maxResults, ranked[..i]).seen == seen
      invariant !PruneScan(manual, maxResults, ranked[..i]).stopped
    {
      var metric := ranked[i];
      assert ranked[..i + 1][..i] == ranked[..i];
      if !manual && |seen| > maxResults {
        PruneStoppedStays(manual, maxResults, ranked, i + 1);
        return;
      } else if NewText(metric) !in seen {
        if !IsSnippetMetric(metric) {
          seen := seen + {NewText(metric)};
        }
        out := out + [metric];
      }
      i := i + 1;
    }
    assert ranked[..i] == ranked;
  }

  // ---------------------------------------------------------------------------
  // _max_width

  /** `_max_width`: the widest `label + kind` of the metrics, 0 when there
      are none. */
  function MaxWidth(metrics: seq<Metric>): (w: nat)
    ensures forall i :: 0 <= i < |metrics| ==> metrics[i].labelWidth + metrics[i].kindWidth <= w
    decreases |metrics|
  {
    if |metrics| == 0 then 0
    else
      var n := |metrics| - 1;
      var rest := MaxWidth(metrics[..n]);
      var here := metrics[n].labelWidth + metrics[n].kindWidth;
      assert forall i :: 0 <= i < n ==> metrics[..n][i] == metrics[i];
      if here >= rest then here else rest
  }

  /** The width `_max_width` reports is 0 or the width of metric `i`. */
  lemma {:induction false} MaxWidthAttained(metrics: seq<Metric>) returns (i: nat)
    requires MaxWidth(metrics) != 0
    ensures i < |metrics| && MaxWidth(metrics) == metrics[i].labelWidth + metrics[i].kindWidth
    decreases |metrics|
  {
    var n := |metrics| - 1;
    if MaxWidth(metrics) == metrics[n].labelWidth + metrics[n].kindWidth {
      i := n;
    } else {
      i := MaxWidthAttained(metrics[..n]);
      assert metrics[..n][i] == metrics[i];
    }
  }

  // ---------------------------------------------------------------------------
  // _cmp_to_vcmp

  /** The menu settings `_cmp_to_vcmp` reads. */
  datatype PumDisplay = PumDisplay(
    xTruncateLen: int,
    ellipsis: string,
    kindContext: (string, string),
    sourceContext: (string, string))

  /** The item handed to Vim's completion menu. */
  datatype VimCompletion = VimCompletion(abbr: string, menu: string, userData: nat)

  /** `n * " "`: no spaces for a negative count. */
  function Spaces(n: int): (s: string)
    ensures |s| == if n > 0 then n else 0
    ensures forall i :: 0 <= i < |s| ==> s[i] == ' '
  {
    if n <= 0 then "" else Spaces(n - 1) + " "
  }

  /** The kind wrapped in the kind context, nothing for an empty kind. */
  function KindText(pum: PumDisplay, kind: string): string {
    if kind != "" then pum.kindContext.0 + kind + pum.kindContext.1 else ""
  }

  /** The menu is too narrow for even the kind and the ellipsis. */
  predicate Narrow(pum: PumDisplay, kindDeadWidth: int, ellipsisWidth: int, truncate: int, metric: Metric) {
    (metric.kindWidth + kindDeadWidth) + ellipsisWidth + pum.xTruncateLen > truncate
  }

  /** The label does not fit in front of the kind. */
  predicate LabelOverflows(kindDeadWidth: int, truncate: int, metric: Metric) {
    metric.labelWidth > truncate - (metric.kindWidth + kindDeadWidth)
  }

  /** How many characters of the label survive when the menu is too narrow. */
  function NarrowCut(ellipsisWidth: int, truncate: int): nat {
    if truncate - ellipsisWidth >= 1 then truncate - ellipsisWidth else 1
  }

  /** Whether `t` is the last part of `s`. */
  predicate EndsWith(s: string, t: string) {
    |t| <= |s| && s[|s| - |t|..] == t
  }

  /** `_cmp_to_vcmp`: the menu entry is the source in its context, and the
      completion uid rides along. When the menu is too narrow the label is
      cut to `NarrowCut` characters and the ellipsis is added exactly when
      something was cut; otherwise the abbreviation ends with the kind. */
  function CmpToVcmp(pum: PumDisplay, kindDeadWidth: int, ellipsisWidth: int, truncate: int, maxWidth: int,
                     metric: Metric): (v: VimCompletion)
    ensures v.menu == pum.sourceContext.0 + metric.comp.source + pum.sourceContext.1
    ensures v.userData == metric.comp.uid
    ensures Narrow(pum, kindDeadWidth, ellipsisWidth, truncate, metric) ==>
      var name, m := metric.comp.labelText, NarrowCut(ellipsisWidth, truncate);
      v.abbr == if |name| <= m then name else name[..m] + pum.ellipsis
    ensures !Narrow(pum, kindDeadWidth, ellipsisWidth, truncate, metric) ==>
      EndsWith(v.abbr, KindText(pum, metric.comp.kind))
  {
    var name := metric.comp.labelText;
    var kind := KindText(pum, metric.comp.kind);
    var kindWidth := metric.kindWidth + kindDeadWidth;
    var tr := truncate - kindWidth;
    var abbr := (
      if kindWidth + ellipsisWidth + pum.xTruncateLen > truncate then
        var truncated := Prefix(name, if truncate - ellipsisWidth >= 1 then truncate - ellipsisWidth else 1);
        if truncated != name then truncated + pum.ellipsis else truncated
      else if metric.labelWidth > tr then Prefix(name, tr - ellipsisWidth) + pum.ellipsis + kind
      else
        var truncatedTo := (if maxWidth + kindDeadWidth <= truncate then maxWidth + kindDeadWidth else truncate) - kindWidth;
        name + Spaces(truncatedTo - metric.labelWidth) + kind);
    VimCompletion(abbr, pum.sourceContext.0 + metric.comp.source + pum.sourceContext.1, metric.comp.uid)
  }

  /** In every layout the abbreviation starts with a prefix of the label,
      and when that prefix is not the whole label the ellipsis follows it. */
  lemma CmpToVcmpLabelLead(pum: PumDisplay, kindDeadWidth: int, ellipsisWidth: int, truncate: int, maxWidth: int,
                           metric: Metric)
    ensures var abbr, name := CmpToVcmp(pum, kindDeadWidth, ellipsisWidth, truncate, maxWidth, metric).abbr,
                              metric.comp.labelText;
      exists k :: 0 <= k <= |name| && name[..k] <= abbr && (k < |name| ==> name[..k] + pum.ellipsis <= abbr)
  {
    var abbr, name := CmpToVcmp(pum, kindDeadWidth, ellipsisWidth, truncate, maxWidth, metric).abbr,
                      metric.comp.labelText;
    var kind := KindText(pum, metric.comp.kind);
    var tr := truncate - (metric.kindWidth + kindDeadWidth);
    if Narrow(pum, kindDeadWidth, ellipsisWidth, truncate, metric) {
      var m := NarrowCut(ellipsisWidth, truncate);
      var k := if |name| <= m then |name| else m;
      assert name[..k] <= abbr && (k < |name| ==> name[..k] + pum.ellipsis <= abbr);
    } else if metric.labelWidth > tr {
      var cut := Prefix(name, tr - ellipsisWidth);
      assert abbr == cut + pum.ellipsis + kind;
      assert name[..|cut|] + pum.ellipsis <= abbr;
    } else {
      assert name[..|name|] == name && name <= abbr;
    }
  }

  /** Display widths that are plain character counts: the label's and
      the ellipsis's widths are their lengths, and the kind column is as
      wide as the kind in its context. */
  predicate WidthsAreLengths(pum: PumDisplay, kindDeadWidth: int, ellipsisWidth: int, metric: Metric) {
    && metric.labelWidth == |metric.comp.labelText|
    && ellipsisWidth == |pum.ellipsis|
    && metric.kindWidth + kindDeadWidth == |KindText(pum, metric.comp.kind)|
  }

  /** A narrow menu shows at most `NarrowCut` characters of the label and
      the ellipsis: no more than the menu width, or than one character and
      the ellipsis when the menu is narrower still. */
  lemma NarrowFits(pum: PumDisplay, kindDeadWidth: int, ellipsisWidth: int, truncate: int, maxWidth: int,
                   metric: Metric)
    requires WidthsAreLengths(pum, kindDeadWidth, ellipsisWidth, metric)
    requires Narrow(pum, kindDeadWidth, ellipsisWidth, truncate, metric)
    ensures var abbr := CmpToVcmp(pum, kindDeadWidth, ellipsisWidth, truncate, maxWidth, metric).abbr;
      |abbr| <= if truncate >= 1 + ellipsisWidth then truncate else 1 + ellipsisWidth
  {
  }

  /** A label that overflows in front of the kind is cut so that the label,
      the ellipsis and the kind fill the menu width exactly. */
  lemma OverflowFillsWidth(pum: PumDisplay, kindDeadWidth: int, ellipsisWidth: int, truncate: int, maxWidth: int,
                           metric: Metric)
    requires WidthsAreLengths(pum, kindDeadWidth, ellipsisWidth, metric) && pum.xTruncateLen >= 0
    requires !Narrow(pum, kindDeadWidth, ellipsisWidth, truncate, metric)
    requires LabelOverflows(kindDeadWidth, truncate, metric)
    ensures |CmpToVcmp(pum, kindDeadWidth, ellipsisWidth, truncate, maxWidth, metric).abbr| == truncate
  {
  }

  /** When the label fits and `maxWidth` is at least the metric's label
      and kind width (as `_max_width` of the yielded metrics makes it), the
      whole label is shown, followed by spaces and the kind, and every such
      abbreviation has the same length: the smaller of the widest entry
      and the truncation width, so the kinds line up in one column. */
  lemma FittingColumnsAlign(pum: PumDisplay, kindDeadWidth: int, ellipsisWidth: int, truncate: int, maxWidth: int,
                            metric: Metric)
    requires WidthsAreLengths(pum, kindDeadWidth, ellipsisWidth, metric)
    requires !Narrow(pum, kindDeadWidth, ellipsisWidth, truncate, metric)
    requires !LabelOverflows(kindDeadWidth, truncate, metric)
    requires metric.labelWidth + metric.kindWidth <= maxWidth
    ensures var abbr, name := CmpToVcmp(pum, kindDeadWidth, ellipsisWidth, truncate, maxWidth, metric).abbr,
                              metric.comp.labelText;
      && name <= abbr
      && (forall i :: |name| <= i < |abbr| - |KindText(pum, metric.comp.kind)| ==> abbr[i] == ' ')
      && |abbr| == if maxWidth + kindDeadWidth <= truncate then maxWidth + kindDeadWidth else truncate
  {
  }

  // ---------------------------------------------------------------------------
  // trans

  /** Each element paired with its image under `f`. */
  function Paired<T, U>(f: T -> U, xs: seq<T>): (rows: seq<(T, U)>)
    ensures |rows| == |xs|
    ensures forall i :: 0 <= i < |xs| ==> rows[i] == (xs[i], f(xs[i]))
    decreases |xs|
  {
    if |xs| == 0 then []
    else
      var n := |xs| - 1;
      var init := Paired(f, xs[..n]);
      assert forall i :: 0 <= i < n ==> xs[..n][i] == xs[i];
      init + [(xs[n], f(xs[n]))]
  }

  lemma PairedAppend<T, U>(f: T -> U, xs: seq<T>, i: nat)
    requires i < |xs|
    ensures Paired(f, xs[..i + 1]) == Paired(f, xs[..i]) + [(xs[i], f(xs[i]))]
  {
    assert xs[..i + 1][..i] == xs[..i];
  }

  /** `trans`: rank the metrics, prune them, and pair each yielded metric
      with its menu item, laid out against the widest yielded one.
      `truncate` is the clamped menu width, `kindDeadWidth` and
      `ellipsisWidth` the display widths of the kind context and the
      ellipsis. */
  method Trans(le: (Metric, Metric) -> bool, manual: bool, maxResults: int, pum: PumDisplay,
               kindDeadWidth: int, ellipsisWidth: int, truncate: int, metrics: seq<Metric>)
    returns (rows: seq<(Metric, VimCompletion)>)
    ensures var pruned := Pruned(manual, maxResults, Sort(metrics, le));
      rows == Paired(m => CmpToVcmp(pum, kindDeadWidth, ellipsisWidth, truncate, MaxWidth(pruned), m), pruned)
  {
    var ranked := Sort(metrics, le);
    var pruned := Prune(manual, maxResults, ranked);
    var maxWidth := MaxWidth(pruned);
    var item := m => CmpToVcmp(pum, kindDeadWidth, ellipsisWidth, truncate, maxWidth, m);
    rows := [];
    for i := 0 to |pruned|
      invariant rows == Paired(item, pruned[..i])
    {
      PairedAppend(item, pruned, i);
      rows := rows + [(pruned[i], item(pruned[i]))];
    }
    assert pruned[..|pruned|] == pruned;
  }

  /** The rows `trans` yields are input metrics in ranking order, and every
      one of them fits the common width `_max_width` reports. */
  lemma TransOrdered(le: (Metric, Metric) -> bool, manual: bool, maxResults: int, metrics: seq<Metric>)
    requires TotalPreorder(le)
    ensures var pruned := Pruned(manual, maxResults, Sort(metrics, le));
      && SortedBy(pruned, le)
      && (forall i :: 0 <= i < |pruned| ==> pruned[i] in metrics)
      && (forall i :: 0 <= i < |pruned| ==> pruned[i].labelWidth + pruned[i].kindWidth <= MaxWidth(pruned))
  {
    var ranked := Sort(metrics, le);
    SortSorted(metrics, le);
    PruneInvariant(manual, maxResults, ranked);
    var s := PruneScan(manual, maxResults, ranked);
    forall i | 0 <= i < |s.out| ensures s.out[i] in metrics {
      assert s.out[i] == ranked[s.kept[i]];
      assert ranked[s.kept[i]] in multiset(ranked);
    }
    forall i, j | 0 <= i < j < |s.out| ensures le(s.out[i], s.out[j]) {
      assert s.kept[i] < s.kept[j];
    }
  }
}
