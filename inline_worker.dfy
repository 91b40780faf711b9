/** The inline-completion worker (coq/clients/inline/worker.py): its request,
    the unfiltered merge of `_work` and the chunked cache warmer of `_poll`.

    `_work` is an async generator whose consumer may stop pulling after any
    yield; `demand` is how many rows the consumer asks for. A batch whose
    item iterator raises after its items (`LspComp.raised`) ends the
    generator with that exception once its items are out. */
module InlineWorker {
  import opened Wrappers
  import opened Seqs
  import opened SharedTypes
  import opened LspParse
  import LspCompletion
  import LspRequest
  import LspWorker

  /** `_request`: `comp_lsp_inline` with twice `max_results` as page width,
      excluding no clients; one never-cached result per reply, in order. */
  function Request(q: LspWorker.Query, m: LspWorker.MatchOptions, replies: seq<LspRequest.Client>)
    : (r: (LspCompletion.RequestArgs, seq<LspComp>))
    ensures r.0.channel == "lsp_inline_comp"
    ensures r.0.multipart == Some(2 * m.maxResults) && r.0.clients == {}
    ensures |r.1| == |replies|
    ensures forall i :: 0 <= i < |r.1| ==> r.1[i].client == replies[i].name && !r.1[i].localCache
    ensures forall i :: 0 <= i < |r.1| ==>
      r.1[i] == ParseInline(ParseContext(q.protocol, ExternTypeLsp, q.src.alwaysOnTop, replies[i].name,
                                         replies[i].encoding, q.src.shortName, q.context.cursor, q.src.weightAdjust),
                            q.dec, replies[i].message)
  {
    LspCompletion.CompLspInline(q.src, q.context, m.maxResults * 2, {}, q.protocol, q.dec, replies)
  }

  /** The live stream of `_work`: the request when live pulling is on,
      nothing otherwise. */
  function LiveStream(q: LspWorker.Query, m: LspWorker.MatchOptions, livePulling: bool,
                      replies: seq<LspRequest.Client>): (live: seq<LspComp>)
    ensures !livePulling ==> live == []
    ensures livePulling ==> |live| == |replies|
  {
    if livePulling then Request(q, m, replies).1 else []
  }

  /** The database batch: no client, not cacheable, the cached items. */
  function DbBatch(cached: seq<Completion>): LspComp {
    LspComp(None, false, cached, false)
  }

  /** `stream()`: the database batch and the first live batch in the order
      they complete (`dbFirst`: the database answers first; an exhausted
      live stream answers `None`, which is skipped), then the remaining live
      batches in arrival order. */
  function InlineBatches(cached: seq<Completion>, live: seq<LspComp>, dbFirst: bool): (r: seq<LspComp>)
    ensures |r| == 1 + |live|
    ensures var d := if dbFirst || |live| == 0 then 0 else 1;
      && r[d] == DbBatch(cached)
      && (forall i :: 0 <= i < d ==> r[i] == live[i])
      && (forall i :: d < i < |r| ==> r[i] == live[i - 1])
  {
    if dbFirst || |live| == 0 then [DbBatch(cached)] + live
    else [live[0], DbBatch(cached)] + live[1..]
  }

  /** Every row of every batch, in batch order, up to and including the
      first batch that raises; and whether one raised. */
  function Rows(batches: seq<LspComp>): (r: (seq<Completion>, bool))
    decreases |batches|
  {
    if |batches| == 0 then ([], false)
    else if batches[0].raised then (batches[0].items, true)
    else
      var rest := Rows(batches[1..]);
      (batches[0].items + rest.0, rest.1)
  }

  /** The item lists of the batches. */
  function ItemsOf(batches: seq<LspComp>): (r: seq<seq<Completion>>)
    ensures |r| == |batches|
    ensures forall i :: 0 <= i < |batches| ==> r[i] == batches[i].items
  {
    if |batches| == 0 then [] else [batches[0].items] + ItemsOf(batches[1..])
  }

  lemma RowsUnfold(batches: seq<LspComp>, i: nat)
    requires i < |batches|
    ensures var b, rest := batches[i], Rows(batches[i + 1..]);
      Rows(batches[i..]) == if b.raised then (b.items, true) else (b.items + rest.0, rest.1)
  {
    assert batches[i..][1..] == batches[i + 1..];
  }

  /** When no batch raises, the rows are all the items of all batches,
      concatenated in batch order: nothing is filtered out and nothing is
      capped. */
  lemma {:induction false} RowsAllItems(batches: seq<LspComp>)
    requires forall i :: 0 <= i < |batches| ==> !batches[i].raised
    ensures Rows(batches) == (Flatten(ItemsOf(batches)), false)
    decreases |batches|
  {
    if |batches| > 0 {
      RowsAllItems(batches[1..]);
      assert ItemsOf(batches)[1..] == ItemsOf(batches[1..]);
    }
  }

  /** The rows stop right after the first batch that raises: they are the
      items of the batches up to and including it. */
  lemma {:induction false} RowsStopAtRaise(batches: seq<LspComp>, k: nat)
    requires k < |batches| && batches[k].raised
    requires forall i :: 0 <= i < k ==> !batches[i].raised
    ensures Rows(batches) == (Flatten(ItemsOf(batches[..k + 1])), true)
    decreases k
  {
    var head := batches[..k + 1];
    if k == 0 {
      assert head == [batches[0]];
      assert ItemsOf(head) == [batches[0].items];
      assert Flatten(ItemsOf(head)) == batches[0].items + Flatten(ItemsOf(head)[1..]);
      assert batches[0].items + [] == batches[0].items;
    } else {
      RowsStopAtRaise(batches[1..], k - 1);
      assert batches[1..][..k] == head[1..];
      assert ItemsOf(head)[1..] == ItemsOf(head[1..]);
    }
  }

  /** With live pulling off, only the cached items are yielded. */
  lemma NotPullingOnlyCached(q: LspWorker.Query, m: LspWorker.MatchOptions, replies: seq<LspRequest.Client>,
                             cached: seq<Completion>, dbFirst: bool)
    ensures Rows(InlineBatches(cached, LiveStream(q, m, false, replies), dbFirst)) == (cached, false)
  {
    var bs := InlineBatches(cached, [], dbFirst);
    assert bs == [DbBatch(cached)];
    assert bs[1..] == [];
    assert cached + [] == cached;
  }

  /** The rows a consumer asking for `demand` rows receives, and whether it
      sees the exception of a raising batch (it does when it asks for more
      rows than there are). */
  function Delivered(rows: (seq<Completion>, bool), demand: nat): (r: (seq<Completion>, bool))
    ensures |r.0| <= demand && r.0 <= rows.0
    ensures |r.0| < demand ==> r.0 == rows.0
    ensures r.1 <==> rows.1 && |rows.0| < demand
  {
    if demand < |rows.0| then (rows.0[..demand], false) else (rows.0, rows.1 && |rows.0| < demand)
  }

  /** The inner loop of `_work` over one batch: each row is yielded until
      the consumer has what it asked for. */
  method TakeRows(items: seq<Completion>, out0: seq<Completion>, demand: nat) returns (out: seq<Completion>)
    requires |out0| < demand
    ensures |out| <= demand
    ensures |out| < demand ==> out == out0 + items
    ensures |out| == demand ==> out <= out0 + items
  {
    out := out0;
    var k := 0;
    while k < |items| && |out| < demand
      invariant k <= |items| && |out| <= demand
      invariant out == out0 + items[..k]
      decreases |items| - k
    {
      assert items[..k + 1] == items[..k] + [items[k]];
      out := out + [items[k]];
      k := k + 1;
    }
    assert k == |items| ==> items[..k] == items;
  }

  /** Taking a prefix of what remains keeps the delivered prefix. */
  lemma DeliveredStep(all: seq<Completion>, out0: seq<Completion>, items: seq<Completion>,
                      rest: (seq<Completion>, bool), out: seq<Completion>, demand: nat)
    requires all == out0 + (items + rest.0) && |out| == demand && out <= out0 + items
    ensures Delivered((all, rest.1), demand) == (out, false)
  {
    AppendAssoc(out0, items, rest.0);
    var head := out0 + items;
    assert all[..|head|] == head;
    assert out == head[..demand];
    assert out == all[..demand];
    if demand == |all| {
      assert out == all;
    }
  }

  /** The loop of `_work` over the batches of `stream()`: every row of
      every batch, in order, until the consumer has what it asked for or a
      batch raises. */
  method ReadRows(batches: seq<LspComp>, demand: nat) returns (out: seq<Completion>, raised: bool)
    ensures (out, raised) == Delivered(Rows(batches), demand)
  {
    ghost var all := Rows(batches);
    out, raised := [], false;
    if demand == 0 {
      return;
    }
    var i := 0;
    assert batches[0..] == batches;
    assert [] + all.0 == all.0;
    while i < |batches|
      invariant i <= |batches| && |out| < demand
      invariant all == (out + Rows(batches[i..]).0, Rows(batches[i..]).1)
      decreases |batches| - i
    {
      var b := batches[i];
      ghost var rest := Rows(batches[i + 1..]);
      RowsUnfold(batches, i);
      var out1 := TakeRows(b.items, out, demand);
      if |out1| == demand {
        if b.raised {
          assert b.items + [] == b.items;
          DeliveredStep(all.0, out, b.items, ([], true), out1, demand);
        } else {
          DeliveredStep(all.0, out, b.items, rest, out1, demand);
        }
        return out1, false;
      }
      if b.raised {
        assert all == (out1, true);
        return out1, true;
      }
      AppendAssoc(out, b.items, rest.0);
      out := out1;
      i := i + 1;
    }
    assert all == (out + [], false);
    assert out + [] == out;
  }

  /** `_work`: the cache is consulted with `always` and `inline_shift`
      set, its usability flag and client set ignored; the batches of
      `stream()` are read in order and every row of every batch is yielded,
      with no acceptance test and no cap, until the consumer stops or a
      batch raises. */
  method Work(q: LspWorker.Query, m: LspWorker.MatchOptions, applyCache: (bool, bool) -> LspWorker.CacheLookup,
              livePulling: bool, replies: seq<LspRequest.Client>, dbFirst: bool, demand: nat)
    returns (out: seq<Completion>, raised: bool)
    ensures (out, raised) == Delivered(Rows(InlineBatches(applyCache(true, true).cached,
                                                          LiveStream(q, m, livePulling, replies), dbFirst)), demand)
  {
    var cached := applyCache(true, true).cached;
    var live := LiveStream(q, m, livePulling, replies);
    out, raised := ReadRows(InlineBatches(cached, live, dbFirst), demand);
  }

  // ---------------------------------------------------------------------------
  // The warmer

  /** One `set_cache` call of the warmer: the entries and `skip_db`. */
  datatype CacheWrite = CacheWrite(entries: LspWorker.Post, skipDb: bool)

  /** One `set_cache({client: chunk}, skip_db=True)` per chunk. */
  function ChunkWrites(client: Option<string>, chunks: seq<seq<Completion>>): (w: seq<CacheWrite>)
    ensures |w| == |chunks|
    ensures forall t :: 0 <= t < |chunks| ==> w[t] == CacheWrite(map[client := chunks[t]], true)
  {
    if |chunks| == 0 then [] else [CacheWrite(map[client := chunks[0]], true)] + ChunkWrites(client, chunks[1..])
  }

  /** The items of a batch that reach the cache: all of them, or, when its
      iterator raises, only those of the chunks `batched` completed before
      the exception (a partly filled chunk is lost). */
  function Written(c: LspComp): (items: seq<Completion>)
    ensures items <= c.items
    ensures !c.raised ==> items == c.items
    ensures c.raised ==> |items| % LspWorker.CACHE_CHUNK == 0 && |c.items| - |items| < LspWorker.CACHE_CHUNK
  {
    if c.raised then c.items[..LspWorker.CACHE_CHUNK * (|c.items| / LspWorker.CACHE_CHUNK)] else c.items
  }

  /** The writes for one batch of the live stream. */
  function BatchWrites(c: LspComp): seq<CacheWrite> {
    ChunkWrites(c.client, Chunks(Written(c), LspWorker.CACHE_CHUNK))
  }

  /** The writes for the live stream, stopping after the first batch that
      raises (the exception ends the whole `async for`). */
  function LiveWrites(live: seq<LspComp>): seq<CacheWrite>
    decreases |live|
  {
    if |live| == 0 then []
    else BatchWrites(live[0]) + (if live[0].raised then [] else LiveWrites(live[1..]))
  }

  /** What one run of `cont()` writes: nothing without a current context. */
  function WarmWrites(hasContext: bool, live: seq<LspComp>): (w: seq<CacheWrite>)
    ensures !hasContext ==> w == []
  {
    if hasContext then LiveWrites(live) else []
  }

  /** Every write of a batch skips the database, names only the batch's
      client and carries 1 to `CACHE_CHUNK` items; the chunks, in order,
      are exactly the items that reach the cache. */
  lemma BatchWritesCover(c: LspComp)
    ensures var w, chunks := BatchWrites(c), Chunks(Written(c), LspWorker.CACHE_CHUNK);
      && |w| == |chunks|
      && (forall t :: 0 <= t < |w| ==>
            w[t].skipDb && w[t].entries.Keys == {c.client} && w[t].entries[c.client] == chunks[t]
            && 1 <= |chunks[t]| <= LspWorker.CACHE_CHUNK)
      && Flatten(chunks) == Written(c)
  {
    ChunksSpec(Written(c), LspWorker.CACHE_CHUNK);
  }

  /** A single-client write, skipping the database, of 1 to `CACHE_CHUNK`
      items. */
  predicate ChunkWrite(w: CacheWrite) {
    w.skipDb && |w.entries.Keys| == 1
    && forall c :: c in w.entries ==> 1 <= |w.entries[c]| <= LspWorker.CACHE_CHUNK
  }

  lemma BatchWritesChunked(c: LspComp)
    ensures forall t :: 0 <= t < |BatchWrites(c)| ==> ChunkWrite(BatchWrites(c)[t])
  {
    BatchWritesCover(c);
  }

  /** Every write of the warmer is a chunked single-client write that
      skips the database. */
  lemma {:induction false} LiveWritesChunked(live: seq<LspComp>)
    ensures forall t :: 0 <= t < |LiveWrites(live)| ==> ChunkWrite(LiveWrites(live)[t])
    decreases |live|
  {
    if |live| > 0 {
      var a := BatchWrites(live[0]);
      var b := if live[0].raised then [] else LiveWrites(live[1..]);
      BatchWritesChunked(live[0]);
      if !live[0].raised {
        LiveWritesChunked(live[1..]);
      }
      assert LiveWrites(live) == a + b;
      forall t | 0 <= t < |a + b| ensures ChunkWrite((a + b)[t]) {
        if t < |a| {
          assert (a + b)[t] == a[t];
        } else {
          assert (a + b)[t] == b[t - |a|];
        }
      }
    }
  }

  lemma LiveWritesUnfold(live: seq<LspComp>, i: nat)
    requires i < |live|
    ensures LiveWrites(live[i..])
         == BatchWrites(live[i]) + (if live[i].raised then [] else LiveWrites(live[i + 1..]))
  {
    assert live[i..][1..] == live[i + 1..];
  }

  /** `for chunked in batched(comps.items, n=CACHE_CHUNK)`: the writes for
      one batch, appended to those before. */
  method WriteBatch(c: LspComp, writes0: seq<CacheWrite>) returns (writes: seq<CacheWrite>)
    ensures writes == writes0 + BatchWrites(c)
  {
    var chunks := Chunks(Written(c), LspWorker.CACHE_CHUNK);
    ghost var bw := BatchWrites(c);
    writes := writes0;
    var t := 0;
    while t < |chunks|
      invariant t <= |chunks|
      invariant writes == writes0 + bw[..t]
    {
      assert bw[..t + 1] == bw[..t] + [CacheWrite(map[c.client := chunks[t]], true)];
      writes := writes + [CacheWrite(map[c.client := chunks[t]], true)];
      t := t + 1;
    }
    assert bw[..t] == bw;
  }

  /** `cont()` of `_poll`: with a current context, every batch of the
      request is written in chunks of `CACHE_CHUNK` with `skip_db`; a batch
      that raises ends the run after its completed chunks. */
  method Warm(hasContext: bool, q: LspWorker.Query, m: LspWorker.MatchOptions, replies: seq<LspRequest.Client>)
    returns (writes: seq<CacheWrite>)
    ensures writes == WarmWrites(hasContext, Request(q, m, replies).1)
  {
    writes := [];
    if !hasContext {
      return;
    }
    var live := Request(q, m, replies).1;
    var i := 0;
    assert live[0..] == live;
    while i < |live|
      invariant i <= |live|
      invariant writes + LiveWrites(live[i..]) == LiveWrites(live)
      decreases |live| - i
    {
      LiveWritesUnfold(live, i);
      var w := WriteBatch(live[i], writes);
      AppendAssoc(writes, BatchWrites(live[i]), if live[i].raised then [] else LiveWrites(live[i + 1..]));
      if live[i].raised {
        assert w + [] == w;
        return w;
      }
      writes := w;
      i := i + 1;
    }
    assert writes + [] == writes;
  }
}
