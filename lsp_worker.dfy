/** The LSP completion worker (coq/clients/lsp/worker.py): the acceptance
    predicate `_use_comp`, the local cache `pre`/`post`, the merge loop of
    `_work` and the cache warmer of `_poll`.

    `_work` is an async generator. Its consumer may stop pulling after any
    yield; `demand` is how many completions the consumer takes before it
    stops (it takes them all when the batches hold fewer). `pre` holds, per
    client, the items of a locally cacheable batch that the merge loop has
    not consumed yet: Python stores the very iterator the loop is draining. */
module LspWorker {
  import opened Wrappers
  import opened Seqs
  import opened Text
  import opened SharedTypes
  import opened LspParse
  import LspCompletion
  import LspRequest

  /** `CACHE_CHUNK`: the most items one cache write of the warmer carries. */
  const CACHE_CHUNK: nat := 9

  /** The `match` settings the worker reads (`max_results > 0` is checked
      when the configuration is loaded). */
  datatype MatchOptions = MatchOptions(lookAhead: int, fuzzyCutoff: real, maxResults: nat)

  /** `_use_comp`: never when the sort text plus the look-ahead is shorter
      than the word before the cursor; otherwise when the fuzzy ratio reaches
      the cutoff and the completion is a snippet, carries secondary edits or
      an extern record, or inserts something other than a prefix of that
      word. `ratio` is `multi_set_ratio(cword, lower(sort_by))`. */
  function UseComp(m: MatchOptions, cword: string, sortBy: string, ratio: real, comp: Completion): (use: bool)
    ensures |sortBy| + m.lookAhead < |cword| ==> !use
    ensures use <==>
      && |sortBy| + m.lookAhead >= |cword|
      && ratio >= m.fuzzyCutoff
      && (|| comp.primaryEdit.IsSnippet() || |comp.secondaryEdits| > 0 || comp.extern.Some?
          || !StartsWith(cword, comp.primaryEdit.newText))
  {
    if |sortBy| + m.lookAhead >= |cword| then
      ratio >= m.fuzzyCutoff
      && (comp.primaryEdit.IsSnippet() || |comp.secondaryEdits| > 0 || comp.extern.Some?
          || !StartsWith(cword, comp.primaryEdit.newText))
    else false
  }

  /** Raising the cutoff can only turn acceptance off. */
  lemma UseCompCutoffMonotone(m: MatchOptions, cutoff: real, cword: string, sortBy: string, ratio: real,
                              comp: Completion)
    requires m.fuzzyCutoff <= cutoff
    ensures UseComp(m.(fuzzyCutoff := cutoff), cword, sortBy, ratio, comp) ==> UseComp(m, cword, sortBy, ratio, comp)
  {
  }

  /** A plain completion with nothing but text is never offered when the word
      before the cursor already starts with that text. */
  lemma TypedPlainTextRejected(m: MatchOptions, cword: string, sortBy: string, ratio: real, comp: Completion)
    requires !comp.primaryEdit.IsSnippet() && comp.secondaryEdits == [] && comp.extern.None?
    requires StartsWith(cword, comp.primaryEdit.newText)
    ensures !UseComp(m, cword, sortBy, ratio, comp)
  {
  }

  /** `_use_comp` for the context of one request: `cwordOf` is
      `cword_before(unifying_chars, lower=True, context, sort_by)` and
      `ratio` the fuzzy ratio, both collaborators not part of this model. */
  function Accept(m: MatchOptions, cwordOf: string -> string, ratio: (string, string) -> real)
    : (accept: Completion -> bool)
    ensures forall c :: accept(c) == UseComp(m, cwordOf(c.sortBy), c.sortBy, ratio(cwordOf(c.sortBy), c.sortBy), c)
  {
    (c: Completion) => UseComp(m, cwordOf(c.sortBy), c.sortBy, ratio(cwordOf(c.sortBy), c.sortBy), c)
  }

  /** The item cap of a request: the largest SQLite integer (`biggest`,
      `BIGGEST_INT` of coq/shared/sql.py, which is not part of this model) for
      a manual request, `max_results` otherwise. */
  function Limit(manual: bool, m: MatchOptions, biggest: nat): (limit: nat)
    ensures manual ==> limit == biggest
    ensures !manual ==> limit == m.maxResults
  {
    if manual then biggest else m.maxResults
  }

  /** What the request of `_work` is made from: the configured source, the
      editing context, whether the request is manual, and the decoding tables
      and collaborators. */
  datatype Query = Query(
    src: LspCompletion.Source,
    context: LspCompletion.EditorContext,
    manual: bool,
    protocol: Protocol,
    dec: Decoders)

  /** `_request`: `comp_lsp` with twice `max_results` as page width,
      excluding the clients the cache already answered for, or none when the
      request is manual. */
  function Request(q: Query, m: MatchOptions, cachedClients: set<string>, replies: seq<LspRequest.Client>)
    : (r: (LspCompletion.RequestArgs, LspCompletion.Stream))
    ensures r.0.channel == "lsp_comp"
    ensures r.0.multipart == Some(2 * m.maxResults)
    ensures q.manual ==> r.0.clients == {}
    ensures !q.manual ==> r.0.clients == cachedClients
    ensures |r.1.results| <= |replies|
  {
    LspCompletion.CompLsp(q.src, q.context, m.maxResults * 2, if q.manual then {} else cachedClients,
                          q.protocol, q.dec, replies)
  }

  // ---------------------------------------------------------------------------
  // The local cache

  /** `pre`: an insertion-ordered dict from client to items. */
  type Pre = seq<(Option<string>, seq<Completion>)>

  /** `post`: every live or stored item seen, per client. */
  type Post = map<Option<string>, seq<Completion>>

  predicate DistinctKeys(pre: Pre) {
    forall i, j :: 0 <= i < j < |pre| ==> pre[i].0 != pre[j].0
  }

  /** Position of `client` in `pre`, or `|pre|` when it has no entry. */
  function IndexOf(pre: Pre, client: Option<string>): (k: nat)
    ensures k <= |pre|
    ensures k < |pre| ==> pre[k].0 == client
    ensures forall i :: 0 <= i < k ==> pre[i].0 != client
  {
    if |pre| == 0 then 0
    else if pre[0].0 == client then 0
    else 1 + IndexOf(pre[1..], client)
  }

  lemma IndexOfUnique(pre: Pre, client: Option<string>, k: nat)
    requires k <= |pre| && (k < |pre| ==> pre[k].0 == client)
    requires forall i :: 0 <= i < k ==> pre[i].0 != client
    ensures IndexOf(pre, client) == k
  {
  }

  /** `pre.get(client)`. */
  function Lookup(pre: Pre, client: Option<string>): Option<seq<Completion>> {
    var k := IndexOf(pre, client);
    if k < |pre| then Some(pre[k].1) else None
  }

  /** `pre[client] = items`: an existing key keeps its position, a new one
      goes last; every other entry is left alone. */
  function PreSet(pre: Pre, client: Option<string>, items: seq<Completion>): (r: Pre)
    ensures |pre| <= |r| <= |pre| + 1
    ensures IndexOf(r, client) == IndexOf(pre, client)
    ensures DistinctKeys(pre) ==> DistinctKeys(r)
  {
    var k := IndexOf(pre, client);
    var r := if k < |pre| then pre[k := (client, items)] else pre + [(client, items)];
    IndexOfUnique(r, client, k);
    r
  }

  /** Every key keeps its position, and every entry of another client is
      left alone. */
  lemma PreSetShape(pre: Pre, client: Option<string>, items: seq<Completion>)
    ensures var r := PreSet(pre, client, items);
      && (forall i :: 0 <= i < |pre| ==> r[i].0 == pre[i].0)
      && (forall i :: 0 <= i < |pre| && pre[i].0 != client ==> r[i] == pre[i])
  {
  }

  /** After `pre[client] = items`, `client` looks up `items` and every other
      client what it looked up before. */
  lemma PreSetLookup(pre: Pre, client: Option<string>, items: seq<Completion>)
    requires DistinctKeys(pre)
    ensures Lookup(PreSet(pre, client, items), client) == Some(items)
    ensures forall c :: c != client ==> Lookup(PreSet(pre, client, items), c) == Lookup(pre, c)
  {
    var r := PreSet(pre, client, items);
    PreSetShape(pre, client, items);
    forall c | c != client ensures Lookup(r, c) == Lookup(pre, c) {
      var kc := IndexOf(pre, c);
      if kc < |pre| {
        IndexOfUnique(r, c, kc);
      } else {
        IndexOfUnique(r, c, |r|);
      }
    }
  }

  /** Storing twice under one client keeps only the second value. */
  lemma PreSetTwice(pre: Pre, client: Option<string>, a: seq<Completion>, b: seq<Completion>)
    ensures PreSet(PreSet(pre, client, a), client, b) == PreSet(pre, client, b)
  {
    IndexOfUnique(PreSet(pre, client, a), client, IndexOf(pre, client));
  }

  function PostOf(post: Post, client: Option<string>): seq<Completion> {
    if client in post then post[client] else []
  }

  // ---------------------------------------------------------------------------
  // The batches of one request

  datatype Src = FromDb | FromStored | FromQuery

  datatype Batch = Batch(src: Src, comp: LspComp)

  /** What `apply_cache` answers: whether the local cache may be kept, the
      clients the database answered for, and the database's items. */
  datatype CacheLookup = CacheLookup(useCache: bool, cachedClients: set<string>, cached: seq<Completion>)

  /** Where the database batch lands: before the first live batch when it
      wins the race or there is no live batch, right after it otherwise. */
  function DbPosition(stored: nat, live: nat, dbFirst: bool): nat {
    if dbFirst || live == 0 then stored else stored + 1
  }

  /** One batch per `pre` entry, holding the items that survive
      `sanitize_cached`. */
  function StoredBatches(pre: Pre, sanitize: Completion -> Option<Completion>): (r: seq<Batch>)
    ensures |r| == |pre|
    ensures forall i :: 0 <= i < |pre| ==>
      r[i] == Batch(FromStored, LspComp(pre[i].0, true, FilterMap(pre[i].1, sanitize), false))
  {
    if |pre| == 0 then []
    else [Batch(FromStored, LspComp(pre[0].0, true, FilterMap(pre[0].1, sanitize), false))]
         + StoredBatches(pre[1..], sanitize)
  }

  /** One batch per result of the request. */
  function QueryBatches(live: seq<LspComp>): (r: seq<Batch>)
    ensures |r| == |live|
    ensures forall i :: 0 <= i < |live| ==> r[i] == Batch(FromQuery, live[i])
  {
    if |live| == 0 then [] else [Batch(FromQuery, live[0])] + QueryBatches(live[1..])
  }

  /** `stream()`: the stored batches; then the database batch and the first
      live batch in the order they complete; then the remaining live
      batches. */
  function Batches(pre: Pre, cached: seq<Completion>, live: seq<LspComp>, dbFirst: bool,
                   sanitize: Completion -> Option<Completion>): (r: seq<Batch>)
    ensures |r| == |pre| + 1 + |live|
    ensures forall i :: 0 <= i < |pre| ==>
      r[i] == Batch(FromStored, LspComp(pre[i].0, true, FilterMap(pre[i].1, sanitize), false))
    ensures var d := DbPosition(|pre|, |live|, dbFirst);
      && r[d] == Batch(FromDb, LspComp(None, false, cached, false))
      && (forall i :: |pre| <= i < d ==> r[i] == Batch(FromQuery, live[i - |pre|]))
      && (forall i :: d < i < |r| ==> r[i] == Batch(FromQuery, live[i - |pre| - 1]))
  {
    var stored := StoredBatches(pre, sanitize);
    var db := Batch(FromDb, LspComp(None, false, cached, false));
    var queried := QueryBatches(live);
    if dbFirst || |live| == 0 then stored + [db] + queried
    else stored + queried[..1] + [db] + queried[1..]
  }

  /** What a batch read to its end yields: every database item; the live and
      stored items that are accepted. */
  function Yielded(src: Src, items: seq<Completion>, accept: Completion -> bool): (r: seq<Completion>)
    ensures |r| <= |items|
  {
    if src == FromDb then items else Filter(items, accept)
  }

  /** A batch yields only its own items: a database batch all of them, a
      live or stored batch exactly those accepted. */
  lemma YieldedMembers(src: Src, items: seq<Completion>, accept: Completion -> bool)
    ensures forall c :: c in Yielded(src, items, accept) <==> c in items && (src == FromDb || accept(c))
  {
    FilterMembers(items, accept);
  }

  lemma YieldedAppend(src: Src, a: seq<Completion>, b: seq<Completion>, accept: Completion -> bool)
    ensures Yielded(src, a + b, accept) == Yielded(src, a, accept) + Yielded(src, b, accept)
  {
    FilterAppend(a, b, accept);
  }

  // ---------------------------------------------------------------------------
  // The merge loop, one step at a time

  /** The worker state the merge loop changes, and what it has yielded. */
  datatype MergeState = MergeState(out: seq<Completion>, pre: Pre, post: Post)

  /** A batch is stored in `pre` when its client allows local caching and it
      does not come from the database. */
  predicate Registers(b: Batch) {
    b.comp.localCache && b.src != FromDb
  }

  /** Starting a batch: `post.setdefault(client, [])`, and `pre[client]` set
      to the batch's items when it registers. */
  function Enter(s: MergeState, b: Batch): MergeState {
    var post := if b.comp.client in s.post then s.post else s.post[b.comp.client := []];
    var pre := if Registers(b) then PreSet(s.pre, b.comp.client, b.comp.items) else s.pre;
    MergeState(s.out, pre, post)
  }

  /** Consuming item `k` of a batch: the stored iterator moves past it; a
      database item is yielded; a live or stored item is appended to `post`
      and yielded when accepted. */
  function Consume(s: MergeState, b: Batch, k: nat, accept: Completion -> bool): MergeState
    requires k < |b.comp.items|
  {
    var c := b.comp.items[k];
    var pre := if Registers(b) then PreSet(s.pre, b.comp.client, b.comp.items[k + 1..]) else s.pre;
    if b.src == FromDb then MergeState(s.out + [c], pre, s.post)
    else
      MergeState(s.out + (if accept(c) then [c] else []), pre,
                 s.post[b.comp.client := PostOf(s.post, b.comp.client) + [c]])
  }

  /** The items of a batch from `k` on, until the consumer has what it asked for. */
  function ConsumeFrom(s: MergeState, b: Batch, k: nat, accept: Completion -> bool, demand: nat): MergeState
    decreases |b.comp.items| - k
  {
    if k >= |b.comp.items| || |s.out| >= demand then s
    else ConsumeFrom(Consume(s, b, k, accept), b, k + 1, accept, demand)
  }

  /** The batches from `i` on: each is entered and consumed, unless the
      consumer has stopped or `limit` items have been counted before it. */
  function RunFrom(s: MergeState, batches: seq<Batch>, i: nat, limit: nat, accept: Completion -> bool, demand: nat)
    : MergeState
    decreases |batches| - i
  {
    if i >= |batches| || |s.out| >= demand || |s.out| >= limit then s
    else RunFrom(ConsumeFrom(Enter(s, batches[i]), batches[i], 0, accept, demand), batches, i + 1, limit, accept, demand)
  }

  lemma RunFromUnfold(s: MergeState, batches: seq<Batch>, i: nat, limit: nat, accept: Completion -> bool, demand: nat)
    requires i < |batches| && |s.out| < demand && |s.out| < limit
    ensures RunFrom(s, batches, i, limit, accept, demand)
         == RunFrom(ConsumeFrom(Enter(s, batches[i]), batches[i], 0, accept, demand), batches, i + 1, limit, accept, demand)
  {
  }

  /** `_work` as a function of the local cache it starts from: a consumer
      that takes nothing never starts the generator; otherwise an unusable
      cache empties `pre` and `post`, the stored batches are taken out of
      `pre`, and the batches run. */
  function WorkSpec(pre: Pre, post: Post, limit: nat, lookup: CacheLookup, live: seq<LspComp>, dbFirst: bool,
                    sanitize: Completion -> Option<Completion>, accept: Completion -> bool, demand: nat)
    : MergeState
  {
    if demand == 0 then MergeState([], pre, post)
    else
      var pre1 := if lookup.useCache then pre else [];
      var post1 := if lookup.useCache then post else map[];
      RunFrom(MergeState([], [], post1), Batches(pre1, lookup.cached, live, dbFirst, sanitize), 0, limit, accept, demand)
  }

  // ---------------------------------------------------------------------------
  // What the merge loop yields and leaves behind

  /** Reference definition of the output: whole batches, one after another,
      until the count before a batch reaches `limit`. The cap is checked
      between batches only, and nothing is deduplicated. */
  function Emitted(batches: seq<Batch>, i: nat, n: nat, limit: nat, accept: Completion -> bool): seq<Completion>
    decreases |batches| - i
  {
    if i >= |batches| || n >= limit then []
    else
      var y := Yielded(batches[i].src, batches[i].comp.items, accept);
      y + Emitted(batches, i + 1, n + |y|, limit, accept)
  }

  /** Number of items in the batches from `i` on. */
  function ItemCount(batches: seq<Batch>, i: nat): nat
    decreases |batches| - i
  {
    if i >= |batches| then 0 else |batches[i].comp.items| + ItemCount(batches, i + 1)
  }

  lemma ConsumeFromUnfold(s: MergeState, b: Batch, k: nat, accept: Completion -> bool, demand: nat)
    requires k < |b.comp.items| && |s.out| < demand
    ensures ConsumeFrom(s, b, k, accept, demand) == ConsumeFrom(Consume(s, b, k, accept), b, k + 1, accept, demand)
  {
  }

  /** One consumed item adds what it yields to the output. */
  lemma ConsumeOut(s: MergeState, b: Batch, k: nat, accept: Completion -> bool)
    requires k < |b.comp.items|
    ensures Consume(s, b, k, accept).out == s.out + Yielded(b.src, [b.comp.items[k]], accept)
  {
    assert [b.comp.items[k]][1..] == [];
  }

  /** Reading a batch from item `k` to its end (the consumer still wants
      more) grows the output by what those items yield. */
  lemma {:induction false} ConsumeToEndOut(s: MergeState, b: Batch, k: nat, accept: Completion -> bool, demand: nat)
    requires k <= |b.comp.items| && |s.out| + (|b.comp.items| - k) < demand
    ensures ConsumeFrom(s, b, k, accept, demand).out == s.out + Yielded(b.src, b.comp.items[k..], accept)
    decreases |b.comp.items| - k
  {
    var items := b.comp.items;
    if k < |items| {
      var c := items[k];
      var s1 := Consume(s, b, k, accept);
      ConsumeFromUnfold(s, b, k, accept, demand);
      ConsumeOut(s, b, k, accept);
      ConsumeToEndOut(s1, b, k + 1, accept, demand);
      assert items[k..] == [c] + items[k + 1..];
      YieldedAppend(b.src, [c], items[k + 1..], accept);
    } else {
      assert items[k..] == [];
    }
  }

  /** Reading a live or stored batch from item `k` to its end appends all
      of those items to `post[client]`; a database batch leaves `post` alone. */
  lemma {:induction false} ConsumeToEndPost(s: MergeState, b: Batch, k: nat, accept: Completion -> bool, demand: nat)
    requires k <= |b.comp.items| && |s.out| + (|b.comp.items| - k) < demand
    ensures ConsumeFrom(s, b, k, accept, demand).post
         == (if b.src == FromDb || k == |b.comp.items| then s.post
             else s.post[b.comp.client := PostOf(s.post, b.comp.client) + b.comp.items[k..]])
    decreases |b.comp.items| - k
  {
    var items := b.comp.items;
    var cl := b.comp.client;
    if k < |items| {
      var s1 := Consume(s, b, k, accept);
      ConsumeFromUnfold(s, b, k, accept, demand);
      ConsumeToEndPost(s1, b, k + 1, accept, demand);
      if b.src != FromDb {
        var before := PostOf(s.post, cl);
        assert s1.post == s.post[cl := before + [items[k]]];
        assert items[k..] == [items[k]] + items[k + 1..];
        if k + 1 == |items| {
          assert items[k..] == [items[k]];
        } else {
          assert PostOf(s1.post, cl) == before + [items[k]];
          assert before + [items[k]] + items[k + 1..] == before + items[k..];
        }
      }
    }
  }

  /** Reading a registered batch from item `k` to its end leaves an
      exhausted iterator in `pre`. */
  lemma {:induction false} ConsumeToEndPre(s: MergeState, b: Batch, k: nat, accept: Completion -> bool, demand: nat)
    requires k <= |b.comp.items| && |s.out| + (|b.comp.items| - k) < demand
    ensures ConsumeFrom(s, b, k, accept, demand).pre
         == (if Registers(b) && k < |b.comp.items| then PreSet(s.pre, b.comp.client, []) else s.pre)
    decreases |b.comp.items| - k
  {
    var items := b.comp.items;
    var cl := b.comp.client;
    if k < |items| {
      var s1 := Consume(s, b, k, accept);
      ConsumeFromUnfold(s, b, k, accept, demand);
      ConsumeToEndPre(s1, b, k + 1, accept, demand);
      if Registers(b) {
        assert s1.pre == PreSet(s.pre, cl, items[k + 1..]);
        PreSetTwice(s.pre, cl, items[k + 1..], []);
        if k + 1 == |items| {
          assert items[k + 1..] == [];
        }
      }
    }
  }

  /** A whole batch read by a consumer that wants more than it holds. */
  lemma BatchRead(s: MergeState, b: Batch, accept: Completion -> bool, demand: nat)
    requires |s.out| + |b.comp.items| < demand
    ensures var r := ConsumeFrom(Enter(s, b), b, 0, accept, demand);
      && r.out == s.out + Yielded(b.src, b.comp.items, accept)
      && (b.src == FromDb ==> r.post == s.post[b.comp.client := PostOf(s.post, b.comp.client)])
      && (b.src != FromDb ==> r.post == s.post[b.comp.client := PostOf(s.post, b.comp.client) + b.comp.items])
      && r.pre == (if Registers(b) then PreSet(s.pre, b.comp.client, []) else s.pre)
  {
    var e := Enter(s, b);
    ConsumeToEndOut(e, b, 0, accept, demand);
    ConsumeToEndPost(e, b, 0, accept, demand);
    ConsumeToEndPre(e, b, 0, accept, demand);
    assert b.comp.items[0..] == b.comp.items;
    var cl := b.comp.client;
    assert PostOf(e.post, cl) == PostOf(s.post, cl);
    var r := ConsumeFrom(e, b, 0, accept, demand);
    if b.src != FromDb {
      var want := s.post[cl := PostOf(s.post, cl) + b.comp.items];
      if |b.comp.items| == 0 {
        assert b.comp.items == [];
        assert PostOf(s.post, cl) + b.comp.items == PostOf(s.post, cl);
        if cl in s.post {
          assert s.post[cl := s.post[cl]] == s.post;
        }
        assert r.post == e.post == want;
      } else {
        assert r.post == e.post[cl := PostOf(s.post, cl) + b.comp.items];
        assert e.post[cl := PostOf(s.post, cl) + b.comp.items] == want;
      }
    }
    if Registers(b) {
      PreSetTwice(s.pre, b.comp.client, b.comp.items, []);
    }
  }

  /** A consumer that wants more than all batches hold receives exactly
      `Emitted`. */
  lemma {:induction false} RunOutput(s: MergeState, batches: seq<Batch>, i: nat, limit: nat,
                                     accept: Completion -> bool, demand: nat)
    requires |s.out| + ItemCount(batches, i) < demand
    ensures RunFrom(s, batches, i, limit, accept, demand).out == s.out + Emitted(batches, i, |s.out|, limit, accept)
    decreases |batches| - i
  {
    if i < |batches| && |s.out| < limit {
      var b := batches[i];
      var y := Yielded(b.src, b.comp.items, accept);
      var r := ConsumeFrom(Enter(s, b), b, 0, accept, demand);
      var rest := Emitted(batches, i + 1, |s.out| + |y|, limit, accept);
      assert r.out == s.out + y by {
        ConsumeToEndOut(Enter(s, b), b, 0, accept, demand);
        assert b.comp.items[0..] == b.comp.items;
      }
      assert RunFrom(r, batches, i + 1, limit, accept, demand).out == r.out + rest by {
        RunOutput(r, batches, i + 1, limit, accept, demand);
      }
      RunFromUnfold(s, batches, i, limit, accept, demand);
      AppendAssoc(s.out, y, rest);
    }
  }

  /** The position in a batch at which consumption from item `k` ends:
      the end of the batch, or the item after the one whose yield gave the
      consumer what it asked for. */
  function StopAt(s: MergeState, b: Batch, k: nat, accept: Completion -> bool, demand: nat): (j: nat)
    requires k <= |b.comp.items|
    ensures k <= j <= |b.comp.items|
    decreases |b.comp.items| - k
  {
    if k >= |b.comp.items| || |s.out| >= demand then k
    else StopAt(Consume(s, b, k, accept), b, k + 1, accept, demand)
  }

  lemma SliceCons<T>(s: seq<T>, k: nat, j: nat)
    requires k < j <= |s|
    ensures s[k..j] == [s[k]] + s[k + 1..j]
  {
  }

  /** Where the consumer stops inside a registered batch, `pre` holds
      exactly the items after the last one consumed. */
  lemma {:induction false} StopLeavesRemainder(s: MergeState, b: Batch, k: nat, accept: Completion -> bool,
                                               demand: nat)
    requires Registers(b) && k <= |b.comp.items|
    requires DistinctKeys(s.pre) && Lookup(s.pre, b.comp.client) == Some(b.comp.items[k..])
    ensures Lookup(ConsumeFrom(s, b, k, accept, demand).pre, b.comp.client)
         == Some(b.comp.items[StopAt(s, b, k, accept, demand)..])
    decreases |b.comp.items| - k
  {
    var items := b.comp.items;
    var cl := b.comp.client;
    if k < |items| && |s.out| < demand {
      var s1 := Consume(s, b, k, accept);
      assert ConsumeFrom(s, b, k, accept, demand) == ConsumeFrom(s1, b, k + 1, accept, demand) by {
        ConsumeFromUnfold(s, b, k, accept, demand);
      }
      assert StopAt(s, b, k, accept, demand) == StopAt(s1, b, k + 1, accept, demand);
      assert DistinctKeys(s1.pre) && Lookup(s1.pre, cl) == Some(items[k + 1..]) by {
        PreSetLookup(s.pre, cl, items[k + 1..]);
      }
      StopLeavesRemainder(s1, b, k + 1, accept, demand);
    }
  }

  /** Up to where the consumer stops, the output grows by what the consumed
      items yield. */
  lemma {:induction false} StopOutput(s: MergeState, b: Batch, k: nat, accept: Completion -> bool, demand: nat)
    requires k <= |b.comp.items|
    ensures ConsumeFrom(s, b, k, accept, demand).out
         == s.out + Yielded(b.src, b.comp.items[k..StopAt(s, b, k, accept, demand)], accept)
    decreases |b.comp.items| - k
  {
    var items := b.comp.items;
    if k >= |items| || |s.out| >= demand {
      assert items[k..k] == [];
    } else {
      var s1 := Consume(s, b, k, accept);
      var j := StopAt(s1, b, k + 1, accept, demand);
      var r := ConsumeFrom(s1, b, k + 1, accept, demand);
      assert ConsumeFrom(s, b, k, accept, demand) == r by {
        ConsumeFromUnfold(s, b, k, accept, demand);
      }
      assert StopAt(s, b, k, accept, demand) == j;
      var y1 := Yielded(b.src, [items[k]], accept);
      var y2 := Yielded(b.src, items[k + 1..j], accept);
      assert s1.out == s.out + y1 by {
        ConsumeOut(s, b, k, accept);
      }
      assert Yielded(b.src, items[k..j], accept) == y1 + y2 by {
        SliceCons(items, k, j);
        YieldedAppend(b.src, [items[k]], items[k + 1..j], accept);
      }
      StopOutput(s1, b, k + 1, accept, demand);
      calc {
        r.out;
        s1.out + y2;
        (s.out + y1) + y2;
        s.out + (y1 + y2);
      }
    }
  }

  /** The consumer stops short of a batch's end only when it has what it
      asked for. */
  lemma {:induction false} StopOnlyOnDemand(s: MergeState, b: Batch, k: nat, accept: Completion -> bool, demand: nat)
    requires k <= |b.comp.items|
    ensures StopAt(s, b, k, accept, demand) < |b.comp.items| ==> |ConsumeFrom(s, b, k, accept, demand).out| >= demand
    decreases |b.comp.items| - k
  {
    if k < |b.comp.items| && |s.out| < demand {
      var s1 := Consume(s, b, k, accept);
      assert ConsumeFrom(s, b, k, accept, demand) == ConsumeFrom(s1, b, k + 1, accept, demand) by {
        ConsumeFromUnfold(s, b, k, accept, demand);
      }
      StopOnlyOnDemand(s1, b, k + 1, accept, demand);
    }
  }

  /** The cap never cuts a batch short: `Emitted` holds fewer than `limit`
      items plus the size of the largest batch. */
  lemma {:induction false} OvershootBelowOneBatch(batches: seq<Batch>, i: nat, n: nat, limit: nat,
                                                  accept: Completion -> bool, most: nat)
    requires n < limit
    requires forall j :: i <= j < |batches| ==> |batches[j].comp.items| <= most
    ensures n + |Emitted(batches, i, n, limit, accept)| < limit + most
    decreases |batches| - i
  {
    if i < |batches| {
      var y := Yielded(batches[i].src, batches[i].comp.items, accept);
      if n + |y| < limit {
        OvershootBelowOneBatch(batches, i + 1, n + |y|, limit, accept, most);
      }
    }
  }

  /** A batch that starts below the cap is yielded whole, however many of
      its items pass the cap. */
  lemma WholeBatchPastLimit(batches: seq<Batch>, i: nat, n: nat, limit: nat, accept: Completion -> bool)
    requires i < |batches| && n < limit
    ensures Yielded(batches[i].src, batches[i].comp.items, accept) <= Emitted(batches, i, n, limit, accept)
  {
  }

  /** The worker does not deduplicate: a database batch holding the same
      completion twice yields it twice, even under a cap of one. */
  lemma NoDeduplication(c: Completion, accept: Completion -> bool)
    ensures Emitted([Batch(FromDb, LspComp(None, false, [c, c], false))], 0, 0, 1, accept) == [c, c]
  {
    var batches := [Batch(FromDb, LspComp(None, false, [c, c], false))];
    assert Emitted(batches, 1, 2, 1, accept) == [];
  }

  // ---------------------------------------------------------------------------
  // The warmer's writes

  /** One `set_cache({client: chunk})` write per chunk. */
  function WritesOf(client: Option<string>, chunks: seq<seq<Completion>>): (w: seq<Post>)
    ensures |w| == |chunks|
    ensures forall t :: 0 <= t < |chunks| ==> w[t] == map[client := chunks[t]]
  {
    if |chunks| == 0 then [] else [map[client := chunks[0]]] + WritesOf(client, chunks[1..])
  }

  /** `batched(items, CACHE_CHUNK)` written one chunk per `set_cache` call. */
  function ClientWrites(client: Option<string>, items: seq<Completion>): (w: seq<Post>)
    ensures |w| == |Chunks(items, CACHE_CHUNK)|
  {
    WritesOf(client, Chunks(items, CACHE_CHUNK))
  }

  /** Every write names only its client and carries 1 to `CACHE_CHUNK`
      items; write `t` carries chunk `t`, and the chunks together are the
      client's items, in order. */
  lemma ClientWritesCover(client: Option<string>, items: seq<Completion>)
    ensures forall t :: 0 <= t < |ClientWrites(client, items)| ==>
      ClientWrites(client, items)[t].Keys == {client}
      && ClientWrites(client, items)[t][client] == Chunks(items, CACHE_CHUNK)[t]
      && 1 <= |ClientWrites(client, items)[t][client]| <= CACHE_CHUNK
    ensures Flatten(Chunks(items, CACHE_CHUNK)) == items
  {
    ChunksSpec(items, CACHE_CHUNK);
  }

  /** The chunked writes for the first `j` entries of `pre`, skipping those
      for which the work lock was seen held. */
  function PreWrites(pre: Pre, locked: seq<bool>, j: nat): seq<Post>
    requires j <= |pre| && |locked| == |pre|
  {
    if j == 0 then []
    else PreWrites(pre, locked, j - 1) + (if locked[j - 1] then [] else ClientWrites(pre[j - 1].0, pre[j - 1].1))
  }

  /** A single-client write of 1 to `CACHE_CHUNK` items. */
  predicate ChunkWrite(w: Post) {
    |w.Keys| == 1 && forall c :: c in w ==> 1 <= |w[c]| <= CACHE_CHUNK
  }

  /** Every chunked write carries one client and 1 to `CACHE_CHUNK` items. */
  lemma {:induction false} PreWritesChunked(pre: Pre, locked: seq<bool>, j: nat)
    requires j <= |pre| && |locked| == |pre|
    ensures forall t :: 0 <= t < |PreWrites(pre, locked, j)| ==> ChunkWrite(PreWrites(pre, locked, j)[t])
  {
    if j > 0 {
      PreWritesChunked(pre, locked, j - 1);
      var before := PreWrites(pre, locked, j - 1);
      var client := pre[j - 1].0;
      var added := if locked[j - 1] then [] else ClientWrites(client, pre[j - 1].1);
      ClientWritesCover(client, pre[j - 1].1);
      forall t | 0 <= t < |added| ensures ChunkWrite(added[t]) {
        assert added[t].Keys == {client};
      }
      assert PreWrites(pre, locked, j) == before + added;
    }
  }

  /** The writes for one more entry come after those before it. */
  lemma PreWritesStep(pre: Pre, locked: seq<bool>, j: nat, writes0: seq<Post>)
    requires j < |pre| && |locked| == |pre|
    ensures writes0 + PreWrites(pre, locked, j + 1)
         == writes0 + PreWrites(pre, locked, j) + (if locked[j] then [] else ClientWrites(pre[j].0, pre[j].1))
  {
    assert PreWrites(pre, locked, j + 1)
        == PreWrites(pre, locked, j) + (if locked[j] then [] else ClientWrites(pre[j].0, pre[j].1));
  }

  /** `pre` after the warmer: the entries it wrote hold exhausted iterators. */
  function Drained(pre: Pre, locked: seq<bool>, j: nat): (r: Pre)
    requires |locked| == |pre|
    ensures |r| == |pre|
    ensures forall i :: 0 <= i < |pre| ==> r[i].0 == pre[i].0
    ensures forall i :: 0 <= i < |pre| ==> r[i].1 == if i < j && !locked[i] then [] else pre[i].1
  {
    if |pre| == 0 then []
    else
      var n := |pre| - 1;
      Drained(pre[..n], locked[..n], j) + [if n < j && !locked[n] then (pre[n].0, []) else pre[n]]
  }

  /** Draining keeps the keys, and so keeps them distinct. */
  lemma DrainedDistinct(pre: Pre, locked: seq<bool>, j: nat)
    requires DistinctKeys(pre) && |locked| == |pre|
    ensures DistinctKeys(Drained(pre, locked, j))
  {
  }

  /** Draining entry `j` is storing an exhausted iterator under its client. */
  lemma DrainedStep(pre: Pre, locked: seq<bool>, j: nat)
    requires DistinctKeys(pre) && |locked| == |pre| && j < |pre| && !locked[j]
    ensures DistinctKeys(Drained(pre, locked, j))
    ensures PreSet(Drained(pre, locked, j), pre[j].0, []) == Drained(pre, locked, j + 1)
  {
    var d := Drained(pre, locked, j);
    IndexOfUnique(d, pre[j].0, j);
  }

  /** An entry skipped under the lock is left as it was. */
  lemma DrainedSkip(pre: Pre, locked: seq<bool>, j: nat)
    requires |locked| == |pre| && j < |pre| && locked[j]
    ensures Drained(pre, locked, j + 1) == Drained(pre, locked, j)
  {
  }

  /** `cont()` of `_poll`: when the work lock is free, `post` is written
      whole, then each `pre` entry in chunks, unless the lock is seen held
      just before that entry (`locked[j]`). */
  function WarmWrites(pre: Pre, post: Post, lockedAtStart: bool, locked: seq<bool>): seq<Post>
    requires |locked| == |pre|
  {
    if lockedAtStart then [] else [post] + PreWrites(pre, locked, |pre|)
  }

  /** `for chunked in batched(items, n=CACHE_CHUNK): set_cache({client: chunked})`:
      the writes made, appended to those before. */
  method WriteChunks(client: Option<string>, items: seq<Completion>, writes0: seq<Post>) returns (writes: seq<Post>)
    ensures writes == writes0 + ClientWrites(client, items)
  {
    var chunks := Chunks(items, CACHE_CHUNK);
    ghost var cw := ClientWrites(client, items);
    writes := writes0;
    var t := 0;
    while t < |chunks|
      invariant t <= |chunks|
      invariant writes == writes0 + cw[..t]
    {
      writes := writes + [map[client := chunks[t]]];
      assert cw[..t + 1] == cw[..t] + [map[client := chunks[t]]];
      t := t + 1;
    }
    assert cw[..t] == cw;
  }

  /** The inner loop of `_work` over one entered batch: each item moves
      the stored iterator past it, and is yielded and counted, or (live and
      stored items) appended to `post` and yielded and counted when
      accepted, until the consumer has what it asked for. */
  method ReadBatch(b: Batch, accept: Completion -> bool, demand: nat,
                   out0: seq<Completion>, pre0: Pre, post0: Post, seen0: nat)
    returns (out: seq<Completion>, pre: Pre, post: Post, seen: nat)
    requires DistinctKeys(pre0) && b.comp.client in post0 && seen0 == |out0|
    ensures DistinctKeys(pre) && seen == |out|
    ensures MergeState(out, pre, post) == ConsumeFrom(MergeState(out0, pre0, post0), b, 0, accept, demand)
  {
    var client := b.comp.client;
    var register := b.comp.localCache && b.src != FromDb;
    out, pre, post, seen := out0, pre0, post0, seen0;
    var k := 0;
    while k < |b.comp.items| && |out| < demand
      invariant k <= |b.comp.items|
      invariant seen == |out|
      invariant DistinctKeys(pre) && client in post
      invariant ConsumeFrom(MergeState(out, pre, post), b, k, accept, demand)
             == ConsumeFrom(MergeState(out0, pre0, post0), b, 0, accept, demand)
      decreases |b.comp.items| - k
    {
      var c := b.comp.items[k];
      ConsumeFromUnfold(MergeState(out, pre, post), b, k, accept, demand);
      ghost var next := Consume(MergeState(out, pre, post), b, k, accept);
      if register {
        pre := PreSet(pre, client, b.comp.items[k + 1..]);
      }
      if b.src == FromDb {
        seen := seen + 1;
        out := out + [c];
      } else {
        post := post[client := post[client] + [c]];
        if accept(c) {
          seen := seen + 1;
          out := out + [c];
        }
      }
      assert MergeState(out, pre, post) == next;
      k := k + 1;
    }
  }

  /** One client of the loop of `cont()`: unless it was seen locked, its
      items are written in chunks and its iterator exhausted. */
  method DrainOne(acc: Pre, locked: seq<bool>, j: nat, writes0: seq<Post>, w: seq<Post>, pre0: Pre)
    returns (writes: seq<Post>, pre: Pre)
    requires DistinctKeys(acc) && |locked| == |acc| && j < |acc|
    requires w == writes0 + PreWrites(acc, locked, j) && pre0 == Drained(acc, locked, j)
    ensures writes == writes0 + PreWrites(acc, locked, j + 1)
    ensures pre == Drained(acc, locked, j + 1)
  {
    var client := acc[j].0;
    PreWritesStep(acc, locked, j, writes0);
    if !locked[j] {
      writes := WriteChunks(client, acc[j].1, w);
      DrainedStep(acc, locked, j);
      pre := PreSet(pre0, client, []);
    } else {
      writes := w;
      DrainedSkip(acc, locked, j);
      pre := pre0;
    }
  }

  /** The loop of `cont()` over `pre`: each client not seen locked has its
      items written in chunks and its iterator exhausted. */
  method DrainPre(acc: Pre, locked: seq<bool>, writes0: seq<Post>) returns (writes: seq<Post>, pre: Pre)
    requires DistinctKeys(acc) && |locked| == |acc|
    ensures writes == writes0 + PreWrites(acc, locked, |acc|)
    ensures pre == Drained(acc, locked, |acc|)
  {
    writes, pre := writes0, acc;
    var j := 0;
    assert Drained(acc, locked, 0) == acc;
    while j < |acc|
      invariant j <= |acc|
      invariant writes == writes0 + PreWrites(acc, locked, j)
      invariant pre == Drained(acc, locked, j)
    {
      writes, pre := DrainOne(acc, locked, j, writes0, writes, pre);
      j := j + 1;
    }
  }

  /** One pass of the merge loop: `post.setdefault(client, [])`, the batch
      stored in `pre` when it registers, and its items read. */
  method MergeBatch(b: Batch, accept: Completion -> bool, demand: nat,
                    out0: seq<Completion>, pre0: Pre, post0: Post, seen0: nat)
    returns (out: seq<Completion>, pre: Pre, post: Post, seen: nat)
    requires DistinctKeys(pre0) && seen0 == |out0|
    ensures DistinctKeys(pre) && seen == |out|
    ensures MergeState(out, pre, post) == ConsumeFrom(Enter(MergeState(out0, pre0, post0), b), b, 0, accept, demand)
  {
    var client := b.comp.client;
    var post1 := post0;
    if client !in post1 {
      post1 := post1[client := []];
    }
    var pre1 := pre0;
    var register := b.comp.localCache && b.src != FromDb;
    if register {
      pre1 := PreSet(pre1, client, b.comp.items);
    }
    assert MergeState(out0, pre1, post1) == Enter(MergeState(out0, pre0, post0), b);
    out, pre, post, seen := ReadBatch(b, accept, demand, out0, pre1, post1, seen0);
  }

  /** The merge loop of `_work` over the batches, starting from an empty
      `pre` and the given `post`: the count is checked against `limit`
      before each batch. */
  method Merge(batches: seq<Batch>, limit: nat, accept: Completion -> bool, demand: nat, post0: Post)
    returns (out: seq<Completion>, pre: Pre, post: Post)
    ensures DistinctKeys(pre)
    ensures MergeState(out, pre, post) == RunFrom(MergeState([], [], post0), batches, 0, limit, accept, demand)
  {
    out, pre, post := [], [], post0;
    var seen := 0;
    var i := 0;
    while i < |batches| && |out| < demand
      invariant i <= |batches|
      invariant seen == |out|
      invariant DistinctKeys(pre)
      invariant RunFrom(MergeState(out, pre, post), batches, i, limit, accept, demand)
             == RunFrom(MergeState([], [], post0), batches, 0, limit, accept, demand)
      decreases |batches| - i
    {
      if seen >= limit {
        break;
      }
      RunFromUnfold(MergeState(out, pre, post), batches, i, limit, accept, demand);
      out, pre, post, seen := MergeBatch(batches[i], accept, demand, out, pre, post, seen);
      i := i + 1;
    }
  }

  // ---------------------------------------------------------------------------
  // The worker

  class Worker {
    var pre: Pre
    var post: Post

    ghost predicate Valid()
      reads this
    {
      DistinctKeys(pre)
    }

    /** `_LocalCache()`: both maps empty. */
    constructor()
      ensures Valid() && pre == [] && post == map[]
    {
      pre := [];
      post := map[];
    }

    /** `_work`: the request is made; a cache the database reports unusable
        is emptied; the batches are merged, counting database items and
        accepted live or stored items against the limit before each batch;
        live and stored items all go to `post`; a cacheable live or stored
        batch is stored in `pre` as it is consumed. The result is what the
        consumer received before it stopped. */
    method Work(q: Query, m: MatchOptions, biggest: nat, lookup: CacheLookup, replies: seq<LspRequest.Client>,
                dbFirst: bool, sanitize: Completion -> Option<Completion>, cwordOf: string -> string,
                ratio: (string, string) -> real, demand: nat)
      returns (out: seq<Completion>)
      requires Valid()
      modifies this
      ensures Valid()
      ensures var r := WorkSpec(old(pre), old(post), Limit(q.manual, m, biggest), lookup,
                                Request(q, m, lookup.cachedClients, replies).1.results, dbFirst, sanitize,
                                Accept(m, cwordOf, ratio), demand);
        out == r.out && pre == r.pre && post == r.post
    {
      if demand == 0 {
        return [];
      }
      if !lookup.useCache {
        pre := [];
        post := map[];
      }
      var live := Request(q, m, lookup.cachedClients, replies).1.results;
      var batches := Batches(pre, lookup.cached, live, dbFirst, sanitize);
      out, pre, post := Merge(batches, Limit(q.manual, m, biggest), Accept(m, cwordOf, ratio), demand, post);
    }

    /** `cont()` of `_poll`: the writes it makes, in order. The lock is
        observed once before anything is written and once before each
        client (`locked[j]`), never between the chunks of one client. Every
        client written has its iterator exhausted. */
    method Warm(lockedAtStart: bool, locked: seq<bool>) returns (writes: seq<Post>)
      requires Valid() && |locked| == |pre|
      modifies this
      ensures Valid()
      ensures writes == WarmWrites(old(pre), old(post), lockedAtStart, locked)
      ensures post == old(post)
      ensures pre == if lockedAtStart then old(pre) else Drained(old(pre), locked, |old(pre)|)
    {
      if lockedAtStart {
        return [];
      }
      writes, pre := DrainPre(pre, locked, [post]);
      DrainedDistinct(old(pre), locked, |old(pre)|);
    }
  }
}
