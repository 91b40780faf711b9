# coq-nvim completion pipeline: a Dafny model

This project models the core of coq-nvim's completion pipeline, the Python side of the Neovim completion plugin. It covers the stages below, one Dafny module per source file.

- LSP request multiplexing (`LspRequest`): per-channel generation ids, the notify/ingest rule, the drain loop and the paginator.
- Decoding LSP and inline completion replies into `Completion` records (`LspParse`, `LspCompletion`).
- The LSP and inline workers that merge cached and live items (`LspWorker`, `InlineWorker`).
- Ranking tail and menu layout (`ServerTrans`).
- Turning the chosen item into buffer edit instructions: row fetching, contextual and range translation, conflict consolidation, row and column shifting, cursor placement (`ServerEdit`).
- The completion entry points and gates (`Omnifunc`).
- Snippet mark navigation (`Marks`).
- Snippet file loading (`SnippetLoad`).

The shared types are in `SharedTypes`, `LspTypes` and `Json`. Generic helpers are in `Wrappers`, `Text` and `Seqs`.

A few conventions hold throughout.

- Python exceptions become `Result` values.
- Collaborators whose code is not part of this model become function-typed parameters. These are the dataclass decoders, fuzzy ratios, cache workers, snippet parsers, directory walks, the Neovim API and UUID generation.
- Asynchronous generators become finite sequences.
- Mutable objects that the source updates in place become classes: `LspRequest.Registry`, `LspWorker.Worker` and `Omnifunc.ServerState`.
- Loops become methods proved against a prefix-recursive specification function. Lemmas then state what that function means.

## Model

| member | source | states |
|---|---|---|
| `SharedTypes.EncodingName` | coq/shared/types.py:18-22 | each encoding is one of the literals "UTF-8", "UTF-16-LE", "UTF-32-LE" |
| `SharedTypes.ByteTrans` | coq/shared/types.py:32-36 | `BYTE_TRANS` gives 1, 2 or 4 bytes per code unit |
| `SharedTypes.EncodingsDistinct` | coq/shared/types.py:18-36 | the literal and the byte width each tell the three encodings apart |
| `SharedTypes.MkContextualEdit` | coq/shared/types.py:113-121 | a contextual edit built without `old_suffix` has an empty one; the other fields are as given |
| `SharedTypes.MkCompletion` | coq/shared/types.py:189-205 | `Completion` defaults: no secondary edits, not preselected, empty kind, no doc, no extern |
| `LspTypes.NewCompletionItem` | coq/lsp/types.py:82-105 | a `CompletionItem` built from a label alone has every other field absent |
| `LspTypes.NoItemDefaults` | coq/lsp/types.py:107-113 | `ItemDefaults()` has an empty commit-character set and no other default |
| `LspTypes.ShapeOf` | coq/lsp/types.py:122-124 | a completion response is exactly one of: null-like (`_falsy`), an item sequence, a completion list mapping, or an unknown shape |
| `Json.FalsyIsFalsinessButContainers` | coq/lsp/parse.py:51-52 | `_falsy` is Python falsiness except that an empty list or mapping is not `_falsy` |
| `Json.Elements` | coq/lsp/parse.py:386-390 | iterating a sequence value yields a list's elements, or one element per character of a `str` or byte of a `bytes` |
| `Json.Get` | coq/lsp/parse.py:359-361 | `resp.get(key)` is the stored value when the key is present, `None` otherwise |
| `Json.SetDefault` | coq/lsp/parse.py:66-69 | `setdefault` adds the key when absent and changes no existing entry |
| `LspParse.WithDefaults` | coq/lsp/parse.py:64-77 | a non-mapping item is returned unchanged; a mapping stays a mapping |
| `LspParse.WithDefaultsKeys` | coq/lsp/parse.py:66-74 | the keys after `_with_defaults` are the item's plus the three defaults, plus `textEdit` exactly when one is synthesised |
| `LspParse.WithDefaultsKeeps` | coq/lsp/parse.py:66-74 | no key the item already has is overwritten |
| `LspParse.WithDefaultsFills` | coq/lsp/parse.py:66-69 | an absent `insertTextFormat`, `insertTextMode` or `data` takes the list's default |
| `LspParse.WithDefaultsTextEdit` | coq/lsp/parse.py:71-74 | a synthesised `textEdit` carries `insertText or label` and every field of the default edit range |
| `LspParse.RangeEditOf` | coq/lsp/parse.py:80-120 | `_range_edit` picks the cursor column of the edit's encoding and the range of each text-edit shape (`replace` for insert-replace edits) |
| `LspParse.Primary` | coq/lsp/parse.py:123-160 | the four edit kinds correspond one-to-one to (snippet format?, textEdit present?); plain edits insert `insertText or label`; range edits keep `insertText` as fallback |
| `LspParse.AdjustIndentOfPrimary` | coq/lsp/parse.py:163-166 | indentation is adjusted iff there is no `textEdit` and the mode is 2 or the edit is a snippet |
| `LspParse.DocOf` | coq/lsp/parse.py:169-177 | markup documentation first, then string documentation, then a non-empty `detail`; none exactly when all are missing |
| `LspParse.InlinePrimary` | coq/lsp/parse.py:180-221 | the inline edit kind is decided by the `insertText` shape and the presence of `range`; range edits carry no fallback |
| `LspParse.OnTop` | coq/lsp/parse.py:244-248 | `always_on_top` None means never, an empty set means always, otherwise client membership decides |
| `LspParse.SecondaryEdits` | coq/lsp/parse.py:256-261 | one range edit per additional text edit, with cursor (-1, -1, -1, -1) and no fallback |
| `LspParse.LabelOf` | coq/lsp/parse.py:249-253 | the label is `label` extended by `labelDetails.detail`; the original label is a prefix |
| `LspParse.ParseItem` | coq/lsp/parse.py:224-286 | a falsy or undecodable item yields nothing; otherwise every `Completion` field is as `parse_item` sets it, including the `filterText` / label / primary-text choice of `sort_by` |
| `LspParse.PlainItemSortsByInsertText` | coq/lsp/parse.py:262-264 | an item with no `filterText`, no `textEdit` and no snippet format sorts and inserts by `insertText or label` |
| `LspParse.ParseItems` | coq/lsp/parse.py:367-383 | the lazy item stream yields at most one completion per element, all with the client's name and a non-inline LSP/Lua extern, one per element when all parse |
| `LspParse.ParseItemsFrom` | coq/lsp/parse.py:367-383 | every completion of the stream is what `parse_item` makes of some element with the list's defaults |
| `LspParse.ParseItemsKeeps` | coq/lsp/parse.py:367-383 | every element that `parse_item` turns into a completion contributes that completion |
| `LspParse.ParseItemsAppend` | coq/lsp/parse.py:367-383 | the elements are parsed in order: the stream of a concatenation is the first part's stream followed by the second's |
| `LspParse.Parse` | coq/lsp/parse.py:344-409 | the caching flag and the item stream for each response shape: a completion list's items are `ParseItems` of its `items` under the decoded defaults, or `ItemDefaults()` when they decode to nothing, and a bare sequence's items are `ParseItems` under `ItemDefaults()`; only a failing `itemDefaults` decode raises |
| `LspParse.ParseInlineItem` | coq/lsp/parse.py:289-341 | inline items: every parsed item carries the short name and an inline extern naming the client; the label is the stripped first line, `sort_by` is `filterText or` that line, the kind is "Snippet" or "Text"; an item whose text is empty raises on unpacking |
| `LspParse.FirstRaise` | coq/lsp/parse.py:431-447 | the position of the first item whose `parse_inline_item` raises: every item before it parses without raising, the item at it raises, and it is the length exactly when no item raises |
| `LspParse.ParseInlineItems` | coq/lsp/parse.py:431-447 | the inline stream holds at most one completion per item before the first raising item, each carrying the source's short name and an inline, non-path extern naming the client; the raised flag is exactly `AnyRaises` |
| `LspParse.ParseInlineItemsFrom` | coq/lsp/parse.py:431-447 | every completion of the inline stream is what an item before the first raising one parses to, under that item's uid |
| `LspParse.ParseInlineItemsKeeps` | coq/lsp/parse.py:431-447 | every item before the first raising one that parses to a completion contributes it |
| `LspParse.ParseInlineItemsAppend` | coq/lsp/parse.py:431-447 | after items that all parse without raising, the stream continues with the stream of the rest, numbered on from them, and raises exactly when the rest does: items are parsed in order |
| `LspParse.AnyRaisesExists` | coq/lsp/parse.py:431-447 | the stream reports a raise exactly when some element raises |
| `LspParse.ParseInline` | coq/lsp/parse.py:412-472 | `parse_inline` never caches locally; a falsy, unknown or item-less response yields nothing; a mapping whose `items` is a sequence, and a bare sequence, yield exactly the inline stream (`ParseInlineItems`) of those items, with its raised flag |
| `LspCompletion.ReplyContext` | coq/lsp/requests/completion.py:20-31 | each reply is decoded under its own client name and offset encoding, with the editor's cursors |
| `LspCompletion.ParseStream` | coq/lsp/requests/completion.py:20-33 | one `parse` result per reply, in order, up to the first reply whose defaults fail to decode |
| `LspCompletion.ParseInlineStream` | coq/lsp/requests/completion.py:46-61 | exactly one `parse_inline` result per reply, none cached locally |
| `LspCompletion.CompLsp` | coq/lsp/requests/completion.py:10-33 | `comp_lsp` requests "lsp_comp" with the page width, excluded clients and cursor, and decodes each reply with the LSP extern type |
| `LspCompletion.CompLspInline` | coq/lsp/requests/completion.py:36-61 | `comp_lsp_inline` requests "lsp_inline_comp"; one uncached result per reply, each `parse_inline` of the reply's message under the reply's client name and encoding with the LSP extern |
| `LspCompletion.CompThirdparty` | coq/lsp/requests/completion.py:64-90 | `comp_thirdparty` requests "lsp_third_party" with the current line; replies decode with the Lua extern type under `client.name or short_name` |
| `LspCompletion.CompThirdpartyInline` | coq/lsp/requests/completion.py:93-119 | `comp_thirdparty_inline` requests "lsp_inline_third_party"; one uncached result per reply, each `parse_inline` of the reply's message with the fallback name as client, the configured short name and the LSP extern |
| `LspRequest.ResolveEncoding` | coq/lsp/requests/request.py:118-119 | a declared "utf8" or "utf32" (after case folding and hyphen removal) selects that encoding; anything else, or nothing, is UTF-16 |
| `LspRequest.EncodingCaseAndHyphenInsensitive` | coq/lsp/requests/request.py:118-119 | lower-casing a declaration or removing its hyphens does not change the resolved encoding |
| `LspRequest.Peers` | coq/lsp/requests/request.py:122 | the peers are exactly the non-empty client names of the payload |
| `LspRequest.EntryOf` | coq/lsp/requests/request.py:120-131 | an accepted reply's entry carries its client name, resolved encoding, peers, message and multipart count |
| `LspRequest.Ingested` | coq/lsp/requests/request.py:113-140 | a stale reply leaves the session; a same-uid reply appends after the accumulated entries; a newer reply starts a fresh accumulator; `done` comes from the reply; the start instant is kept |
| `LspRequest.EntriesOf` | coq/lsp/requests/request.py:120-131 | one entry per reply of a batch, in order |
| `LspRequest.ReplaySameUid` | coq/lsp/requests/request.py:117-140 | replies for the session's own uid accumulate in arrival order, and the last one decides `done` |
| `LspRequest.StaleRepliesAreInert` | coq/lsp/requests/request.py:117 | replies older than the session never change it |
| `LspRequest.Window` | coq/lsp/requests/request.py:92-96 | the bridge answers a request for items `lo..hi` with at most `hi - lo + 1` items |
| `LspRequest.Pages` | coq/lsp/requests/request.py:86-105 | a multipart reply splits into at least one page |
| `LspRequest.PagesShape` | coq/lsp/requests/request.py:97-105 | every page but the last is full and the last is short, which is what ends the loop |
| `LspRequest.PagesFlatten` | coq/lsp/requests/request.py:86-105 | concatenating the pages gives back the reply: paging loses and reorders nothing |
| `LspRequest.ExactMultipleEndsEmpty` | coq/lsp/requests/request.py:99-105 | a reply whose length is a multiple of the page width costs one extra, empty page |
| `LspRequest.PullStep` | coq/lsp/requests/request.py:91-105 | the window at `lo` is the first page of the remaining reply, followed by the rest when the window is full |
| `LspRequest.PagesAdvance` | coq/lsp/requests/request.py:91-105 | after a short window the pages are complete; after a full one the remaining pages start `n` items further |
| `LspRequest.PullAdvance` | coq/lsp/requests/request.py:91-105 | one round of the paginator serves the next window and keeps the loop invariant until a short window ends it |
| `LspRequest.PullRound` | coq/lsp/requests/request.py:91-105 | one paginator round records its request and page, advances `lo` by `n`, and a short page completes the reply |
| `LspRequest.Pull` | coq/lsp/requests/request.py:86-105 | `_lsp_pull` requests windows `(i*n+1, i*n+n)` in turn and yields exactly the reply's pages |
| `LspRequest.WithPage` | coq/lsp/requests/request.py:182-188 | a page replaces the `items` of a mapping message that has a sequence there, and replaces the whole message otherwise; the rest of the client is kept |
| `LspRequest.Expansion` | coq/lsp/requests/request.py:176-190 | a drained entry yields its client, or one client per page when it is multipart |
| `LspRequest.Registry.constructor` | coq/lsp/requests/request.py:71-77 | no channel has a session or has used a generation id |
| `LspRequest.Registry.Begin` | coq/lsp/requests/request.py:156-159 | each request takes its channel's next generation id (0, 1, 2, …) and installs a fresh session, leaving other channels alone |
| `LspRequest.Registry.Ingest` | coq/lsp/requests/request.py:109-143 | `_lsp_notify` stores `Ingested` for an accepted reply and leaves the registry unchanged otherwise |
| `LspRequest.Registry.DrainStep` | coq/lsp/requests/request.py:170-201 | the own session's entries are popped newest first; a done session is removed and ends the request; another generation ends it with nothing; no session waits |
| `LspRequest.Registry.AfterWake` | coq/lsp/requests/request.py:203-208 | after a wake-up the request stops exactly when its channel holds another generation's session |
| `LspRequest.Deliver` | coq/lsp/requests/request.py:176-190 | the clients yielded for drained entries are their expansions, concatenated in order |
| `LspWorker.UseComp` | coq/clients/lsp/worker.py:40-64 | an item is used exactly when its sort text plus the look-ahead reaches the length of the word before the cursor, the ratio reaches the cutoff, and it is a snippet, carries secondary edits or an extern record, or is not already a prefix of that word |
| `LspWorker.UseCompCutoffMonotone` | coq/clients/lsp/worker.py:56 | raising the fuzzy cutoff can only reject more items |
| `LspWorker.TypedPlainTextRejected` | coq/clients/lsp/worker.py:56-61 | a plain-text item whose text the user has already typed is never offered |
| `LspWorker.Accept` | coq/clients/lsp/worker.py:40-55 | per request, `_use_comp` is applied with the word before the cursor and the fuzzy ratio computed from the item's sort text |
| `LspWorker.Limit` | coq/clients/lsp/worker.py:129 | the cap is the largest SQLite integer for a manual request and `max_results` otherwise |
| `LspWorker.Request` | coq/clients/lsp/worker.py:96-106 | `_request` asks "lsp_comp" with page width `2 * max_results`, excluding the cached clients unless the request is manual |
| `LspWorker.IndexOf` | coq/clients/lsp/worker.py:69-71 | the position of a client's entry in the insertion-ordered `pre` mapping, or its length when absent |
| `LspWorker.PreSet` | coq/clients/lsp/worker.py:182 | `pre[client] = items` keeps the position of an existing key, adds a new one last, and keeps keys distinct |
| `LspWorker.PreSetShape` | coq/clients/lsp/worker.py:182 | every key keeps its position and every other client's entry is untouched |
| `LspWorker.PreSetLookup` | coq/clients/lsp/worker.py:182 | afterwards the client looks up `items` and every other client what it looked up before |
| `LspWorker.PreSetTwice` | coq/clients/lsp/worker.py:182 | storing twice under one client keeps only the second value |
| `LspWorker.StoredBatches` | coq/clients/lsp/worker.py:150-165 | one cacheable batch per stored client, in insertion order, holding the items that survive `sanitize_cached` |
| `LspWorker.QueryBatches` | coq/clients/lsp/worker.py:171-172 | one query batch per remaining live result |
| `LspWorker.Batches` | coq/clients/lsp/worker.py:149-172 | `stream()` yields the stored batches, then the database batch and the first live batch in completion order, then the remaining live batches |
| `LspWorker.YieldedMembers` | coq/clients/lsp/worker.py:184-197 | a database batch yields all of its items; a live or stored batch exactly those `_use_comp` accepts |
| `LspWorker.YieldedAppend` | coq/clients/lsp/worker.py:184-197 | what a batch yields is decided item by item |
| `LspWorker.ConsumeToEndOut` | coq/clients/lsp/worker.py:184-197 | reading a batch to its end grows the output by what its items yield |
| `LspWorker.ConsumeToEndPost` | coq/clients/lsp/worker.py:179-189 | reading a live or stored batch to its end appends all its items to `post[client]`; a database batch leaves `post` alone |
| `LspWorker.ConsumeToEndPre` | coq/clients/lsp/worker.py:181-184 | reading a cacheable batch to its end leaves an exhausted iterator in `pre` |
| `LspWorker.BatchRead` | coq/clients/lsp/worker.py:179-197 | a batch read to its end adds what it yields to the output, appends its items to `post[client]` unless it comes from the database, and leaves an exhausted iterator in `pre` when it is cacheable |
| `LspWorker.RunOutput` | coq/clients/lsp/worker.py:174-197 | a consumer that keeps asking receives `Emitted`: each batch entered while fewer than `limit` items were yielded, whole |
| `LspWorker.StopAt` | coq/clients/lsp/worker.py:184-197 | consumption of a batch stops at its end or right after the item that satisfied the consumer |
| `LspWorker.StopLeavesRemainder` | coq/clients/lsp/worker.py:182-189 | when the consumer stops inside a cacheable batch, `pre` holds exactly the items after the last one consumed |
| `LspWorker.StopOutput` | coq/clients/lsp/worker.py:184-197 | up to the stop, the output grows by what the consumed items yield |
| `LspWorker.StopOnlyOnDemand` | coq/clients/lsp/worker.py:184-197 | a batch is left unfinished only when the consumer has what it asked for |
| `LspWorker.OvershootBelowOneBatch` | coq/clients/lsp/worker.py:176-177 | the output stays below the cap plus the size of the largest batch |
| `LspWorker.WholeBatchPastLimit` | coq/clients/lsp/worker.py:176-197 | the cap is checked only between batches: a batch started below it is yielded whole |
| `LspWorker.NoDeduplication` | coq/clients/lsp/worker.py:184-187 | the worker yields a duplicated database item twice, even under a cap of one |
| `LspWorker.WritesOf` | coq/clients/lsp/worker.py:121-122 | one single-client `set_cache` write per chunk |
| `LspWorker.ClientWrites` | coq/clients/lsp/worker.py:121-122 | one write per `CACHE_CHUNK`-sized chunk of a client's items |
| `Seqs.ChunksSpec` | coq/clients/lsp/worker.py:121 | `batched(items, n)` splits the items, in order, into chunks of 1 to `n` items, all full but the last |
| `LspWorker.ClientWritesCover` | coq/clients/lsp/worker.py:121-122 | every write names only its client and carries 1 to `CACHE_CHUNK` items, and the chunks together are the client's items in order |
| `LspWorker.PreWritesChunked` | coq/clients/lsp/worker.py:117-122 | every write of the per-client loop is a chunked single-client write |
| `LspWorker.PreWritesStep` | coq/clients/lsp/worker.py:118-122 | the writes for one more client come after those before it, and none when the lock was seen taken |
| `LspWorker.Drained` | coq/clients/lsp/worker.py:117-122 | after the warmer, the clients it wrote hold exhausted iterators and the others are untouched |
| `LspWorker.DrainedDistinct` | coq/clients/lsp/worker.py:117-122 | draining keeps the keys of `pre`, and so keeps them distinct |
| `LspWorker.DrainedStep` | coq/clients/lsp/worker.py:120-122 | draining one client is storing an exhausted iterator under it |
| `LspWorker.DrainedSkip` | coq/clients/lsp/worker.py:120 | a client skipped under the lock is left as it was |
| `LspWorker.WriteChunks` | coq/clients/lsp/worker.py:121-122 | the chunk loop appends exactly the client's writes |
| `LspWorker.ReadBatch` | coq/clients/lsp/worker.py:184-197 | the item loop computes `ConsumeFrom` from the start of the batch |
| `LspWorker.DrainOne` | coq/clients/lsp/worker.py:119-122 | one client of the warmer loop advances the writes and `pre` by one step of `PreWrites` and `Drained` |
| `LspWorker.DrainPre` | coq/clients/lsp/worker.py:117-122 | the warmer loop makes exactly `PreWrites` and leaves `Drained` |
| `LspWorker.MergeBatch` | coq/clients/lsp/worker.py:179-197 | one pass of the merge loop enters the batch and reads it as `ConsumeFrom` says |
| `LspWorker.Merge` | coq/clients/lsp/worker.py:174-197 | the merge loop computes `RunFrom` over the batches, keeping the keys of `pre` distinct |
| `LspWorker.Worker.constructor` | coq/clients/lsp/worker.py:67-74 | a new worker's local cache has empty `pre` and `post` |
| `LspWorker.Worker.Work` | coq/clients/lsp/worker.py:126-197 | `_work` yields and leaves behind exactly `WorkSpec`: the cache cleared when the database reports it unusable, then the merge of the stored, database and live batches |
| `LspWorker.Worker.Warm` | coq/clients/lsp/worker.py:113-122 | `cont()` writes nothing when the lock is held at the start; otherwise it writes `post`, then each unlocked client's items in chunks, exhausting their iterators |
| `InlineWorker.Request` | coq/clients/inline/worker.py:45-53 | `_request` asks "lsp_inline_comp" with page width `2 * max_results` and no excluded clients; one uncached batch per reply, in order, each `parse_inline` of that reply under its client name |
| `InlineWorker.LiveStream` | coq/clients/inline/worker.py:75-79 | the live stream is the request when live pulling is on, and empty otherwise |
| `InlineWorker.InlineBatches` | coq/clients/inline/worker.py:81-93 | `stream()` yields the database batch and the first live batch in completion order (an exhausted live stream is skipped), then the remaining live batches |
| `InlineWorker.ItemsOf` | coq/clients/inline/worker.py:95-97 | the item lists of the batches, in order |
| `InlineWorker.RowsAllItems` | coq/clients/inline/worker.py:95-97 | when no batch raises, the rows are all items of all batches in order: no acceptance test, no cap, no deduplication |
| `InlineWorker.RowsStopAtRaise` | coq/clients/inline/worker.py:95-97 | the rows stop after the first batch whose iterator raises, and the exception propagates |
| `InlineWorker.NotPullingOnlyCached` | coq/clients/inline/worker.py:75-79 | with live pulling off, exactly the cached items are yielded |
| `InlineWorker.Delivered` | coq/clients/inline/worker.py:95-97 | a consumer asking for `demand` rows receives a prefix of at most that many rows, all of them when there are fewer, and sees the exception only when it asks past the rows |
| `InlineWorker.TakeRows` | coq/clients/inline/worker.py:96-97 | the row loop of one batch appends its rows until the consumer has what it asked for |
| `InlineWorker.DeliveredStep` | coq/clients/inline/worker.py:95-97 | a consumer satisfied inside a batch has received a prefix of all the rows |
| `InlineWorker.ReadRows` | coq/clients/inline/worker.py:95-97 | the batch loop delivers exactly `Delivered(Rows(batches))` |
| `InlineWorker.Work` | coq/clients/inline/worker.py:71-97 | `_work` consults the cache with `always` and `inline_shift`, ignores its usability flag and client set, and delivers every row of the batches of `stream()` |
| `InlineWorker.ChunkWrites` | coq/clients/inline/worker.py:64-67 | one `set_cache` write per chunk, single-client and skipping the database |
| `InlineWorker.Written` | coq/clients/inline/worker.py:63-67 | a batch reaches the cache whole, or, when its iterator raises, only through its completed chunks, losing fewer than `CACHE_CHUNK` items |
| `InlineWorker.WarmWrites` | coq/clients/inline/worker.py:60-67 | without a current context the warmer writes nothing |
| `InlineWorker.BatchWritesCover` | coq/clients/inline/worker.py:64-67 | every write of a batch skips the database, names only its client and carries 1 to `CACHE_CHUNK` items; the chunks together are the items that reach the cache |
| `InlineWorker.BatchWritesChunked` | coq/clients/inline/worker.py:64-67 | every write of a batch is a chunked single-client write |
| `InlineWorker.LiveWritesChunked` | coq/clients/inline/worker.py:63-67 | every write of the warmer is a chunked single-client write that skips the database |
| `InlineWorker.LiveWritesUnfold` | coq/clients/inline/worker.py:63-67 | the warmer writes batch by batch, and a raising batch ends the run |
| `InlineWorker.WriteBatch` | coq/clients/inline/worker.py:64-67 | the chunk loop appends exactly the writes of the batch |
| `InlineWorker.Warm` | coq/clients/inline/worker.py:60-67 | `cont()` makes exactly `WarmWrites` for the request of the current context |
| `ServerEdit.SplitLf` | coq/server/edit.py:124-125 | `text.split(linefeed)` always has at least one part |
| `ServerEdit.TouchedRows` | coq/server/edit.py:100-111 | each edit contributes the rows its old prefix and suffix reach, its two range ends, or the cursor row |
| `ServerEdit.RowsOf` | coq/server/edit.py:99-116 | the collected rows include every row any edit touches |
| `ServerEdit.RowsOfTouched` | coq/server/edit.py:99-116 | every collected row is touched by some edit |
| `ServerEdit.RowsToFetch` | coq/server/edit.py:96-117 | `_rows_to_fetch` returns a non-empty half-open span holding every row the primary and secondary edits touch |
| `ServerEdit.RowsToFetchTight` | coq/server/edit.py:116-117 | the span is no wider than needed: its first and last rows are touched by some edit |
| `ServerEdit.ContextualEditTrans` | coq/server/edit.py:120-163 | (corrected end column; as written: `ContextualEditTransAsWritten`) the instruction is primary, begins `len(old_prefix lines) - 1` rows up and ends `len(old_suffix lines) - 1` rows down, its cursor offset is the difference in prefix line counts, its text is the new text's lines, a one-line prefix begins at the cursor minus its UTF-8 length, a multi-line one at its start row's length minus its first line's, and the cursor column is the new prefix's last line or the text before the cursor with the old prefix's last line swapped for the new prefix; it fails exactly when a multi-line prefix reaches a row outside the fetched lines |
| `ServerEdit.ContextualBeginsAtPrefixStart` | coq/server/edit.py:129-134 | a multi-line old prefix whose first line ends its start row makes the instruction begin where that line starts |
| `ServerEdit.ContextualCursorAfterNewPrefix` | coq/server/edit.py:147-153 | with one-line prefixes, the cursor lands right after the new prefix put in place of the old one before the cursor |
| `ServerEdit.ContextualEndsAfterSuffix` | coq/server/edit.py:135-139 | the corrected instruction always ends right after the old suffix |
| `ServerEdit.ContextualAsWrittenEndsShort` | coq/server/edit.py:135-139 | as written, a two-line old prefix with an empty old suffix ends the instruction at column 0, short of the cursor |
| `ServerEdit.ByteCol` | coq/server/edit.py:200-207 | a UTF-8 or UTF-16 column becomes a byte column; any other encoding raises |
| `ServerEdit.ByteColAtBoundary` | coq/server/edit.py:200-207 | the column of a character boundary, in UTF-8 bytes or UTF-16 units, designates the UTF-8 length of the characters before it |
| `ServerEdit.ByteColAscii` | coq/server/edit.py:200-207 | on an ASCII line both encodings' columns are character columns, sliced as Python slices |
| `ServerEdit.RangeEditTrans` | coq/server/edit.py:181-238 | (a delegated edit uses the corrected `ContextualEditTrans`) a primary one-line empty range edit goes through `trans_adjusted`; otherwise it fails exactly for UTF-32 (`ValueError`) or an end row outside the lines, and `RangeConverted` holds: the ends are sorted, their columns are the `ByteCol` of their lines, the text is the new text's lines, the row offset is the span plus the lines before the cursor, and the cursor column follows that text (-1 for a secondary edit) |
| `ServerEdit.RangeBeginAtBoundary` | coq/server/edit.py:200-209 | a range edit starting on the boundary before the `k`-th character begins at that character's byte column, whichever encoding gave the column |
| `ServerEdit.RangeCursorAfterText` | coq/server/edit.py:216-227 | for a primary edit whose text before the cursor is one line, the cursor lands right after that text, counted from the begin column |
| `ServerEdit.PrimaryInstruction` | coq/server/edit.py:249-271 | (built on the corrected `ContextualEditTrans`) the primary edit's instruction is primary whichever kind of edit it is |
| `ServerEdit.SecondaryInstructions` | coq/server/edit.py:273-281 | one non-primary range instruction per secondary edit, in order, failing exactly when one of them fails |
| `ServerEdit.Instructions` | coq/server/edit.py:241-281 | (built on the corrected `ContextualEditTrans`) `_instructions` yields the primary instruction first and then one non-primary instruction per secondary edit |
| `ServerEdit.KeyLeTotal` | coq/server/edit.py:287 | the `(begin, end)` sort key is a total preorder |
| `ServerEdit.PopConflictsAsWritten` | coq/server/edit.py:297-300 | the loop as written pops at least one instruction from a non-empty stack, including the one that does not conflict |
| `ServerEdit.PopConflicts` | coq/server/edit.py:297-300 | the corrected loop pops exactly the instructions on top that end after `begin`, and leaves a prefix of the stack |
| `ServerEdit.ConsolidateAsWrittenDropsDisjoint` | coq/server/edit.py:297-300 | as written, an instruction ending before the primary one begins is dropped |
| `ServerEdit.ConsolidateKeepsDisjoint` | coq/server/edit.py:297-300 | with the corrected pop, the same instruction is kept |
| `ServerEdit.PopKeepsDisjoint` | coq/server/edit.py:297-300 | on a chained stack, the corrected pop keeps exactly the instructions ending at or before `begin` |
| `ServerEdit.ChainEnds` | coq/server/edit.py:291-302 | along the stack the ends do not decrease |
| `ServerEdit.StepChained` | coq/server/edit.py:291-305 | one pass of the corrected loop keeps the stack chained under the pivot |
| `ServerEdit.ScannedChain` | coq/server/edit.py:291-305 | the corrected loop keeps its stack chained |
| `ServerEdit.ScannedFromInput` | coq/server/edit.py:291-305 | every instruction kept is one of the inputs |
| `ServerEdit.ScannedKeepsLastPrimary` | coq/server/edit.py:296-302 | the last primary instruction, once pushed, is never dropped |
| `ServerEdit.FirstPrimary` | coq/server/edit.py:376-380 | the position of the first primary instruction, or the length when there is none |
| `ServerEdit.LastPrimary` | coq/server/edit.py:296-302 | the position of the last primary instruction |
| `ServerEdit.SortSameMembers` | coq/server/edit.py:287 | sorting keeps the same instructions |
| `ServerEdit.ConsolidateOrdered` | coq/server/edit.py:284-307 | `_consolidate` (corrected) keeps only input instructions, each ending at or before the next begins, in `(begin, end)` order |
| `ServerEdit.ConsolidateKeepsPrimary` | coq/server/edit.py:284-307 | when every primary input is the same instruction, it survives consolidation |
| `ServerEdit.PopConflicting` | coq/server/edit.py:297-300 | (corrected; as written: `PopConflictsAsWritten`) the pop loop computes `PopConflicts` |
| `ServerEdit.Consolidate` | coq/server/edit.py:284-307 | (corrected pop; as written: `ConsolidateAsWritten`) the consolidation loop computes `ConsolidateSpec` |
| `ServerEdit.MarkRowAtPrimary` | coq/server/edit.py:328-331 | the mark shift is the sum of the row offsets before the (last) primary instruction |
| `ServerEdit.MarkRowNoPrimary` | coq/server/edit.py:316 | without a primary instruction the marks do not move |
| `ServerEdit.ShiftSums` | coq/server/edit.py:318-335 | each instruction extends the running row shift by its offset and records the column shift of its end row |
| `ServerEdit.ShiftOne` | coq/server/edit.py:319-327 | a shifted instruction keeps its kind, cursor fields, text, row span, and width when on one row; a zero shift changes nothing |
| `ServerEdit.Shifted` | coq/server/edit.py:310-337 | `_shift` keeps the number of instructions |
| `ServerEdit.ShiftedAt` | coq/server/edit.py:318-335 | instruction `i` moves by the row offsets before it and by the column shift recorded for its own rows; the first does not move |
| `ServerEdit.Shift` | coq/server/edit.py:310-337 | the shift loop computes `Shifted` and the mark shift `MarkRow` |
| `ServerEdit.ShiftMarks` | coq/server/edit.py:360-369 | each mark moves down by the shift; its index, columns and text stay |
| `ServerEdit.ShiftMarksCompose` | coq/server/edit.py:360-369 | a zero shift is the identity and two shifts compose by addition |
| `ServerEdit.CursorStop` | coq/server/edit.py:376-380 | the cursor loop stops after the first primary instruction or at the end |
| `ServerEdit.Cursor` | coq/server/edit.py:372-383 | the row moves by the offsets up to the stop, the column is the last instruction's; the assertion fails exactly when that column is -1 or there are no instructions |
| `ServerTrans.SeenOfMembers` | coq/server/trans.py:86-88 | the text of every non-snippet metric yielded is recorded in `seen` |
| `ServerTrans.SeenOfWitness` | coq/server/trans.py:86-88 | every recorded text belongs to a non-snippet metric: a snippet never claims a text |
| `ServerTrans.PruneStoppedStays` | coq/server/trans.py:84-85 | after the loop breaks, no further metric is yielded |
| `ServerTrans.InOrderExtend` | coq/server/trans.py:82-89 | positions kept from a prefix stay positions of the whole input |
| `ServerTrans.SeenOfAppend` | coq/server/trans.py:87-88 | yielding a metric records its text exactly when it is not a snippet |
| `ServerTrans.PruneStepInvariant` | coq/server/trans.py:82-89 | one pass keeps the output in input order and `seen` equal to the texts of the non-snippet output |
| `ServerTrans.PruneInvariant` | coq/server/trans.py:78-89 | `_prune` yields a subsequence of the ranked metrics in order, and `seen` is the set of texts of the non-snippet metrics yielded |
| `ServerTrans.PruneStepDistinct` | coq/server/trans.py:86-89 | one pass never yields a text a non-snippet metric already yielded |
| `ServerTrans.PruneDistinct` | coq/server/trans.py:78-89 | no two yielded metrics share a text unless the earlier one is a snippet |
| `ServerTrans.PruneYieldsUnseen` | coq/server/trans.py:84-89 | below the cap, a metric is yielded exactly when its text is not yet recorded |
| `ServerTrans.PruneManualNeverStops` | coq/server/trans.py:84 | a manual request is never capped |
| `ServerTrans.PruneCapped` | coq/server/trans.py:84-88 | without `manual`, at most `max_results + 1` texts are recorded (none for a negative `max_results`) |
| `ServerTrans.PruneStopsAtCap` | coq/server/trans.py:84-85 | once more than `max_results` texts are recorded, the rest of the input adds nothing |
| `ServerTrans.Prune` | coq/server/trans.py:78-89 | the `_prune` loop computes `Pruned` |
| `ServerTrans.MaxWidth` | coq/server/trans.py:92-96 | `_max_width` bounds every metric's label plus kind width, 0 for no metrics |
| `ServerTrans.MaxWidthAttained` | coq/server/trans.py:92-96 | a non-zero maximum is the width of some metric |
| `ServerTrans.Spaces` | coq/server/trans.py:126 | `n * " "` is `n` spaces, none for a negative `n` |
| `ServerTrans.CmpToVcmp` | coq/server/trans.py:99-132 | the menu is the source in its context and the user data is the completion uid; in a menu too narrow for the kind the label is cut to `max(1, truncate - ellipsis width)` characters and the ellipsis is added exactly when something was cut; otherwise the abbreviation ends with the kind in its context |
| `ServerTrans.CmpToVcmpLabelLead` | coq/server/trans.py:115-127 | in every layout the abbreviation starts with a prefix of the label, and the ellipsis follows any prefix that is not the whole label |
| `ServerTrans.NarrowFits` | coq/server/trans.py:115-120 | with widths that are lengths, a narrow menu's abbreviation is no wider than the menu, or than one character and the ellipsis |
| `ServerTrans.OverflowFillsWidth` | coq/server/trans.py:121-123 | with widths that are lengths, an overflowing label is cut so that label, ellipsis and kind fill the menu width exactly |
| `ServerTrans.FittingColumnsAlign` | coq/server/trans.py:124-127 | with widths that are lengths, a fitting entry shows the whole label, then spaces, then the kind, and its abbreviation is as long as the smaller of the widest entry and the truncation width, so the kinds line up |
| `ServerTrans.Paired` | coq/server/trans.py:157-166 | each metric is paired with its image, in order |
| `ServerTrans.PairedAppend` | coq/server/trans.py:157-166 | pairing one more metric appends one row |
| `ServerTrans.Trans` | coq/server/trans.py:135-166 | `trans` ranks the metrics, prunes them and pairs each yielded metric with its menu entry laid out against the widest yielded one |
| `ServerTrans.TransOrdered` | coq/server/trans.py:152-156 | under a total ranking, the yielded metrics are input metrics in ranking order, and each fits the common width `_max_width` reports for them |
| `Omnifunc.TrailingSpaces` | coq/server/registrants/omnifunc.py:38-39 | the count of whitespace characters ending the line, stopping at a non-whitespace one |
| `Omnifunc.ShouldCont` | coq/server/registrants/omnifunc.py:28-39 | manual requests always continue; an unchanged change id or a cursor at the inserted position never does; symbols before the cursor always do |
| `Omnifunc.ShouldContLineRule` | coq/server/registrants/omnifunc.py:37-39 | otherwise, a round starts exactly when the text before the cursor ends in a non-whitespace character, possibly followed by one whitespace character |
| `Omnifunc.ServerState.constructor` | coq/server/registrants/omnifunc.py:25 | a fresh state has an empty request queue and no inserted position |
| `Omnifunc.ServerState.Omnifunc` | coq/server/registrants/omnifunc.py:122-137 | the findstart call answers -1 and changes nothing; any other call stamps a fresh commit id, queues a manual request for the stamped state and answers no matches |
| `Omnifunc.ServerState.Round` | coq/server/registrants/omnifunc.py:50-91 | a round continues exactly when `_should_cont` says so; then the new context is recorded, otherwise the inserted position is reset to (-1, -1) |
| `Omnifunc.ServerState.CompDone` | coq/server/registrants/omnifunc.py:186-208 | an item offered for another change id changes nothing; otherwise it is resolved and applied, the inserted position becomes where the edit left the cursor (or (-1, -1)), and a fresh commit id is stamped |
| `Omnifunc.Resolve` | coq/server/registrants/omnifunc.py:143-171 | only LSP items are resolved; an LRU hit supplies both edits; otherwise a fetched answer supplies exactly the secondary edits and nothing else changes; with no answer the item is unchanged |
| `Omnifunc.ResolveIdempotent` | coq/server/registrants/omnifunc.py:143-171 | resolving twice against the same cache and answer is resolving once |
| `Marks.KeyLeTotal` | coq/server/registrants/marks.py:49 | the jump-order key `(idx == 0, idx, begin, end)` is a total preorder |
| `Marks.Listed` | coq/server/registrants/marks.py:41-45 | a listed mark keeps its span and records its raw id under the session key |
| `Marks.OriginalListed` | coq/server/registrants/marks.py:41-57 | with a fresh session key, the raw mark is recovered from its listed form, and `_del_marks` restores its raw id |
| `Marks.Listing` | coq/server/registrants/marks.py:40-48 | only marks that do not end before they begin are listed, each carrying its raw id |
| `Marks.ListingHas` | coq/server/registrants/marks.py:46-47 | every well-formed raw mark is listed |
| `Marks.ListingFrom` | coq/server/registrants/marks.py:40-48 | every listed mark comes from a raw mark |
| `Marks.LsMarks` | coq/server/registrants/marks.py:38-52 | `_ls_marks` is a permutation of the listing |
| `Marks.LsMarksOrdered` | coq/server/registrants/marks.py:39-50 | the result is in jump order, placeholder 0 comes after every other index, and every mark spans a non-negative range |
| `Marks.LsMarksMembers` | coq/server/registrants/marks.py:38-52 | the result holds exactly the listed forms of the well-formed raw marks |
| `Marks.MarksAt` | coq/server/registrants/marks.py:60-66 | `_marks` drops the first mark exactly when it is empty and under the cursor, and keeps the rest in order |
| `Marks.MarkInstructions` | coq/server/registrants/marks.py:69-79 | one non-primary instruction per mark, over its span, with no cursor movement and the new text's lines |
| `Marks.MarkInstructionsAppend` | coq/server/registrants/marks.py:69-79 | the instructions are produced mark by mark |
| `Marks.LinkedOfMembers` | coq/server/registrants/marks.py:149 | the linked marks are exactly the remaining marks with the first mark's index |
| `Marks.NavMark` | coq/server/registrants/marks.py:82-160 | no marks: nothing happens; linked marks and an answer: all of them are replaced by it, the cursor goes to the first and the inserted position one column before it; otherwise the first mark alone is emptied (inserted position at its start, marks left counted) or, when that fails, only deleted |
| `Marks.NavMarkDeletesWhatItEdits` | coq/server/registrants/marks.py:94-149 | every deleted mark shares the first mark's index, each applied edit covers exactly one deleted mark, and an emptied mark is replaced by nothing |
| `SnippetLoad.Exts` | coq/snippets/loaders/load.py:42-46 | LSP snippets are loaded from ".json" files only; neosnippet and UltiSnips files from ".snippets" and ".snip" |
| `SnippetLoad.MatchingMembers` | coq/snippets/loaders/load.py:30-32 | a directory contributes exactly its files with a wanted suffix, each paired with its stem |
| `SnippetLoad.LoadPaths` | coq/snippets/loaders/load.py:23-34 | `_load_paths` has an entry for every label searched, holding the matching `(stem, path)` pairs under its directory, possibly none |
| `SnippetLoad.Specs` | coq/snippets/loaders/load.py:42-46 | the three formats, each with the candidate files of its own search mapping and suffixes |
| `SnippetLoad.AddAll` | coq/snippets/loaders/load.py:69-70 | the extends loop adds every extended name |
| `SnippetLoad.AppendAll` | coq/snippets/loaders/load.py:71-72 | the snippet loop appends every snippet, in order |
| `SnippetLoad.Group` | coq/snippets/loaders/load.py:58-72 | the grouping loop computes `GroupSpec` of the parsed records |
| `SnippetLoad.GroupLabels` | coq/snippets/loaders/load.py:65-66 | the grouping has an entry for exactly the labels met |
| `SnippetLoad.GroupStems` | coq/snippets/loaders/load.py:66-68 | under each label, extends and snippets entries for exactly the stems met with it, even those contributing nothing |
| `SnippetLoad.StemsUnlabelled` | coq/snippets/loaders/load.py:65-68 | a label never met has no stems |
| `SnippetLoad.GroupExtends` | coq/snippets/loaders/load.py:67-70 | the extends of a `(label, stem)` are the union over all its records |
| `SnippetLoad.GroupExtendsAbsent` | coq/snippets/loaders/load.py:66-68 | a `(label, stem)` without an entry met no record |
| `SnippetLoad.GroupSnippets` | coq/snippets/loaders/load.py:68-72 | the snippets of a `(label, stem)` are those of all its records, in encounter order |
| `SnippetLoad.Fin` | coq/snippets/loaders/load.py:74-83 | `fin` keeps the labels, stems and snippet lists, and turns each extends set into a mapping of its members to `True` |
| `SnippetLoad.Records` | coq/snippets/loaders/load.py:47-55 | `c1` yields one record per visited file, in visiting order, with that file's label, stem and parse |
| `SnippetLoad.ReadRecords` | coq/snippets/loaders/load.py:47-55 | the reading loop yields exactly `Records` of the visits |
| `SnippetLoad.RecordsFromSpecs` | coq/snippets/loaders/load.py:48-50 | every record's label was searched for its file's format and its stem and path are a candidate file of that label |
| `SnippetLoad.LoadKeepsFoundLabels` | coq/snippets/loaders/load.py:48-66 | a label with at least one candidate file of some format is in the result of `load` |
| `SnippetLoad.LoadSkipsEmptyLabels` | coq/snippets/loaders/load.py:48-66 | a label whose candidate sets are all empty is not in the result of `load`, although `_load_paths` gave it an entry |
| `SnippetLoad.SpecForSpecs` | coq/snippets/loaders/load.py:41-45 | looking a format up in `specs` gives the candidate files of that format's own search mapping |
| `SnippetLoad.Load` | coq/snippets/loaders/load.py:36-84 | `load` builds `specs` from the three search mappings, reads the candidate files in the enumerated order, and returns `Fin` of the grouping of those records |

## Where the design description and the code differ

The model follows the code in each of these places.

- The LSP worker does no deduplication: a repeated item is yielded twice (`LspWorker.NoDeduplication`). Deduplication by replacement text happens later, in `_prune` (`ServerTrans.PruneDistinct`).
- The result cap is checked once before each batch, not after each item. A batch started below the cap is yielded whole, so the output can exceed the cap by less than one batch (`LspWorker.WholeBatchPastLimit`, `LspWorker.OvershootBelowOneBatch`). The non-manual cap is `max_results`, with no separate pull limit.
- The drain loop pops entries from the end of the accumulator, so the replies gathered between two wake-ups are surfaced newest first (`LspRequest.Registry.DrainStep`).
- Generation ids start at 0, not 1 (`LspRequest.Registry.Begin`).
- The paginator knows no declared total: it stops at the first short page. This costs an extra empty page when the reply length is a multiple of the page width (`LspRequest.ExactMultipleEndsEmpty`).
- The LSP warmer checks the work lock once at the start and once before each client, never between the chunks of one client. It does not re-validate stored items, and it issues no live request. Only the inline worker's warmer pulls live items (`LspWorker.Worker.Warm`, `InlineWorker.Warm`).
- `pre` holds the live iterator itself, so after a request it holds the items that were not consumed (`LspWorker.StopLeavesRemainder`).
- The snippet grouping key, named `ext` in the code, is the file's stem (`SnippetLoad.GroupStems`).

## Left out

- Concurrency is not modelled: the asyncio tasks, `Condition.wait`/`notify_all`, `run_coroutine_threadsafe`, the locks and `Event`s, and cancellation. Each ingest, drain step, merge and warmer pass is one sequential step. The waiters notified on exit are not modelled.
- The `as_completed` race between the database batch and the first live batch is the boolean parameter `dbFirst`.
- Clock readings and elapsed times in `_lsp_notify` are a `now` parameter, stored but not reasoned about.
- Float ranking (`_cum`, `_sort_by`) and locale collation are left out. `ServerTrans.Trans` takes the ranking as a comparison `le`, and `ServerTrans.TransOrdered` assumes it is a total preorder.
- coq/clients/lsp/mul_bandit.py (floats and randomness) is not part of this model.
- Neovim RPC and buffer mutation are left out: `apply`, `_parse`, `_restore` and `edit` in coq/server/edit.py, `_single_mark`/`_del_marks` buffer calls and the prompt in marks.py, and `complete`. Their outcomes enter as parameters: `answer` and `applied` in `Marks.NavMark`, `edited` in `Omnifunc.ServerState.CompDone`.
- `_lines` is not modelled as a table of encoded lines. Columns are computed with `Utf8Len`, `Utf16Len` and `Utf8OfUtf16Prefix` over code points. A UTF-16 column that splits a surrogate pair is rounded down instead of being decoded with replacement characters.
- These collaborators are not part of this model and are function-typed parameters:
  - the std2 dataclass decoders;
  - `multi_set_ratio` and `cword_before` (`cwordOf`, `ratio`);
  - `sanitize_cached` and `CacheWorker.apply_cache` (`sanitize`, `lookup`, `applyCache`);
  - `trans_adjusted` of coq/shared/trans.py (`adjust`);
  - `decode_mark_idx` of the snippet parsers (`decode`);
  - the snippet file parsers (`parse` of `SnippetLoad.Load`, from a format and a path to the extends and snippets);
  - `walk` (`walk`);
  - `uuid4` (`freshCommit`, `ogKey`).
- `BIGGEST_INT` of coq/shared/sql.py is not part of this model; it is the parameter `biggest`.
- Display widths (`display_width` of labels, kinds, the kind context and the ellipsis) and the clamped menu width are parameters of `ServerTrans.CmpToVcmp`.
- `_prune` takes `manual` and `max_results` directly instead of the request stack and context.
- Reading the snippet files, their encoding and line stripping are left out; they are inside `parse`. The order in which `c1` meets the files within one format follows dict and set iteration and is arbitrary in the code. It is the parameter `enumerate` of `SnippetLoad.Load`. `SnippetLoad.Enumerates` states what any such order satisfies: each candidate file once, and the formats in the order LSP, neosnippet, UltiSnips.
- `UserData` and the `Extern` enum used by omnifunc.py are not defined in coq/server/nvim/completions.py and coq/shared/types.py as given. They are modelled by the fields omnifunc.py reads, with the extern as the `(kind, item)` pair it destructures.
- Omnifunc.ServerState.Round: models only the decision of `c0` and the state it records. The collection of metrics, the change-id recheck before `trans`, and the `complete` calls are not modelled. The `context()` call is a parameter, so a missing context (which would make line 70 raise) does not arise.
- Omnifunc.Resolve: the resolve request and its timeout are the parameter `fetched`, so the wait itself is not modelled.
- LspParse.WithDefaults: `setdefault` updates the item in place. The model returns the updated mapping, so aliasing of the item is not modelled.
- Extmark metadata values are integers only. `ParsedSnippet` keeps only the fields the loader moves.
- coq/clients/inline_third_party/worker.py is not part of this model; it only swaps the request function.
- LspRequest.ResolveEncoding: case folding is ASCII lower-casing. Python's `casefold` also folds non-ASCII characters, which the model does not.
- A live stream that raises inside the LSP worker is not modelled. The inline worker's stream records a raising batch (`LspComp.raised`).
- LspRequest.Expansion: multipart counts are naturals. A negative count, which the code would treat as a page width, is not modelled.
- ServerEdit.ContextualEditTrans, ServerEdit.PrimaryInstruction, ServerEdit.Instructions and ServerEdit.RangeEditTrans (for a delegated edit) use the corrected end column of the second Findings row, and ServerEdit.PopConflicting and ServerEdit.Consolidate use the corrected pop of the first. They therefore differ from `_contextual_edit_trans`, `_instructions` and `_consolidate` as written on the inputs those rows give; the code as written is `ContextualEditTransAsWritten`, `PopConflictsAsWritten` and `ConsolidateAsWritten`.
- LspRequest.Window and LspRequest.Pull: the bridge's answer to each page request (`lsp_pull` on the Lua side) is a slice of one fixed reply `stored`. The model assumes the reply the bridge holds does not change between the requests of one pull; the Lua code is not part of this model.
- LspParse.InlinePrimary: `lower` of coq/shared/parse.py is not part of this model; it is ASCII lower-casing (`Text.AsciiLower`), so a `kind` that matches "snippet" only after non-ASCII case folding is not modelled.
- `Marks.OriginalListed` and `Marks.LsMarksMembers` require that the session key `ogKey` is not already a metadata key. The code relies on `uuid4` for this.

## Findings

| source | as written | input that shows it | evidently intended | confidence | as-written member | corrected member |
|---|---|---|---|---|---|---|
| coq/server/edit.py:297-300 | the pop loop pops an instruction and then breaks when it does not conflict, so that instruction is lost | non-primary (0,0)-(0,1) and (0,2)-(0,5), then primary (0,3)-(0,4): only the primary instruction is kept, although (0,0)-(0,1) ends before it begins | put the non-conflicting instruction back before breaking | not executed; medium | `ServerEdit.ConsolidateAsWrittenDropsDisjoint` | `ServerEdit.ConsolidateKeepsDisjoint`, `ServerEdit.PopKeepsDisjoint`, `ServerEdit.ConsolidateOrdered` |
| coq/server/edit.py:135-139 | the end column tests whether the old *prefix* has several lines | cursor (1, 1) on line "b", old prefix "a\nb", empty old suffix: the instruction ends at (1, 0), so the "b" before the cursor survives | test the old *suffix*: a one-line suffix ends at the cursor column plus its length | not executed; medium | `ServerEdit.ContextualAsWrittenEndsShort` | `ServerEdit.ContextualEditTrans`, `ServerEdit.ContextualEndsAfterSuffix` |
