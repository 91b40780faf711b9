/** The four completion requests (coq/lsp/requests/completion.py): each one
    issues a request on its own channel and maps every reply the request
    yields through `parse` or `parse_inline`, in order. */
module LspCompletion {
  import opened Wrappers
  import opened SharedTypes
  import opened LspParse
  import LspRequest

  /** What a completion request sends to the editor. */
  datatype RequestArgs = RequestArgs(
    channel: string,
    multipart: Option<nat>,
    clients: set<string>,
    cursor: Cursors,
    line: Option<string>)

  /** The parts of the editing context the requests use. */
  datatype EditorContext = EditorContext(cursor: Cursors, line: string)

  /** The configuration every request is made with. */
  datatype Source = Source(shortName: string, alwaysOnTop: Option<set<Option<string>>>, weightAdjust: real)

  /** The results a request stream yields, and whether it raised after them. */
  datatype Stream = Stream(results: seq<LspComp>, raised: bool)

  /** The decoding context of one reply: its own client name and offset
      encoding, and the short name given. */
  function ReplyContext(protocol: Protocol, t: ExternType, src: Source, shortName: string,
                        client: Option<string>, reply: LspRequest.Client, context: EditorContext): (ctx: ParseContext)
    ensures ctx.client == client && ctx.encoding == reply.encoding && ctx.shortName == shortName
    ensures ctx.externType == t && ctx.cursors == context.cursor
  {
    ParseContext(protocol, t, src.alwaysOnTop, client, reply.encoding, shortName, context.cursor, src.weightAdjust)
  }

  /** `parse` over a stream of replies: one result per reply, in order, up
      to the first reply whose list defaults fail to decode. */
  function ParseStream(protocol: Protocol, t: ExternType, src: Source, fallbackName: bool, dec: Decoders,
                       context: EditorContext, replies: seq<LspRequest.Client>): (r: Stream)
    ensures |r.results| <= |replies|
    ensures forall i :: 0 <= i < |r.results| ==>
      var c := replies[i];
      var name := if fallbackName then OrText(c.name, src.shortName) else src.shortName;
      Parse(ReplyContext(protocol, t, src, name, c.name, c, context), dec, c.message) == Ok(r.results[i])
    ensures !r.raised ==> |r.results| == |replies|
    ensures r.raised ==> |r.results| < |replies|
    decreases |replies|
  {
    if |replies| == 0 then Stream([], false)
    else
      var c := replies[0];
      var name := if fallbackName then OrText(c.name, src.shortName) else src.shortName;
      match Parse(ReplyContext(protocol, t, src, name, c.name, c, context), dec, c.message)
      case Err(_) => Stream([], true)
      case Ok(comp) =>
        var rest := ParseStream(protocol, t, src, fallbackName, dec, context, replies[1..]);
        assert forall i :: 0 < i <= |rest.results| ==> ([comp] + rest.results)[i] == rest.results[i - 1] && replies[i] == replies[1..][i - 1];
        Stream([comp] + rest.results, rest.raised)
  }

  /** `parse_inline` over a stream of replies: exactly one result per reply. */
  function ParseInlineStream(protocol: Protocol, src: Source, fallbackName: bool, dec: Decoders,
                             context: EditorContext, replies: seq<LspRequest.Client>): (r: seq<LspComp>)
    ensures |r| == |replies|
    ensures forall i :: 0 <= i < |r| ==>
      var c := replies[i];
      var client := if fallbackName then Some(OrText(c.name, src.shortName)) else c.name;
      r[i] == ParseInline(ReplyContext(protocol, ExternTypeLsp, src, src.shortName, client, c, context), dec, c.message)
      && !r[i].localCache
    decreases |replies|
  {
    if |replies| == 0 then []
    else
      var c := replies[0];
      var client := if fallbackName then Some(OrText(c.name, src.shortName)) else c.name;
      [ParseInline(ReplyContext(protocol, ExternTypeLsp, src, src.shortName, client, c, context), dec, c.message)]
      + ParseInlineStream(protocol, src, fallbackName, dec, context, replies[1..])
  }

  /** `comp_lsp`: a request on "lsp_comp" with `chunk` as page width, the
      excluded clients and the cursor; every reply decoded with its own
      client name and offset encoding, keeping the LSP extern record. */
  function CompLsp(src: Source, context: EditorContext, chunk: nat, clients: set<string>, protocol: Protocol,
                   dec: Decoders, replies: seq<LspRequest.Client>): (r: (RequestArgs, Stream))
    ensures r.0 == RequestArgs("lsp_comp", Some(chunk), clients, context.cursor, None)
    ensures |r.1.results| <= |replies|
    ensures forall i :: 0 <= i < |r.1.results| ==>
      Parse(ParseContext(protocol, ExternTypeLsp, src.alwaysOnTop, replies[i].name, replies[i].encoding,
                         src.shortName, context.cursor, src.weightAdjust), dec, replies[i].message)
      == Ok(r.1.results[i])
  {
    (RequestArgs("lsp_comp", Some(chunk), clients, context.cursor, None),
     ParseStream(protocol, ExternTypeLsp, src, false, dec, context, replies))
  }

  /** `comp_lsp_inline`: a request on "lsp_inline_comp"; one inline result per
      reply, never cached locally. */
  function CompLspInline(src: Source, context: EditorContext, chunk: nat, clients: set<string>, protocol: Protocol,
                         dec: Decoders, replies: seq<LspRequest.Client>): (r: (RequestArgs, seq<LspComp>))
    ensures r.0 == RequestArgs("lsp_inline_comp", Some(chunk), clients, context.cursor, None)
    ensures |r.1| == |replies|
    ensures forall i :: 0 <= i < |r.1| ==> r.1[i].client == replies[i].name && !r.1[i].localCache
    ensures forall i :: 0 <= i < |r.1| ==>
      r.1[i] == ParseInline(ParseContext(protocol, ExternTypeLsp, src.alwaysOnTop, replies[i].name, replies[i].encoding,
                                         src.shortName, context.cursor, src.weightAdjust), dec, replies[i].message)
  {
    (RequestArgs("lsp_inline_comp", Some(chunk), clients, context.cursor, None),
     ParseInlineStream(protocol, src, false, dec, context, replies))
  }

  /** `comp_thirdparty`: a request on "lsp_third_party" that also passes the
      current line; each reply is decoded under its client's name, or the
      configured short name when the client has none, and keeps the Lua
      extern record. */
  function CompThirdparty(src: Source, context: EditorContext, chunk: nat, clients: set<string>, protocol: Protocol,
                          dec: Decoders, replies: seq<LspRequest.Client>): (r: (RequestArgs, Stream))
    ensures r.0 == RequestArgs("lsp_third_party", Some(chunk), clients, context.cursor, Some(context.line))
    ensures |r.1.results| <= |replies|
    ensures forall i :: 0 <= i < |r.1.results| ==>
      Parse(ParseContext(protocol, ExternTypeLua, src.alwaysOnTop, replies[i].name, replies[i].encoding,
                         OrText(replies[i].name, src.shortName), context.cursor, src.weightAdjust),
            dec, replies[i].message)
      == Ok(r.1.results[i])
  {
    (RequestArgs("lsp_third_party", Some(chunk), clients, context.cursor, Some(context.line)),
     ParseStream(protocol, ExternTypeLua, src, true, dec, context, replies))
  }

  /** `comp_thirdparty_inline`: a request on "lsp_inline_third_party" that
      also passes the current line; the fallback name becomes the client,
      the configured short name is kept. */
  function CompThirdpartyInline(src: Source, context: EditorContext, chunk: nat, clients: set<string>,
                                protocol: Protocol, dec: Decoders, replies: seq<LspRequest.Client>)
    : (r: (RequestArgs, seq<LspComp>))
    ensures r.0 == RequestArgs("lsp_inline_third_party", Some(chunk), clients, context.cursor, Some(context.line))
    ensures |r.1| == |replies|
    ensures forall i :: 0 <= i < |r.1| ==>
      r.1[i].client == Some(OrText(replies[i].name, src.shortName)) && !r.1[i].localCache
    ensures forall i :: 0 <= i < |r.1| ==>
      r.1[i] == ParseInline(ParseContext(protocol, ExternTypeLsp, src.alwaysOnTop, Some(OrText(replies[i].name, src.shortName)),
                                         replies[i].encoding, src.shortName, context.cursor, src.weightAdjust),
                            dec, replies[i].message)
  {
    (RequestArgs("lsp_inline_third_party", Some(chunk), clients, context.cursor, Some(context.line)),
     ParseInlineStream(protocol, src, true, dec, context, replies))
  }
}
