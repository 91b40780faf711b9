/** The request/reply machinery of the editor bridge
    (coq/lsp/requests/request.py): per-channel generation counters, the
    channel → session registry that replies are ingested into, the drain step
    of a waiting request, and the paginator that fetches a multipart reply page
    by page. Each ingest and each drain step is one atomic step; clock
    readings are parameters. */
module LspRequest {
  import opened Wrappers
  import opened Text
  import opened Seqs
  import Json
  import opened SharedTypes

  /** One reply as the waiting request sees it. */
  datatype Client = Client(
    name: Option<string>,
    peers: set<string>,
    encoding: Encoding,
    elapsed: real,
    message: Json.Value)

  /** An accumulated reply and the page width it was sent in multipart mode
      with (0 or none: all in one message). */
  datatype Entry = Entry(client: Client, multipart: Option<nat>)

  /** The session of the newest request on a channel. */
  datatype Session = Session(uid: int, instance: real, done: bool, acc: seq<Entry>)

  /** A reply notification from the editor. */
  datatype Payload = Payload(
    multipart: Option<nat>,
    name: string,
    uid: int,
    offsetEncoding: Option<string>,
    client: Option<string>,
    done: bool,
    reply: Json.Value,
    clientNames: seq<Option<string>>)

  /** The spelling an offset encoding is matched by: lower-cased, hyphens removed. */
  function NormalEncoding(s: string): string {
    Remove(AsciiLower(s), '-')
  }

  /** The offset encoding a reply declares: "utf8", "utf16" or "utf32" in any
      case and with any hyphens; anything else, or nothing, is UTF-16. */
  function ResolveEncoding(declared: Option<string>): (e: Encoding)
    ensures e == UTF8 <==> declared.Some? && NormalEncoding(declared.value) == "utf8"
    ensures e == UTF32 <==> declared.Some? && NormalEncoding(declared.value) == "utf32"
    ensures declared.None? ==> e == UTF16
  {
    var key := NormalEncoding(if declared.Some? then declared.value else "");
    if key == "utf8" then UTF8 else if key == "utf32" then UTF32 else UTF16
  }

  lemma {:induction false} AsciiLowerIdempotent(s: string)
    ensures AsciiLower(AsciiLower(s)) == AsciiLower(s)
    decreases |s|
  {
    if |s| > 0 {
      AsciiLowerIdempotent(s[1..]);
      assert AsciiLower(s)[1..] == AsciiLower(s[1..]);
    }
  }

  lemma {:induction false} RemoveIdempotent(s: string, c: char)
    ensures Remove(Remove(s, c), c) == Remove(s, c)
    decreases |s|
  {
    if |s| > 0 {
      RemoveIdempotent(s[1..], c);
      RemoveConcat(if s[0] == c then "" else [s[0]], Remove(s[1..], c), c);
    }
  }

  lemma {:induction false} RemoveConcat(a: string, b: string, c: char)
    ensures Remove(a + b, c) == Remove(a, c) + Remove(b, c)
    decreases |a|
  {
    if |a| == 0 {
      assert a + b == b;
    } else {
      assert (a + b)[1..] == a[1..] + b;
      RemoveConcat(a[1..], b, c);
    }
  }

  lemma {:induction false} AsciiLowerConcat(a: string, b: string)
    ensures AsciiLower(a + b) == AsciiLower(a) + AsciiLower(b)
    decreases |a|
  {
    if |a| == 0 {
      assert a + b == b;
    } else {
      assert (a + b)[1..] == a[1..] + b;
      AsciiLowerConcat(a[1..], b);
    }
  }

  /** Lower-casing keeps hyphens where they are, so it commutes with their removal. */
  lemma {:induction false} LowerRemoveCommute(s: string)
    ensures AsciiLower(Remove(s, '-')) == Remove(AsciiLower(s), '-')
    decreases |s|
  {
    if |s| > 0 {
      LowerRemoveCommute(s[1..]);
      AsciiLowerConcat(if s[0] == '-' then "" else [s[0]], Remove(s[1..], '-'));
      assert AsciiLower(s) == AsciiLower([s[0]]) + AsciiLower(s[1..]) by {
        AsciiLowerConcat([s[0]], s[1..]);
        assert [s[0]] + s[1..] == s;
      }
      RemoveConcat(AsciiLower([s[0]]), AsciiLower(s[1..]), '-');
    }
  }

  /** Encoding resolution ignores letter case and hyphens: a declaration
      lower-cased, or with its hyphens removed, resolves the same way. */
  lemma EncodingCaseAndHyphenInsensitive(s: string)
    ensures ResolveEncoding(Some(AsciiLower(s))) == ResolveEncoding(Some(s))
    ensures ResolveEncoding(Some(Remove(s, '-'))) == ResolveEncoding(Some(s))
  {
    AsciiLowerIdempotent(Remove(s, '-'));
    LowerRemoveCommute(s);
    RemoveIdempotent(AsciiLower(s), '-');
    assert NormalEncoding(AsciiLower(s)) == NormalEncoding(s) by {
      LowerRemoveCommute(AsciiLower(s));
      AsciiLowerIdempotent(s);
    }
    assert NormalEncoding(Remove(s, '-')) == NormalEncoding(s) by {
      LowerRemoveCommute(Remove(s, '-'));
      RemoveIdempotent(s, '-');
    }
  }

  /** The peers of a reply: exactly its non-empty client names. */
  function Peers(names: seq<Option<string>>): (r: set<string>)
    ensures forall n :: n in r <==> Some(n) in names && n != ""
  {
    if |names| == 0 then {}
    else
      assert names == [names[0]] + names[1..];
      (if names[0].Some? && names[0].value != "" then {names[0].value} else {}) + Peers(names[1..])
  }

  /** Whether a reply is taken in: there is no session, or the reply is not
      older than it. */
  predicate Accepts(stored: Option<Session>, p: Payload) {
    stored.None? || p.uid >= stored.value.uid
  }

  /** The entry a reply adds: its client with the resolved encoding, its
      peers, the time since the session started, and its message. */
  function EntryOf(stored: Option<Session>, p: Payload, now: real): (e: Entry)
    ensures e.multipart == p.multipart && e.client.message == p.reply && e.client.name == p.client
    ensures e.client.encoding == ResolveEncoding(p.offsetEncoding) && e.client.peers == Peers(p.clientNames)
  {
    var elapsed := if stored.Some? then now - stored.value.instance else now;
    Entry(Client(p.client, Peers(p.clientNames), ResolveEncoding(p.offsetEncoding), elapsed, p.reply), p.multipart)
  }

  /** `_lsp_notify`: the session a channel holds after a reply. A stale reply
      leaves the session as it was. An accepted reply with the session's own
      uid is appended after every accumulated entry; a newer one, or one for
      a channel without a session, starts a fresh accumulator. Either way
      `done` is the reply's flag and the start instant of an existing session
      is kept. */
  function Ingested(stored: Option<Session>, p: Payload, now: real): (r: Session)
    ensures !Accepts(stored, p) ==> r == stored.value
    ensures Accepts(stored, p) ==> r.uid == p.uid && r.done == p.done
    ensures Accepts(stored, p) && stored.Some? && p.uid == stored.value.uid ==>
      r.acc == stored.value.acc + [EntryOf(stored, p, now)]
    ensures Accepts(stored, p) && (stored.None? || p.uid > stored.value.uid) ==>
      r.acc == [EntryOf(stored, p, now)]
    ensures Accepts(stored, p) && stored.Some? ==> r.instance == stored.value.instance
    ensures stored.None? ==> r.instance == now
  {
    if !Accepts(stored, p) then stored.value
    else
      var prior := if stored.Some? && p.uid == stored.value.uid then stored.value.acc else [];
      Session(p.uid, if stored.Some? then stored.value.instance else now, p.done, prior + [EntryOf(stored, p, now)])
  }

  /** Replies ingested one after another. */
  function Replay(stored: Option<Session>, ps: seq<Payload>, now: real): Option<Session>
    decreases |ps|
  {
    if |ps| == 0 then stored else Replay(Some(Ingested(stored, ps[0], now)), ps[1..], now)
  }

  /** The entries a run of replies adds to a session. */
  function EntriesOf(stored: Option<Session>, ps: seq<Payload>, now: real): (es: seq<Entry>)
    ensures |es| == |ps|
    ensures forall i :: 0 <= i < |ps| ==> es[i] == EntryOf(stored, ps[i], now)
  {
    if |ps| == 0 then [] else [EntryOf(stored, ps[0], now)] + EntriesOf(stored, ps[1..], now)
  }

  /** The entries a run of replies adds depend on the session only through
      its start instant. */
  lemma EntriesOfInstance(s: Session, t: Session, ps: seq<Payload>, now: real)
    requires s.instance == t.instance
    ensures EntriesOf(Some(s), ps, now) == EntriesOf(Some(t), ps, now)
  {
    var a, b := EntriesOf(Some(s), ps, now), EntriesOf(Some(t), ps, now);
    forall i | 0 <= i < |ps| ensures a[i] == b[i] {
      assert a[i] == EntryOf(Some(s), ps[i], now);
      assert b[i] == EntryOf(Some(t), ps[i], now);
    }
  }

  /** Replies for the session's own request accumulate in arrival order,
      after what the session already held, and the last one decides `done`. */
  lemma {:induction false} ReplaySameUid(s: Session, ps: seq<Payload>, now: real)
    requires forall i :: 0 <= i < |ps| ==> ps[i].uid == s.uid
    ensures var r := Replay(Some(s), ps, now);
      && r.Some? && r.value.uid == s.uid && r.value.instance == s.instance
      && r.value.acc == s.acc + EntriesOf(Some(s), ps, now)
      && (|ps| > 0 ==> r.value.done == ps[|ps| - 1].done)
    decreases |ps|
  {
    if |ps| > 0 {
      var s1 := Ingested(Some(s), ps[0], now);
      var e0 := EntryOf(Some(s), ps[0], now);
      var tail := EntriesOf(Some(s), ps[1..], now);
      assert s1.instance == s.instance && s1.uid == s.uid && s1.acc == s.acc + [e0];
      assert Replay(Some(s), ps, now) == Replay(Some(s1), ps[1..], now);
      ReplaySameUid(s1, ps[1..], now);
      EntriesOfInstance(s1, s, ps[1..], now);
      assert EntriesOf(Some(s), ps, now) == [e0] + tail;
      AppendAssoc(s.acc, [e0], tail);
    }
  }

  /** A stale reply, one older than the session, never changes anything. */
  lemma StaleRepliesAreInert(s: Session, ps: seq<Payload>, now: real)
    requires forall i :: 0 <= i < |ps| ==> ps[i].uid < s.uid
    ensures Replay(Some(s), ps, now) == Some(s)
    decreases |ps|
  {
    if |ps| > 0 {
      StaleRepliesAreInert(s, ps[1..], now);
    }
  }

  function Reverse<T>(s: seq<T>): (r: seq<T>)
    ensures |r| == |s|
    ensures forall i :: 0 <= i < |s| ==> r[i] == s[|s| - 1 - i]
  {
    if |s| == 0 then [] else Reverse(s[1..]) + [s[0]]
  }

  /** The bridge's answer to a page request: items `lo` to `hi` (1-based,
      inclusive) of the reply it holds. */
  function Window(stored: seq<Json.Value>, lo: int, hi: int): (page: seq<Json.Value>)
    ensures |page| <= (if hi >= lo then hi - lo + 1 else 0)
  {
    var a := if lo < 1 then 0 else if lo - 1 <= |stored| then lo - 1 else |stored|;
    var b := if hi <= |stored| then hi else |stored|;
    if a <= b then stored[a..b] else []
  }

  /** The pages of a multipart reply of `n` items per page: full pages, then
      one short page (empty when the reply fills its last full page). */
  function Pages(n: nat, stored: seq<Json.Value>): (pages: seq<seq<Json.Value>>)
    requires n > 0
    ensures |pages| >= 1
    decreases |stored|
  {
    if |stored| < n then [stored] else [stored[..n]] + Pages(n, stored[n..])
  }

  /** Every page but the last is full, and the last one is short. */
  lemma {:induction false} PagesShape(n: nat, stored: seq<Json.Value>)
    requires n > 0
    ensures var pages := Pages(n, stored);
      && |pages[|pages| - 1]| < n
      && forall i :: 0 <= i < |pages| - 1 ==> |pages[i]| == n
    decreases |stored|
  {
    if |stored| >= n {
      PagesShape(n, stored[n..]);
      var pages := Pages(n, stored);
      assert pages[1..] == Pages(n, stored[n..]);
      forall i | 0 < i < |pages| - 1 ensures |pages[i]| == n {
        assert pages[i] == pages[1..][i - 1];
      }
    }
  }

  /** Paging loses and reorders nothing. */
  lemma {:induction false} PagesFlatten(n: nat, stored: seq<Json.Value>)
    requires n > 0
    ensures Flatten(Pages(n, stored)) == stored
    decreases |stored|
  {
    if |stored| < n {
      assert Flatten([stored]) == stored + Flatten([stored][1..]);
    } else {
      PagesFlatten(n, stored[n..]);
      var p := Pages(n, stored);
      assert p[1..] == Pages(n, stored[n..]);
      assert Flatten(p) == p[0] + Flatten(p[1..]);
      assert stored == stored[..n] + stored[n..];
    }
  }

  /** A reply whose length is a multiple of the page width ends with an
      empty page. */
  lemma {:induction false} ExactMultipleEndsEmpty(n: nat, k: nat, stored: seq<Json.Value>)
    requires n > 0 && |stored| == k * n
    ensures Pages(n, stored)[|Pages(n, stored)| - 1] == []
    decreases k
  {
    if k > 0 {
      assert |stored[n..]| == (k - 1) * n;
      ExactMultipleEndsEmpty(n, k - 1, stored[n..]);
      var p := Pages(n, stored);
      assert p == [stored[..n]] + Pages(n, stored[n..]);
    }
  }

  /** One round of the paginator: the window starting at `lo` is the first
      page of what remains, and the rest follows it when the window is full. */
  lemma PullStep(n: nat, stored: seq<Json.Value>, lo: int)
    requires n > 0 && 1 <= lo && lo - 1 <= |stored|
    ensures var w := Window(stored, lo, lo + n - 1);
      && (|w| < n ==> Pages(n, stored[lo - 1..]) == [w])
      && (|w| >= n ==> lo - 1 + n <= |stored|
                       && Pages(n, stored[lo - 1..]) == [w] + Pages(n, stored[lo - 1 + n..]))
  {
    var rest := stored[lo - 1..];
    if |rest| >= n {
      assert rest[n..] == stored[lo - 1 + n..];
      assert rest[..n] == stored[lo - 1..lo - 1 + n];
    } else {
      assert Window(stored, lo, lo + n - 1) == rest;
    }
  }

  /** The pages fetched so far answer the requests made so far: request `i`
      (from 0) is the window of items `i * n + 1` to `i * n + n`, so the first
      is `[1, n]` and each later one starts right after its predecessor, and
      each page is the bridge's window for its request. */
  ghost predicate Served(n: nat, stored: seq<Json.Value>, pages: seq<seq<Json.Value>>, requests: seq<(int, int)>) {
    && |requests| == |pages|
    && (forall i :: 0 <= i < |requests| ==> requests[i] == (i * n + 1, i * n + n))
    && (forall i :: 0 <= i < |pages| ==> pages[i] == Window(stored, requests[i].0, requests[i].1))
  }

  /** The paginator's loop invariant, `lo` being the next window's start. */
  ghost predicate PullInv(n: nat, stored: seq<Json.Value>, pages: seq<seq<Json.Value>>, requests: seq<(int, int)>, lo: int)
    requires n > 0
  {
    && 1 <= lo && lo - 1 <= |stored|
    && Served(n, stored, pages, requests)
    && lo == |requests| * n + 1
    && pages + Pages(n, stored[lo - 1..]) == Pages(n, stored)
  }

  /** Answering one more request keeps the record of requests and pages. */
  lemma ServedExtend(n: nat, stored: seq<Json.Value>, pages: seq<seq<Json.Value>>, requests: seq<(int, int)>, lo: int)
    requires Served(n, stored, pages, requests)
    requires lo == |requests| * n + 1
    ensures Served(n, stored, pages + [Window(stored, lo, lo + n - 1)], requests + [(lo, lo + n - 1)])
  {
    var pages', requests' := pages + [Window(stored, lo, lo + n - 1)], requests + [(lo, lo + n - 1)];
    forall i | 0 <= i < |requests'|
      ensures requests'[i] == (i * n + 1, i * n + n)
      ensures pages'[i] == Window(stored, requests'[i].0, requests'[i].1)
    {
      if i < |requests| {
        assert requests'[i] == requests[i] && pages'[i] == pages[i];
      }
    }
  }

  /** One more window moves the pages fetched so far one page further along
      the reply's pages; a short window is the last page. */
  lemma PagesAdvance(n: nat, stored: seq<Json.Value>, pages: seq<seq<Json.Value>>, lo: int)
    requires n > 0 && 1 <= lo && lo - 1 <= |stored|
    requires pages + Pages(n, stored[lo - 1..]) == Pages(n, stored)
    ensures var w := Window(stored, lo, lo + n - 1);
      && (|w| < n ==> pages + [w] == Pages(n, stored))
      && (|w| >= n ==> lo - 1 + n <= |stored| && (pages + [w]) + Pages(n, stored[lo - 1 + n..]) == Pages(n, stored))
  {
    var w := Window(stored, lo, lo + n - 1);
    PullStep(n, stored, lo);
    if |w| >= n {
      var tail := Pages(n, stored[lo - 1 + n..]);
      assert pages + ([w] + tail) == (pages + [w]) + tail;
    }
  }

  lemma MulSucc(k: int, n: int)
    ensures (k + 1) * n == k * n + n
  {
  }

  /** One round of the paginator keeps its invariant, and a short page
      completes the reply's pages. */
  lemma PullAdvance(n: nat, stored: seq<Json.Value>, pages: seq<seq<Json.Value>>, requests: seq<(int, int)>, lo: int)
    requires n > 0 && PullInv(n, stored, pages, requests, lo)
    ensures var w := Window(stored, lo, lo + n - 1);
      && Served(n, stored, pages + [w], requests + [(lo, lo + n - 1)])
      && (|w| < n ==> pages + [w] == Pages(n, stored))
      && (|w| >= n ==> PullInv(n, stored, pages + [w], requests + [(lo, lo + n - 1)], lo + n))
  {
    var k := |requests|;
    ServedExtend(n, stored, pages, requests, lo);
    PagesAdvance(n, stored, pages, lo);
    assert |requests + [(lo, lo + n - 1)]| == k + 1;
    MulSucc(k, n);
  }

  /** One round of `_lsp_pull`: the window `[lo, lo + n - 1]` is requested
      and yielded, the next window follows it, and the round is the last
      when the page is shorter than the window. */
  method PullRound(n: nat, stored: seq<Json.Value>, pages0: seq<seq<Json.Value>>, requests0: seq<(int, int)>,
                   lo0: int)
    returns (pages: seq<seq<Json.Value>>, requests: seq<(int, int)>, lo: int, short: bool)
    requires n > 0 && PullInv(n, stored, pages0, requests0, lo0)
    ensures pages == pages0 + [Window(stored, lo0, lo0 + n - 1)]
    ensures requests == requests0 + [(lo0, lo0 + n - 1)] && lo == lo0 + n
    ensures Served(n, stored, pages, requests)
    ensures short ==> pages == Pages(n, stored)
    ensures !short ==> PullInv(n, stored, pages, requests, lo)
  {
    var hi := lo0 + n - 1;
    var part := Window(stored, lo0, hi);
    PullAdvance(n, stored, pages0, requests0, lo0);
    requests := requests0 + [(lo0, hi)];
    lo := hi + 1;
    hi := hi + n;
    var length := hi - lo + 1;
    pages := pages0 + [part];
    short := |part| < length;
  }

  /** `_lsp_pull`: requests the windows `[1, n]`, `[n + 1, 2n]`, … of the
      stored reply (each window starting right after the previous one and `n`
      wide), yields each page and stops after the first page shorter than `n`. */
  method Pull(n: nat, stored: seq<Json.Value>) returns (pages: seq<seq<Json.Value>>, requests: seq<(int, int)>)
    requires n > 0
    ensures pages == Pages(n, stored)
    ensures |requests| == |pages|
    ensures forall i :: 0 <= i < |requests| ==> requests[i] == (i * n + 1, i * n + n)
    ensures forall i :: 0 <= i < |pages| ==> pages[i] == Window(stored, requests[i].0, requests[i].1)
  {
    var lo := 1;
    pages, requests := [], [];
    while true
      invariant PullInv(n, stored, pages, requests, lo)
      decreases |stored| - (lo - 1)
    {
      var short;
      pages, requests, lo, short := PullRound(n, stored, pages, requests, lo);
      if short {
        break;
      }
    }
  }

  /** One page of a multipart reply as the request yields it: a mapping
      message whose `items` is a sequence keeps its other fields and gets the
      page as `items`; any other message is replaced by the page. */
  function WithPage(c: Client, page: seq<Json.Value>): (r: Client)
    ensures r.name == c.name && r.peers == c.peers && r.encoding == c.encoding && r.elapsed == c.elapsed
    ensures c.message.JObj? && Json.IsSequence(Json.Get(c.message, "items")) ==>
      r.message == Json.JObj(c.message.fields["items" := Json.JArr(page)])
    ensures !(c.message.JObj? && Json.IsSequence(Json.Get(c.message, "items"))) ==> r.message == Json.JArr(page)
  {
    if c.message.JObj? && Json.IsSequence(Json.Get(c.message, "items")) then
      c.(message := Json.JObj(c.message.fields["items" := Json.JArr(page)]))
    else c.(message := Json.JArr(page))
  }

  /** What the request yields for one drained entry: the client itself, or one
      client per page when the entry is multipart. */
  function Expansion(e: Entry, stored: seq<Json.Value>): (r: seq<Client>)
    ensures (e.multipart.None? || e.multipart.value == 0) ==> r == [e.client]
    ensures e.multipart.Some? && e.multipart.value > 0 ==>
      |r| == |Pages(e.multipart.value, stored)|
      && forall i :: 0 <= i < |r| ==> r[i] == WithPage(e.client, Pages(e.multipart.value, stored)[i])
  {
    if e.multipart.Some? && e.multipart.value > 0 then
      var pages := Pages(e.multipart.value, stored);
      seq(|pages|, i requires 0 <= i < |pages| => WithPage(e.client, pages[i]))
    else [e.client]
  }

  /** The channel → session registry and the per-channel generation counters. */
  class Registry {
    /** The next generation id of each channel; absent means 0. */
    var uids: map<string, nat>
    var state: map<string, Session>

    constructor()
      ensures uids == map[] && state == map[]
    {
      uids := map[];
      state := map[];
    }

    function NextUid(ch: string): nat
      reads this
    {
      if ch in uids then uids[ch] else 0
    }

    function Stored(ch: string): Option<Session>
      reads this
    {
      if ch in state then Some(state[ch]) else None
    }

    /** The start of `async_request`: the channel's next generation id, and a
        fresh session under it that replaces whatever the channel held. The
        ids of a channel run 0, 1, 2, …; other channels are untouched. */
    method Begin(ch: string, now: real) returns (uid: nat)
      modifies this
      ensures uid == old(NextUid(ch))
      ensures NextUid(ch) == uid + 1
      ensures forall c :: c != ch ==> NextUid(c) == old(NextUid(c))
      ensures state == old(state)[ch := Session(uid, now, false, [])]
    {
      uid := NextUid(ch);
      uids := uids[ch := uid + 1];
      state := state[ch := Session(uid, now, false, [])];
    }

    /** `_lsp_notify` as one atomic step. */
    method Ingest(p: Payload, now: real)
      modifies this
      ensures uids == old(uids)
      ensures !Accepts(old(Stored(p.name)), p) ==> state == old(state)
      ensures Accepts(old(Stored(p.name)), p) ==>
        state == old(state)[p.name := Ingested(old(Stored(p.name)), p, now)]
    {
      var stored := Stored(p.name);
      if Accepts(stored, p) {
        state := state[p.name := Ingested(stored, p, now)];
      }
    }

    /** One pass of the drain loop of request `uid` on channel `ch`. With its
        own session stored, it pops the accumulated entries from the end,
        leaving the accumulator empty, and when the session is done removes
        it and stops. A newer or an older session stops it with nothing
        drained; no session drains nothing and waits on. */
    method DrainStep(ch: string, uid: int) returns (out: seq<Entry>, stop: bool)
      modifies this
      ensures uids == old(uids)
      ensures ch !in old(state) ==> out == [] && !stop && state == old(state)
      ensures ch in old(state) && old(state)[ch].uid != uid ==> out == [] && stop && state == old(state)
      ensures ch in old(state) && old(state)[ch].uid == uid ==>
        && out == Reverse(old(state)[ch].acc)
        && stop == old(state)[ch].done
        && state == (if stop then old(state) - {ch} else old(state)[ch := old(state)[ch].(acc := [])])
    {
      out, stop := [], false;
      if ch !in state {
        return;
      }
      var s := state[ch];
      if s.uid != uid {
        stop := true;
        return;
      }
      var acc := s.acc;
      while |acc| > 0
        invariant |acc| + |out| == |s.acc|
        invariant acc == s.acc[..|acc|]
        invariant forall i :: 0 <= i < |out| ==> out[i] == s.acc[|s.acc| - 1 - i]
        decreases |acc|
      {
        out := out + [acc[|acc| - 1]];
        acc := acc[..|acc| - 1];
      }
      state := state[ch := s.(acc := [])];
      if s.done {
        state := state - {ch};
        stop := true;
      }
    }

    /** After a wake-up: a request whose session has been replaced by another
        generation stops without yielding anything more. */
    method AfterWake(ch: string, uid: int) returns (stop: bool)
      ensures stop <==> ch in state && state[ch].uid != uid
    {
      stop := ch in state && state[ch].uid != uid;
    }
  }

  /** Everything a drain step yields, entry by entry, the multipart entries
      paged through `Pull` against the replies the bridge holds. */
  method Deliver(entries: seq<Entry>, bridge: Option<string> -> seq<Json.Value>) returns (out: seq<Client>)
    ensures out == Flatten(seq(|entries|, i requires 0 <= i < |entries| =>
                                 Expansion(entries[i], bridge(entries[i].client.name))))
  {
    out := [];
    var k := 0;
    while k < |entries|
      invariant 0 <= k <= |entries|
      invariant out == Flatten(seq(k, i requires 0 <= i < k => Expansion(entries[i], bridge(entries[i].client.name))))
    {
      var e := entries[k];
      var more: seq<Client>;
      if e.multipart.Some? && e.multipart.value > 0 {
        var pages, _ := Pull(e.multipart.value, bridge(e.client.name));
        more := seq(|pages|, i requires 0 <= i < |pages| => WithPage(e.client, pages[i]));
      } else {
        more := [e.client];
      }
      assert more == Expansion(e, bridge(e.client.name));
      ghost var before := seq(k, i requires 0 <= i < k => Expansion(entries[i], bridge(entries[i].client.name)));
      ghost var after := seq(k + 1, i requires 0 <= i < k + 1 => Expansion(entries[i], bridge(entries[i].client.name)));
      assert after == before + [more];
      FlattenAppend(before, more);
      out := out + more;
      k := k + 1;
    }
  }
}
