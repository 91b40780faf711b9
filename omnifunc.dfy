/** The completion entry points of the server: the gate deciding whether a
    context change should start a completion round, Vim's `omnifunc`
    protocol, resolution of the chosen item before it is applied, and the
    change-id guard on the "completion done" event. The asyncio task
    plumbing around them is not modelled; the resolve request, the edit and
    fresh UUIDs enter as parameters. */
module Omnifunc {
  import opened Wrappers
  import opened Text
  import opened SharedTypes
  import Json

  /** The fields of the editor context that these decisions read. UUIDs are
      modelled as naturals. */
  datatype Context = Context(
    manual: bool,
    changeId: nat,
    position: Pos,
    lineBefore: string,
    symsBefore: string)

  /** The source of the raw item a completion came from. */
  datatype ExternKind = ExternKindLsp | ExternKindLua | ExternKindPath

  /** The payload attached to each menu entry and handed back on
      "completion done". */
  datatype UserData = UserData(
    uid: nat,
    changeUid: nat,
    primaryEdit: Edit,
    secondaryEdits: seq<Edit>,
    extern: Option<(ExternKind, Json.Value)>)

  /** The number of whitespace characters ending `s`. */
  function TrailingSpaces(s: string): (n: nat)
    ensures n <= |s|
    ensures forall i :: |s| - n <= i < |s| ==> IsSpace(s[i])
    ensures n < |s| ==> !IsSpace(s[|s| - n - 1])
  {
    |s| - |RStrip(s)|
  }

  /** `_should_cont`: whether the change from `prev` to `cur` starts a
      completion round. Manual requests always do; an unchanged change id or
      a cursor standing where the last completion was inserted never does;
      a symbol run before the cursor always does; otherwise the text before
      the cursor must hold something other than whitespace, followed by at
      most one whitespace character. */
  function ShouldCont(inserted: Option<Pos>, prev: Context, cur: Context): (r: bool)
    ensures cur.manual ==> r
    ensures !cur.manual && prev.changeId == cur.changeId ==> !r
    ensures !cur.manual && inserted == Some(cur.position) ==> !r
    ensures (!cur.manual && prev.changeId != cur.changeId && inserted != Some(cur.position)
             && cur.symsBefore != "") ==> r
  {
    if cur.manual then true
    else if prev.changeId == cur.changeId then false
    else if inserted == Some(cur.position) then false
    else if cur.symsBefore != "" then true
    else
      var stripped := RStrip(cur.lineBefore);
      |stripped| > 0 && |cur.lineBefore| - |stripped| <= 1
  }

  /** The last rule read independently of `rstrip`: the text before the
      cursor ends in a non-whitespace character, possibly followed by one
      whitespace character. */
  predicate EndsInWord(s: string) {
    (|s| >= 1 && !IsSpace(s[|s| - 1])) || (|s| >= 2 && !IsSpace(s[|s| - 2]))
  }

  lemma ShouldContLineRule(inserted: Option<Pos>, prev: Context, cur: Context)
    requires !cur.manual && prev.changeId != cur.changeId
    requires inserted != Some(cur.position) && cur.symsBefore == ""
    ensures ShouldCont(inserted, prev, cur) <==> EndsInWord(cur.lineBefore)
  {
    var s := cur.lineBefore;
    var n := TrailingSpaces(s);
    assert RStrip(s) == s[..|s| - n];
    if EndsInWord(s) {
      if !IsSpace(s[|s| - 1]) {
        assert n == 0;
      } else {
        assert !IsSpace(s[|s| - 2]);
        assert n == 1;
      }
    }
  }

  /** What `omnifunc` hands back to Vim: the start column for the
      `findstart` call, the list of matches otherwise. */
  datatype OmniResult = FindStart(col: int) | Matches(items: seq<UserData>)

  /** The editor state shared by the handlers: the current change and
      commit ids, the last context a round started from, where the last
      completion was inserted, and the queue of pending completion requests. */
  class ServerState {
    var changeId: nat
    var commitId: nat
    var context: Context
    var inserted: Pos
    var queue: seq<(Snapshot, bool)>

    constructor(ctx: Context, commitId: nat)
      ensures this.changeId == ctx.changeId && this.commitId == commitId
      ensures context == ctx && inserted == Pos(-1, -1) && queue == []
    {
      this.changeId := ctx.changeId;
      this.commitId := commitId;
      context := ctx;
      inserted := Pos(-1, -1);
      queue := [];
    }

    /** The state as a value, as `state()` returns it. */
    function Current(): Snapshot
      reads this
    {
      Snapshot(changeId, commitId, context, inserted)
    }

    /** `omnifunc`: the findstart call (`op == 1`) answers -1, meaning
        "complete at the cursor". Any other call stamps a fresh commit id,
        queues a manual request for the stamped state and answers with no
        matches; the matches arrive later, asynchronously. */
    method Omnifunc(op: int, freshCommit: nat) returns (r: OmniResult)
      modifies this
      ensures op == 1 ==> r == FindStart(-1) && unchanged(this)
      ensures op != 1 ==> && r == Matches([])
                          && commitId == freshCommit
                          && queue == old(queue) + [(old(Current()).(commitId := freshCommit), true)]
                          && changeId == old(changeId) && context == old(context)
                          && inserted == old(inserted)
    {
      if op == 1 {
        return FindStart(-1);
      }
      commitId := freshCommit;
      queue := queue + [(Current(), true)];
      r := Matches([]);
    }

    /** One completion round (`c0`) up to the collection of results: for the
        request state `s` and the freshly read context `ctx`, a round that
        should continue records `ctx` as the current context; one that
        should not clears the menu and forgets the inserted position. */
    method Round(s: Snapshot, ctx: Context) returns (should: bool)
      modifies this
      ensures should == ShouldCont(Some(s.inserted), s.context, ctx)
      ensures changeId == old(changeId) && commitId == old(commitId) && queue == old(queue)
      ensures should ==> context == ctx && inserted == old(inserted)
      ensures !should ==> context == old(context) && inserted == Pos(-1, -1)
    {
      should := ShouldCont(Some(s.inserted), s.context, ctx);
      if should {
        context := ctx;
      } else {
        inserted := Pos(-1, -1);
      }
    }

    /** `_comp_done` once the user data has been decoded. The item is
        applied only when it was offered for the current change id; then it
        is resolved first (`lru` and `fetched` as for `Resolve`), `edited` is
        where the edit left the cursor, recorded as the inserted position
        ((-1, -1) when the edit reports none), and a fresh commit id is
        stamped. A delayed completion changes nothing. The user data
        actually handed to the edit is returned. */
    method CompDone(ud: UserData, lru: map<nat, Completion>, fetched: Option<Completion>,
                    edited: Option<Pos>, freshCommit: nat)
      returns (applied: Option<UserData>)
      modifies this
      ensures ud.changeUid != old(changeId) ==> applied == None && unchanged(this)
      ensures ud.changeUid == old(changeId) ==>
        && applied == Some(Resolve(ud, lru, fetched))
        && inserted == edited.GetOr(Pos(-1, -1)) && commitId == freshCommit
        && changeId == old(changeId) && context == old(context) && queue == old(queue)
    {
      if ud.changeUid == changeId {
        applied := Some(Resolve(ud, lru, fetched));
        inserted := edited.GetOr(Pos(-1, -1));
        commitId := freshCommit;
      } else {
        applied := None;
      }
    }
  }

  datatype Snapshot = Snapshot(changeId: nat, commitId: nat, context: Context, inserted: Pos)

  /** `_resolve`: only items from an LSP source are resolved. A completion
      still in the LRU cache under the item's uid supplies both the primary
      and the secondary edits; otherwise `fetched`, the answer of the
      resolve request (None when it timed out or returned nothing),
      supplies only the secondary edits. Nothing but the edits changes. */
  function Resolve(ud: UserData, lru: map<nat, Completion>, fetched: Option<Completion>): (r: UserData)
    ensures r.uid == ud.uid && r.changeUid == ud.changeUid && r.extern == ud.extern
    ensures (ud.extern.None? || ud.extern.value.0 != ExternKindLsp) ==> r == ud
    ensures ud.extern.Some? && ud.extern.value.0 == ExternKindLsp && ud.uid in lru ==>
              r.primaryEdit == lru[ud.uid].primaryEdit && r.secondaryEdits == lru[ud.uid].secondaryEdits
    ensures ud.uid !in lru ==> r.primaryEdit == ud.primaryEdit
    ensures ud.uid !in lru && fetched.None? ==> r == ud
    ensures ud.extern.Some? && ud.extern.value.0 == ExternKindLsp && ud.uid !in lru && fetched.Some? ==>
              r == ud.(secondaryEdits := fetched.value.secondaryEdits)
  {
    match ud.extern
    case None => ud
    case Some((kind, _)) =>
      if kind != ExternKindLsp then ud
      else if ud.uid in lru then
        var comp := lru[ud.uid];
        ud.(primaryEdit := comp.primaryEdit, secondaryEdits := comp.secondaryEdits)
      else if fetched.None? then ud
      else ud.(secondaryEdits := fetched.value.secondaryEdits)
  }

  /** Resolving an already resolved item against the same cache and the
      same answer changes nothing more. */
  lemma ResolveIdempotent(ud: UserData, lru: map<nat, Completion>, fetched: Option<Completion>)
    ensures Resolve(Resolve(ud, lru, fetched), lru, fetched) == Resolve(ud, lru, fetched)
  {
  }
}
