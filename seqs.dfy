/** Sequence utilities with the semantics of the Python helpers the pipeline
    uses: `std2.itertools.batched` (fixed-size chunks), `itertools.chain`
    (flattening), and the stable `sorted` builtin. */
module Seqs {
  import opened Wrappers

  /** `list(chain.from_iterable(ss))`. */
  function Flatten<T>(ss: seq<seq<T>>): seq<T> {
    if |ss| == 0 then [] else ss[0] + Flatten(ss[1..])
  }

  lemma AppendAssoc<T>(a: seq<T>, b: seq<T>, c: seq<T>)
    ensures (a + b) + c == a + (b + c)
  {
  }

  lemma FlattenAppend<T>(ss: seq<seq<T>>, s: seq<T>)
    ensures Flatten(ss + [s]) == Flatten(ss) + s
  {
    if |ss| == 0 {
      assert ss + [s] == [s];
    } else {
      assert (ss + [s])[1..] == ss[1..] + [s];
      FlattenAppend(ss[1..], s);
    }
  }

  /** `batched(s, n)`: consecutive chunks of `n` items, the last one shorter;
      nothing at all for an empty input. */
  function Chunks<T>(s: seq<T>, n: nat): (r: seq<seq<T>>)
    requires n > 0
    decreases |s|
  {
    if |s| == 0 then []
    else if |s| <= n then [s]
    else [s[..n]] + Chunks(s[n..], n)
  }

  /** Chunking loses and reorders nothing, and every chunk holds between 1 and
      `n` items; all but the last hold exactly `n`. */
  lemma {:induction false} ChunksSpec<T>(s: seq<T>, n: nat)
    requires n > 0
    ensures Flatten(Chunks(s, n)) == s
    ensures forall i :: 0 <= i < |Chunks(s, n)| ==> 1 <= |Chunks(s, n)[i]| <= n
    ensures forall i :: 0 <= i < |Chunks(s, n)| - 1 ==> |Chunks(s, n)[i]| == n
    decreases |s|
  {
    if |s| == 0 {
    } else if |s| <= n {
      assert Flatten([s]) == s + Flatten([s][1..]);
    } else {
      ChunksSpec(s[n..], n);
      var c := Chunks(s, n);
      assert c == [s[..n]] + Chunks(s[n..], n);
      assert c[1..] == Chunks(s[n..], n);
      assert s == s[..n] + s[n..];
      assert Flatten(c) == c[0] + Flatten(c[1..]);
      forall i | 0 <= i < |c| ensures 1 <= |c[i]| <= n && (i < |c| - 1 ==> |c[i]| == n) {
        if i > 0 {
          assert c[i] == Chunks(s[n..], n)[i - 1];
        }
      }
    }
  }

  /** The elements of `s` that satisfy `p`, in order. */
  function Filter<T>(s: seq<T>, p: T -> bool): (r: seq<T>)
    ensures |r| <= |s|
  {
    if |s| == 0 then []
    else (if p(s[0]) then [s[0]] else []) + Filter(s[1..], p)
  }

  /** Everything kept comes from `s` and satisfies `p`; everything in `s`
      that satisfies `p` is kept. */
  lemma {:induction false} FilterMembers<T>(s: seq<T>, p: T -> bool)
    ensures forall x :: x in Filter(s, p) <==> x in s && p(x)
  {
    if |s| > 0 {
      FilterMembers(s[1..], p);
      assert s == [s[0]] + s[1..];
    }
  }

  lemma {:induction false} FilterAppend<T>(s: seq<T>, t: seq<T>, p: T -> bool)
    ensures Filter(s + t, p) == Filter(s, p) + Filter(t, p)
    decreases |s|
  {
    if |s| == 0 {
      assert s + t == t;
    } else {
      var head := if p(s[0]) then [s[0]] else [];
      assert (s + t)[0] == s[0];
      assert (s + t)[1..] == s[1..] + t;
      assert Filter(s + t, p) == head + Filter(s[1..] + t, p);
      FilterAppend(s[1..], t, p);
      calc {
        Filter(s + t, p);
        head + (Filter(s[1..], p) + Filter(t, p));
        (head + Filter(s[1..], p)) + Filter(t, p);
      }
    }
  }

  /** The present results of `f` over `s`, in order: a generator expression
      `(y for x in s if (y := f(x)))`. */
  function FilterMap<T, U>(s: seq<T>, f: T -> Option<U>): (r: seq<U>)
    ensures |r| <= |s|
    ensures (forall i :: 0 <= i < |s| ==> f(s[i]).Some?) ==> |r| == |s|
  {
    if |s| == 0 then []
    else (if f(s[0]).Some? then [f(s[0]).value] else []) + FilterMap(s[1..], f)
  }

  /** `(y for j, x in enumerate(s, from) if (y := f(j, x)))`: the present
      results of `f` over `s` with each element's position, in order. */
  function FilterMapIndexed<T, U>(f: (nat, T) -> Option<U>, s: seq<T>, from: nat): (r: seq<U>)
    ensures |r| <= |s|
    decreases |s|
  {
    if |s| == 0 then []
    else (if f(from, s[0]).Some? then [f(from, s[0]).value] else []) + FilterMapIndexed(f, s[1..], from + 1)
  }

  /** When every element gives a result, nothing is dropped. */
  lemma {:induction false} FilterMapIndexedAllPresent<T, U>(f: (nat, T) -> Option<U>, s: seq<T>, from: nat)
    requires forall j :: 0 <= j < |s| ==> f(from + j, s[j]).Some?
    ensures |FilterMapIndexed(f, s, from)| == |s|
    decreases |s|
  {
    if |s| > 0 {
      assert f(from + 0, s[0]).Some?;
      forall j | 0 <= j < |s| - 1 ensures f(from + 1 + j, s[1..][j]).Some? {
        assert s[1..][j] == s[j + 1] && from + 1 + j == from + (j + 1);
      }
      FilterMapIndexedAllPresent(f, s[1..], from + 1);
    }
  }

  /** Every result comes from some element: the `j`-th. */
  lemma {:induction false} FilterMapIndexedFrom<T, U>(f: (nat, T) -> Option<U>, s: seq<T>, from: nat, y: U)
    returns (j: nat)
    requires y in FilterMapIndexed(f, s, from)
    ensures j < |s| && f(from + j, s[j]) == Some(y)
    decreases |s|
  {
    if f(from, s[0]) == Some(y) {
      j := 0;
    } else {
      var k := FilterMapIndexedFrom(f, s[1..], from + 1, y);
      assert s[1..][k] == s[k + 1];
      j := k + 1;
    }
  }

  /** Every present result is kept. */
  lemma {:induction false} FilterMapIndexedKeeps<T, U>(f: (nat, T) -> Option<U>, s: seq<T>, from: nat, j: nat)
    requires j < |s| && f(from + j, s[j]).Some?
    ensures f(from + j, s[j]).value in FilterMapIndexed(f, s, from)
    decreases |s|
  {
    if j > 0 {
      assert s[1..][j - 1] == s[j];
      FilterMapIndexedKeeps(f, s[1..], from + 1, j - 1);
    }
  }

  /** The results of a prefix of `a + b` reaching into `b` are those of
      all of `a`, then those of the prefix of `b`. */
  lemma FilterMapIndexedPrefixAppend<T, U>(f: (nat, T) -> Option<U>, a: seq<T>, b: seq<T>, from: nat,
                                           ka: nat, kb: nat, k: nat)
    requires ka == |a| && kb <= |b| && k == |a| + kb
    ensures FilterMapIndexed(f, (a + b)[..k], from)
         == FilterMapIndexed(f, a[..ka], from) + FilterMapIndexed(f, b[..kb], from + |a|)
  {
    assert (a + b)[..k] == a + b[..kb] && a[..ka] == a;
    FilterMapIndexedAppend(f, a, b[..kb], from);
  }

  /** The results of a concatenation are those of the first part, then
      those of the second counted on from the first. */
  lemma {:induction false} FilterMapIndexedAppend<T, U>(f: (nat, T) -> Option<U>, a: seq<T>, b: seq<T>, from: nat)
    ensures FilterMapIndexed(f, a + b, from) == FilterMapIndexed(f, a, from) + FilterMapIndexed(f, b, from + |a|)
    decreases |a|
  {
    if |a| == 0 {
      assert a + b == b;
    } else {
      var h := if f(from, a[0]).Some? then [f(from, a[0]).value] else [];
      var tail := FilterMapIndexed(f, a[1..], from + 1);
      var rest := FilterMapIndexed(f, b, from + |a|);
      assert (a + b)[0] == a[0] && (a + b)[1..] == a[1..] + b;
      FilterMapIndexedAppend(f, a[1..], b, from + 1);
      assert FilterMapIndexed(f, a[1..] + b, from + 1) == tail + rest;
      AppendAssoc(h, tail, rest);
    }
  }

  /** `le` is a total preorder: what `sorted` needs of a key comparison. */
  ghost predicate TotalPreorder<T(!new)>(le: (T, T) -> bool) {
    && (forall a, b :: le(a, b) || le(b, a))
    && (forall a, b, c :: le(a, b) && le(b, c) ==> le(a, c))
  }

  predicate SortedBy<T>(s: seq<T>, le: (T, T) -> bool) {
    forall i, j :: 0 <= i < j < |s| ==> le(s[i], s[j])
  }

  /** Inserts `x` before the first element it is `le` to. */
  function Insert<T>(x: T, s: seq<T>, le: (T, T) -> bool): (r: seq<T>)
    ensures multiset(r) == multiset(s) + multiset{x}
    ensures |r| == |s| + 1
  {
    if |s| == 0 then [x]
    else if le(x, s[0]) then [x] + s
    else
      assert s == [s[0]] + s[1..];
      [s[0]] + Insert(x, s[1..], le)
  }

  /** Python's stable `sorted(s, key=...)`, with the key order given as `le`. */
  function Sort<T>(s: seq<T>, le: (T, T) -> bool): (r: seq<T>)
    ensures multiset(r) == multiset(s)
    ensures |r| == |s|
  {
    if |s| == 0 then []
    else
      assert s == [s[0]] + s[1..];
      Insert(s[0], Sort(s[1..], le), le)
  }

  lemma {:induction false} InsertSorted<T(!new)>(x: T, s: seq<T>, le: (T, T) -> bool)
    requires TotalPreorder(le)
    requires SortedBy(s, le)
    ensures SortedBy(Insert(x, s, le), le)
    decreases |s|
  {
    if |s| == 0 {
    } else if le(x, s[0]) {
    } else {
      InsertSorted(x, s[1..], le);
      var t := Insert(x, s[1..], le);
      var r := [s[0]] + t;
      assert le(s[0], x);
      assert forall k :: 0 <= k < |t| ==> le(s[0], t[k]) by {
        assert forall k :: 0 <= k < |s[1..]| ==> le(s[0], s[1..][k]) by {
          forall k | 0 <= k < |s[1..]| ensures le(s[0], s[1..][k]) {
            assert s[1..][k] == s[k + 1];
          }
        }
        InsertBounded(s[0], x, s[1..], le);
      }
      forall i, j | 0 <= i < j < |r| ensures le(r[i], r[j]) {
        if i == 0 {
          assert r[j] == t[j - 1];
        } else {
          assert r[i] == t[i - 1] && r[j] == t[j - 1];
        }
      }
    }
  }

  /** Inserting an element above `y` into a sequence above `y` keeps it above `y`. */
  lemma {:induction false} InsertBounded<T>(y: T, x: T, s: seq<T>, le: (T, T) -> bool)
    requires le(y, x)
    requires forall k :: 0 <= k < |s| ==> le(y, s[k])
    ensures forall k :: 0 <= k < |Insert(x, s, le)| ==> le(y, Insert(x, s, le)[k])
    decreases |s|
  {
    if |s| > 0 && !le(x, s[0]) {
      InsertBounded(y, x, s[1..], le);
      var t := Insert(x, s[1..], le);
      forall k | 0 <= k < |[s[0]] + t| ensures le(y, ([s[0]] + t)[k]) {
        if k > 0 { assert ([s[0]] + t)[k] == t[k - 1]; }
      }
    }
  }

  /** `Sort` orders its input by `le` whenever `le` is a total preorder. */
  lemma {:induction false} SortSorted<T(!new)>(s: seq<T>, le: (T, T) -> bool)
    requires TotalPreorder(le)
    ensures SortedBy(Sort(s, le), le)
    decreases |s|
  {
    if |s| > 0 {
      SortSorted(s[1..], le);
      InsertSorted(s[0], Sort(s[1..], le), le);
    }
  }
}
