/** Loading the snippet files of the three supported formats: collecting
    the candidate files under each search directory, grouping the parsed
    results by label and file stem, and the final conversion of the
    accumulated extends sets. Walking directories, reading files and the
    per-format parsers are outside the model: the walk is a parameter and
    the parsed records arrive as a sequence in encounter order. */
module SnippetLoad {
  /** A file found by the directory walk: `stem` and `suffix` as Python's
      `Path.stem` and `Path.suffix` split its name. */
  datatype FilePath = FilePath(parent: string, stem: string, suffix: string)

  datatype Parser = ParseLsp | ParseNeosnippet | ParseUltisnip

  /** The file suffixes each format is loaded from. */
  function Exts(p: Parser): (exts: set<string>)
    ensures ".json" in exts <==> p == ParseLsp
    ensures p != ParseLsp ==> exts == {".snippets", ".snip"}
  {
    if p == ParseLsp then {".json"} else {".snippets", ".snip"}
  }

  /** The `(stem, path)` pairs of the files among `files` whose suffix is
      one of `exts`. */
  function Matching(files: seq<FilePath>, exts: set<string>): set<(string, FilePath)>
    decreases |files|
  {
    if |files| == 0 then {}
    else
      var p := files[|files| - 1];
      Matching(files[..|files| - 1], exts) + (if p.suffix in exts then {(p.stem, p)} else {})
  }

  lemma {:induction false} MatchingMembers(files: seq<FilePath>, exts: set<string>)
    ensures forall p :: p in files && p.suffix in exts ==> (p.stem, p) in Matching(files, exts)
    ensures forall x :: x in Matching(files, exts) ==> x.1 in files && x.1.suffix in exts && x.0 == x.1.stem
    decreases |files|
  {
    if |files| > 0 {
      var n := |files| - 1;
      MatchingMembers(files[..n], exts);
      assert files == files[..n] + [files[n]];
    }
  }

  /** `_load_paths`: every label of `search` gets an entry, empty when no
      file under its directory has a wanted suffix. `walk` lists the files
      under a directory. */
  method LoadPaths(search: map<string, string>, exts: set<string>, walk: string -> seq<FilePath>)
    returns (meta: map<string, set<(string, FilePath)>>)
    ensures meta.Keys == search.Keys
    ensures forall name :: name in meta ==> meta[name] == Matching(walk(search[name]), exts)
  {
    meta := map[];
    var todo := search.Keys;
    while todo != {}
      invariant todo <= search.Keys
      invariant meta.Keys == search.Keys - todo
      invariant forall name :: name in meta ==> meta[name] == Matching(walk(search[name]), exts)
      decreases |todo|
    {
      var name :| name in todo;
      var files := walk(search[name]);
      var acc := {};
      for i := 0 to |files|
        invariant acc == Matching(files[..i], exts)
      {
        assert files[..i + 1][..i] == files[..i];
        if files[i].suffix in exts {
          acc := acc + {(files[i].stem, files[i])};
        }
      }
      assert files[..|files|] == files;
      meta := meta[name := acc];
      todo := todo - {name};
    }
  }

  /** The candidate files of one format, by label. */
  type Spec = map<string, set<(string, FilePath)>>

  /** `spec` is `_load_paths(search, exts=...)` for the format `p`. */
  predicate SpecMatches(spec: Spec, search: map<string, string>, p: Parser, walk: string -> seq<FilePath>) {
    && spec.Keys == search.Keys
    && forall name :: name in spec ==> spec[name] == Matching(walk(search[name]), Exts(p))
  }

  /** The `specs` of `load`: the three formats in the order LSP,
      neosnippet, UltiSnips, each with the candidate files of its own
      search mapping. */
  predicate SpecsOf(lsp: map<string, string>, neosnippet: map<string, string>, ultisnip: map<string, string>,
                    walk: string -> seq<FilePath>, specs: seq<(Parser, Spec)>) {
    && |specs| == 3
    && specs[0].0 == ParseLsp && specs[1].0 == ParseNeosnippet && specs[2].0 == ParseUltisnip
    && SpecMatches(specs[0].1, lsp, ParseLsp, walk)
    && SpecMatches(specs[1].1, neosnippet, ParseNeosnippet, walk)
    && SpecMatches(specs[2].1, ultisnip, ParseUltisnip, walk)
  }

  /** The first step of `load`: the candidate files of each format. */
  method Specs(lsp: map<string, string>, neosnippet: map<string, string>, ultisnip: map<string, string>,
               walk: string -> seq<FilePath>)
    returns (specs: seq<(Parser, Spec)>)
    ensures SpecsOf(lsp, neosnippet, ultisnip, walk, specs)
  {
    var a := LoadPaths(lsp, Exts(ParseLsp), walk);
    var b := LoadPaths(neosnippet, Exts(ParseNeosnippet), walk);
    var c := LoadPaths(ultisnip, Exts(ParseUltisnip), walk);
    specs := [(ParseLsp, a), (ParseNeosnippet, b), (ParseUltisnip, c)];
  }

  /** A snippet as a format parser produces it. */
  datatype ParsedSnippet = ParsedSnippet(grammar: string, content: string, labelText: string)

  /** What the loader yields for one file: its label, its stem, the
      filetypes it extends and its snippets. */
  datatype Record = Record(labelName: string, stem: string, extended: set<string>, snippets: seq<ParsedSnippet>)

  /** The accumulated extends and snippets of one label, keyed by stem. */
  datatype LabelSnips = LabelSnips(extended: map<string, set<string>>, snippets: map<string, seq<ParsedSnippet>>)

  type Meta = map<string, LabelSnips>

  /** One record folded into the accumulator. */
  function AddRecord(meta: Meta, r: Record): Meta {
    var g := if r.labelName in meta then meta[r.labelName] else LabelSnips(map[], map[]);
    var e := if r.stem in g.extended then g.extended[r.stem] else {};
    var s := if r.stem in g.snippets then g.snippets[r.stem] else [];
    meta[r.labelName := LabelSnips(g.extended[r.stem := e + r.extended], g.snippets[r.stem := s + r.snippets])]
  }

  /** The accumulator after the records of `stream`. */
  function GroupSpec(stream: seq<Record>): Meta
    decreases |stream|
  {
    if |stream| == 0 then map[]
    else AddRecord(GroupSpec(stream[..|stream| - 1]), stream[|stream| - 1])
  }

  /** `for e in extends: e_acc.add(e)`. */
  method AddAll(acc: set<string>, xs: set<string>) returns (r: set<string>)
    ensures r == acc + xs
  {
    r := acc;
    var todo := xs;
    while todo != {}
      invariant todo <= xs
      invariant r == acc + (xs - todo)
      decreases |todo|
    {
      var e :| e in todo;
      r := r + {e};
      todo := todo - {e};
    }
  }

  /** `for s in snippets: s_acc.append(s)`. */
  method AppendAll(acc: seq<ParsedSnippet>, xs: seq<ParsedSnippet>) returns (r: seq<ParsedSnippet>)
    ensures r == acc + xs
  {
    r := acc;
    for j := 0 to |xs|
      invariant r == acc + xs[..j]
    {
      assert xs[..j + 1] == xs[..j] + [xs[j]];
      r := r + [xs[j]];
    }
    assert xs[..|xs|] == xs;
  }

  /** The grouping loop of `load`. */
  method Group(stream: seq<Record>) returns (meta: Meta)
    ensures meta == GroupSpec(stream)
  {
    meta := map[];
    for i := 0 to |stream|
      invariant meta == GroupSpec(stream[..i])
    {
      var r := stream[i];
      var g := if r.labelName in meta then meta[r.labelName] else LabelSnips(map[], map[]);
      var eAcc := if r.stem in g.extended then g.extended[r.stem] else {};
      var sAcc := if r.stem in g.snippets then g.snippets[r.stem] else [];
      eAcc := AddAll(eAcc, r.extended);
      sAcc := AppendAll(sAcc, r.snippets);
      assert stream[..i + 1][..i] == stream[..i];
      meta := meta[r.labelName := LabelSnips(g.extended[r.stem := eAcc], g.snippets[r.stem := sAcc])];
    }
    assert stream[..|stream|] == stream;
  }

  // Reference definitions, one key at a time.

  function Labels(stream: seq<Record>): set<string>
    decreases |stream|
  {
    if |stream| == 0 then {}
    else Labels(stream[..|stream| - 1]) + {stream[|stream| - 1].labelName}
  }

  /** The stems recorded under the label `name`. */
  function Stems(stream: seq<Record>, name: string): set<string>
    decreases |stream|
  {
    if |stream| == 0 then {}
    else
      var r := stream[|stream| - 1];
      Stems(stream[..|stream| - 1], name) + (if r.labelName == name then {r.stem} else {})
  }

  /** The union of the extends of every record for `(label, stem)`. */
  function ExtendsOf(stream: seq<Record>, name: string, stem: string): set<string>
    decreases |stream|
  {
    if |stream| == 0 then {}
    else
      var r := stream[|stream| - 1];
      ExtendsOf(stream[..|stream| - 1], name, stem)
        + (if r.labelName == name && r.stem == stem then r.extended else {})
  }

  /** The snippets of every record for `(label, stem)`, in encounter order. */
  function SnippetsOf(stream: seq<Record>, name: string, stem: string): seq<ParsedSnippet>
    decreases |stream|
  {
    if |stream| == 0 then []
    else
      var r := stream[|stream| - 1];
      SnippetsOf(stream[..|stream| - 1], name, stem)
        + (if r.labelName == name && r.stem == stem then r.snippets else [])
  }

  /** The grouping has an entry for exactly the labels met. */
  lemma {:induction false} GroupLabels(stream: seq<Record>)
    ensures GroupSpec(stream).Keys == Labels(stream)
    decreases |stream|
  {
    if |stream| > 0 {
      GroupLabels(stream[..|stream| - 1]);
    }
  }

  /** Under each label, an extends entry and a snippets entry for exactly
      the stems met with it. */
  lemma {:induction false} GroupStems(stream: seq<Record>, name: string)
    requires name in GroupSpec(stream)
    ensures GroupSpec(stream)[name].extended.Keys == Stems(stream, name)
    ensures GroupSpec(stream)[name].snippets.Keys == Stems(stream, name)
    decreases |stream|
  {
    var n := |stream| - 1;
    var prev, r := GroupSpec(stream[..n]), stream[n];
    if name != r.labelName {
      assert GroupSpec(stream)[name] == prev[name];
      GroupStems(stream[..n], name);
    } else if name in prev {
      GroupStems(stream[..n], name);
    } else {
      GroupLabels(stream[..n]);
      StemsUnlabelled(stream[..n], name);
    }
  }

  lemma {:induction false} StemsUnlabelled(stream: seq<Record>, name: string)
    requires name !in Labels(stream)
    ensures Stems(stream, name) == {}
    decreases |stream|
  {
    if |stream| > 0 {
      StemsUnlabelled(stream[..|stream| - 1], name);
    }
  }

  /** The extends recorded for a `(label, stem)` are the union of the
      extends of all its records. */
  lemma {:induction false} GroupExtends(stream: seq<Record>, name: string, stem: string)
    requires name in GroupSpec(stream) && stem in GroupSpec(stream)[name].extended
    ensures GroupSpec(stream)[name].extended[stem] == ExtendsOf(stream, name, stem)
    decreases |stream|
  {
    var n := |stream| - 1;
    var prev := GroupSpec(stream[..n]);
    var r := stream[n];
    if name in prev && stem in prev[name].extended {
      GroupExtends(stream[..n], name, stem);
    } else {
      GroupExtendsAbsent(stream[..n], name, stem);
    }
  }

  /** A `(label, stem)` without an extends entry has met no record. */
  lemma {:induction false} GroupExtendsAbsent(stream: seq<Record>, name: string, stem: string)
    requires name !in GroupSpec(stream) || stem !in GroupSpec(stream)[name].extended
    ensures ExtendsOf(stream, name, stem) == {} && SnippetsOf(stream, name, stem) == []
    decreases |stream|
  {
    if |stream| > 0 {
      var n := |stream| - 1;
      GroupExtendsAbsent(stream[..n], name, stem);
    }
  }

  /** The snippets recorded for a `(label, stem)` are those of all its
      records, in encounter order. */
  lemma {:induction false} GroupSnippets(stream: seq<Record>, name: string, stem: string)
    requires name in GroupSpec(stream) && stem in GroupSpec(stream)[name].snippets
    ensures GroupSpec(stream)[name].snippets[stem] == SnippetsOf(stream, name, stem)
    decreases |stream|
  {
    var n := |stream| - 1;
    var prev := GroupSpec(stream[..n]);
    if name in prev && stem in prev[name].snippets {
      GroupSnippets(stream[..n], name, stem);
    } else {
      if name in prev {
        GroupStems(stream[..n], name);
      }
      GroupExtendsAbsent(stream[..n], name, stem);
    }
  }

  /** The result of `load`, per label: for each stem, its extends as a
      mapping to `True`, and its snippet list. */
  datatype Loaded = Loaded(extended: map<string, map<string, bool>>, snippets: map<string, seq<ParsedSnippet>>)

  /** The final `fin` conversion: each extends set becomes a mapping of its
      members to `True`; the snippet lists are kept as they are. */
  function Fin(meta: Meta): (fin: map<string, Loaded>)
    ensures fin.Keys == meta.Keys
    ensures forall name :: name in fin ==>
              && fin[name].snippets == meta[name].snippets
              && fin[name].extended.Keys == meta[name].extended.Keys
    ensures forall name, stem :: name in fin && stem in fin[name].extended ==>
              && fin[name].extended[stem].Keys == meta[name].extended[stem]
              && (forall e :: e in fin[name].extended[stem] ==> fin[name].extended[stem][e])
  {
    map name | name in meta ::
      Loaded(map stem | stem in meta[name].extended :: (map e | e in meta[name].extended[stem] :: true),
             meta[name].snippets)
  }

  // ---------------------------------------------------------------------------
  // c1: reading the candidate files

  /** One file `c1` reads: its format, the label it was searched under, and
      its `(stem, path)` pair. */
  datatype Visit = Visit(parser: Parser, labelName: string, stem: string, path: FilePath)

  /** The candidate files of format `p` in `specs`. */
  function SpecFor(specs: seq<(Parser, Spec)>, p: Parser): Spec
    decreases |specs|
  {
    if |specs| == 0 then map[]
    else if specs[0].0 == p then specs[0].1
    else SpecFor(specs[1..], p)
  }

  function Rank(p: Parser): nat {
    match p
    case ParseLsp => 0
    case ParseNeosnippet => 1
    case ParseUltisnip => 2
  }

  /** `v` is a candidate file of `specs`. */
  predicate Candidate(specs: seq<(Parser, Spec)>, v: Visit) {
    v.labelName in SpecFor(specs, v.parser) && (v.stem, v.path) in SpecFor(specs, v.parser)[v.labelName]
  }

  /** `visits` is an order in which `c1` meets the candidate files: each
      one once, the formats one after the other. The order within a format
      follows dict and set iteration and is left open. */
  predicate Enumerates(specs: seq<(Parser, Spec)>, visits: seq<Visit>) {
    && (forall i :: 0 <= i < |visits| ==> Candidate(specs, visits[i]))
    && (forall p, name, x :: name in SpecFor(specs, p) && x in SpecFor(specs, p)[name] ==>
          Visit(p, name, x.0, x.1) in visits)
    && (forall i, j :: 0 <= i < j < |visits| ==> Rank(visits[i].parser) <= Rank(visits[j].parser))
    && (forall i, j :: 0 <= i < j < |visits| ==> visits[i] != visits[j])
  }

  /** What `c1` yields for one file: its label and stem with what its
      format's parser makes of it. */
  function RecordOf(parse: (Parser, FilePath) -> (set<string>, seq<ParsedSnippet>), v: Visit): Record {
    Record(v.labelName, v.stem, parse(v.parser, v.path).0, parse(v.parser, v.path).1)
  }

  /** The records `c1` yields, one per visited file, in order. */
  function Records(visits: seq<Visit>, parse: (Parser, FilePath) -> (set<string>, seq<ParsedSnippet>))
    : (stream: seq<Record>)
    ensures |stream| == |visits|
    ensures forall i :: 0 <= i < |visits| ==> stream[i] == RecordOf(parse, visits[i])
    decreases |visits|
  {
    if |visits| == 0 then []
    else
      var n := |visits| - 1;
      assert forall i :: 0 <= i < n ==> visits[..n][i] == visits[i];
      Records(visits[..n], parse) + [RecordOf(parse, visits[n])]
  }

  /** `c1`: the loop reading and parsing each candidate file. */
  method ReadRecords(visits: seq<Visit>, parse: (Parser, FilePath) -> (set<string>, seq<ParsedSnippet>))
    returns (stream: seq<Record>)
    ensures stream == Records(visits, parse)
  {
    stream := [];
    for i := 0 to |visits|
      invariant stream == Records(visits[..i], parse)
    {
      assert visits[..i + 1][..i] == visits[..i];
      stream := stream + [RecordOf(parse, visits[i])];
    }
    assert visits[..|visits|] == visits;
  }

  /** The record at position `i` carries a label that was met. */
  lemma {:induction false} LabelsHas(stream: seq<Record>, i: nat)
    requires i < |stream|
    ensures stream[i].labelName in Labels(stream)
    decreases |stream|
  {
    var n := |stream| - 1;
    if i < n {
      assert stream[..n][i] == stream[i];
      LabelsHas(stream[..n], i);
    }
  }

  /** Every label met is carried by some record: the `i`-th. */
  lemma {:induction false} LabelsFrom(stream: seq<Record>, name: string) returns (i: nat)
    requires name in Labels(stream)
    ensures i < |stream| && stream[i].labelName == name
    decreases |stream|
  {
    var n := |stream| - 1;
    if stream[n].labelName == name {
      i := n;
    } else {
      i := LabelsFrom(stream[..n], name);
      assert stream[..n][i] == stream[i];
    }
  }

  /** Every record comes from a candidate file: its label was searched for
      its format, and its stem is that of a matching file. */
  lemma RecordsFromSpecs(specs: seq<(Parser, Spec)>, visits: seq<Visit>,
                         parse: (Parser, FilePath) -> (set<string>, seq<ParsedSnippet>), i: nat)
    requires Enumerates(specs, visits) && i < |visits|
    ensures var r, spec := Records(visits, parse)[i], SpecFor(specs, visits[i].parser);
      r.labelName in spec && (r.stem, visits[i].path) in spec[r.labelName]
  {
    assert Candidate(specs, visits[i]);
  }

  /** A label with at least one candidate file of some format is loaded. */
  lemma LoadKeepsFoundLabels(specs: seq<(Parser, Spec)>, visits: seq<Visit>,
                             parse: (Parser, FilePath) -> (set<string>, seq<ParsedSnippet>),
                             p: Parser, name: string, x: (string, FilePath))
    requires Enumerates(specs, visits)
    requires name in SpecFor(specs, p) && x in SpecFor(specs, p)[name]
    ensures name in Fin(GroupSpec(Records(visits, parse)))
  {
    var stream := Records(visits, parse);
    assert Visit(p, name, x.0, x.1) in visits;
    var i :| 0 <= i < |visits| && visits[i] == Visit(p, name, x.0, x.1);
    LabelsHas(stream, i);
    GroupLabels(stream);
  }

  /** A label with no candidate file in any format is not loaded, although
      `_load_paths` gave it an (empty) entry. */
  lemma LoadSkipsEmptyLabels(specs: seq<(Parser, Spec)>, visits: seq<Visit>,
                             parse: (Parser, FilePath) -> (set<string>, seq<ParsedSnippet>), name: string)
    requires Enumerates(specs, visits)
    requires forall p :: name in SpecFor(specs, p) ==> SpecFor(specs, p)[name] == {}
    ensures name !in Fin(GroupSpec(Records(visits, parse)))
  {
    var stream := Records(visits, parse);
    GroupLabels(stream);
    if name in Labels(stream) {
      var i := LabelsFrom(stream, name);
      assert false;
    }
  }

  /** The formats' entries of `specs` are those of the three search
      mappings. */
  lemma SpecForSpecs(lsp: map<string, string>, neosnippet: map<string, string>, ultisnip: map<string, string>,
                     walk: string -> seq<FilePath>, specs: seq<(Parser, Spec)>)
    requires SpecsOf(lsp, neosnippet, ultisnip, walk, specs)
    ensures SpecMatches(SpecFor(specs, ParseLsp), lsp, ParseLsp, walk)
    ensures SpecMatches(SpecFor(specs, ParseNeosnippet), neosnippet, ParseNeosnippet, walk)
    ensures SpecMatches(SpecFor(specs, ParseUltisnip), ultisnip, ParseUltisnip, walk)
  {
    assert SpecFor(specs, ParseLsp) == specs[0].1;
    assert specs[1..][0] == specs[1] && specs[1..][1..][0] == specs[2];
    assert SpecFor(specs, ParseNeosnippet) == specs[1].1;
    assert SpecFor(specs, ParseUltisnip) == SpecFor(specs[1..][1..], ParseUltisnip) == specs[2].1;
  }

  /** `load`: the candidate files of each format are read in the order
      `enumerate` gives, parsed by `parse`, grouped, and converted. */
  method Load(lsp: map<string, string>, neosnippet: map<string, string>, ultisnip: map<string, string>,
              walk: string -> seq<FilePath>, enumerate: seq<(Parser, Spec)> -> seq<Visit>,
              parse: (Parser, FilePath) -> (set<string>, seq<ParsedSnippet>))
    returns (specs: seq<(Parser, Spec)>, fin: map<string, Loaded>)
    ensures SpecsOf(lsp, neosnippet, ultisnip, walk, specs)
    ensures fin == Fin(GroupSpec(Records(enumerate(specs), parse)))
  {
    specs := Specs(lsp, neosnippet, ultisnip, walk);
    var stream := ReadRecords(enumerate(specs), parse);
    var meta := Group(stream);
    fin := Fin(meta);
  }
}
