/** From what a user writes to the tree: matched option strings are split into segments and grouped. */
module OptionStrings {
  import opened Options
  import opened Decimal
  import opened PropertyPath
  import opened ConfigStore
  import opened ConfigTree
  import opened OptionGrouping
  import opened OptionConflicts

  /** An option as the regular expressions match it: trait, parts of the property and value. */
  datatype Matched = Matched(id: string, parts: seq<string>, value: string)

  /** The parts can be split; an empty one makes the source panic. */
  predicate Splittable(m: Matched) {
    m.parts != [] && forall i :: 0 <= i < |m.parts| ==> !IsEmptyPart(m.parts[i])
  }

  function Split(m: Matched): Opt {
    Opt(m.id, AllPieces(m.parts), m.value)
  }

  function Splits(ms: seq<Matched>): (opts: seq<Opt>)
    ensures |opts| == |ms| && forall i :: 0 <= i < |ms| ==> opts[i] == Split(ms[i])
  {
    seq(|ms|, i requires 0 <= i < |ms| => Split(ms[i]))
  }

  predicate AllSplittable(ms: seq<Matched>) {
    forall i :: 0 <= i < |ms| ==> Splittable(ms[i])
  }

  lemma {:induction false} SomePieces(parts: seq<string>)
    requires parts != []
    ensures AllPieces(parts) != []
  {
    var last := TrimQuotes(parts[|parts| - 1]);
    assert Pieces(last) != [];
  }

  // The loop over matched options

  datatype Result = Built | Rejected | Panicked

  /** The n-th option is the first that cannot be split. */
  ghost predicate PanicsAt(ms: seq<Matched>, n: nat) {
    && n < |ms| && AllSplittable(ms[..n]) && !Splittable(ms[n])
    && WellSplit(Splits(ms[..n])) && Build(Splits(ms[..n])).Some?
  }

  /** The n-th option is the first that the tree rejects. */
  ghost predicate RejectedAt(ms: seq<Matched>, n: nat) {
    && n < |ms| && AllSplittable(ms[..n + 1])
    && WellSplit(Splits(ms[..n])) && Build(Splits(ms[..n])).Some?
    && WellSplit(Splits(ms[..n + 1])) && Build(Splits(ms[..n + 1])).None?
  }

  /** The first n options have been split and are in the tree. */
  ghost predicate Progress(ms: seq<Matched>, n: nat, shown: Views) {
    && n <= |ms| && AllSplittable(ms[..n])
    && WellSplit(Splits(ms[..n])) && Build(Splits(ms[..n])) == Some(shown)
  }

  method OptionsToTree(ms: seq<Matched>) returns (tree: Tree, result: Result)
    ensures fresh(tree) && tree.Valid()
    ensures result.Built? ==>
              && AllSplittable(ms) && WellSplit(Splits(ms))
              && Build(Splits(ms)).Some? && tree.Shows(Build(Splits(ms)).value)
    ensures result.Rejected? ==> exists n: nat :: RejectedAt(ms, n)
    ensures result.Panicked? ==> exists n: nat :: PanicsAt(ms, n)
  {
    tree := new Tree();
    assert Splits(ms[..0]) == [];
    var n := 0;
    ghost var shown := Empty();
    while n < |ms|
      invariant 0 <= n <= |ms| && Progress(ms, n, shown)
      invariant fresh(tree) && fresh(tree.nodes) && tree.Valid() && tree.Shows(shown)
    {
      var m := ms[n];
      var segments := ConfigTreePropertySplit(m.parts);
      if m.parts == [] || segments.None? {
        assert PanicsAt(ms, n);
        return tree, Panicked;
      }
      NextOption(ms, n, shown);
      ghost var next := Added(shown, Split(m));
      var added := tree.AddOption(Opt(m.id, segments.value, m.value), shown);
      if !added {
        return tree, Rejected;
      }
      shown := next.value;
      n := n + 1;
    }
    assert ms[..n] == ms;
    return tree, Built;
  }

  lemma NextOption(ms: seq<Matched>, n: nat, shown: Views)
    requires Progress(ms, n, shown) && n < |ms| && Splittable(ms[n])
    ensures Split(ms[n]).parts != []
    ensures match Added(shown, Split(ms[n]))
            case Some(next) => Progress(ms, n + 1, next)
            case None => RejectedAt(ms, n)
  {
    OneMore(ms, n);
  }

  lemma OneMore(ms: seq<Matched>, n: nat)
    requires n < |ms| && AllSplittable(ms[..n]) && Splittable(ms[n]) && WellSplit(Splits(ms[..n]))
    requires Build(Splits(ms[..n])).Some?
    ensures AllSplittable(ms[..n + 1]) && WellSplit(Splits(ms[..n + 1])) && Split(ms[n]).parts != []
    ensures Build(Splits(ms[..n + 1])) == Added(Build(Splits(ms[..n])).value, Split(ms[n]))
  {
    MoreSplittable(ms, n);
    SomePieces(ms[n].parts);
    SplitsSnoc(ms, n);
    BuildSnoc(Splits(ms[..n]), Split(ms[n]));
  }

  lemma MoreSplittable(ms: seq<Matched>, n: nat)
    requires n < |ms| && AllSplittable(ms[..n]) && Splittable(ms[n])
    ensures AllSplittable(ms[..n + 1])
  {
    var more := ms[..n + 1];
    forall i | 0 <= i < |more| ensures Splittable(more[i]) {
      assert i < n ==> more[i] == ms[..n][i];
    }
  }

  lemma SplitsSnoc(ms: seq<Matched>, n: nat)
    requires n < |ms|
    ensures Splits(ms[..n + 1]) == Splits(ms[..n]) + [Split(ms[n])]
  {
  }

  lemma BuildSnoc(opts: seq<Opt>, o: Opt)
    requires WellSplit(opts) && o.parts != []
    ensures WellSplit(opts + [o])
    ensures Build(opts).Some? ==> Build(opts + [o]) == Added(Build(opts).value, o)
  {
    assert (opts + [o])[..|opts|] == opts;
  }

  // What the user writes

  /** A name with indexes behind it. */
  datatype Name = Name(base: string, indexes: seq<nat>)

  function Bracket(i: nat): string {
    "[" + Format(i) + "]"
  }

  function Brackets(indexes: seq<nat>): (r: seq<string>)
    ensures |r| == |indexes| && forall i :: 0 <= i < |indexes| ==> r[i] == Bracket(indexes[i])
  {
    seq(|indexes|, i requires 0 <= i < |indexes| => Bracket(indexes[i]))
  }

  function Indexes(indexes: seq<nat>): (r: Path)
    ensures |r| == |indexes| && forall i :: 0 <= i < |indexes| ==> r[i] == Index(indexes[i])
  {
    seq(|indexes|, i requires 0 <= i < |indexes| => Index(indexes[i]))
  }

  function Written(n: Name): string {
    n.base + Concat(Brackets(n.indexes))
  }

  /** Any base that does not look like an index, with indexes that fit 64 bits. */
  predicate Proper(n: Name) {
    IsBase(n.base) && n.base[0] != '[' && forall i :: 0 <= i < |n.indexes| ==> n.indexes[i] <= MAX_INT64
  }

  function Segments(names: seq<Name>): seq<string> {
    if names == [] then [] else
      var n := names[|names| - 1];
      Segments(names[..|names| - 1]) + ([n.base] + Brackets(n.indexes))
  }

  /** The path the names mean. */
  function PathOf(names: seq<Name>): Path {
    if names == [] then [] else
      var n := names[|names| - 1];
      PathOf(names[..|names| - 1]) + ([Key(n.base)] + Indexes(n.indexes))
  }

  /** The part spells the name, quoted or not. */
  ghost predicate Spells(part: string, n: Name) {
    && Proper(n)
    && var w := Written(n);
    (part == w && !InQuotes(w)) || part == "\"" + w + "\"" || part == "'" + w + "'"
  }

  lemma SpellsTrimmed(part: string, n: Name)
    requires Spells(part, n)
    ensures TrimQuotes(part) == Written(n)
  {
    QuotesAreTrimmed(Written(n));
  }

  /** The option is written with these names; the last one is that of the property. */
  ghost predicate Writes(m: Matched, names: seq<Name>) {
    && |m.parts| == |names| > 0 && names[|names| - 1].indexes == []
    && forall i :: 0 <= i < |names| ==> Spells(m.parts[i], names[i])
  }

  lemma BracketIsIndex(i: nat)
    ensures IsIndexPiece(Bracket(i)) && IsSlice(Bracket(i))
    ensures i <= MAX_INT64 ==> Position(Bracket(i)) == Some(i)
  {
    var s := Bracket(i);
    FormatValue(i);
    assert s[1..|s| - 1] == Format(i);
    assert forall j :: 0 < j < |s| - 1 ==> s[j] == Format(i)[j - 1];
    if i <= MAX_INT64 {
      ParseFormat(i);
    }
  }

  lemma WrittenPieces(n: Name)
    requires Proper(n)
    ensures Pieces(Written(n)) == [n.base] + Brackets(n.indexes)
  {
    forall i | 0 <= i < |n.indexes| ensures IsIndexPiece(Brackets(n.indexes)[i]) {
      BracketIsIndex(n.indexes[i]);
    }
    PiecesRoundTrip(n.base, Brackets(n.indexes));
  }

  predicate SplitsInto(part: string, n: Name) {
    Pieces(TrimQuotes(part)) == [n.base] + Brackets(n.indexes)
  }

  lemma {:induction false} AllSegments(parts: seq<string>, names: seq<Name>)
    requires |parts| == |names| && forall i :: 0 <= i < |names| ==> SplitsInto(parts[i], names[i])
    ensures AllPieces(parts) == Segments(names)
  {
    if names != [] {
      var n := |names| - 1;
      AllSegments(parts[..n], names[..n]);
      assert SplitsInto(parts[n], names[n]);
    }
  }

  /** Splitting finds exactly the bases and indexes that were written. */
  lemma WrittenSegments(parts: seq<string>, names: seq<Name>)
    requires |parts| == |names| && forall i :: 0 <= i < |names| ==> Spells(parts[i], names[i])
    ensures AllPieces(parts) == Segments(names)
  {
    forall i | 0 <= i < |names| ensures SplitsInto(parts[i], names[i]) {
      SpellsTrimmed(parts[i], names[i]);
      WrittenPieces(names[i]);
    }
    AllSegments(parts, names);
  }

  /** The step an inner segment stands for. */
  function StepFor(seg: string): Step {
    if IsSlice(seg) && Position(seg).Some? && Position(seg).value >= 0 then Index(Position(seg).value) else Key(seg)
  }

  lemma {:induction false} SegmentsMean(names: seq<Name>)
    requires forall i :: 0 <= i < |names| ==> Proper(names[i])
    ensures |Segments(names)| == |PathOf(names)| >= |names|
    ensures forall i :: 0 <= i < |Segments(names)| ==>
              StepFor(Segments(names)[i]) == PathOf(names)[i] &&
              (IsSlice(Segments(names)[i]) ==> PathOf(names)[i].Index?)
    ensures names != [] ==> PathOf(names)[0].Key? && Segments(names)[0] == PathOf(names)[0].key
  {
    if names != [] {
      var last := names[|names| - 1];
      SegmentsMean(names[..|names| - 1]);
      assert !IsSlice(last.base);
      forall i | 0 <= i < |last.indexes| ensures StepFor(Bracket(last.indexes[i])) == Index(last.indexes[i]) {
        BracketIsIndex(last.indexes[i]);
      }
    }
  }

  lemma WrittenIsSplittable(m: Matched, names: seq<Name>)
    requires Writes(m, names)
    ensures Splittable(m)
  {
    forall i | 0 <= i < |m.parts| ensures !IsEmptyPart(m.parts[i]) {
      EmptyParts(m.parts[i]);
      SpellsTrimmed(m.parts[i], names[i]);
      assert |Written(names[i])| >= |names[i].base| > 0;
    }
  }

  /** The path of the split option is the path the names mean. */
  lemma WrittenPath(m: Matched, names: seq<Name>)
    requires Writes(m, names)
    ensures Splittable(m) && ValidIndexes(Split(m)) && FullPath(Split(m)) == [Key(m.id)] + PathOf(names)
  {
    WrittenIsSplittable(m, names);
    WrittenSegments(m.parts, names);
    assert forall i :: 0 <= i < |names| ==> Spells(m.parts[i], names[i]);
    PathOfSegments(m.id, names, m.value);
  }

  lemma {:induction false} PathOfSegments(id: string, names: seq<Name>, value: string)
    requires names != [] && names[|names| - 1].indexes == [] && forall i :: 0 <= i < |names| ==> Proper(names[i])
    ensures var o := Opt(id, Segments(names), value); ValidIndexes(o) && FullPath(o) == [Key(id)] + PathOf(names)
  {
    SegmentsMean(names);
    LastSegment(names);
    PathFromSteps(id, Segments(names), PathOf(names), value);
  }

  lemma {:induction false} LastSegment(names: seq<Name>)
    requires names != [] && names[|names| - 1].indexes == []
    ensures Segments(names) != [] && PathOf(names) != []
    ensures PathOf(names)[|PathOf(names)| - 1] == Key(Segments(names)[|Segments(names)| - 1])
  {
  }

  lemma {:induction false} PathFromSteps(id: string, parts: seq<string>, path: Path, value: string)
    requires |parts| == |path| > 0
    requires forall i :: 0 <= i < |parts| ==> StepFor(parts[i]) == path[i] && (IsSlice(parts[i]) ==> path[i].Index?)
    requires path[0] == Key(parts[0]) && path[|path| - 1] == Key(parts[|parts| - 1])
    ensures var o := Opt(id, parts, value); ValidIndexes(o) && FullPath(o) == [Key(id)] + path
  {
    var o := Opt(id, parts, value);
    var p, wanted := FullPath(o), [Key(id)] + path;
    forall i | 0 <= i < |p| ensures p[i] == wanted[i] {
      if i > 0 {
        StepMeans(parts, path[i - 1], i - 1);
      }
    }
    assert p == wanted;
  }

  lemma StepMeans(parts: seq<string>, step: Step, i: nat)
    requires i < |parts| && StepFor(parts[i]) == step
    requires i == 0 || i == |parts| - 1 ==> step == Key(parts[i])
    ensures StepAt(parts, i) == step
  {
  }

  /**
   Option grouping for what the user writes: the options denote the written paths, and the tree holds at every path
   exactly the values written for it, in order, if and only if no two written paths are in conflict.
   */
  lemma WrittenOptionsAreGrouped(ms: seq<Matched>, names: seq<seq<Name>>)
    requires |ms| == |names| && forall i :: 0 <= i < |ms| ==> Writes(ms[i], names[i])
    ensures AllSplittable(ms) && Valid(Splits(ms))
    ensures forall i :: 0 <= i < |ms| ==> FullPath(Splits(ms)[i]) == [Key(ms[i].id)] + PathOf(names[i])
    ensures (forall i, j :: 0 <= i < j < |ms| ==>
               Compatible([Key(ms[i].id)] + PathOf(names[i]), [Key(ms[j].id)] + PathOf(names[j]))) <==>
              Build(Splits(ms)).Some? && forall q :: Build(Splits(ms)).value(q) == Expected(Splits(ms), q)
  {
    forall i | 0 <= i < |ms|
      ensures Splittable(ms[i]) && ValidIndexes(Split(ms[i]))
      ensures FullPath(Split(ms[i])) == [Key(ms[i].id)] + PathOf(names[i])
    {
      WrittenPath(ms[i], names[i]);
    }
    GroupedExactly(Splits(ms));
  }
}
