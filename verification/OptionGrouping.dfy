/** What the option tree holds in the end: at each path the values given for that path, in order. */
module OptionGrouping {
  import opened Options
  import opened ConfigStore
  import opened ConfigTree

  /** The step of the i-th segment of an option: only inner segments can be indexes. */
  function StepAt(parts: seq<string>, i: nat): Step
    requires i < |parts|
  {
    if 0 < i < |parts| - 1 && IsSlice(parts[i]) && Position(parts[i]).Some? && Position(parts[i]).value >= 0
    then Index(Position(parts[i]).value)
    else Key(parts[i])
  }

  /** The path an option denotes, below its trait. */
  function FullPath(o: Opt): (p: Path)
    requires o.parts != []
    ensures |p| == |o.parts| + 1 && p[0] == Key(o.id)
    ensures forall i :: 0 <= i < |o.parts| ==> p[i + 1] == StepAt(o.parts, i)
  {
    [Key(o.id)] + seq(|o.parts|, i requires 0 <= i < |o.parts| => StepAt(o.parts, i))
  }

  /** Every inner index is a non-negative number. */
  predicate ValidIndexes(o: Opt) {
    && o.parts != []
    && forall i :: 0 < i < |o.parts| - 1 && IsSlice(o.parts[i]) ==>
                     Position(o.parts[i]).Some? && Position(o.parts[i]).value >= 0
  }

  predicate Below(p: Path, q: Path) {
    p <= q && |p| < |q|
  }

  /** Neither path runs through the value of the other, and where they part they agree on the kind of container. */
  predicate Compatible(p: Path, q: Path) {
    && !Below(p, q) && !Below(q, p)
    && forall k :: 0 <= k < |p| && k < |q| && p[..k] == q[..k] ==> p[k].Key? == q[k].Key?
  }

  predicate Valid(opts: seq<Opt>) {
    forall i :: 0 <= i < |opts| ==> ValidIndexes(opts[i])
  }

  predicate NonConflicting(opts: seq<Opt>)
    requires Valid(opts)
  {
    forall i, j :: 0 <= i < j < |opts| ==> Compatible(FullPath(opts[i]), FullPath(opts[j]))
  }

  function Values(opts: seq<Opt>, q: Path): seq<string>
    requires Valid(opts)
  {
    if opts == [] then [] else
      var n := |opts| - 1;
      Values(opts[..n], q) + if FullPath(opts[n]) == q then [opts[n].value] else []
  }

  /** The step some option takes from q on its way to a longer path. */
  function Passing(opts: seq<Opt>, q: Path): Option<Step>
    requires Valid(opts)
  {
    if opts == [] then None else
      var n := |opts| - 1;
      if Below(q, FullPath(opts[n])) then Some(FullPath(opts[n])[|q|]) else Passing(opts[..n], q)
  }

  function KindFor(st: Step): Seen {
    if st.Key? then AMap else ASlice
  }

  /**
   The reference meaning of an option list: a string for one value, a list for several, a container on the way to a
   longer path, and nothing anywhere else.
   */
  function Expected(opts: seq<Opt>, q: Path): Seen
    requires Valid(opts)
  {
    var values := Values(opts, q);
    if values != [] then Leaf(values, |values| > 1)
    else match Passing(opts, q)
         case Some(st) => KindFor(st)
         case None => if q == [] then AMap else Absent
  }

  lemma {:induction false} PassingWitness(opts: seq<Opt>, q: Path) returns (i: nat)
    requires Valid(opts) && Passing(opts, q).Some?
    ensures i < |opts| && Below(q, FullPath(opts[i])) && FullPath(opts[i])[|q|] == Passing(opts, q).value
  {
    var n := |opts| - 1;
    if Below(q, FullPath(opts[n])) {
      i := n;
    } else {
      i := PassingWitness(opts[..n], q);
    }
  }

  lemma {:induction false} ValuesWitness(opts: seq<Opt>, q: Path) returns (i: nat)
    requires Valid(opts) && Values(opts, q) != []
    ensures i < |opts| && FullPath(opts[i]) == q
  {
    var n := |opts| - 1;
    if FullPath(opts[n]) == q {
      i := n;
    } else {
      i := ValuesWitness(opts[..n], q);
    }
  }

  /** On the way to a new option everything already there is a container of the kind it needs. */
  lemma OnTheWay(opts: seq<Opt>, o: Opt, q: Path)
    requires Valid(opts) && ValidIndexes(o) && q != []
    requires forall i :: 0 <= i < |opts| ==> Compatible(FullPath(opts[i]), FullPath(o))
    requires Below(q, FullPath(o))
    ensures Expected(opts, q) == Absent || Expected(opts, q) == KindFor(FullPath(o)[|q|])
  {
    if Values(opts, q) != [] {
      var i := ValuesWitness(opts, q);
    } else if Passing(opts, q).Some? {
      var i := PassingWitness(opts, q);
      var p, r := FullPath(opts[i]), FullPath(o);
      assert Compatible(p, r) && p[..|q|] == q == r[..|q|];
    }
  }

  /** At its own path a new option finds nothing or earlier values. */
  lemma AtTheEnd(opts: seq<Opt>, o: Opt)
    requires Valid(opts) && ValidIndexes(o)
    requires forall i :: 0 <= i < |opts| ==> Compatible(FullPath(opts[i]), FullPath(o))
    ensures var p := FullPath(o); var values := Values(opts, p);
            Expected(opts, p) == if values == [] then Absent else Leaf(values, |values| > 1)
  {
    if Passing(opts, FullPath(o)).Some? {
      var i := PassingWitness(opts, FullPath(o));
    }
  }

  /** Whatever is already there on the way to a path is a container of the kind it needs. */
  ghost predicate Passable(v: Views, p: Path) {
    forall j :: 1 <= j < |p| ==> v(p[..j]) == Absent || v(p[..j]) == KindFor(p[j])
  }

  /** From the container an inner segment needs, it takes the option's step and asks for the next container. */
  lemma SegmentFits(o: Opt, i: nat)
    requires ValidIndexes(o) && i < |o.parts| - 1
    ensures var p, segs := FullPath(o), o.parts[..|o.parts| - 1];
            StepOf(KindFor(p[i + 1]), segs[i]) == Some(p[i + 1]) && KindAt(segs[i..], 1) == KindFor(p[i + 2])
  {
    var p := FullPath(o);
    assert p[i + 1] == StepAt(o.parts, i) && p[i + 2] == StepAt(o.parts, i + 1);
  }

  /** Navigating to an option reaches the container of its last segment. */
  lemma {:induction false} ReachesTarget(v: Views, o: Opt, i: nat)
    requires ValidIndexes(o) && i < |o.parts| && Passable(v, FullPath(o))
    ensures var p, segs := FullPath(o), o.parts[..|o.parts| - 1];
            Resolve(v, p[..i + 1], KindFor(p[i + 1]), segs[i..]) == Found(p[..|o.parts|])
    decreases |o.parts| - i
  {
    var p, segs := FullPath(o), o.parts[..|o.parts| - 1];
    if i < |segs| {
      SegmentFits(o, i);
      var next := p[..i + 2];
      assert p[..i + 1] + [p[i + 1]] == next;
      assert segs[i..][1..] == segs[i + 1..];
      ReachesTarget(v, o, i + 1);
    } else {
      assert segs[i..] == [];
    }
  }

  lemma PrefixOfPrefix(q: Path, p: Path, n: nat)
    requires n <= |p|
    ensures q <= p[..n] <==> q <= p && |q| <= n
  {
    if q <= p && |q| <= n {
      assert q == p[..|q|] == p[..n][..|q|];
    }
    if q <= p[..n] {
      assert q == p[..n][..|q|] == p[..|q|];
    }
  }

  /** What navigating to an option adds to what was seen at a path before. */
  lemma NavigationAdds(w: Views, o: Opt, q: Path, before: Seen)
    requires ValidIndexes(o)
    requires w(q) == if q == [Key(o.id)] && before == Absent then AMap else before
    ensures var p, n := FullPath(o), |o.parts|;
            Navigated(w, [Key(o.id)], p[..n], o.parts[..n - 1])(q) ==
            if q != [] && Below(q, p) && before == Absent then KindFor(p[|q|]) else before
  {
    var p, n := FullPath(o), |o.parts|;
    PrefixOfPrefix(q, p, n);
    assert p[..1] == [Key(o.id)];
    PrefixOfPrefix(q, p, 1);
    assert p[1] == StepAt(o.parts, 0);
    if |q| > 1 && Below(q, p) {
      assert p[|q|] == StepAt(o.parts, |q| - 1);
    }
  }

  lemma TargetIsFound(v: Views, opts: seq<Opt>, o: Opt)
    requires Valid(opts) && ValidIndexes(o)
    requires forall j :: 0 <= j < |opts| ==> Compatible(FullPath(opts[j]), FullPath(o))
    requires forall q :: v(q) == Expected(opts, q)
    ensures var w := Sprouted(v, [Key(o.id)], AMap);
            && Passable(w, FullPath(o))
            && Resolve(w, [Key(o.id)], w([Key(o.id)]), o.parts[..|o.parts| - 1]) == Found(FullPath(o)[..|o.parts|])
  {
    var p, n := FullPath(o), |o.parts|;
    var start: Path := [Key(o.id)];
    var segs := o.parts[..n - 1];
    var w := Sprouted(v, start, AMap);
    assert p[1] == StepAt(o.parts, 0);
    forall j | 1 <= j < |p| ensures w(p[..j]) == Absent || w(p[..j]) == KindFor(p[j]) {
      OnTheWay(opts, o, p[..j]);
    }
    assert p[..1] == start && segs[0..] == segs;
    ReachesTarget(w, o, 0);
  }

  lemma AddedIs(v: Views, o: Opt, target: Path)
    requires o.parts != []
    requires var w := Sprouted(v, [Key(o.id)], AMap);
             && Resolve(w, [Key(o.id)], w([Key(o.id)]), o.parts[..|o.parts| - 1]) == Found(target)
             && Navigated(w, [Key(o.id)], target, o.parts[..|o.parts| - 1])(target) == AMap
    ensures var nav := Navigated(Sprouted(v, [Key(o.id)], AMap), [Key(o.id)], target, o.parts[..|o.parts| - 1]);
            Added(v, o) == Some(Changed(nav, target + [Key(o.parts[|o.parts| - 1])], o.value))
  {
  }

  lemma PathEnds(o: Opt)
    requires o.parts != []
    ensures var p, n := FullPath(o), |o.parts|;
            p[n] == Key(o.parts[n - 1]) && p[..n] + [Key(o.parts[n - 1])] == p && p[..n] != [] && Below(p[..n], p)
  {
    var p, n := FullPath(o), |o.parts|;
    assert p[n] == StepAt(o.parts, n - 1);
  }

  lemma TargetIsAMap(v: Views, opts: seq<Opt>, o: Opt)
    requires Valid(opts) && ValidIndexes(o)
    requires forall j :: 0 <= j < |opts| ==> Compatible(FullPath(opts[j]), FullPath(o))
    requires forall q :: v(q) == Expected(opts, q)
    ensures var w, target := Sprouted(v, [Key(o.id)], AMap), FullPath(o)[..|o.parts|];
            Navigated(w, [Key(o.id)], target, o.parts[..|o.parts| - 1])(target) == AMap
  {
    var target := FullPath(o)[..|o.parts|];
    PathEnds(o);
    OnTheWay(opts, o, target);
    NavigationAdds(Sprouted(v, [Key(o.id)], AMap), o, target, v(target));
  }

  /** The view after one more option, as the reference meaning has it. */
  lemma AddingMeetsExpectation(v: Views, opts: seq<Opt>, o: Opt)
    requires Valid(opts) && ValidIndexes(o)
    requires forall j :: 0 <= j < |opts| ==> Compatible(FullPath(opts[j]), FullPath(o))
    requires forall q :: v(q) == Expected(opts, q)
    ensures Added(v, o).Some? && forall q :: Added(v, o).value(q) == Expected(opts + [o], q)
  {
    var target := FullPath(o)[..|o.parts|];
    TargetIsFound(v, opts, o);
    TargetIsAMap(v, opts, o);
    PathEnds(o);
    AddedIs(v, o, target);
    var w := Sprouted(v, [Key(o.id)], AMap);
    var nav := Navigated(w, [Key(o.id)], target, o.parts[..|o.parts| - 1]);
    forall q ensures Changed(nav, FullPath(o), o.value)(q) == Expected(opts + [o], q) {
      ChangedMeetsExpectation(w, nav, opts, o, q);
    }
  }

  lemma ChangedMeetsExpectation(w: Views, nav: Views, opts: seq<Opt>, o: Opt, q: Path)
    requires Valid(opts) && ValidIndexes(o)
    requires forall j :: 0 <= j < |opts| ==> Compatible(FullPath(opts[j]), FullPath(o))
    requires w(q) == if q == [Key(o.id)] && Expected(opts, q) == Absent then AMap else Expected(opts, q)
    requires nav(q) == Navigated(w, [Key(o.id)], FullPath(o)[..|o.parts|], o.parts[..|o.parts| - 1])(q)
    ensures Changed(nav, FullPath(o), o.value)(q) == Expected(opts + [o], q)
  {
    NavigationAdds(w, o, q, Expected(opts, q));
    ExpectedSnoc(opts, o, q);
  }

  /** How the reference meaning grows by one option. */
  lemma ExpectedSnoc(opts: seq<Opt>, o: Opt, q: Path)
    requires Valid(opts) && ValidIndexes(o)
    requires forall j :: 0 <= j < |opts| ==> Compatible(FullPath(opts[j]), FullPath(o))
    ensures Expected(opts + [o], q) ==
            if q == FullPath(o) then Aggregated(Expected(opts, q), o.value)
            else if q != [] && Below(q, FullPath(o)) && Expected(opts, q) == Absent then KindFor(FullPath(o)[|q|])
            else Expected(opts, q)
  {
    assert (opts + [o])[..|opts|] == opts;
    if q == FullPath(o) {
      AtTheEnd(opts, o);
    } else if Below(q, FullPath(o)) {
      if q != [] {
        OnTheWay(opts, o, q);
      } else {
        RootIsAMap(opts);
        assert Values(opts, q) == [] by {
          if Values(opts, q) != [] {
            var i := ValuesWitness(opts, q);
          }
        }
        assert FullPath(o)[0].Key?;
      }
    }
  }

  lemma RootIsAMap(opts: seq<Opt>)
    requires Valid(opts)
    ensures Expected(opts, []) == AMap
  {
    if Values(opts, []) != [] {
      var i := ValuesWitness(opts, []);
    } else if Passing(opts, []).Some? {
      var i := PassingWitness(opts, []);
    }
  }

  /**
   Option grouping: for every list of non-conflicting options with non-negative indexes the tree is built without
   error, and every path holds exactly what the reference meaning says.
   */
  lemma {:induction false} OptionsAreGrouped(opts: seq<Opt>)
    requires Valid(opts) && NonConflicting(opts)
    ensures Build(opts).Some? && forall q :: Build(opts).value(q) == Expected(opts, q)
  {
    if opts != [] {
      var n := |opts| - 1;
      OptionsAreGrouped(opts[..n]);
      assert opts == opts[..n] + [opts[n]];
      assert forall j :: 0 <= j < n ==> opts[..n][j] == opts[j];
      AddingMeetsExpectation(Build(opts[..n]).value, opts[..n], opts[n]);
    }
  }

  /** The whole run on the heap: a fresh tree that shows the reference meaning of the options. */
  method GroupOptions(opts: seq<Opt>) returns (tree: Tree, ok: bool)
    requires WellSplit(opts)
    ensures fresh(tree) && tree.Valid()
    ensures ok == Build(opts).Some?
    ensures Valid(opts) && NonConflicting(opts) ==>
              ok && forall q :: View(tree.Contents(), tree.root, q) == Expected(opts, q)
  {
    tree := new Tree();
    ok := tree.OptionsToMap(opts);
    if Valid(opts) && NonConflicting(opts) {
      OptionsAreGrouped(opts);
    }
  }
}
