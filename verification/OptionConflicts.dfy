/** What happens to options that are in conflict: exactly then the tree is not what the options say. */
module OptionConflicts {
  import opened Options
  import opened ConfigStore
  import opened ConfigTree
  import opened OptionGrouping

  // Every view that is built is a tree

  /** Whatever is seen hangs below a container of the right kind. */
  ghost predicate TreeShaped(v: Views) {
    v([]) == AMap && forall q :: q != [] && v(q) != Absent ==> v(q[..|q| - 1]) == KindFor(q[|q| - 1])
  }

  /** What navigation sees at the i-th place on its way. */
  ghost function SeenOnTheWay(v: Views, path: Path, here: Seen, segs: seq<string>, target: Path, i: nat): Seen
    requires |path| <= i <= |target|
  {
    if i == |path| then here
    else if v(target[..i]).Absent? then KindAt(segs, i - |path|) else v(target[..i])
  }

  /** Navigation goes through containers only, and each step is of the kind of its container. */
  lemma {:induction false} StepsFit(v: Views, path: Path, here: Seen, segs: seq<string>, target: Path, i: nat)
    requires Resolve(v, path, here, segs) == Found(target) && |path| <= i < |target|
    ensures path <= target && SeenOnTheWay(v, path, here, segs, target, i) == KindFor(target[i])
    decreases |segs|
  {
    ResolvedPath(v, path, here, segs);
    var st := StepOf(here, segs[0]).value;
    var next := path + [st];
    var there := if v(next).Absent? then KindAt(segs, 1) else v(next);
    ResolvedPath(v, next, there, segs[1..]);
    if i > |path| {
      StepsFit(v, next, there, segs[1..], target, i);
      assert target[..|next|] == next;
      assert i > |next| ==> KindAt(segs[1..], i - |next|) == KindAt(segs, i - |path|);
    }
  }

  lemma SproutedTree(v: Views, id: string)
    requires TreeShaped(v)
    ensures TreeShaped(Sprouted(v, [Key(id)], AMap))
  {
    var start: Path := [Key(id)];
    assert start[..0] == [];
  }

  /** A container that navigation creates hangs below one of the right kind. */
  lemma NewContainerFits(w: Views, start: Path, segs: seq<string>, target: Path, q: Path)
    requires Resolve(w, start, w(start), segs) == Found(target) && |start| < |q| && q <= target
    ensures Navigated(w, start, target, segs)(q[..|q| - 1]) == KindFor(q[|q| - 1])
  {
    var i := |q| - 1;
    StepsFit(w, start, w(start), segs, target, i);
    assert q[..i] == target[..i] && q[i] == target[i];
    assert i == |start| ==> target[..i] == start;
  }

  lemma NavigatedTree(w: Views, start: Path, segs: seq<string>, target: Path)
    requires TreeShaped(w) && Resolve(w, start, w(start), segs) == Found(target) && start != []
    ensures TreeShaped(Navigated(w, start, target, segs))
  {
    var nav := Navigated(w, start, target, segs);
    forall q | q != [] && nav(q) != Absent ensures nav(q[..|q| - 1]) == KindFor(q[|q| - 1]) {
      if w(q) == Absent {
        NewContainerFits(w, start, segs, target, q);
      }
    }
  }

  lemma ChangedTree(v: Views, target: Path, key: string, value: string)
    requires TreeShaped(v) && v(target) == AMap
    ensures TreeShaped(Changed(v, target + [Key(key)], value))
  {
    var leaf := target + [Key(key)];
    assert leaf[..|leaf| - 1] == target;
  }

  lemma {:induction false} BuiltTree(opts: seq<Opt>)
    requires WellSplit(opts)
    ensures Build(opts).Some? ==> TreeShaped(Build(opts).value)
  {
    if opts != [] && Build(opts).Some? {
      var n := |opts| - 1;
      BuiltTree(opts[..n]);
      AddedTree(Build(opts[..n]).value, opts[n]);
    }
  }

  lemma AddedTree(v: Views, o: Opt)
    requires TreeShaped(v) && o.parts != [] && Added(v, o).Some?
    ensures TreeShaped(Added(v, o).value)
  {
    var start: Path := [Key(o.id)];
    var w := Sprouted(v, start, AMap);
    var n := |o.parts| - 1;
    var target := Resolve(w, start, w(start), o.parts[..n]).path;
    SproutedTree(v, o.id);
    NavigatedTree(w, start, o.parts[..n], target);
    ChangedTree(Navigated(w, start, target, o.parts[..n]), target, o.parts[n], o.value);
  }

  /** Above everything that is seen there are containers of the right kinds. */
  lemma {:induction false} ContainersAbove(v: Views, q: Path, k: nat)
    requires TreeShaped(v) && v(q) != Absent && k < |q|
    ensures v(q[..k]) == KindFor(q[k])
    decreases |q|
  {
    var n := |q| - 1;
    if k < n {
      ContainersAbove(v, q[..n], k);
      assert q[..n][..k] == q[..k];
    }
  }

  // Conflicts

  lemma {:induction false} HasItsValue(opts: seq<Opt>, i: nat)
    requires Valid(opts) && i < |opts|
    ensures Values(opts, FullPath(opts[i])) != []
  {
    var n := |opts| - 1;
    if i < n {
      HasItsValue(opts[..n], i);
    }
  }

  lemma LeavesAreCompatible(v: Views, p: Path, q: Path)
    requires TreeShaped(v) && v(p).Leaf? && v(q).Leaf?
    ensures Compatible(p, q)
  {
    if Below(p, q) {
      assert q[..|p|] == p;
      ContainersAbove(v, q, |p|);
    }
    if Below(q, p) {
      assert p[..|q|] == q;
      ContainersAbove(v, p, |q|);
    }
    forall k | 0 <= k < |p| && k < |q| && p[..k] == q[..k] ensures p[k].Key? == q[k].Key? {
      ContainersAbove(v, p, k);
      ContainersAbove(v, q, k);
    }
  }

  /**
   The tree is built and holds at every path exactly what the options say if and only if no two of them are in
   conflict.
   */
  lemma GroupedExactly(opts: seq<Opt>)
    requires Valid(opts)
    ensures NonConflicting(opts) <==> Build(opts).Some? && forall q :: Build(opts).value(q) == Expected(opts, q)
  {
    if NonConflicting(opts) {
      OptionsAreGrouped(opts);
    } else if Build(opts).Some? && forall q :: Build(opts).value(q) == Expected(opts, q) {
      var i, j :| 0 <= i < j < |opts| && !Compatible(FullPath(opts[i]), FullPath(opts[j]));
      BuiltTree(opts);
      HasItsValue(opts, i);
      HasItsValue(opts, j);
      LeavesAreCompatible(Build(opts).value, FullPath(opts[i]), FullPath(opts[j]));
    }
  }

  /** Where an accepted option puts its value. */
  ghost function LeafOf(v: Views, o: Opt): Path
    requires o.parts != [] && Added(v, o).Some?
  {
    var w := Sprouted(v, [Key(o.id)], AMap);
    Resolve(w, [Key(o.id)], w([Key(o.id)]), o.parts[..|o.parts| - 1]).path + [Key(o.parts[|o.parts| - 1])]
  }

  /**
   An accepted option is dropped, so that the tree is the same at every path, exactly when a container is already
   stored where its value belongs.
   */
  lemma DroppedExactly(opts: seq<Opt>, o: Opt)
    requires WellSplit(opts + [o]) && WellSplit(opts) && o.parts != []
    requires Build(opts).Some? && Added(Build(opts).value, o).Some?
    ensures Build(opts + [o]) == Added(Build(opts).value, o)
    ensures var v := Build(opts).value;
            (forall q :: Build(opts + [o]).value(q) == v(q)) <==> v(LeafOf(v, o)) in {AMap, ASlice}
  {
    assert (opts + [o])[..|opts|] == opts;
    BuiltTree(opts);
    DroppedStep(Build(opts).value, o);
  }

  lemma DroppedStep(v: Views, o: Opt)
    requires TreeShaped(v) && o.parts != [] && Added(v, o).Some?
    ensures (forall q :: Added(v, o).value(q) == v(q)) <==> v(LeafOf(v, o)) in {AMap, ASlice}
  {
    var start: Path := [Key(o.id)];
    var w := Sprouted(v, start, AMap);
    var n := |o.parts| - 1;
    var target := Resolve(w, start, w(start), o.parts[..n]).path;
    ResolvedPath(w, start, w(start), o.parts[..n]);
    var nav := Navigated(w, start, target, o.parts[..n]);
    var leaf := target + [Key(o.parts[n])];
    assert nav(leaf) == w(leaf) == v(leaf);
    if v(leaf) in {AMap, ASlice} {
      forall q ensures Changed(nav, leaf, o.value)(q) == v(q) {
        if q <= target && q != [] {
          ContainersAbove(v, leaf, |q|);
          assert leaf[..|q|] == q;
        }
      }
    } else {
      assert v(leaf).Leaf? ==> |v(leaf).values + [o.value]| > |v(leaf).values|;
      assert Changed(nav, leaf, o.value)(leaf) != v(leaf);
    }
  }

  const NESTED := Opt("t", ["a", "b"], "1")
  const PLAIN := Opt("t", ["a"], "2")

  /** The witness: after `t.a.b=1` the option `t.a=2` is accepted, and the tree does not change. */
  lemma PlainAfterNestedIsDropped()
    ensures Valid([NESTED, PLAIN]) && !NonConflicting([NESTED, PLAIN])
    ensures Build([NESTED, PLAIN]).Some? && forall q :: Build([NESTED, PLAIN]).value(q) == Expected([NESTED], q)
  {
    var opts := [NESTED, PLAIN];
    var p, q := FullPath(NESTED), FullPath(PLAIN);
    assert p == [Key("t"), Key("a"), Key("b")] && q == [Key("t"), Key("a")] && p[..2] == q;
    assert Below(q, p) && opts[0] == NESTED && opts[1] == PLAIN;
    assert !Compatible(FullPath(opts[0]), FullPath(opts[1]));
    OptionsAreGrouped([NESTED]);
    var v := Build([NESTED]).value;
    PlainIsAccepted(v);
    assert [NESTED] + [PLAIN] == opts;
    DroppedExactly([NESTED], PLAIN);
  }

  lemma OnTheWayOfOne(o: Opt, q: Path)
    requires ValidIndexes(o) && Below(q, FullPath(o))
    ensures Valid([o]) && Expected([o], q) == KindFor(FullPath(o)[|q|])
  {
    assert [o][..0] == [] && [o][0] == o;
    assert Values([o], q) == Values([], q) + [];
  }

  lemma PlainIsAccepted(v: Views)
    requires forall q :: v(q) == Expected([NESTED], q)
    ensures Added(v, PLAIN).Some? && v(LeafOf(v, PLAIN)) == AMap
  {
    var p := FullPath(NESTED);
    assert p == [Key("t"), Key("a"), Key("b")];
    assert p[..1] == [Key("t")] && p[..2] == [Key("t"), Key("a")] == [Key("t")] + [Key("a")];
    OnTheWayOfOne(NESTED, p[..1]);
    OnTheWayOfOne(NESTED, p[..2]);
    assert PLAIN.parts[..0] == [];
  }
}
