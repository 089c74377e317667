/** Building the option tree: navigation that creates what is missing, and the grouping of repeated options. */
module ConfigTree {
  import opened Options
  import opened Decimal
  import opened ConfigStore

  predicate IsSlice(seg: string) {
    |seg| > 0 && seg[0] == '[' && seg[|seg| - 1] == ']'
  }

  /** The number between the brackets, as `strconv.Atoi` reads it. */
  function Position(seg: string): Option<int>
    requires IsSlice(seg)
  {
    if |seg| < 2 then None else ParseInt64(seg[1..|seg| - 1])
  }

  type Views = Path -> Seen

  /** The kind of container created for a segment: a slice when the next segment is an index, a map otherwise. */
  function KindAt(segs: seq<string>, i: nat): Seen {
    if i < |segs| && IsSlice(segs[i]) then ASlice else AMap
  }

  /** The same view with something else at one path. */
  ghost function Replaced(v: Views, path: Path, seen: Seen): Views {
    (q: Path) => if q == path then seen else v(q)
  }

  /** The same view with a container at one path, if there was nothing. */
  ghost function Sprouted(v: Views, path: Path, kind: Seen): Views {
    (q: Path) => if q == path && v(q).Absent? then kind else v(q)
  }

  datatype Outcome = Found(path: Path) | NotNavigable

  /** The step a segment takes from a container; None stands for an error or, for a negative index, a panic. */
  function StepOf(here: Seen, seg: string): Option<Step> {
    match here
    case AMap => Some(Key(seg))
    case ASlice =>
      if IsSlice(seg) && Position(seg).Some? && Position(seg).value >= 0 then Some(Index(Position(seg).value)) else None
    case _ => None
  }

  /** A map takes any segment as a key, a slice only a bracketed number that is not negative, a value nothing. */
  lemma StepOfExactly(here: Seen, seg: string, st: Step)
    ensures StepOf(here, seg) == Some(st) <==>
              || (here == AMap && st == Key(seg))
              || (&& here == ASlice && st.Index? && |seg| >= 2 && seg[0] == '[' && seg[|seg| - 1] == ']'
                  && ParseInt64(seg[1..|seg| - 1]) == Some(st.pos))
  {
  }

  /** Where navigation ends up, reading only what is seen before it starts. */
  ghost function Resolve(v: Views, path: Path, here: Seen, segs: seq<string>): Outcome
    decreases |segs|
  {
    if segs == [] then Found(path) else
      match StepOf(here, segs[0])
      case None => NotNavigable
      case Some(st) =>
        var next := path + [st];
        Resolve(v, next, if v(next).Absent? then KindAt(segs, 1) else v(next), segs[1..])
  }

  /** What is seen after a successful navigation: exactly the missing containers on the way are new. */
  ghost function Navigated(v: Views, path: Path, target: Path, segs: seq<string>): Views {
    (q: Path) =>
      if v(q).Absent? && |path| < |q| && q <= target then KindAt(segs, |q| - |path|) else v(q)
  }

  lemma {:induction false} ResolvedPath(v: Views, path: Path, here: Seen, segs: seq<string>)
    ensures var o := Resolve(v, path, here, segs); o.Found? ==> path <= o.path && |o.path| == |path| + |segs|
    decreases |segs|
  {
    if segs != [] && StepOf(here, segs[0]).Some? {
      var next := path + [StepOf(here, segs[0]).value];
      ResolvedPath(v, next, if v(next).Absent? then KindAt(segs, 1) else v(next), segs[1..]);
    }
  }

  /** Navigation only looks at what is below its starting point. */
  lemma {:induction false} ResolveLocal(v: Views, w: Views, path: Path, here: Seen, segs: seq<string>)
    requires forall q :: path <= q && |path| < |q| ==> v(q) == w(q)
    ensures Resolve(v, path, here, segs) == Resolve(w, path, here, segs)
    decreases |segs|
  {
    if segs != [] && StepOf(here, segs[0]).Some? {
      var next := path + [StepOf(here, segs[0]).value];
      ResolveLocal(v, w, next, if v(next).Absent? then KindAt(segs, 1) else v(next), segs[1..]);
    }
  }

  // Options

  /** An option after matching: trait, property segments and value. */
  datatype Opt = Opt(id: string, parts: seq<string>, value: string)

  /** What becomes of a value already stored under the property. */
  function Aggregated(stored: Seen, value: string): Seen {
    match stored
    case Absent => Leaf([value], false)
    case Leaf(values, _) => Leaf(values + [value], true)
    case _ => stored
  }

  /** The same view with a value added at one path. */
  ghost function Changed(v: Views, path: Path, value: string): Views {
    (q: Path) => if q == path then Aggregated(v(q), value) else v(q)
  }

  /** One option added to the tree; None when it is rejected. */
  ghost function Added(v: Views, o: Opt): Option<Views>
    requires o.parts != []
  {
    var v := Sprouted(v, [Key(o.id)], AMap);
    var n := |o.parts| - 1;
    match Resolve(v, [Key(o.id)], v([Key(o.id)]), o.parts[..n])
    case NotNavigable => None
    case Found(target) =>
      var w := Navigated(v, [Key(o.id)], target, o.parts[..n]);
      if w(target) != AMap then None else
        var leaf := target + [Key(o.parts[n])];
        Some(Changed(w, leaf, o.value))
  }

  predicate WellSplit(opts: seq<Opt>) {
    forall i :: 0 <= i < |opts| ==> opts[i].parts != []
  }

  ghost function Empty(): Views {
    (q: Path) => if q == [] then AMap else Absent
  }

  ghost function Build(opts: seq<Opt>): Option<Views>
    requires WellSplit(opts)
  {
    if opts == [] then Some(Empty()) else
      match Build(opts[..|opts| - 1])
      case None => None
      case Some(v) => Added(v, opts[|opts| - 1])
  }

  // The tree on the heap

  function AggregatedVal(stored: Option<Val>, value: string): Val {
    match stored
    case Some(Strs(values)) => Strs(values + [value])
    case Some(Str(first)) => Strs([first, value])
    case _ => Str(value)
  }

  lemma AggregatedIsSeen(s: Store, s': Store, stored: Option<Val>, value: string)
    requires stored.None? || !stored.value.Ref?
    ensures SeenOf(s', Some(AggregatedVal(stored, value))) == Aggregated(SeenOf(s, stored), value)
  {
    match stored
    case Some(Str(first)) => assert [first] + [value] == [first, value];
    case _ =>
  }

  /** A container with one child replaced. */
  function WithChild(c: Content, st: Step, v: Val): Content
    requires st.Key? == c.MapNode?
  {
    match st case Key(k) => MapSet(c, k, v) case Index(i) => SliceSet(c, i, v)
  }

  ghost predicate StoreShows(s: Store, root: Node, v: Views) {
    forall q :: View(s, root, q) == v(q)
  }

  lemma ChildWritten(
    before: Store, after: Store, root: Node, m: Node, st: Step, x: Val, path: Path, at: Path, v: Views)
    requires WellFormed(before, root) && Walk(before, root, path) == Some(Ref(m)) && m in before && at == path + [st]
    requires st.Key? == before[m].MapNode? && (Child(before[m], st).None? || !Child(before[m], st).value.Ref?)
    requires after.Keys == before.Keys + (if x.Ref? then {x.node} else {})
    requires after[m] == WithChild(before[m], st, x)
    requires forall n :: n in before && n != m ==> after[n] == before[n]
    requires x.Ref? ==> x.node !in before && x.node.depth == m.depth + 1
    requires x.Ref? ==> after[x.node] in {MapNode(map[]), SliceNode([])}
    requires StoreShows(before, root, v)
    ensures WellFormed(after, root) && Walk(after, root, path) == Some(Ref(m)) && Walk(after, root, at) == Some(x)
    ensures StoreShows(after, root, Replaced(v, at, SeenOf(after, Some(x))))
  {
    WithChildReads(before[m], st, x);
    WriteChangesOnePath(before, after, root, m, st, x, path);
  }

  /** What is seen at a child's path. */
  lemma ChildIsSeen(s: Store, root: Node, m: Node, path: Path, st: Step, at: Path, v: Views)
    requires WellFormed(s, root) && StoreShows(s, root, v)
    requires Walk(s, root, path) == Some(Ref(m)) && m in s && at == path + [st]
    ensures Walk(s, root, at) == Child(s[m], st) && v(at) == SeenOf(s, Child(s[m], st))
    ensures Child(s[m], st).Some? && Child(s[m], st).value.Ref? ==> Child(s[m], st).value.node in s
    ensures v(at) == Absent <==> Child(s[m], st).None?
  {
    WalkStep(s, root, path, st);
    WalkStays(s, root, at);
    assert View(s, root, at) == v(at);
  }

  lemma SproutedPresent(s: Store, root: Node, v: Views, at: Path, kind: Seen)
    requires StoreShows(s, root, v) && v(at) != Absent
    ensures StoreShows(s, root, Sprouted(v, at, kind))
  {
  }

  lemma SproutedAbsent(s: Store, root: Node, v: Views, at: Path, kind: Seen)
    requires StoreShows(s, root, Replaced(v, at, kind)) && v(at) == Absent
    ensures StoreShows(s, root, Sprouted(v, at, kind))
  {
    forall q ensures View(s, root, q) == Sprouted(v, at, kind)(q) {
      assert View(s, root, q) == Replaced(v, at, kind)(q);
    }
  }

  lemma ChangedIsShown(before: Store, stored: Option<Val>, after: Store, root: Node, v: Views, at: Path, value: string)
    requires v(at) == SeenOf(before, stored)
    requires stored.Some? && stored.value.Ref? ==> stored.value.node in before && StoreShows(after, root, v)
    requires stored.None? || !stored.value.Ref? ==>
               StoreShows(after, root, Replaced(v, at, Aggregated(SeenOf(before, stored), value)))
    ensures StoreShows(after, root, Changed(v, at, value))
  {
    forall q ensures View(after, root, q) == Changed(v, at, value)(q) {
      if stored.Some? && stored.value.Ref? {
        assert View(after, root, q) == v(q);
      } else {
        assert View(after, root, q) == Replaced(v, at, Aggregated(SeenOf(before, stored), value))(q);
      }
    }
  }

  lemma WithChildReads(c: Content, st: Step, v: Val)
    requires st.Key? == c.MapNode?
    ensures forall x :: Child(WithChild(c, st, v), x) == if x == st then Some(v) else Child(c, x)
  {
    forall x ensures Child(WithChild(c, st, v), x) == if x == st then Some(v) else Child(c, x) {
      match st
      case Key(k) => MapSetChild(c, k, v, x);
      case Index(i) => SliceSetChild(c, i, v, x);
    }
  }

  class Tree {
    const root: Node
    ghost var nodes: set<Node>

    ghost function Contents(): Store
      reads this, nodes
    {
      map n | n in nodes :: n.content
    }

    ghost predicate Valid()
      reads this, nodes
    {
      WellFormed(Contents(), root)
    }

    constructor ()
      ensures Valid() && fresh(nodes)
      ensures Shows(Empty())
    {
      var n := new Node(MapNode(map[]), 0);
      root := n;
      nodes := {n};
      new;
      forall q | q != [] ensures Walk(Contents(), root, q).None? {
        NothingBelow(Contents(), root, [], q);
      }
    }

    /** The tree shows exactly v. */
    ghost predicate Shows(v: Views)
      reads this, nodes
    {
      StoreShows(Contents(), root, v)
    }

    /** Stores a value as child of a node, in place. */
    method Write(m: Node, st: Step, x: Val, ghost path: Path, ghost at: Path, ghost v: Views)
      requires Valid() && Walk(Contents(), root, path) == Some(Ref(m)) && m in nodes && at == path + [st] && Shows(v)
      requires Child(m.content, st).None? || !Child(m.content, st).value.Ref?
      requires st.Key? == m.content.MapNode?
      requires x.Ref? ==> x.node !in nodes && x.node.depth == m.depth + 1
      requires x.Ref? ==> x.node.content in {MapNode(map[]), SliceNode([])}
      modifies this, nodes
      ensures Valid() && nodes == old(nodes) + (if x.Ref? then {x.node} else {})
      ensures Walk(Contents(), root, path) == Some(Ref(m)) && Walk(Contents(), root, at) == Some(x)
      ensures Shows(Replaced(v, at, SeenOf(Contents(), Some(x))))
      ensures x.Ref? ==> x.node.content == old(x.node.content)
    {
      ghost var before := Contents();
      m.content := WithChild(m.content, st, x);
      if x.Ref? {
        nodes := nodes + {x.node};
      }
      ghost var after := Contents();
      assert after.Keys == before.Keys + (if x.Ref? then {x.node} else {});
      assert forall n :: n in before && n != m ==> after[n] == before[n];
      ChildWritten(before, after, root, m, st, x, path, at, v);
    }

    /** The child of a node, created empty when it is missing. */
    method ChildOrNew(m: Node, st: Step, slice: bool, ghost path: Path, ghost at: Path, ghost v: Views)
      returns (child: Val)
      requires Valid() && m in nodes && Walk(Contents(), root, path) == Some(Ref(m)) && st.Key? == m.content.MapNode?
      requires Shows(v) && at == path + [st]
      modifies this, nodes
      ensures Valid() && old(nodes) <= nodes && fresh(nodes - old(nodes))
      ensures Walk(Contents(), root, at) == Some(child) && (child.Ref? ==> child.node in nodes)
      ensures Shows(Sprouted(v, at, if slice then ASlice else AMap))
    {
      ghost var kind := if slice then ASlice else AMap;
      ChildIsSeen(Contents(), root, m, path, st, at, v);
      if Child(m.content, st).Some? {
        child := Child(m.content, st).value;
        SproutedPresent(Contents(), root, v, at, kind);
      } else {
        var n := new Node(if slice then SliceNode([]) else MapNode(map[]), m.depth + 1);
        child := Ref(n);
        Write(m, st, child, path, at, v);
        SproutedAbsent(Contents(), root, v, at, kind);
      }
    }

    /**
     Switches to the element that the segments denote and creates the containers that are missing. Nothing that was
     there before changes, on success or not.
     */
    method Navigate(current: Val, segs: seq<string>, ghost path: Path, ghost v: Views) returns (r: Option<Val>)
      requires Valid() && Walk(Contents(), root, path) == Some(current) && Shows(v)
      requires current.Ref? ==> current.node in nodes
      modifies this, nodes
      ensures Valid() && old(nodes) <= nodes && fresh(nodes - old(nodes))
      ensures match Resolve(v, path, v(path), segs)
              case NotNavigable => r.None?
              case Found(target) =>
                r.Some? && Walk(Contents(), root, target) == r && Shows(Navigated(v, path, target, segs))
      ensures var s := Contents(); forall q :: !v(q).Absent? ==> View(s, root, q) == v(q)
      decreases |segs|
    {
      assert v(path) == SeenOf(Contents(), Some(current));
      if segs == [] {
        return Some(current);
      }
      if !current.Ref? {
        return None;
      }
      var m := current.node;
      var st: Step;
      match m.content {
        case MapNode(_) =>
          st := Key(segs[0]);
        case SliceNode(_) =>
          if !IsSlice(segs[0]) || Position(segs[0]).None? || Position(segs[0]).value < 0 {
            return None;
          }
          st := Index(Position(segs[0]).value);
      }
      assert StepOf(v(path), segs[0]) == Some(st);
      var child := ChildOrNew(m, st, |segs| > 1 && IsSlice(segs[1]), path, path + [st], v);
      ghost var w := Sprouted(v, path + [st], KindAt(segs, 1));
      ResolveStep(v, w, path, v(path), st, segs);
      r := Navigate(child, segs[1..], path + [st], w);
    }

    /** Adds a value to a property of a map; a container already stored there is left alone. */
    method SetProperty(m: Node, prop: string, value: string, ghost path: Path, ghost at: Path, ghost v: Views)
      requires Valid() && m in nodes && m.content.MapNode? && Walk(Contents(), root, path) == Some(Ref(m))
      requires Shows(v) && at == path + [Key(prop)]
      modifies this, nodes
      ensures Valid() && nodes == old(nodes)
      ensures Shows(Changed(v, at, value))
    {
      var stored := Child(m.content, Key(prop));
      ghost var before := Contents();
      ChildIsSeen(before, root, m, path, Key(prop), at, v);
      if stored.None? || !stored.value.Ref? {
        Write(m, Key(prop), AggregatedVal(stored, value), path, at, v);
        AggregatedIsSeen(before, Contents(), stored, value);
      }
      ChangedIsShown(before, stored, Contents(), root, v, at, value);
    }

    method AddOption(o: Opt, ghost v: Views) returns (ok: bool)
      requires Valid() && o.parts != [] && Shows(v)
      modifies this, nodes
      ensures Valid() && fresh(nodes - old(nodes))
      ensures ok <==> Added(v, o).Some?
      ensures ok ==> Shows(Added(v, o).value)
    {
      var n := |o.parts| - 1;
      ghost var start: Path := [Key(o.id)];
      assert [] + [Key(o.id)] == start;
      var current := ChildOrNew(root, Key(o.id), false, [], start, v);
      ghost var w := Sprouted(v, start, AMap);
      var found := Navigate(current, o.parts[..n], start, w);
      if found.None? {
        return false;
      }
      ghost var target := Resolve(w, start, w(start), o.parts[..n]).path;
      ghost var nav := Navigated(w, start, target, o.parts[..n]);
      WalkStays(Contents(), root, target);
      assert nav(target) == SeenOf(Contents(), found);
      if !found.value.Ref? || !found.value.node.content.MapNode? {
        return false;
      }
      SetProperty(found.value.node, o.parts[n], o.value, target, target + [Key(o.parts[n])], nav);
      return true;
    }

    /** The loop over all options; false when one of them is rejected. */
    method OptionsToMap(opts: seq<Opt>) returns (ok: bool)
      requires Valid() && WellSplit(opts) && Shows(Empty())
      modifies this, nodes
      ensures Valid() && fresh(nodes - old(nodes))
      ensures ok <==> Build(opts).Some?
      ensures ok ==> Shows(Build(opts).value)
    {
      var i := 0;
      assert opts[..0] == [];
      while i < |opts|
        invariant 0 <= i <= |opts| && Valid() && fresh(nodes - old(nodes))
        invariant Build(opts[..i]).Some? && Shows(Build(opts[..i]).value)
      {
        assert opts[..i + 1][..i] == opts[..i];
        var added := AddOption(opts[i], Build(opts[..i]).value);
        if !added {
          BuildStops(opts, i + 1);
          return false;
        }
        i := i + 1;
      }
      assert opts[..i] == opts;
      return true;
    }
  }

  /** Navigation one segment at a time. */
  lemma ResolveStep(v: Views, w: Views, path: Path, here: Seen, st: Step, segs: seq<string>)
    requires segs != [] && StepOf(here, segs[0]) == Some(st)
    requires forall q :: w(q) == Sprouted(v, path + [st], KindAt(segs, 1))(q)
    ensures var o := Resolve(v, path, here, segs);
            && o == Resolve(w, path + [st], w(path + [st]), segs[1..])
            && (o.Found? ==>
                  forall q :: Navigated(w, path + [st], o.path, segs[1..])(q) == Navigated(v, path, o.path, segs)(q))
  {
    var next := path + [st];
    ResolveLocal(v, w, next, w(next), segs[1..]);
    ResolvedPath(v, next, w(next), segs[1..]);
    var o := Resolve(v, path, here, segs);
    if o.Found? {
      forall q ensures Navigated(w, next, o.path, segs[1..])(q) == Navigated(v, path, o.path, segs)(q) {
        NavigatedStep(v, w, path, st, o.path, segs, q);
      }
    }
  }

  lemma NavigatedStep(v: Views, w: Views, path: Path, st: Step, target: Path, segs: seq<string>, q: Path)
    requires segs != [] && path + [st] <= target
    requires w(q) == Sprouted(v, path + [st], KindAt(segs, 1))(q)
    ensures Navigated(w, path + [st], target, segs[1..])(q) == Navigated(v, path, target, segs)(q)
  {
    var next := path + [st];
    if |path| < |q| && q <= target {
      assert |q| == |next| ==> q == next;
      assert q != next ==> KindAt(segs[1..], |q| - |next|) == KindAt(segs, |q| - |path|);
    }
  }

  lemma {:induction false} BuildStops(opts: seq<Opt>, n: nat)
    requires WellSplit(opts) && n <= |opts| && Build(opts[..n]).None?
    ensures Build(opts).None?
    decreases |opts| - n
  {
    if n == |opts| {
      assert opts[..n] == opts;
    } else {
      assert opts[..n + 1][..n] == opts[..n];
      BuildStops(opts, n + 1);
    }
  }
}
