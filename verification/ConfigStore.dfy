/**
 The mutable tree behind trait options: maps and growable slices that refer to each other, in place. A store is the
 contents of all nodes at one moment; nodes are plain identities in it.
 */
module ConfigStore {
  import opened Options

  /** A value in the tree. An empty slot of a slice is None. */
  datatype Val = Str(s: string) | Strs(ss: seq<string>) | Ref(node: Node)
  datatype Content = MapNode(entries: map<string, Val>) | SliceNode(items: seq<Option<Val>>)

  class Node {
    var content: Content
    ghost const depth: nat

    constructor (content: Content, ghost depth: nat)
      ensures this.content == content && this.depth == depth
    {
      this.content := content;
      this.depth := depth;
    }
  }

  type Store = map<Node, Content>

  datatype Step = Key(key: string) | Index(pos: nat)
  type Path = seq<Step>

  function Child(c: Content, st: Step): Option<Val> {
    match (c, st)
    case (MapNode(entries), Key(k)) => if k in entries then Some(entries[k]) else None
    case (SliceNode(items), Index(i)) => if i < |items| then items[i] else None
    case _ => None
  }

  ghost function Walk(s: Store, root: Node, p: Path): Option<Val> {
    if p == [] then Some(Ref(root)) else
      match Walk(s, root, p[..|p| - 1])
      case Some(Ref(n)) => if n in s then Child(s[n], p[|p| - 1]) else None
      case _ => None
  }

  /** What a reader finds at a path. */
  datatype Seen = Absent | AMap | ASlice | Leaf(values: seq<string>, many: bool)

  ghost function SeenOf(s: Store, v: Option<Val>): Seen {
    match v
    case None => Absent
    case Some(Str(x)) => Leaf([x], false)
    case Some(Strs(xs)) => Leaf(xs, true)
    case Some(Ref(n)) => if n !in s then Absent else if s[n].MapNode? then AMap else ASlice
  }

  ghost function View(s: Store, root: Node, p: Path): Seen {
    SeenOf(s, Walk(s, root, p))
  }

  /** Child st of node n is a node, too. */
  ghost predicate Edge(s: Store, n: Node, st: Step) {
    n in s && Child(s[n], st).Some? && Child(s[n], st).value.Ref?
  }

  ghost function Target(s: Store, n: Node, st: Step): Node
    requires Edge(s, n, st)
  {
    Child(s[n], st).value.node
  }

  /** No dangling references, children one level below, and no node reachable through two places. */
  ghost predicate WellFormed(s: Store, root: Node) {
    && root in s && root.depth == 0 && s[root].MapNode?
    && (forall n, st :: n in s && Edge(s, n, st) ==> Target(s, n, st) in s && Target(s, n, st).depth == n.depth + 1)
    && (forall n1, st1, n2, st2 ::
          (n1 in s && n2 in s && Edge(s, n1, st1) && Edge(s, n2, st2) && Target(s, n1, st1) == Target(s, n2, st2)) ==>
            n1 == n2 && st1 == st2)
  }

  lemma {:induction false} WalkStays(s: Store, root: Node, p: Path)
    requires WellFormed(s, root)
    ensures var v := Walk(s, root, p); v.Some? && v.value.Ref? ==> v.value.node in s && v.value.node.depth == |p|
  {
    if p != [] {
      var p' := p[..|p| - 1];
      WalkStays(s, root, p');
      var v := Walk(s, root, p);
      if v.Some? && v.value.Ref? {
        assert Edge(s, Walk(s, root, p').value.node, p[|p| - 1]);
      }
    }
  }

  /** A node is found under one path only. */
  lemma {:induction false} UniquePath(s: Store, root: Node, p: Path, q: Path)
    requires WellFormed(s, root) && Walk(s, root, p) == Walk(s, root, q)
    requires Walk(s, root, p).Some? && Walk(s, root, p).value.Ref?
    ensures p == q
  {
    WalkStays(s, root, p);
    WalkStays(s, root, q);
    if p != [] {
      var p', q' := p[..|p| - 1], q[..|q| - 1];
      WalkStays(s, root, p');
      WalkStays(s, root, q');
      var n1, n2 := Walk(s, root, p').value.node, Walk(s, root, q').value.node;
      assert Edge(s, n1, p[|p| - 1]) && Edge(s, n2, q[|q| - 1]);
      assert Target(s, n1, p[|p| - 1]) == Target(s, n2, q[|q| - 1]);
      UniquePath(s, root, p', q');
      assert p == p' + [p[|p| - 1]] && q == q' + [q[|q| - 1]];
    }
  }

  lemma WalkStep(s: Store, root: Node, p: Path, st: Step)
    ensures Walk(s, root, p + [st]) ==
            match Walk(s, root, p) case Some(Ref(n)) => (if n in s then Child(s[n], st) else None) case _ => None
  {
    assert (p + [st])[..|p|] == p;
  }

  /** Below something that is not a node there is nothing. */
  lemma {:induction false} NothingBelow(s: Store, root: Node, p: Path, q: Path)
    requires p <= q && |p| < |q|
    requires var v := Walk(s, root, p);
             v.Some? && v.value.Ref? ==> v.value.node in s && forall st :: Child(s[v.value.node], st).None?
    ensures Walk(s, root, q).None?
    decreases |q|
  {
    var q' := q[..|q| - 1];
    if |q'| == |p| {
      assert q' == p;
    } else {
      NothingBelow(s, root, p, q');
    }
  }

  // Writing one child

  /** The store s' is s with child st of m set to v; a reference must be to a fresh, empty node. */
  ghost predicate Writes(s: Store, s': Store, m: Node, st: Step, v: Val) {
    && m in s && !(Child(s[m], st).Some? && Child(s[m], st).value.Ref?)
    && s'.Keys == s.Keys + (if v.Ref? then {v.node} else {})
    && (forall n :: n in s && n != m ==> s'[n] == s[n])
    && s'[m].MapNode? == s[m].MapNode?
    && (forall x :: Child(s'[m], x) == if x == st then Some(v) else Child(s[m], x))
    && (v.Ref? ==> v.node !in s && v.node.depth == m.depth + 1 && s'[v.node] in {MapNode(map[]), SliceNode([])})
  }

  lemma WritesKeepWellFormed(s: Store, s': Store, root: Node, m: Node, st: Step, v: Val)
    requires WellFormed(s, root) && Writes(s, s', m, st, v)
    ensures WellFormed(s', root)
  {
    forall n, x | n in s' && Edge(s', n, x)
      ensures if n == m && x == st then v == Ref(Target(s', n, x))
              else n in s && Edge(s, n, x) && Target(s, n, x) == Target(s', n, x)
    {
    }
  }

  /** Every path that does not go through the written place leads where it led before. */
  lemma {:induction false} WalkFrame(s: Store, s': Store, root: Node, m: Node, st: Step, v: Val, p: Path, q: Path)
    requires WellFormed(s, root) && Writes(s, s', m, st, v)
    requires Walk(s, root, p) == Some(Ref(m)) && !(p + [st] <= q)
    ensures Walk(s', root, q) == Walk(s, root, q)
    decreases |q|
  {
    if q != [] {
      var q' := q[..|q| - 1];
      assert q == q' + [q[|q| - 1]];
      WalkFrame(s, s', root, m, st, v, p, q');
      WalkStays(s, root, q');
      if Walk(s, root, q') == Some(Ref(m)) {
        UniquePath(s, root, p, q');
      }
    }
  }

  /** A write changes what is seen at exactly one path. */
  lemma WriteChangesOnePath(s: Store, s': Store, root: Node, m: Node, st: Step, v: Val, p: Path)
    requires WellFormed(s, root) && Writes(s, s', m, st, v) && Walk(s, root, p) == Some(Ref(m))
    ensures WellFormed(s', root) && Walk(s', root, p) == Some(Ref(m)) && Walk(s', root, p + [st]) == Some(v)
    ensures forall q :: View(s', root, q) == if q == p + [st] then SeenOf(s', Some(v)) else View(s, root, q)
  {
    WritesKeepWellFormed(s, s', root, m, st, v);
    WalkFrame(s, s', root, m, st, v, p, p);
    WalkStep(s, root, p, st);
    WalkStep(s', root, p, st);
    forall q ensures View(s', root, q) == if q == p + [st] then SeenOf(s', Some(v)) else View(s, root, q) {
      if !(p + [st] <= q) {
        WalkFrame(s, s', root, m, st, v, p, q);
        WalkStays(s, root, q);
      } else if q != p + [st] {
        NothingBelow(s, root, p + [st], q);
        NothingBelow(s', root, p + [st], q);
      }
    }
  }

  // The two kinds of write

  function MapSet(c: Content, k: string, v: Val): Content
    requires c.MapNode?
  {
    MapNode(c.entries[k := v])
  }

  /** Growing the slice with empty slots up to the position, then writing it. */
  function Grown(items: seq<Option<Val>>, n: nat): (r: seq<Option<Val>>)
    ensures |r| == (if |items| <= n then n + 1 else |items|)
    ensures forall i :: 0 <= i < |r| ==> r[i] == if i < |items| then items[i] else None
    decreases n + 1 - |items|
  {
    if |items| > n then items else Grown(items + [None], n)
  }

  function SliceSet(c: Content, i: nat, v: Val): Content
    requires c.SliceNode?
  {
    SliceNode(Grown(c.items, i)[i := Some(v)])
  }

  lemma MapSetChild(c: Content, k: string, v: Val, x: Step)
    requires c.MapNode?
    ensures Child(MapSet(c, k, v), x) == if x == Key(k) then Some(v) else Child(c, x)
  {
  }

  lemma SliceSetChild(c: Content, i: nat, v: Val, x: Step)
    requires c.SliceNode?
    ensures Child(SliceSet(c, i, v), x) == if x == Index(i) then Some(v) else Child(c, x)
  {
  }
}
