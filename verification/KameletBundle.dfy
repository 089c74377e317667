/** Packing the Kamelets of an Integration into ConfigMaps of limited size, next-fit. */
module KameletBundle {
  import opened Options
  import opened Decimal

  const MEGABYTE := 0x10_0000
  const SUFFIX := ".kamelet.yaml"

  /** A Kamelet with its serialisation. */
  datatype Kamelet = Kamelet(name: string, yaml: string)

  /** A bundle ConfigMap; its name is derived from the Integration and its number. */
  datatype ConfigMap = ConfigMap(integration: string, id: nat, data: map<string, string>) {
    function Name(): string {
      "kamelets-bundle-" + integration + "-" + Pad3(id)
    }
  }

  function Size(ks: seq<Kamelet>): nat {
    if ks == [] then 0 else Size(ks[..|ks| - 1]) + |ks[|ks| - 1].yaml|
  }

  /** The groups of Kamelets that end up together, from the closed groups and the one that is still open. */
  function Packed(closed: seq<seq<Kamelet>>, open: seq<Kamelet>, ks: seq<Kamelet>, limit: nat): seq<seq<Kamelet>>
    decreases |ks|
  {
    if ks == [] then closed + [open]
    else if Size(open) + |ks[0].yaml| > limit then Packed(closed + [open], [ks[0]], ks[1..], limit)
    else Packed(closed, open + [ks[0]], ks[1..], limit)
  }

  function Data(ks: seq<Kamelet>): map<string, string> {
    if ks == [] then map[] else
      var last := ks[|ks| - 1];
      Data(ks[..|ks| - 1])[last.name + SUFFIX := last.yaml]
  }

  /** One ConfigMap per group, numbered from 1. */
  function ConfigMaps(integration: string, groups: seq<seq<Kamelet>>): seq<ConfigMap> {
    seq(|groups|, i requires 0 <= i < |groups| => ConfigMap(integration, i + 1, Data(groups[i])))
  }

  lemma SizeAndDataSnoc(ks: seq<Kamelet>, k: Kamelet)
    ensures Size(ks + [k]) == Size(ks) + |k.yaml|
    ensures Data(ks + [k]) == Data(ks)[k.name + SUFFIX := k.yaml]
  {
    assert (ks + [k])[..|ks|] == ks;
  }

  lemma ConfigMapsSnoc(integration: string, closed: seq<seq<Kamelet>>, open: seq<Kamelet>)
    ensures ConfigMaps(integration, closed + [open]) ==
            ConfigMaps(integration, closed) + [ConfigMap(integration, |closed| + 1, Data(open))]
  {
  }

  /** The source's loop; the positions in `failing` are the Kamelets that cannot be serialised. */
  method ToConfigMaps(integration: string, ks: seq<Kamelet>, failing: set<nat>) returns (maps: Option<seq<ConfigMap>>)
    ensures maps == if exists i :: i in failing && i < |ks| then None
                    else Some(ConfigMaps(integration, Packed([], [], ks, MEGABYTE)))
  {
    var done: seq<ConfigMap> := [];
    var size, id := 0, 1;
    var current := ConfigMap(integration, id, map[]);
    ghost var closed: seq<seq<Kamelet>>, open: seq<Kamelet> := [], [];
    var i := 0;
    assert ks[0..] == ks;
    while i < |ks|
      invariant 0 <= i <= |ks| && forall j :: 0 <= j < i ==> j !in failing
      invariant id == |closed| + 1 && done == ConfigMaps(integration, closed)
      invariant size == Size(open) && current == ConfigMap(integration, id, Data(open))
      invariant Packed(closed, open, ks[i..], MEGABYTE) == Packed([], [], ks, MEGABYTE)
    {
      if i in failing {
        return None;
      }
      assert ks[i..][0] == ks[i] && ks[i..][1..] == ks[i + 1..];
      if size + |ks[i].yaml| > MEGABYTE {
        ConfigMapsSnoc(integration, closed, open);
        done := done + [current];
        closed, open := closed + [open], [];
        size, id := 0, id + 1;
        current := ConfigMap(integration, id, map[]);
        assert open + [ks[i]] == [ks[i]];
      }
      SizeAndDataSnoc(open, ks[i]);
      current := current.(data := current.data[ks[i].name + SUFFIX := ks[i].yaml]);
      size := size + |ks[i].yaml|;
      open := open + [ks[i]];
      i := i + 1;
    }
    assert ks[i..] == [];
    ConfigMapsSnoc(integration, closed, open);
    return Some(done + [current]);
  }

  // Theorems about the packing

  function Flatten(groups: seq<seq<Kamelet>>): seq<Kamelet> {
    if groups == [] then [] else groups[0] + Flatten(groups[1..])
  }

  lemma {:induction false} FlattenSnoc(groups: seq<seq<Kamelet>>, g: seq<Kamelet>)
    ensures Flatten(groups + [g]) == Flatten(groups) + g
  {
    if groups == [] {
      assert groups + [g] == [g] && [g][1..] == [];
    } else {
      assert (groups + [g])[1..] == groups[1..] + [g];
      FlattenSnoc(groups[1..], g);
    }
  }

  /** Every Kamelet is in exactly one group, and the order is kept. */
  lemma {:induction false} NothingLostOrDuplicated(
    closed: seq<seq<Kamelet>>, open: seq<Kamelet>, ks: seq<Kamelet>, limit: nat)
    ensures Flatten(Packed(closed, open, ks, limit)) == Flatten(closed) + open + ks
    decreases |ks|
  {
    FlattenSnoc(closed, open);
    if ks != [] {
      assert ks == [ks[0]] + ks[1..];
      if Size(open) + |ks[0].yaml| > limit {
        NothingLostOrDuplicated(closed + [open], [ks[0]], ks[1..], limit);
      } else {
        NothingLostOrDuplicated(closed, open + [ks[0]], ks[1..], limit);
      }
    }
  }

  predicate WithinLimit(g: seq<Kamelet>, limit: nat) {
    Size(g) <= limit || |g| == 1
  }

  /** Group i would not have fitted into its predecessor. */
  predicate Apart(groups: seq<seq<Kamelet>>, i: int, limit: nat)
    requires 0 < i < |groups|
  {
    Size(groups[i - 1]) + Size(groups[i]) > limit
  }

  /**
   Every group is within the limit or holds a single oversized Kamelet, neighbours never fit together, and only the
   first group can be empty.
   */
  predicate Tight(groups: seq<seq<Kamelet>>, limit: nat) {
    && (forall i :: 0 <= i < |groups| ==> WithinLimit(groups[i], limit))
    && (forall i :: 0 < i < |groups| ==> Apart(groups, i, limit))
    && (forall i :: 0 < i < |groups| ==> groups[i] != [])
  }

  lemma TightInit(groups: seq<seq<Kamelet>>, g: seq<Kamelet>, limit: nat)
    requires Tight(groups + [g], limit)
    ensures Tight(groups, limit) && WithinLimit(g, limit)
    ensures groups != [] ==> g != [] && Size(groups[|groups| - 1]) + Size(g) > limit
  {
    var all := groups + [g];
    assert all[|groups|] == g;
    forall i | 0 <= i < |groups|
      ensures WithinLimit(groups[i], limit) && (i > 0 ==> Apart(groups, i, limit) && groups[i] != [])
    {
      assert all[i] == groups[i];
      if i > 0 {
        assert Apart(all, i, limit) && all[i - 1] == groups[i - 1];
      }
    }
    assert groups != [] ==> Apart(all, |groups|, limit);
  }

  lemma TightSnoc(groups: seq<seq<Kamelet>>, g: seq<Kamelet>, limit: nat)
    requires Tight(groups, limit) && WithinLimit(g, limit)
    requires groups != [] ==> g != [] && Size(groups[|groups| - 1]) + Size(g) > limit
    ensures Tight(groups + [g], limit)
  {
    var all := groups + [g];
    forall i | 0 <= i < |all| ensures WithinLimit(all[i], limit) && (i > 0 ==> Apart(all, i, limit) && all[i] != []) {
      if 0 < i < |groups| {
        assert Apart(groups, i, limit) && all[i - 1] == groups[i - 1] && all[i] == groups[i];
      }
    }
  }

  /** The packing keeps the groups tight. */
  lemma {:induction false} PackedIsTight(closed: seq<seq<Kamelet>>, open: seq<Kamelet>, ks: seq<Kamelet>, limit: nat)
    requires Tight(closed + [open], limit)
    ensures Tight(Packed(closed, open, ks, limit), limit)
    decreases |ks|
  {
    if ks != [] {
      var k := ks[0];
      SizeAndDataSnoc([], k);
      SizeAndDataSnoc(open, k);
      assert [] + [k] == [k];
      TightInit(closed, open, limit);
      if Size(open) + |k.yaml| > limit {
        TightSnoc(closed + [open], [k], limit);
        PackedIsTight(closed + [open], [k], ks[1..], limit);
      } else {
        TightSnoc(closed, open + [k], limit);
        PackedIsTight(closed, open + [k], ks[1..], limit);
      }
    }
  }

  /** What the packing of a whole list promises. */
  lemma GroupsAreTight(ks: seq<Kamelet>, limit: nat)
    ensures Tight(Packed([], [], ks, limit), limit) && Flatten(Packed([], [], ks, limit)) == ks
    ensures |Packed([], [], ks, limit)| >= 1
  {
    TightSnoc([], [], limit);
    PackedIsTight([], [], ks, limit);
    NothingLostOrDuplicated([], [], ks, limit);
    PackedNotEmpty([], [], ks, limit);
  }

  lemma {:induction false} PackedNotEmpty(closed: seq<seq<Kamelet>>, open: seq<Kamelet>, ks: seq<Kamelet>, limit: nat)
    ensures |Packed(closed, open, ks, limit)| >= 1
    decreases |ks|
  {
    if ks != [] {
      PackedNotEmpty(closed + [open], [ks[0]], ks[1..], limit);
      PackedNotEmpty(closed, open + [ks[0]], ks[1..], limit);
    }
  }

  function Total(groups: seq<seq<Kamelet>>): nat {
    if groups == [] then 0 else Size(groups[0]) + Total(groups[1..])
  }

  lemma Distribute(n: nat, m: nat)
    ensures (n + 1) * m == n * m + m
  {
  }

  /** The sum over neighbouring pairs counts every group at most twice. */
  lemma {:induction false} PairsCountTwice(groups: seq<seq<Kamelet>>, limit: nat)
    requires groups != [] && Tight(groups, limit)
    ensures (|groups| - 1) * (limit + 1) + Size(groups[0]) <= 2 * Total(groups)
    decreases |groups|
  {
    if |groups| > 1 {
      var rest := groups[1..];
      assert forall i :: 0 <= i < |rest| ==> rest[i] == groups[i + 1];
      assert forall i :: 0 < i < |rest| ==> Apart(rest, i, limit) == Apart(groups, i + 1, limit);
      PairsCountTwice(rest, limit);
      assert Apart(groups, 1, limit);
      Distribute(|rest| - 1, limit + 1);
    }
  }

  lemma {:induction false} SizeConcat(a: seq<Kamelet>, b: seq<Kamelet>)
    ensures Size(a + b) == Size(a) + Size(b)
    decreases |b|
  {
    if b == [] {
      assert a + b == a;
    } else {
      var n := |b| - 1;
      SizeConcat(a, b[..n]);
      assert (a + b)[..|a + b| - 1] == a + b[..n];
    }
  }

  lemma {:induction false} TotalIsSize(groups: seq<seq<Kamelet>>)
    ensures Size(Flatten(groups)) == Total(groups)
  {
    if groups != [] {
      TotalIsSize(groups[1..]);
      SizeConcat(groups[0], Flatten(groups[1..]));
    }
  }

  /** Next-fit bound: the number of ConfigMaps is at most twice what the total size asks for, plus one. */
  lemma PackingBound(ks: seq<Kamelet>, limit: nat)
    ensures (|Packed([], [], ks, limit)| - 1) * (limit + 1) <= 2 * Size(ks)
  {
    var groups := Packed([], [], ks, limit);
    GroupsAreTight(ks, limit);
    PairsCountTwice(groups, limit);
    TotalIsSize(groups);
  }

  // The ConfigMaps

  /** No two ConfigMaps of a bundle share a name. */
  lemma NamesAreDistinct(a: ConfigMap, b: ConfigMap)
    requires a.integration == b.integration && a.Name() == b.Name()
    ensures a.id == b.id
  {
    var prefix := "kamelets-bundle-" + a.integration + "-";
    assert (prefix + Pad3(a.id))[|prefix|..] == Pad3(a.id);
    assert (prefix + Pad3(b.id))[|prefix|..] == Pad3(b.id);
    Pad3Injective(a.id, b.id);
  }

  predicate DistinctNames(ks: seq<Kamelet>) {
    forall i, j :: 0 <= i < j < |ks| ==> ks[i].name != ks[j].name
  }

  lemma SuffixInjective(a: string, b: string)
    requires a + SUFFIX == b + SUFFIX
    ensures a == b
  {
    assert a == (a + SUFFIX)[..|a|] && b == (b + SUFFIX)[..|b|];
  }

  lemma {:induction false} DataKeys(ks: seq<Kamelet>, key: string) returns (i: nat)
    requires key in Data(ks)
    ensures i < |ks| && key == ks[i].name + SUFFIX
  {
    var n := |ks| - 1;
    if key == ks[n].name + SUFFIX {
      i := n;
    } else {
      i := DataKeys(ks[..n], key);
    }
  }

  /** With distinct names no entry hides another. */
  lemma {:induction false} DataHolds(ks: seq<Kamelet>, i: nat)
    requires i < |ks| && forall j :: i < j < |ks| ==> ks[j].name != ks[i].name
    ensures ks[i].name + SUFFIX in Data(ks) && Data(ks)[ks[i].name + SUFFIX] == ks[i].yaml
  {
    var n := |ks| - 1;
    if i < n {
      DataHolds(ks[..n], i);
      if ks[i].name + SUFFIX == ks[n].name + SUFFIX {
        SuffixInjective(ks[i].name, ks[n].name);
      }
    }
  }

  /** Where a group starts in the flattened list. */
  function Offset(groups: seq<seq<Kamelet>>, g: nat): nat
    requires g <= |groups|
  {
    if g == 0 then 0 else Offset(groups, g - 1) + |groups[g - 1]|
  }

  lemma {:induction false} OffsetTail(groups: seq<seq<Kamelet>>, g: nat)
    requires 1 <= g <= |groups|
    ensures Offset(groups, g) == |groups[0]| + Offset(groups[1..], g - 1)
  {
    if g > 1 {
      OffsetTail(groups, g - 1);
    }
  }

  lemma {:induction false} OffsetGrows(groups: seq<seq<Kamelet>>, g: nat, h: nat)
    requires g < h <= |groups|
    ensures Offset(groups, g) + |groups[g]| <= Offset(groups, h)
  {
    if g < h - 1 {
      OffsetGrows(groups, g, h - 1);
    }
  }

  lemma {:induction false} FlattenIndex(groups: seq<seq<Kamelet>>, g: nat, i: nat)
    requires g < |groups| && i < |groups[g]|
    ensures Offset(groups, g) + i < |Flatten(groups)| && Flatten(groups)[Offset(groups, g) + i] == groups[g][i]
    decreases |groups|
  {
    if g > 0 {
      FlattenIndex(groups[1..], g - 1, i);
      OffsetTail(groups, g);
    }
  }

  lemma {:induction false} FlattenFind(groups: seq<seq<Kamelet>>, k: nat) returns (g: nat, i: nat)
    requires k < |Flatten(groups)|
    ensures g < |groups| && i < |groups[g]| && k == Offset(groups, g) + i
    decreases |groups|
  {
    if k < |groups[0]| {
      g, i := 0, k;
    } else {
      g, i := FlattenFind(groups[1..], k - |groups[0]|);
      g := g + 1;
      OffsetTail(groups, g);
    }
  }

  /** Different places in the groups hold Kamelets of different names. */
  lemma PlacesDiffer(ks: seq<Kamelet>, groups: seq<seq<Kamelet>>, g: nat, i: nat, h: nat, j: nat)
    requires DistinctNames(ks) && Flatten(groups) == ks
    requires g < |groups| && i < |groups[g]| && h < |groups| && j < |groups[h]| && (g, i) != (h, j)
    ensures groups[g][i].name != groups[h][j].name
  {
    FlattenIndex(groups, g, i);
    FlattenIndex(groups, h, j);
    if g < h {
      OffsetGrows(groups, g, h);
    } else if h < g {
      OffsetGrows(groups, h, g);
    }
  }

  /** With distinct names every Kamelet is stored, unchanged, in exactly one of the ConfigMaps. */
  lemma EachKameletOnce(integration: string, ks: seq<Kamelet>, limit: nat, k: nat) returns (g: nat)
    requires DistinctNames(ks) && k < |ks|
    ensures var maps := ConfigMaps(integration, Packed([], [], ks, limit));
            var key := ks[k].name + SUFFIX;
            && g < |maps| && key in maps[g].data && maps[g].data[key] == ks[k].yaml
            && (forall h :: 0 <= h < |maps| && h != g ==> key !in maps[h].data)
            && maps[g].integration == integration && maps[g].id == g + 1
  {
    var groups := Packed([], [], ks, limit);
    GroupsAreTight(ks, limit);
    var i;
    g, i := FlattenFind(groups, k);
    FlattenIndex(groups, g, i);
    forall j | i < j < |groups[g]| ensures groups[g][j].name != groups[g][i].name {
      PlacesDiffer(ks, groups, g, i, g, j);
    }
    DataHolds(groups[g], i);
    var key := ks[k].name + SUFFIX;
    var maps := ConfigMaps(integration, groups);
    assert maps[g].data == Data(groups[g]);
    forall h | 0 <= h < |maps| && h != g ensures key !in maps[h].data {
      assert maps[h].data == Data(groups[h]);
      if key in Data(groups[h]) {
        var j := DataKeys(groups[h], key);
        SuffixInjective(ks[k].name, groups[h][j].name);
        PlacesDiffer(ks, groups, g, i, h, j);
      }
    }
  }
}
