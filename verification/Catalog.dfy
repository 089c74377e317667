/** The catalog sorts the traits that the registered factories make. */
module Catalog {
  import opened Cluster
  import opened Traits
  import opened TraitRun

  function Insert(t: Trait, sorted: seq<Trait>): seq<Trait> {
    if sorted == [] || t.Order() <= sorted[0].Order() then [t] + sorted else [sorted[0]] + Insert(t, sorted[1..])
  }

  /** `sort.Slice` by order; how traits of equal order are arranged makes no difference here. */
  function Sorted(ts: seq<Trait>): seq<Trait> {
    if ts == [] then [] else Insert(ts[0], Sorted(ts[1..]))
  }

  function Count(ts: seq<Trait>, p: Trait -> bool): nat {
    if ts == [] then 0 else Count(ts[1..], p) + if p(ts[0]) then 1 else 0
  }

  function IsDeployer(): Trait -> bool {
    (t: Trait) => t.Deployer?
  }

  function IsGc(): Trait -> bool {
    (t: Trait) => t.Gc?
  }

  function IsOwner(): Trait -> bool {
    (t: Trait) => t.Owner?
  }

  function IsGitOps(): Trait -> bool {
    (t: Trait) => t.GitOps?
  }

  /** A producer that the owner trait might miss. */
  function IsLate(): Trait -> bool {
    (t: Trait) => t.Producer? && !(t.order < OWNER_ORDER && BindingsOnly(t.postSteps))
  }

  /** What the registered factories are like: one trait of each core kind, the others ordered before the owner trait. */
  predicate WellMade(factories: seq<Trait>) {
    && Count(factories, IsDeployer()) == 1 && Count(factories, IsGc()) == 1 && Count(factories, IsOwner()) == 1
    && Count(factories, IsGitOps()) == 1 && Count(factories, IsLate()) == 0
  }

  lemma {:induction false} InsertOrders(t: Trait, ts: seq<Trait>)
    requires Ordered(ts)
    ensures Ordered(Insert(t, ts))
    ensures forall x :: x in Insert(t, ts) ==> x == t || x in ts
  {
    if ts != [] && t.Order() > ts[0].Order() {
      InsertOrders(t, ts[1..]);
      var rest := Insert(t, ts[1..]);
      forall j | 0 <= j < |rest| ensures ts[0].Order() <= rest[j].Order() {
        assert rest[j] in rest;
      }
    }
  }

  lemma {:induction false} InsertCounts(t: Trait, ts: seq<Trait>, p: Trait -> bool)
    ensures Count(Insert(t, ts), p) == Count(ts, p) + if p(t) then 1 else 0
  {
    if ts == [] || t.Order() <= ts[0].Order() {
      assert ([t] + ts)[1..] == ts;
    } else {
      InsertCounts(t, ts[1..], p);
      assert ([ts[0]] + Insert(t, ts[1..]))[1..] == Insert(t, ts[1..]);
    }
  }

  /** Sorting orders the traits and neither loses nor duplicates one. */
  lemma {:induction false} SortsAll(ts: seq<Trait>, p: Trait -> bool)
    ensures Ordered(Sorted(ts)) && Count(Sorted(ts), p) == Count(ts, p)
  {
    if ts != [] {
      SortsAll(ts[1..], p);
      InsertOrders(ts[0], Sorted(ts[1..]));
      InsertCounts(ts[0], Sorted(ts[1..]), p);
    }
  }

  lemma {:induction false} NotCounted(ts: seq<Trait>, p: Trait -> bool)
    requires Count(ts, p) == 0
    ensures forall i :: 0 <= i < |ts| ==> !p(ts[i])
  {
    if ts != [] {
      NotCounted(ts[1..], p);
      assert forall i :: 0 < i < |ts| ==> ts[i] == ts[1..][i - 1];
    }
  }

  lemma {:induction false} CountedOnce(ts: seq<Trait>, p: Trait -> bool) returns (i: nat)
    requires Count(ts, p) == 1
    ensures i < |ts| && forall j :: 0 <= j < |ts| ==> (p(ts[j]) <==> j == i)
  {
    assert forall j :: 0 < j < |ts| ==> ts[j] == ts[1..][j - 1];
    if p(ts[0]) {
      NotCounted(ts[1..], p);
      i := 0;
    } else {
      i := CountedOnce(ts[1..], p);
      i := i + 1;
    }
  }

  /** However the factories are registered, the sorted catalog is standard: the owner trait runs last. */
  lemma CatalogIsStandard(factories: seq<Trait>) returns (d: nat, g: nat)
    requires WellMade(factories)
    ensures Standard(Sorted(factories), d, g)
  {
    var ts := Sorted(factories);
    SortsAll(factories, IsDeployer());
    SortsAll(factories, IsGc());
    SortsAll(factories, IsOwner());
    SortsAll(factories, IsGitOps());
    SortsAll(factories, IsLate());
    d := CountedOnce(ts, IsDeployer());
    g := CountedOnce(ts, IsGc());
    var o := CountedOnce(ts, IsOwner());
    var p := CountedOnce(ts, IsGitOps());
    NotCounted(ts, IsLate());
    assert ts[o].Owner?;
    forall i | 0 <= i < |ts|
      ensures (ts[i].Deployer? <==> i == d) && (ts[i].Gc? <==> i == g)
      ensures (ts[i].Owner? <==> i == o) && (ts[i].GitOps? <==> i == p)
      ensures ts[i].Producer? ==> ts[i].order < OWNER_ORDER && BindingsOnly(ts[i].postSteps)
    {
      assert IsDeployer()(ts[i]) == ts[i].Deployer? && IsGc()(ts[i]) == ts[i].Gc?;
      assert IsOwner()(ts[i]) == ts[i].Owner? && IsGitOps()(ts[i]) == ts[i].GitOps?;
      assert !IsLate()(ts[i]);
    }
  }
}
