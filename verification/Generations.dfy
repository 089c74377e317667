/** Whole histories of one Integration: reconciliations of growing generations, undeployments and foreign changes. */
module Generations {
  import opened Options
  import opened Decimal
  import opened Cluster
  import opened Traits
  import opened TraitRun
  import opened Reconcile

  datatype Event =
    | Reconciled(it: Integration, ts: seq<Trait>, d: nat, g: nat, api: Api)
    | Foreign(key: Key, meta: Option<Meta>)

  function After(objs: Objects, e: Event): Objects
    requires e.Reconciled? ==> e.it.generation >= 0
  {
    match e
    case Reconciled(it, ts, _, _, api) => Run(it, ts, api, objs).objects
    case Foreign(k, None) => objs - {k}
    case Foreign(k, Some(m)) => objs[k := m]
  }

  predicate Numbered(h: seq<Event>) {
    forall i :: 0 <= i < |h| && h[i].Reconciled? ==> 1 <= h[i].it.generation <= MAX_INT64
  }

  function World(objs: Objects, h: seq<Event>): Objects
    requires Numbered(h)
  {
    if h == [] then objs else After(World(objs, h[..|h| - 1]), h[|h| - 1])
  }

  predicate SameIntegration(a: Integration, b: Integration) {
    a.name == b.name && a.ns == b.ns && a.apiVersion == b.apiVersion && a.kind == b.kind
  }

  /** Neither the collector nor the owner trait is disabled; whether they are active depends on the phase. */
  predicate Enabled(ts: seq<Trait>) {
    forall i :: 0 <= i < |ts| && (ts[i].Gc? || ts[i].Owner?) ==> ts[i].enabled.Or(true)
  }

  /** The run stamps its resources: it is in a running phase, or undeploys. */
  predicate Stamps(e: Event) {
    e.Reconciled? && GcActive(e.it, e.ts)
  }

  predicate IsUndeploy(e: Event) {
    e.Reconciled? && e.it.phase.UnDeploying?
  }

  /** A run of the Integration in any phase, against a server that can apply; only the collector writes stamps. */
  ghost predicate Runs(id: Integration, e: Event) {
    && e.Reconciled? && SameIntegration(id, e.it) && Standard(e.ts, e.d, e.g) && Enabled(e.ts) && !e.api.clientSide
    && (Stamps(e) || WritesNoStamp(e.it, e.ts))
  }

  /** Fields that have nothing of the Integration's marks: no stamp, no label and no owner reference. */
  predicate Innocent(id: Integration, f: Fields) {
    && GENERATION_LABEL !in f.labels
    && (INTEGRATION_LABEL in f.labels ==> f.labels[INTEGRATION_LABEL] != id.name)
    && forall i :: 0 <= i < |f.owners| ==> !RefersTo(id, f.owners[i])
  }

  /** An object before the Integration has anything to do with it, or after somebody else changed it. */
  predicate Strange(id: Integration, k: Key, m: Meta) {
    Innocent(id, m.theirs) && !Claimed(id, k, m)
  }

  /** A change by anybody else, which leaves object k alone if it is the Integration's and does not fake one. */
  predicate Unrelated(id: Integration, objs: Objects, e: Event, k: Key) {
    && e.Foreign?
    && (e.key == k ==>
          (k in objs ==> !Claimed(id, k, objs[k])) && (e.meta.Some? ==> Strange(id, k, e.meta.value)))
  }

  /** Generations never decrease from one reconciliation to a later one. */
  predicate Ordered(h: seq<Event>) {
    forall i, j :: 0 <= i < j < |h| && h[i].Reconciled? && h[j].Reconciled? ==> h[i].it.generation <= h[j].it.generation
  }

  /** As far as object k is concerned, every event is a run of the Integration or none of its business. */
  ghost predicate Legal(id: Integration, objs: Objects, h: seq<Event>, k: Key) {
    && (k in objs ==> Strange(id, k, objs[k]))
    && Numbered(h) && Ordered(h)
    && (forall i :: 0 <= i < |h| ==> Runs(id, h[i]) || Unrelated(id, World(objs, h[..i]), h[i], k))
  }

  /** The run stores object k. */
  predicate Applies(e: Event, k: Key)
    requires e.Reconciled? ==> e.it.generation >= 0
  {
    e.Reconciled? && k in AppliedBy(e.it, e.ts, e.api)
  }

  /** What the run stores of object k. */
  function StoredFields(e: Event, k: Key): Fields
    requires e.Reconciled? ==> e.it.generation >= 0
    requires Applies(e, k)
  {
    FieldsOf(LastOf(Stored(Prepare(e.it, e.ts).env.resources, e.api), k))
  }

  /** The run stores object k with the Integration's label and an owner reference to it. */
  predicate Claims(id: Integration, e: Event, k: Key)
    requires e.Reconciled? ==> e.it.generation >= 0
  {
    Applies(e, k) && Claimed(id, k, Meta(StoredFields(e, k), NO_FIELDS))
  }

  /** The run gets to collect object k if that is due. */
  predicate Collecting(e: Event, k: Key)
    requires e.Reconciled? ==> e.it.generation >= 0
  {
    e.Reconciled? && Prepare(e.it, e.ts).Ready? && Collects(e.it, e.ts) && Sweeps(e.api, k)
  }

  /** Run e collects what run a stored as object k: an undeploy anything, another run what has an older stamp. */
  predicate CollectsFrom(e: Event, a: Event, k: Key)
    requires (e.Reconciled? ==> e.it.generation >= 0) && (a.Reconciled? ==> a.it.generation >= 0)
  {
    Collecting(e, k) && (IsUndeploy(e) || (Stamps(a) && a.it.generation < e.it.generation))
  }

  /** Run i was the last to store object k. */
  predicate LastApplied(h: seq<Event>, i: int, k: Key)
    requires Numbered(h)
  {
    0 <= i < |h| && Applies(h[i], k) && forall j :: i < j < |h| ==> !Applies(h[j], k)
  }

  /** Run i was the last to store object k, it claimed it, and no run since has collected it. */
  predicate Alive(id: Integration, h: seq<Event>, i: int, k: Key)
    requires Numbered(h)
  {
    LastApplied(h, i, k) && Claims(id, h[i], k) && NotCollected(h, i, k)
  }

  predicate NotCollected(h: seq<Event>, i: nat, k: Key)
    requires Numbered(h) && i < |h|
  {
    forall j :: i <= j < |h| ==> !CollectsFrom(h[j], h[i], k)
  }

  /** The object carries the stamp of the run, or none if the run does not stamp. */
  predicate Bears(e: Event, m: Meta) {
    if Stamps(e) then GenerationIs(m, e.it.generation) else GENERATION_LABEL !in m.Labels()
  }

  // One step

  lemma Prefix(id: Integration, objs: Objects, h: seq<Event>, k: Key)
    requires Legal(id, objs, h, k) && h != []
    ensures Legal(id, objs, h[..|h| - 1], k)
    ensures World(objs, h) == After(World(objs, h[..|h| - 1]), h[|h| - 1])
  {
    var p := h[..|h| - 1];
    forall i | 0 <= i < |p| ensures Runs(id, p[i]) || Unrelated(id, World(objs, p[..i]), p[i], k) {
      assert p[..i] == h[..i] && p[i] == h[i];
    }
  }

  /** Server-side apply takes over fields of others, and adds none. */
  lemma {:induction false} StaysInnocent(id: Integration, objs: Objects, rs: seq<Resource>, k: Key)
    requires k in objs ==> Innocent(id, objs[k].theirs)
    ensures k in ApplyAll(objs, rs, false) ==> Innocent(id, ApplyAll(objs, rs, false)[k].theirs)
    decreases |rs|
  {
    if rs != [] {
      StaysInnocent(id, objs[rs[0].key := Merged(objs, rs[0], false)], rs[1..], k);
    }
  }

  /** Next to innocent fields of others only the operator's own fields count. */
  lemma OursDecide(id: Integration, k: Key, m: Meta)
    requires Innocent(id, m.theirs)
    ensures Claimed(id, k, m) <==> Claimed(id, k, Meta(m.ours, NO_FIELDS))
    ensures GENERATION_LABEL in m.Labels() <==> GENERATION_LABEL in m.ours.labels
  {
    var alone := Meta(m.ours, NO_FIELDS);
    assert alone.Labels() == m.ours.labels && alone.Owners() == m.ours.owners;
    if i :| 0 <= i < |m.Owners()| && RefersTo(id, m.Owners()[i]) {
      assert alone.Owners()[i - |m.theirs.owners|] == m.Owners()[i];
    }
    if i :| 0 <= i < |alone.Owners()| && RefersTo(id, alone.Owners()[i]) {
      assert m.Owners()[i + |m.theirs.owners|] == alone.Owners()[i];
    }
  }

  /** What a run stores is claimed, and stamped, as the run says. */
  lemma StoredByRun(id: Integration, e: Event, objs: Objects, k: Key)
    requires Runs(id, e) && 1 <= e.it.generation <= MAX_INT64 && Applies(e, k)
    requires k in objs ==> Innocent(id, objs[k].theirs)
    ensures var m := Deployed(e.it, e.ts, e.api, objs);
            && k in m && Innocent(id, m[k].theirs) && Bears(e, m[k])
            && (Claimed(id, k, m[k]) <==> Claims(id, e, k))
  {
    var rs := Stored(Prepare(e.it, e.ts).env.resources, e.api);
    var before := StoredLast(objs, rs, k, false);
    StaysInnocent(id, objs, rs, k);
    var m := ApplyAll(objs, rs, false)[k];
    assert m.ours == StoredFields(e, k);
    OursDecide(id, k, m);
    if Stamps(e) {
      Preparation(e.it, e.ts, e.d, e.g);
      ApplyAllStamps(e.it, objs, rs, k, false);
    } else {
      UnstampedRun(e.it, e.ts, e.d, e.g);
      assert Unnumbered(LastOf(rs, k));
    }
  }

  /** The collector reads the stamp of the run that stored the object. */
  lemma StampDecides(id: Integration, e: Event, a: Event, k: Key, m: Meta)
    requires e.Reconciled? && a.Reconciled? && SameIntegration(id, e.it)
    requires 1 <= a.it.generation <= MAX_INT64 && Bears(a, m)
    ensures Collectable(e.it, k.kind, k, m) <==>
              Claimed(id, k, m) && (IsUndeploy(e) || (Stamps(a) && a.it.generation < e.it.generation))
  {
    ParseFormat(a.it.generation);
    assert CanBeDeleted(e.it, m) <==> CanBeDeleted(id, m) by {
      assert forall o :: RefersTo(e.it, o) <==> RefersTo(id, o);
    }
  }

  /** A run that stores object k: it is there and claimed afterwards unless an undeploy collects it at once. */
  lemma ApplyingStep(id: Integration, e: Event, objs: Objects, k: Key)
    requires Runs(id, e) && 1 <= e.it.generation <= MAX_INT64 && Applies(e, k)
    requires k in objs ==> Innocent(id, objs[k].theirs)
    ensures var after := After(objs, e);
            && (k in after ==> Innocent(id, after[k].theirs) && Bears(e, after[k]))
            && (k in after && Claimed(id, k, after[k]) <==> Claims(id, e, k) && !CollectsFrom(e, e, k))
  {
    StoredByRun(id, e, objs, k);
    RunOnObject(e.it, e.ts, e.d, e.g, e.api, objs, k);
    StampDecides(id, e, e, k, Deployed(e.it, e.ts, e.api, objs)[k]);
  }

  /** A run that does not store object k leaves it as it is, or collects it. */
  lemma PassingStep(id: Integration, e: Event, objs: Objects, k: Key)
    requires Runs(id, e) && 1 <= e.it.generation <= MAX_INT64 && !Applies(e, k)
    ensures var after := After(objs, e);
            && (k in after ==> k in objs && after[k] == objs[k])
            && (k in objs && k !in after ==> Claimed(id, k, objs[k]))
            && forall a: Event ::
                 a.Reconciled? && 1 <= a.it.generation <= MAX_INT64 && k in objs && Bears(a, objs[k]) ==>
                   (k in after && Claimed(id, k, after[k]) <==> Claimed(id, k, objs[k]) && !CollectsFrom(e, a, k))
  {
    if Prepare(e.it, e.ts).Ready? {
      RunOnObject(e.it, e.ts, e.d, e.g, e.api, objs, k);
      assert forall o :: RefersTo(e.it, o) <==> RefersTo(id, o);
      forall a: Event | a.Reconciled? && 1 <= a.it.generation <= MAX_INT64 && k in objs && Bears(a, objs[k])
        ensures Collectable(e.it, k.kind, k, objs[k]) <==>
                  Claimed(id, k, objs[k]) && (IsUndeploy(e) || (Stamps(a) && a.it.generation < e.it.generation))
      {
        StampDecides(id, e, a, k, objs[k]);
      }
    }
  }

  lemma LastAppliedBefore(h: seq<Event>, i: int, k: Key)
    requires Numbered(h) && 0 <= i < |h| - 1
    ensures Numbered(h[..|h| - 1])
    ensures LastApplied(h, i, k) <==> LastApplied(h[..|h| - 1], i, k) && !Applies(h[|h| - 1], k)
  {
    var p := h[..|h| - 1];
    forall j | 0 <= j < |p| ensures p[j] == h[j] {}
  }

  lemma NotCollectedBefore(h: seq<Event>, i: nat, k: Key)
    requires Numbered(h) && i < |h| - 1
    ensures Numbered(h[..|h| - 1])
    ensures NotCollected(h, i, k) <==> NotCollected(h[..|h| - 1], i, k) && !CollectsFrom(h[|h| - 1], h[i], k)
  {
    var p := h[..|h| - 1];
    forall j | 0 <= j < |p| ensures p[j] == h[j] {}
  }

  /** A copy stays alive as long as the next event neither stores the object nor collects it. */
  lemma AliveBefore(id: Integration, h: seq<Event>, i: int, k: Key)
    requires Numbered(h) && 0 <= i < |h| - 1
    ensures Numbered(h[..|h| - 1])
    ensures Alive(id, h, i, k) <==>
              Alive(id, h[..|h| - 1], i, k) && !Applies(h[|h| - 1], k) && !CollectsFrom(h[|h| - 1], h[i], k)
  {
    LastAppliedBefore(h, i, k);
    NotCollectedBefore(h, i, k);
    assert h[..|h| - 1][i] == h[i];
  }

  // Theorems over histories

  /** What is known of object k after a history: it is the Integration's exactly when some run's copy is alive. */
  ghost predicate Accounted(id: Integration, objs: Objects, h: seq<Event>, k: Key)
    requires Numbered(h)
  {
    && (k in objs ==> Innocent(id, objs[k].theirs))
    && (k in objs && Claimed(id, k, objs[k]) ==> exists i :: Alive(id, h, i, k))
    && (forall i :: Alive(id, h, i, k) ==> k in objs && Claimed(id, k, objs[k]) && Bears(h[i], objs[k]))
  }

  lemma OnlyTheLastIsAlive(id: Integration, h: seq<Event>, i: int, k: Key)
    requires Numbered(h) && h != [] && Applies(h[|h| - 1], k)
    ensures var e := h[|h| - 1]; Alive(id, h, i, k) <==> i == |h| - 1 && Claims(id, e, k) && !CollectsFrom(e, e, k)
  {
    if 0 <= i < |h| - 1 {
      LastAppliedBefore(h, i, k);
    }
  }

  lemma AccountedAfterApplying(id: Integration, objs: Objects, h: seq<Event>, k: Key)
    requires Numbered(h) && h != [] && Runs(id, h[|h| - 1]) && Applies(h[|h| - 1], k)
    requires k in objs ==> Innocent(id, objs[k].theirs)
    ensures Accounted(id, After(objs, h[|h| - 1]), h, k)
  {
    var n := |h| - 1;
    ApplyingStep(id, h[n], objs, k);
    OnlyTheLastIsAlive(id, h, n, k);
    forall i | Alive(id, h, i, k) ensures i == n {
      OnlyTheLastIsAlive(id, h, i, k);
    }
  }

  lemma StillAlive(id: Integration, h: seq<Event>, i: int, k: Key)
    requires Numbered(h) && h != [] && Numbered(h[..|h| - 1]) && !Applies(h[|h| - 1], k)
    ensures Alive(id, h, i, k) <==>
              && 0 <= i < |h| - 1 && h[..|h| - 1][i] == h[i]
              && Alive(id, h[..|h| - 1], i, k) && !CollectsFrom(h[|h| - 1], h[i], k)
  {
    if 0 <= i < |h| - 1 {
      AliveBefore(id, h, i, k);
    }
  }

  lemma AccountedAfterPassing(id: Integration, objs: Objects, h: seq<Event>, k: Key)
    requires Numbered(h) && h != [] && Numbered(h[..|h| - 1]) && !Applies(h[|h| - 1], k)
    requires Runs(id, h[|h| - 1]) || Unrelated(id, objs, h[|h| - 1], k)
    requires Accounted(id, objs, h[..|h| - 1], k)
    ensures Accounted(id, After(objs, h[|h| - 1]), h, k)
  {
    var p, e := h[..|h| - 1], h[|h| - 1];
    var after := After(objs, e);
    if e.Reconciled? {
      PassingStep(id, e, objs, k);
    }
    if k in after && Claimed(id, k, after[k]) {
      var i :| Alive(id, p, i, k);
      StillAlive(id, h, i, k);
      assert Alive(id, h, i, k);
    }
    forall i | Alive(id, h, i, k) ensures k in after && Claimed(id, k, after[k]) && Bears(h[i], after[k]) {
      StillAlive(id, h, i, k);
      assert Alive(id, p, i, k) && h[i].Reconciled? && Bears(h[i], objs[k]);
    }
  }

  lemma {:induction false} EveryObjectIsAccounted(id: Integration, objs: Objects, h: seq<Event>, k: Key)
    requires Legal(id, objs, h, k)
    ensures Accounted(id, World(objs, h), h, k)
    decreases |h|
  {
    if h != [] {
      var n := |h| - 1;
      Prefix(id, objs, h, k);
      EveryObjectIsAccounted(id, objs, h[..n], k);
      if Applies(h[n], k) {
        AccountedAfterApplying(id, World(objs, h[..n]), h, k);
      } else {
        AccountedAfterPassing(id, World(objs, h[..n]), h, k);
      }
    }
  }

  /**
   The life of an object, in every reachable state and whatever failed on the way: object k is there and the
   Integration's exactly when the last run that stored it claimed it and no run since has collected it.
   */
  lemma LifeOfAnObject(id: Integration, objs: Objects, h: seq<Event>, k: Key)
    requires Legal(id, objs, h, k)
    ensures k in World(objs, h) && Claimed(id, k, World(objs, h)[k]) <==> exists i :: Alive(id, h, i, k)
  {
    EveryObjectIsAccounted(id, objs, h, k);
  }

  /** Every object of the Integration was stored by some run, and bears the stamp of that run or none. */
  lemma Provenance(id: Integration, objs: Objects, h: seq<Event>, k: Key) returns (i: nat)
    requires Legal(id, objs, h, k)
    requires k in World(objs, h) && Claimed(id, k, World(objs, h)[k])
    ensures Alive(id, h, i, k) && Bears(h[i], World(objs, h)[k])
  {
    EveryObjectIsAccounted(id, objs, h, k);
    i :| Alive(id, h, i, k);
  }

  /** A copy that is alive is there, claimed, with its stamp, whatever failed since it was stored. */
  lemma AppliedStays(id: Integration, objs: Objects, h: seq<Event>, i: int, k: Key)
    requires Legal(id, objs, h, k) && Alive(id, h, i, k)
    ensures k in World(objs, h) && Claimed(id, k, World(objs, h)[k]) && Bears(h[i], World(objs, h)[k])
  {
    EveryObjectIsAccounted(id, objs, h, k);
  }

  /** What a run in a running phase stores is the Integration's; at initialization that is up to the label. */
  lemma WhatRunsClaim(id: Integration, e: Event, k: Key)
    requires Runs(id, e) && e.it.generation >= 0 && Applies(e, k) && WellTyped(id) && k.ns == id.ns
    ensures Stamps(e) && !IsUndeploy(e) ==> Claims(id, e, k)
    ensures e.it.phase.Initialization? ==>
              (Claims(id, e, k) <==> LabelIs(Meta(StoredFields(e, k), NO_FIELDS), id.name))
  {
    ActiveByPhase(e.it, e.ts, e.d, e.g);
    Preparation(e.it, e.ts, e.d, e.g);
    var r := LastOf(Stored(Prepare(e.it, e.ts).env.resources, e.api), k);
    var m := Meta(StoredFields(e, k), NO_FIELDS);
    assert m.Owners() == r.owners && m.Labels() == FieldsOf(r).labels;
    if OwnerActive(e.it, e.ts) {
      assert IsOwned(e.it, r);
      assert r.owners[0] == e.it.Reference() && RefersTo(id, m.Owners()[0]);
    }
  }

  lemma ActiveByPhase(it: Integration, ts: seq<Trait>, d: nat, g: nat)
    requires Standard(ts, d, g) && Enabled(ts)
    ensures GcActive(it, ts) <==> it.InRunningPhases() || it.phase.UnDeploying?
    ensures OwnerActive(it, ts) <==> it.InRunningPhases() || it.phase.Initialization?
  {
    OwnerIsLast(ts, d, g);
    assert ts[g].Gc?;
  }

  // Convergence

  /** The run reported no error, and no listing or deletion failed behind its back. */
  predicate FullSuccess(objs: Objects, e: Event) {
    && e.Reconciled? && e.it.generation >= 0
    && !Run(e.it, e.ts, e.api, objs).failed
    && e.api.listing == map[] && e.api.deleteFails == {}
  }

  /** The kinds the collector is after in this run; a first generation has nothing to collect. */
  predicate InReach(e: Event, k: Key)
    requires e.Reconciled?
  {
    CollectsAfterwards(e.it) ==> k.kind in e.api.deletable.Or([])
  }

  /** A full success with the collector active collects whatever it is after. */
  lemma FullSuccessCollects(id: Integration, objs: Objects, e: Event, k: Key)
    requires Runs(id, e) && Stamps(e) && FullSuccess(objs, e) && InReach(e, k) && CollectsAfterwards(e.it)
    ensures Collecting(e, k)
  {
    AllReached(e.api.deletable.value, e.api, k.kind);
  }

  /**
   The copy of object k that run i stored survives a full success of generation n: nothing was stored over it, it is
   stamped with n or not stamped at all, and no undeploy since has collected it.
   */
  predicate Survives(id: Integration, h: seq<Event>, i: int, n: int, k: Key)
    requires Numbered(h)
  {
    && LastApplied(h, i, k) && Claims(id, h[i], k)
    && (Stamps(h[i]) ==> h[i].it.generation == n)
    && forall j :: i <= j < |h| && IsUndeploy(h[j]) ==> !Collecting(h[j], k)
  }

  lemma SurvivorIsAlive(id: Integration, h: seq<Event>, i: int, n: int, k: Key)
    requires Numbered(h) && Ordered(h) && h != [] && h[|h| - 1].Reconciled? && h[|h| - 1].it.generation == n
    requires Survives(id, h, i, n, k)
    ensures Alive(id, h, i, k)
  {
    forall j | i <= j < |h| && h[j].Reconciled? ensures h[j].it.generation <= n {
      NotOlder(h, j, |h| - 1);
    }
  }

  lemma AliveSurvives(id: Integration, h: seq<Event>, i: int, n: int, k: Key)
    requires Numbered(h) && Ordered(h) && h != [] && h[|h| - 1].Reconciled? && h[|h| - 1].it.generation == n
    requires Alive(id, h, i, k) && (n > 1 ==> Collecting(h[|h| - 1], k))
    ensures Survives(id, h, i, n, k)
  {
    assert !CollectsFrom(h[|h| - 1], h[i], k);
    assert i < |h| - 1 ==> h[i].it.generation <= n;
    forall j | i <= j < |h| && IsUndeploy(h[j]) ensures !Collecting(h[j], k) {
      assert !CollectsFrom(h[j], h[i], k);
    }
  }

  /**
   Generation convergence. Take any history with non-decreasing generations, in any phases and with any failures, that
   ends in a full success of generation n with the collector active. Then the objects of the Integration, of the kinds
   the collector may delete, are exactly those last stored by a run that stamped them with n, or by a run of any
   generation that does not stamp, and not collected by an undeploy since.
   */
  lemma GenerationConvergence(id: Integration, objs: Objects, h: seq<Event>, k: Key)
    requires Legal(id, objs, h, k) && h != []
    requires var e := h[|h| - 1];
             Runs(id, e) && Stamps(e) && FullSuccess(World(objs, h[..|h| - 1]), e) && InReach(e, k)
    ensures var n := h[|h| - 1].it.generation;
            k in World(objs, h) && Claimed(id, k, World(objs, h)[k]) <==> exists i :: Survives(id, h, i, n, k)
  {
    var e, n := h[|h| - 1], h[|h| - 1].it.generation;
    LifeOfAnObject(id, objs, h, k);
    if CollectsAfterwards(e.it) {
      FullSuccessCollects(id, World(objs, h[..|h| - 1]), e, k);
    }
    if i :| Alive(id, h, i, k) {
      AliveSurvives(id, h, i, n, k);
    }
    if i :| Survives(id, h, i, n, k) {
      SurvivorIsAlive(id, h, i, n, k);
    }
  }

  /** Whatever survives a full success bears the current generation, or no stamp at all. */
  lemma OnlyCurrentSurvives(id: Integration, objs: Objects, h: seq<Event>, k: Key) returns (i: nat)
    requires Legal(id, objs, h, k) && h != []
    requires var e := h[|h| - 1];
             Runs(id, e) && Stamps(e) && FullSuccess(World(objs, h[..|h| - 1]), e) && InReach(e, k)
    requires k in World(objs, h) && Claimed(id, k, World(objs, h)[k])
    ensures Survives(id, h, i, h[|h| - 1].it.generation, k) && Bears(h[i], World(objs, h)[k])
  {
    GenerationConvergence(id, objs, h, k);
    EveryObjectIsAccounted(id, objs, h, k);
    i :| Survives(id, h, i, h[|h| - 1].it.generation, k);
    SurvivorIsAlive(id, h, i, h[|h| - 1].it.generation, k);
  }

  /** Some run of generation n stored object k. */
  predicate AppliedAt(h: seq<Event>, n: int, k: Key)
    requires Numbered(h)
  {
    exists i :: 0 <= i < |h| && Applies(h[i], k) && h[i].it.generation == n
  }

  lemma {:induction false} FindLast(h: seq<Event>, i: nat, k: Key) returns (l: nat)
    requires Numbered(h) && i < |h| && Applies(h[i], k)
    ensures i <= l < |h| && LastApplied(h, l, k)
    decreases |h| - i
  {
    if j :| i < j < |h| && Applies(h[j], k) {
      l := FindLast(h, j, k);
    } else {
      l := i;
    }
  }

  /**
   For an object that only runs with an active collector store, and without an undeploy of generation n, that is
   simply: the object is there exactly when some run of generation n stored it.
   */
  lemma StampedConvergence(id: Integration, objs: Objects, h: seq<Event>, k: Key)
    requires Legal(id, objs, h, k) && h != [] && WellTyped(id)
    requires var e := h[|h| - 1];
             Runs(id, e) && Stamps(e) && FullSuccess(World(objs, h[..|h| - 1]), e) && InReach(e, k)
    requires forall i :: 0 <= i < |h| && Applies(h[i], k) ==> Stamps(h[i])
    requires forall i :: 0 <= i < |h| && IsUndeploy(h[i]) ==> h[i].it.generation < h[|h| - 1].it.generation
    ensures k in World(objs, h) && Claimed(id, k, World(objs, h)[k]) <==>
              k.ns == id.ns && AppliedAt(h, h[|h| - 1].it.generation, k)
  {
    var n := h[|h| - 1].it.generation;
    GenerationConvergence(id, objs, h, k);
    if k.ns == id.ns && AppliedAt(h, n, k) {
      var l := LastOfGeneration(h, n, k);
      WhatRunsClaim(id, h[l], k);
      assert Survives(id, h, l, n, k);
    }
  }

  lemma LastOfGeneration(h: seq<Event>, n: int, k: Key) returns (l: nat)
    requires Numbered(h) && Ordered(h) && h != [] && h[|h| - 1].Reconciled? && h[|h| - 1].it.generation == n
    requires AppliedAt(h, n, k) && forall i :: 0 <= i < |h| && IsUndeploy(h[i]) ==> h[i].it.generation < n
    ensures LastApplied(h, l, k) && h[l].it.generation == n
    ensures forall j :: l <= j < |h| ==> !IsUndeploy(h[j])
  {
    var i :| 0 <= i < |h| && Applies(h[i], k) && h[i].it.generation == n;
    l := FindLast(h, i, k);
    SameGeneration(h, i, l, n);
  }

  lemma SameGeneration(h: seq<Event>, i: nat, l: nat, n: int)
    requires Ordered(h) && i <= l < |h| && h[i].Reconciled? && h[l].Reconciled? && h[|h| - 1].Reconciled?
    requires h[i].it.generation == n == h[|h| - 1].it.generation
    ensures forall j :: l <= j < |h| && h[j].Reconciled? ==> h[j].it.generation == n
  {
    forall j | l <= j < |h| && h[j].Reconciled? ensures h[j].it.generation == n {
      NotOlder(h, i, j);
      NotOlder(h, j, |h| - 1);
    }
  }

  lemma NotOlder(h: seq<Event>, i: nat, j: nat)
    requires Ordered(h) && i <= j < |h| && h[i].Reconciled? && h[j].Reconciled?
    ensures h[i].it.generation <= h[j].it.generation
  {
  }

  /** After a full undeploy no object of the Integration is left among the kinds the collector may delete. */
  lemma UndeployClears(id: Integration, objs: Objects, h: seq<Event>, k: Key)
    requires Legal(id, objs, h, k) && h != []
    requires var e := h[|h| - 1];
             Runs(id, e) && IsUndeploy(e) && FullSuccess(World(objs, h[..|h| - 1]), e) && InReach(e, k)
    ensures k in World(objs, h) ==> !Claimed(id, k, World(objs, h)[k])
  {
    var e := h[|h| - 1];
    ActiveByPhase(e.it, e.ts, e.d, e.g);
    FullSuccessCollects(id, World(objs, h[..|h| - 1]), e, k);
    GenerationConvergence(id, objs, h, k);
  }

  /**
   An undeploy starts a new epoch, even within one generation: after a full undeploy u, a later full success leaves
   exactly the survivors among what was stored since.
   */
  lemma RedeployConvergence(id: Integration, objs: Objects, h: seq<Event>, u: nat, k: Key)
    requires Legal(id, objs, h, k) && u < |h|
    requires Runs(id, h[u]) && IsUndeploy(h[u]) && FullSuccess(World(objs, h[..u]), h[u]) && InReach(h[u], k)
    requires var e := h[|h| - 1];
             Runs(id, e) && Stamps(e) && FullSuccess(World(objs, h[..|h| - 1]), e) && InReach(e, k)
    ensures var n := h[|h| - 1].it.generation;
            k in World(objs, h) && Claimed(id, k, World(objs, h)[k]) <==> exists i :: u < i && Survives(id, h, i, n, k)
  {
    GenerationConvergence(id, objs, h, k);
    ActiveByPhase(h[u].it, h[u].ts, h[u].d, h[u].g);
    FullSuccessCollects(id, World(objs, h[..u]), h[u], k);
  }
}
