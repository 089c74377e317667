/** An object that runs without the collector leave behind for good. */
module Residue {
  import opened Options
  import opened Decimal
  import opened Cluster
  import opened Traits
  import opened TraitRun
  import opened Reconcile
  import opened Generations

  const APP := Integration("app", "ns", CAMEL_GROUP + "/v1", INTEGRATION_KIND, map[], 1, Initialization)
  const BUNDLE := Key(Kind("", "v1", "ConfigMap"), "ns", "kamelets-bundle-app-001")

  function Kamelets(adds: seq<Resource>): seq<Trait> {
    [Producer(450, true, None, false, false, adds, []), Deployer, Gc(None), Owner(None, [])]
  }

  const ANSWERS := Api({}, {}, false, Some([Kind("", "v1", "ConfigMap")]), map[], {}, false)

  /** Initialization stores the bundle of a Kamelet; generation 2, which runs, does not use the Kamelet any more. */
  function DroppedKamelet(): seq<Event> {
    var bundle := Resource(BUNDLE, Some(map[INTEGRATION_LABEL := APP.name]), []);
    [Reconciled(APP, Kamelets([bundle]), 1, 2, ANSWERS),
     Reconciled(APP.(generation := 2, phase := Running), Kamelets([]), 1, 2, ANSWERS)]
  }

  lemma KameletsIsStandard(adds: seq<Resource>)
    ensures Standard(Kamelets(adds), 1, 2) && Enabled(Kamelets(adds))
  {
    var ts := Kamelets(adds);
    assert ts[3].Owner?;
  }

  /** The two runs, computed: initialization stores the bundle owned and unstamped, the second run stores nothing. */
  lemma KameletsRuns(it: Integration, adds: seq<Resource>)
    requires it.generation >= 0 && (it.phase.Initialization? || (it.phase.Running? && adds == []))
    ensures Prepare(it, Kamelets(adds)).Ready?
    ensures Prepare(it, Kamelets(adds)).env.resources == OwnedAll(it, map[], adds)
  {
    var ts := Kamelets(adds);
    var e1 := Executed(EMPTY.(resources := [] + adds, postSteps := [] + []), ts[0]);
    assert [] + adds == adds && e1.postSteps == [] && e1.resources == adds;
    var e2 := Executed(Applied(it, Deployer, e1).value, Deployer);
    var e3 := if it.phase.Running? then Executed(Applied(it, Gc(None), e2).value, Gc(None)) else e2;
    var e4 := Executed(Applied(it, ts[3], e3).value, ts[3]);
    assert TargetLabels(it, []) == map[];
    assert ts[1..][1..][1..][1..] == [] && ts[1..][0] == Deployer && ts[1..][1..][0] == Gc(None);
    assert ts[1..][1..][1..][0] == ts[3];
    assert RunTraits(it, ts[1..][1..][1..], e3) == Ready(e4);
    assert RunTraits(it, ts[1..][1..], e2) == Ready(e4);
    assert RunTraits(it, ts[1..], e1) == Ready(e4);
    assert RunTraits(it, ts, EMPTY) == Ready(e4);
    StampOnce(it, e4);
    if it.phase.Running? {
      assert e4.resources == [] && e4.postProcessors == [StampLabels];
      assert StampedAll(it, []) == [] && OwnedAll(it, map[], adds) == [];
    } else {
      assert e4.postProcessors == [];
    }
  }

  lemma AllGoesWell(rs: seq<Resource>)
    ensures Stored(rs, ANSWERS) == rs && AllApplied(rs, ANSWERS)
  {
  }

  function Initialized(r: Resource): Event {
    Reconciled(APP, Kamelets([r]), 1, 2, ANSWERS)
  }

  lemma InitializationRuns(r: Resource)
    requires Unnumbered(r)
    ensures Runs(APP, Initialized(r)) && !Stamps(Initialized(r))
  {
    KameletsIsStandard([r]);
    ActiveByPhase(APP, Kamelets([r]), 1, 2);
  }

  lemma InitializationStores(r: Resource)
    ensures Applies(Initialized(r), r.key) && StoredFields(Initialized(r), r.key) == FieldsOf(Owned(APP, map[], r))
  {
    KameletsRuns(APP, [r]);
    var owned := OwnedAll(APP, map[], [r]);
    AllGoesWell(owned);
    assert owned == [Owned(APP, map[], r)];
    assert owned[0] in owned;
  }

  /** Initialization stores the bundle with label and owner, and does not stamp it. */
  lemma BundleIsClaimed()
    ensures var e := DroppedKamelet()[0]; Runs(APP, e) && !Stamps(e) && Claims(APP, e, BUNDLE)
  {
    var labels := map[INTEGRATION_LABEL := APP.name];
    var r := Resource(BUNDLE, Some(labels), []);
    assert GENERATION_LABEL[17] != INTEGRATION_LABEL[17];
    InitializationRuns(r);
    InitializationStores(r);
    assert map[] + labels == labels;
    assert Meta(Fields(labels, [APP.Reference()]), NO_FIELDS).Labels() == labels;
    WhatRunsClaim(APP, Initialized(r), BUNDLE);
  }

  /** Generation 2 runs with full success, and stores nothing. */
  lemma NextGenerationSucceeds(objs: Objects)
    ensures var e := DroppedKamelet()[1];
            && Runs(APP, e) && Stamps(e) && FullSuccess(objs, e) && InReach(e, BUNDLE) && !Applies(e, BUNDLE)
  {
    var e := DroppedKamelet()[1];
    KameletsIsStandard([]);
    KameletsRuns(e.it, []);
    ActiveByPhase(e.it, e.ts, e.d, e.g);
    AllGoesWell([]);
    RunInTwoSteps(e.it, e.ts, e.d, e.g, e.api, objs);
    SweepExact(e.it, Deployed(e.it, e.ts, e.api, objs), e.api.deletable.value, e.api);
  }

  /** Whatever run a stores without stamping it, and run b of a later generation does not store again, stays. */
  lemma LeftBehind(id: Integration, a: Event, b: Event, k: Key)
    requires Runs(id, a) && Runs(id, b) && 1 <= a.it.generation < b.it.generation <= MAX_INT64
    requires !Stamps(a) && !IsUndeploy(a) && Claims(id, a, k) && Stamps(b) && !IsUndeploy(b) && !Applies(b, k)
    requires FullSuccess(After(map[], a), b) && InReach(b, k)
    ensures Legal(id, map[], [a, b], k) && World(map[], [a, b][..1]) == After(map[], a)
    ensures k in World(map[], [a, b]) && Claimed(id, k, World(map[], [a, b])[k])
    ensures !AppliedAt([a, b], b.it.generation, k)
  {
    FirstRun(a, b);
    StoredOnce(id, a, b, k);
    GenerationConvergence(id, map[], [a, b], k);
  }

  lemma FirstRun(a: Event, b: Event)
    requires Numbered([a, b])
    ensures Numbered([a, b][..1]) && (a.Reconciled? ==> a.it.generation >= 0)
    ensures World(map[], [a, b][..1]) == After(map[], a)
  {
    assert [a, b][..1] == [a] && [a][..0] == [] && [a, b][0] == a;
  }

  lemma StoredOnce(id: Integration, a: Event, b: Event, k: Key)
    requires Numbered([a, b]) && a.Reconciled? && a.it.generation >= 0 && b.Reconciled? && b.it.generation >= 0
    requires !Stamps(a) && !IsUndeploy(a) && Claims(id, a, k) && !IsUndeploy(b) && !Applies(b, k)
    ensures Survives(id, [a, b], 0, b.it.generation, k)
  {
    assert LastApplied([a, b], 0, k);
  }

  /**
   A legal history that ends in a full success of generation 2 and leaves an object that no run of generation 2 stored:
   the bundle of a Kamelet that only initialization has seen.
   */
  lemma DroppedKameletStays()
    ensures var h := DroppedKamelet();
            && Legal(APP, map[], h, BUNDLE)
            && Runs(APP, h[1]) && Stamps(h[1]) && FullSuccess(World(map[], h[..1]), h[1]) && InReach(h[1], BUNDLE)
            && BUNDLE in World(map[], h) && Claimed(APP, BUNDLE, World(map[], h)[BUNDLE])
            && !AppliedAt(h, 2, BUNDLE)
  {
    var h := DroppedKamelet();
    BundleIsClaimed();
    NextGenerationSucceeds(After(map[], h[0]));
    LeftBehind(APP, h[0], h[1], BUNDLE);
    assert h == [h[0], h[1]];
  }
}
