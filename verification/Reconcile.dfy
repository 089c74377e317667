/**
 One reconciliation against the API server: the deployer applies the prepared resources, the collector deletes what
 older generations left behind. Every call may fail, and the answers are an input of the run.
 */
module Reconcile {
  import opened Options
  import opened Decimal
  import opened Cluster
  import opened Traits
  import opened TraitRun

  datatype ListFault = NotFound | ListError

  /**
   The answers one run gets: the positions in the resource list whose apply fails, those of them that took effect
   nevertheless, whether the server only knows client-side apply, the deletable kinds in the order the map iteration
   yields them (None when discovery fails), the kinds that cannot be listed, the objects whose deletion has no effect,
   and whether pushing to Git fails.
   */
  datatype Api = Api(
    applyFails: set<nat>, storedAnyway: set<nat>, clientSide: bool,
    deletable: Option<seq<Kind>>, listing: map<Kind, ListFault>, deleteFails: set<Key>, gitFails: bool)

  // Deployer

  /** How many resources, from position i on, are applied before the first failure. */
  function AppliedUpTo(n: nat, fails: set<nat>, i: nat): (k: nat)
    requires i <= n
    ensures i <= k <= n && (forall j :: i <= j < k ==> j !in fails) && (k < n ==> k in fails)
    decreases n - i
  {
    if i == n || i in fails then i else AppliedUpTo(n, fails, i + 1)
  }

  function ApplyAll(objs: Objects, rs: seq<Resource>, clientSide: bool): Objects
    decreases |rs|
  {
    if rs == [] then objs else ApplyAll(objs[rs[0].key := Merged(objs, rs[0], clientSide)], rs[1..], clientSide)
  }

  predicate AllApplied(rs: seq<Resource>, api: Api) {
    AppliedUpTo(|rs|, api.applyFails, 0) == |rs|
  }

  /** The resources that are stored: those before the first failure, and the failing one if it took effect. */
  function Stored(rs: seq<Resource>, api: Api): seq<Resource> {
    var n := AppliedUpTo(|rs|, api.applyFails, 0);
    if n < |rs| && n in api.storedAnyway then rs[..n + 1] else rs[..n]
  }

  /** Resource i is stored exactly if no apply before it fails, and its own goes through or takes effect anyway. */
  lemma StoredExactly(rs: seq<Resource>, api: Api)
    ensures Stored(rs, api) <= rs
    ensures forall i: nat :: i < |Stored(rs, api)| <==>
                               && i < |rs| && (forall j: nat :: j < i ==> j !in api.applyFails)
                               && (i !in api.applyFails || i in api.storedAnyway)
    ensures AllApplied(rs, api) <==> forall j: nat :: j < |rs| ==> j !in api.applyFails
  {
    var n := AppliedUpTo(|rs|, api.applyFails, 0);
    assert forall j: nat :: j < n ==> j !in api.applyFails;
  }

  function Keys(rs: seq<Resource>): set<Key> {
    set r | r in rs :: r.key
  }

  // Collector

  predicate Selected(it: Integration, m: Meta) {
    LabelIs(m, it.name) && (it.phase.UnDeploying? || OlderGeneration(it, m))
  }

  /** The `LessThan` requirement of the label selector. */
  predicate OlderGeneration(it: Integration, m: Meta) {
    && GENERATION_LABEL in m.Labels()
    && var stamp := ParseInt64(m.Labels()[GENERATION_LABEL]); stamp.Some? && stamp.value < it.generation
  }

  predicate Collectable(it: Integration, kind: Kind, k: Key, m: Meta) {
    k.kind == kind && k.ns == it.ns && Selected(it, m) && CanBeDeleted(it, m)
  }

  /** An object is collected exactly if it is of the kind, in the namespace, labelled, owned, and old enough. */
  lemma CollectableExactly(it: Integration, kind: Kind, k: Key, m: Meta)
    ensures Collectable(it, kind, k, m) <==>
              && k.kind == kind && k.ns == it.ns
              && "camel.apache.org/integration" in m.Labels() && m.Labels()["camel.apache.org/integration"] == it.name
              && (exists i, rest: string :: 0 <= i < |m.Owners()| && m.Owners()[i].kind == "Integration" &&
                                            m.Owners()[i].name == it.name &&
                                            m.Owners()[i].apiVersion == "camel.apache.org" + rest)
              && (it.phase == UnDeploying ||
                  (&& "camel.apache.org/generation" in m.Labels()
                   && ParseInt64(m.Labels()["camel.apache.org/generation"]).Some?
                   && ParseInt64(m.Labels()["camel.apache.org/generation"]).value < it.generation))
  {
    if i :| 0 <= i < |m.Owners()| && RefersTo(it, m.Owners()[i]) {
      var v := m.Owners()[i].apiVersion;
      assert v == CAMEL_GROUP + v[|CAMEL_GROUP|..];
    }
  }

  function SweepKind(it: Integration, objs: Objects, kind: Kind, api: Api): Objects {
    objs - set k | k in objs && Collectable(it, kind, k, objs[k]) && k !in api.deleteFails
  }

  /** Kinds in iteration order; a listing error ends the sweep, an unknown kind is skipped. */
  function Sweep(it: Integration, objs: Objects, kinds: seq<Kind>, api: Api): (Objects, bool)
    decreases |kinds|
  {
    if kinds == [] then (objs, true)
    else if kinds[0] !in api.listing then Sweep(it, SweepKind(it, objs, kinds[0], api), kinds[1..], api)
    else if api.listing[kinds[0]].NotFound? then Sweep(it, objs, kinds[1..], api)
    else (objs, false)
  }

  // Post actions

  /** One post action: the objects afterwards and whether it returned without error. */
  function Act(it: Integration, rs: seq<Resource>, api: Api, a: PostAction, objs: Objects): (Objects, bool) {
    match a
    case DeployResources => (ApplyAll(objs, Stored(rs, api), api.clientSide), AllApplied(rs, api))
    case CollectGarbage => if api.deletable.None? then (objs, false) else Sweep(it, objs, api.deletable.value, api)
    case PushToGit => (objs, !api.gitFails)
  }

  /** All post actions run, whatever the earlier ones returned; the count is that of the failed ones. */
  function ActAll(it: Integration, rs: seq<Resource>, api: Api, todo: seq<PostAction>, objs: Objects): (Objects, nat)
    decreases |todo|
  {
    if todo == [] then (objs, 0) else
      var (objs', ok) := Act(it, rs, api, todo[0], objs);
      var (last, failed) := ActAll(it, rs, api, todo[1..], objs');
      (last, failed + if ok then 0 else 1)
  }

  datatype Report = Report(objects: Objects, failed: bool)

  function Run(it: Integration, ts: seq<Trait>, api: Api, objs: Objects): Report
    requires it.generation >= 0
  {
    match Prepare(it, ts)
    case Ready(env) =>
      var (after, failed) := ActAll(it, env.resources, api, env.postActions, objs);
      Report(after, failed > 0)
    case _ => Report(objs, true)
  }

  /** The keys one run stores. */
  function AppliedBy(it: Integration, ts: seq<Trait>, api: Api): set<Key>
    requires it.generation >= 0
  {
    match Prepare(it, ts)
    case Ready(env) => Keys(Stored(env.resources, api))
    case _ => {}
  }

  class Server {
    var objects: Objects

    constructor (objs: Objects)
      ensures objects == objs
    {
      objects := objs;
    }

    /** The deployer's post action: apply each resource, stop at the first error. */
    method Deploy(rs: seq<Resource>, api: Api) returns (ok: bool)
      modifies this
      ensures objects == ApplyAll(old(objects), Stored(rs, api), api.clientSide)
      ensures ok == AllApplied(rs, api)
    {
      var i := 0;
      while i < |rs|
        invariant 0 <= i <= |rs|
        invariant forall j :: 0 <= j < i ==> j !in api.applyFails
        invariant objects == ApplyAll(old(objects), rs[..i], api.clientSide)
      {
        ApplyAllSnoc(old(objects), rs[..i], rs[i], api.clientSide);
        assert rs[..i + 1] == rs[..i] + [rs[i]];
        if i !in api.applyFails || i in api.storedAnyway {
          objects := objects[rs[i].key := Merged(objects, rs[i], api.clientSide)];
        }
        if i in api.applyFails {
          return false;
        }
        i := i + 1;
      }
      return true;
    }

    /** List one kind, then delete the items one by one; a failed deletion is logged and skipped. */
    method DeleteKind(it: Integration, kind: Kind, api: Api)
      modifies this
      ensures objects == SweepKind(it, old(objects), kind, api)
    {
      var items := set k | k in objects && k.kind == kind && k.ns == it.ns && Selected(it, objects[k]);
      ghost var listed := items;
      while items != {}
        invariant items <= listed
        invariant forall k :: k in objects ==> k in old(objects) && objects[k] == old(objects)[k]
        invariant forall k :: k in old(objects) ==>
                                (k in objects <==> k !in listed || k in items || k in api.deleteFails ||
                                                   !CanBeDeleted(it, old(objects)[k]))
        decreases |items|
      {
        var k :| k in items;
        if CanBeDeleted(it, objects[k]) && k !in api.deleteFails {
          objects := objects - {k};
        }
        items := items - {k};
      }
      ghost var swept := SweepKind(it, old(objects), kind, api);
      assert forall k :: k in objects <==> k in swept;
      assert objects == swept;
    }

    method DeleteEachOf(it: Integration, kinds: seq<Kind>, api: Api) returns (ok: bool)
      modifies this
      ensures (objects, ok) == Sweep(it, old(objects), kinds, api)
    {
      var i := 0;
      while i < |kinds|
        invariant 0 <= i <= |kinds|
        invariant Sweep(it, objects, kinds[i..], api) == Sweep(it, old(objects), kinds, api)
      {
        if kinds[i] in api.listing {
          if api.listing[kinds[i]].ListError? {
            return false;
          }
        } else {
          DeleteKind(it, kinds[i], api);
        }
        i := i + 1;
      }
      return true;
    }

    method Perform(it: Integration, rs: seq<Resource>, api: Api, a: PostAction) returns (ok: bool)
      modifies this
      ensures (objects, ok) == Act(it, rs, api, a, old(objects))
    {
      match a {
        case DeployResources =>
          ok := Deploy(rs, api);
        case CollectGarbage =>
          if api.deletable.None? {
            return false;
          }
          ok := DeleteEachOf(it, api.deletable.value, api);
        case PushToGit =>
          ok := !api.gitFails;
      }
    }

    /** Every post action, whatever the others returned, counting the errors. */
    method PerformAll(it: Integration, rs: seq<Resource>, api: Api, actions: seq<PostAction>) returns (errors: nat)
      modifies this
      ensures (objects, errors) == ActAll(it, rs, api, actions, old(objects))
    {
      errors := 0;
      var i := 0;
      assert actions[0..] == actions;
      while i < |actions|
        invariant 0 <= i <= |actions|
        invariant var rest := ActAll(it, rs, api, actions[i..], objects);
                  ActAll(it, rs, api, actions, old(objects)) == (rest.0, errors + rest.1)
      {
        assert actions[i..] == [actions[i]] + actions[i + 1..];
        FirstAction(it, rs, api, actions[i], actions[i + 1..], objects);
        var ok := Perform(it, rs, api, actions[i]);
        if !ok {
          errors := errors + 1;
        }
        i := i + 1;
      }
    }

    /** Trait application: run the catalog, then every post action, collecting the errors. */
    method Apply(it: Integration, ts: seq<Trait>, api: Api) returns (failed: bool)
      requires it.generation >= 0
      modifies this
      ensures Report(objects, failed) == Run(it, ts, api, old(objects))
    {
      var environment := new Environment();
      var outcome := environment.ApplyCatalog(it, ts);
      if !outcome.Ready? {
        return true;
      }
      var errors := PerformAll(it, outcome.env.resources, api, outcome.env.postActions);
      return errors > 0;
    }
  }

  // What the two post actions leave behind

  lemma {:induction false} ApplyAllSnoc(objs: Objects, rs: seq<Resource>, r: Resource, clientSide: bool)
    ensures var before := ApplyAll(objs, rs, clientSide);
            ApplyAll(objs, rs + [r], clientSide) == before[r.key := Merged(before, r, clientSide)]
    decreases |rs|
  {
    if rs == [] {
      assert rs + [r] == [r] && [r][1..] == [];
    } else {
      assert (rs + [r])[1..] == rs[1..] + [r];
      ApplyAllSnoc(objs[rs[0].key := Merged(objs, rs[0], clientSide)], rs[1..], r, clientSide);
    }
  }

  /** Applying touches exactly the keys of the resources. */
  lemma {:induction false} ApplyAllDomain(objs: Objects, rs: seq<Resource>, clientSide: bool)
    ensures ApplyAll(objs, rs, clientSide).Keys == objs.Keys + Keys(rs)
    ensures forall k :: k in objs && k !in Keys(rs) ==> ApplyAll(objs, rs, clientSide)[k] == objs[k]
    decreases |rs|
  {
    if rs != [] {
      var next := objs[rs[0].key := Merged(objs, rs[0], clientSide)];
      ApplyAllDomain(next, rs[1..], clientSide);
      assert Keys(rs) == {rs[0].key} + Keys(rs[1..]);
    }
  }

  predicate GenerationIs(m: Meta, n: int) {
    GENERATION_LABEL in m.Labels() && n >= 0 && m.Labels()[GENERATION_LABEL] == Format(n)
  }

  /** The last of the resources with a key. */
  function LastOf(rs: seq<Resource>, k: Key): (r: Resource)
    requires k in Keys(rs)
    ensures r in rs && r.key == k
  {
    var n := |rs| - 1;
    if rs[n].key == k then rs[n] else
      assert rs == rs[..n] + [rs[n]];
      LastOf(rs[..n], k)
  }

  /** What is stored under a key is its last resource, merged into something that was there before. */
  lemma {:induction false} StoredLast(objs: Objects, rs: seq<Resource>, k: Key, clientSide: bool)
    returns (before: Objects)
    requires k in Keys(rs)
    ensures k in ApplyAll(objs, rs, clientSide)
    ensures ApplyAll(objs, rs, clientSide)[k] == Merged(before, LastOf(rs, k), clientSide)
    decreases |rs|
  {
    var n := |rs| - 1;
    assert rs == rs[..n] + [rs[n]];
    ApplyAllSnoc(objs, rs[..n], rs[n], clientSide);
    if rs[n].key == k {
      before := ApplyAll(objs, rs[..n], clientSide);
    } else {
      before := StoredLast(objs, rs[..n], k, clientSide);
    }
  }

  /** Stamped resources are stored with their stamp. */
  lemma ApplyAllStamps(it: Integration, objs: Objects, rs: seq<Resource>, k: Key, clientSide: bool)
    requires it.generation >= 0 && forall r :: r in rs ==> IsStamped(it, r)
    requires k in Keys(rs)
    ensures k in ApplyAll(objs, rs, clientSide)
    ensures var m := ApplyAll(objs, rs, clientSide)[k]; GenerationIs(m, it.generation) && LabelIs(m, it.name)
  {
    var before := StoredLast(objs, rs, k, clientSide);
  }

  /** Owned resources are stored with their owner. */
  lemma ApplyAllOwns(it: Integration, objs: Objects, rs: seq<Resource>, k: Key, clientSide: bool)
    requires WellTyped(it) && k.ns == it.ns && forall r :: r in rs ==> IsOwned(it, r)
    requires k in Keys(rs)
    ensures k in ApplyAll(objs, rs, clientSide) && CanBeDeleted(it, ApplyAll(objs, rs, clientSide)[k])
  {
    var before := StoredLast(objs, rs, k, clientSide);
    var m := ApplyAll(objs, rs, clientSide)[k];
    assert m.Owners()[|m.Owners()| - 1] == it.Reference();
  }

  /** The sweep gets to a kind and can list it: no listing error comes first. */
  predicate Reached(kinds: seq<Kind>, api: Api, kind: Kind) {
    && kind !in api.listing
    && exists p :: 0 <= p < |kinds| && kinds[p] == kind && NoErrorBefore(kinds, api, p)
  }

  predicate NoErrorBefore(kinds: seq<Kind>, api: Api, p: nat)
    requires p <= |kinds|
  {
    forall q :: 0 <= q < p && kinds[q] in api.listing ==> api.listing[kinds[q]].NotFound?
  }

  lemma ReachedFurther(kinds: seq<Kind>, api: Api, kind: Kind)
    requires kinds != [] && (kinds[0] in api.listing ==> api.listing[kinds[0]].NotFound?)
    ensures Reached(kinds, api, kind) <==> (kind == kinds[0] && kind !in api.listing) || Reached(kinds[1..], api, kind)
  {
    var rest := kinds[1..];
    if p :| 0 <= p < |rest| && rest[p] == kind && NoErrorBefore(rest, api, p) {
      assert kinds[p + 1] == kind;
      assert NoErrorBefore(kinds, api, p + 1) by {
        assert forall q :: 0 < q < p + 1 ==> kinds[q] == rest[q - 1];
      }
    }
    if kind == kinds[0] {
      assert NoErrorBefore(kinds, api, 0);
    }
    if p :| 0 < p < |kinds| && kinds[p] == kind && NoErrorBefore(kinds, api, p) {
      assert rest[p - 1] == kind;
      assert NoErrorBefore(rest, api, p - 1) by {
        assert forall q :: 0 <= q < p - 1 ==> rest[q] == kinds[q + 1];
      }
    }
  }

  /** A sweep removes exactly the collectable objects of the kinds it gets to, as far as deletions take effect. */
  lemma {:induction false} SweepExact(it: Integration, objs: Objects, kinds: seq<Kind>, api: Api)
    ensures var (after, ok) := Sweep(it, objs, kinds, api);
            && (forall k :: k in after <==>
                              && k in objs
                              && !(Reached(kinds, api, k.kind) && Collectable(it, k.kind, k, objs[k]) &&
                                   k !in api.deleteFails))
            && (forall k :: k in after ==> after[k] == objs[k])
            && (ok <==> NoErrorBefore(kinds, api, |kinds|))
    decreases |kinds|
  {
    if kinds != [] {
      if kinds[0] in api.listing && api.listing[kinds[0]].ListError? {
        forall k | k in objs ensures !Reached(kinds, api, k.kind) {}
      } else {
        var next := if kinds[0] in api.listing then objs else SweepKind(it, objs, kinds[0], api);
        SweepExact(it, next, kinds[1..], api);
        forall k | k in objs
          ensures Reached(kinds, api, k.kind) <==>
                    (k.kind == kinds[0] && k.kind !in api.listing) || Reached(kinds[1..], api, k.kind)
        {
          ReachedFurther(kinds, api, k.kind);
        }
        assert NoErrorBefore(kinds, api, |kinds|) <==> NoErrorBefore(kinds[1..], api, |kinds| - 1) by {
          assert forall q :: 0 < q < |kinds| ==> kinds[q] == kinds[1..][q - 1];
        }
      }
    }
  }

  /** The collector gets to the object and its deletion takes effect. */
  predicate Sweeps(api: Api, k: Key) {
    api.deletable.Some? && Reached(api.deletable.value, api, k.kind) && k !in api.deleteFails
  }

  predicate Collects(it: Integration, ts: seq<Trait>) {
    GcActive(it, ts) && CollectsAfterwards(it)
  }

  /** The objects between the deployer's post action and the collector's. */
  function Deployed(it: Integration, ts: seq<Trait>, api: Api, objs: Objects): Objects
    requires it.generation >= 0 && Prepare(it, ts).Ready?
  {
    ApplyAll(objs, Stored(Prepare(it, ts).env.resources, api), api.clientSide)
  }

  lemma {:induction false} PushesOnly(
    it: Integration, rs: seq<Resource>, api: Api, todo: seq<PostAction>, objs: Objects)
    requires forall i :: 0 <= i < |todo| ==> todo[i] == PushToGit
    ensures ActAll(it, rs, api, todo, objs) == (objs, if api.gitFails then |todo| else 0)
    decreases |todo|
  {
    if todo != [] {
      PushesOnly(it, rs, api, todo[1..], objs);
    }
  }

  /** The post actions of a standard run, and how its report depends on them. */
  lemma RunInTwoSteps(it: Integration, ts: seq<Trait>, d: nat, g: nat, api: Api, objs: Objects)
    requires Standard(ts, d, g) && it.generation >= 0 && Prepare(it, ts).Ready?
    ensures var rs := Prepare(it, ts).env.resources;
            var deployed := Deployed(it, ts, api, objs);
            var run := Run(it, ts, api, objs);
            var (after, ok) :=
              if Collects(it, ts) then Act(it, rs, api, CollectGarbage, deployed) else (deployed, true);
            && run.objects == after
            && (run.failed <==> !AllApplied(rs, api) || !ok || (api.gitFails && PushActive(it, ts, |ts|)))
  {
    Preparation(it, ts, d, g);
    var rs := Prepare(it, ts).env.resources;
    var pushes := if PushActive(it, ts, |ts|) then [PushToGit] else [];
    var deployed := Deployed(it, ts, api, objs);
    if Collects(it, ts) {
      assert StandardActions(it, ts) == [DeployResources] + ([CollectGarbage] + pushes);
      FirstAction(it, rs, api, DeployResources, [CollectGarbage] + pushes, objs);
      FirstAction(it, rs, api, CollectGarbage, pushes, deployed);
      PushesOnly(it, rs, api, pushes, Act(it, rs, api, CollectGarbage, deployed).0);
    } else {
      assert StandardActions(it, ts) == [DeployResources] + pushes;
      FirstAction(it, rs, api, DeployResources, pushes, objs);
      PushesOnly(it, rs, api, pushes, deployed);
    }
  }

  lemma FirstAction(
    it: Integration, rs: seq<Resource>, api: Api, a: PostAction, rest: seq<PostAction>, objs: Objects)
    ensures var (next, ok) := Act(it, rs, api, a, objs);
            var (last, failed) := ActAll(it, rs, api, rest, next);
            ActAll(it, rs, api, [a] + rest, objs) == (last, failed + if ok then 0 else 1)
  {
    assert ([a] + rest)[1..] == rest;
  }

  /** What a run does to one object: it is what the deployer left, unless the collector removes it. */
  lemma RunOnObject(it: Integration, ts: seq<Trait>, d: nat, g: nat, api: Api, objs: Objects, k: Key)
    requires Standard(ts, d, g) && it.generation >= 0 && Prepare(it, ts).Ready?
    ensures var m := Deployed(it, ts, api, objs);
            var after := Run(it, ts, api, objs).objects;
            && (k in after <==> k in m && !(Collects(it, ts) && Sweeps(api, k) && Collectable(it, k.kind, k, m[k])))
            && (k in after ==> after[k] == m[k])
            && (k in m <==> k in objs || k in AppliedBy(it, ts, api))
            && (k in m && k !in AppliedBy(it, ts, api) ==> m[k] == objs[k])
  {
    RunInTwoSteps(it, ts, d, g, api, objs);
    ApplyAllDomain(objs, Stored(Prepare(it, ts).env.resources, api), api.clientSide);
    if api.deletable.Some? {
      SweepExact(it, Deployed(it, ts, api, objs), api.deletable.value, api);
    }
  }

  /**
   Deletion safety, whatever fails: an object that is gone after a run lived in the Integration namespace and carried
   its label and an owner reference to it; outside undeploy its generation label was older and it was not stored by
   this run. Objects that are neither stored nor gone are untouched.
   */
  lemma DeletionSafety(it: Integration, ts: seq<Trait>, d: nat, g: nat, api: Api, objs: Objects, k: Key)
    requires Standard(ts, d, g) && 0 <= it.generation <= MAX_INT64
    ensures var after := Run(it, ts, api, objs).objects;
            && (k in objs && k !in after ==>
                  && Prepare(it, ts).Ready?
                  && var m := Deployed(it, ts, api, objs);
                  && k in m && Claimed(it, k, m[k]) && Sweeps(api, k)
                  && (!it.phase.UnDeploying? ==>
                        k !in AppliedBy(it, ts, api) && m[k] == objs[k] && OlderGeneration(it, objs[k])))
            && (k in AppliedBy(it, ts, api) && !it.phase.UnDeploying? ==> k in after)
            && (k in objs && k in after && k !in AppliedBy(it, ts, api) ==> after[k] == objs[k])
            && (k in after && k !in objs ==> k in AppliedBy(it, ts, api))
  {
    if Prepare(it, ts).Ready? {
      RunOnObject(it, ts, d, g, api, objs, k);
      if GcActive(it, ts) && k in AppliedBy(it, ts, api) {
        Preparation(it, ts, d, g);
        ApplyAllStamps(it, objs, Stored(Prepare(it, ts).env.resources, api), k, api.clientSide);
        ParseFormat(it.generation);
      }
    }
  }

  /**
   The collector only ever reads the generation label: outside undeploy, an object of the Integration without a
   numeric generation label is never collected, however old it is.
   */
  lemma UnstampedSurvives(it: Integration, ts: seq<Trait>, d: nat, g: nat, api: Api, objs: Objects, k: Key)
    requires Standard(ts, d, g) && 0 <= it.generation <= MAX_INT64 && !it.phase.UnDeploying?
    requires k in objs
    requires GENERATION_LABEL in objs[k].Labels() ==> ParseInt64(objs[k].Labels()[GENERATION_LABEL]).None?
    ensures k in Run(it, ts, api, objs).objects
  {
    DeletionSafety(it, ts, d, g, api, objs, k);
  }

  /**
   What a run that reported no error leaves of the objects the collector should have removed: exactly those whose
   deletion failed or whose kind could not be listed, because such failures are only logged.
   */
  lemma SilentResidue(it: Integration, ts: seq<Trait>, d: nat, g: nat, api: Api, objs: Objects, k: Key)
    requires Standard(ts, d, g) && 0 <= it.generation <= MAX_INT64
    requires Collects(it, ts) && !Run(it, ts, api, objs).failed
    requires k in Deployed(it, ts, api, objs) && k.kind in api.deletable.Or([])
    requires Collectable(it, k.kind, k, Deployed(it, ts, api, objs)[k])
    ensures k in Run(it, ts, api, objs).objects <==> k in api.deleteFails || k.kind in api.listing
  {
    RunInTwoSteps(it, ts, d, g, api, objs);
    RunOnObject(it, ts, d, g, api, objs, k);
    SweepExact(it, Deployed(it, ts, api, objs), api.deletable.value, api);
    AllReached(api.deletable.value, api, k.kind);
  }

  /** Without a listing error the sweep gets to every kind that can be listed. */
  lemma AllReached(kinds: seq<Kind>, api: Api, kind: Kind)
    requires NoErrorBefore(kinds, api, |kinds|) && kind in kinds
    ensures Reached(kinds, api, kind) <==> kind !in api.listing
  {
    var p :| 0 <= p < |kinds| && kinds[p] == kind;
    assert NoErrorBefore(kinds, api, p);
  }

  /**
   Post actions do not depend on each other: when the very first apply fails the collector runs all the same, and
   removes exactly the collectable objects it gets to, with nothing applied in their place.
   */
  lemma CollectsAfterFailedDeploy(it: Integration, ts: seq<Trait>, d: nat, g: nat, api: Api, objs: Objects, k: Key)
    requires Standard(ts, d, g) && 0 <= it.generation <= MAX_INT64
    requires Prepare(it, ts).Ready? && Collects(it, ts) && 0 in api.applyFails && 0 !in api.storedAnyway
    ensures k in Run(it, ts, api, objs).objects <==>
              k in objs && !(Sweeps(api, k) && Collectable(it, k.kind, k, objs[k]))
  {
    RunOnObject(it, ts, d, g, api, objs, k);
    assert Stored(Prepare(it, ts).env.resources, api) == [];
  }
}
