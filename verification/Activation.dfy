/** When the traits that frame a run are active, and what switching the collector off means for a whole run. */
module Activation {
  import opened Options
  import opened Decimal
  import opened Cluster
  import opened Traits
  import opened TraitRun
  import opened Reconcile

  /** The collector runs unless it is switched off, in the running phases and when undeploying. */
  lemma CollectorIsActive(it: Integration, ts: seq<Trait>, d: nat, g: nat)
    requires Standard(ts, d, g)
    ensures GcActive(it, ts) <==>
              ts[g].enabled != Some(false) && it.phase in {Deploying, Running, Phase.Error, UnDeploying}
  {
    GcActiveAt(it, ts, d, g);
  }

  /** The owner trait runs unless it is switched off, at initialization and in the running phases. */
  lemma OwnerIsActive(it: Integration, ts: seq<Trait>, d: nat, g: nat)
    requires Standard(ts, d, g)
    ensures ts[|ts| - 1].Owner?
    ensures OwnerActive(it, ts) <==>
              ts[|ts| - 1].enabled != Some(false) && it.phase in {Initialization, Deploying, Running, Phase.Error}
  {
    OwnerIsLast(ts, d, g);
  }

  /** The push happens only where it is switched on, when a build is complete. */
  lemma PushIsActive(it: Integration, ts: seq<Trait>)
    ensures PushActive(it, ts, |ts|) <==>
              it.phase == BuildComplete && exists i :: 0 <= i < |ts| && ts[i].GitOps? && ts[i].enabled == Some(true)
  {
  }

  /** The actions of a run, from the settings and the phase alone. */
  lemma ActionsFromSettings(it: Integration, ts: seq<Trait>, d: nat, g: nat)
    requires Standard(ts, d, g) && it.generation >= 0 && Prepare(it, ts).Ready?
    ensures var actions := Prepare(it, ts).env.postActions;
            && DeployResources in actions && actions[0] == DeployResources
            && (CollectGarbage in actions <==>
                  && ts[g].enabled != Some(false)
                  && (it.phase == UnDeploying || (it.generation > 1 && it.phase in {Deploying, Running, Phase.Error})))
            && (PushToGit in actions <==>
                  && it.phase == BuildComplete
                  && exists i :: 0 <= i < |ts| && ts[i].GitOps? && ts[i].enabled == Some(true))
  {
    Preparation(it, ts, d, g);
    CollectorIsActive(it, ts, d, g);
    PushIsActive(it, ts);
    var actions := StandardActions(it, ts);
    assert actions[0] == DeployResources;
    if Collects(it, ts) {
      assert actions[1] == CollectGarbage;
    }
    if PushActive(it, ts, |ts|) {
      assert actions[|actions| - 1] == PushToGit;
    }
  }

  /** A collector that is switched off deletes nothing and stamps nothing, in any phase and whatever fails. */
  lemma DisabledCollectorDoesNothing(
    it: Integration, ts: seq<Trait>, d: nat, g: nat, api: Api, objs: Objects, k: Key)
    requires Standard(ts, d, g) && it.generation >= 0 && ts[g].enabled == Some(false)
    ensures k in objs ==> k in Run(it, ts, api, objs).objects
    ensures WritesNoStamp(it, ts) && k in AppliedBy(it, ts, api) ==>
              Unnumbered(LastOf(Stored(Prepare(it, ts).env.resources, api), k))
  {
    CollectorIsActive(it, ts, d, g);
    if Prepare(it, ts).Ready? {
      RunOnObject(it, ts, d, g, api, objs, k);
      if WritesNoStamp(it, ts) {
        UnstampedRun(it, ts, d, g);
      }
    }
  }

  /**
   A run fails exactly if it does not get to its post actions, some apply fails, the collector is due and cannot
   discover the deletable kinds or list one of them, or the push is due and fails. Deletions never make it fail.
   */
  lemma RunFailsExactly(it: Integration, ts: seq<Trait>, d: nat, g: nat, api: Api, objs: Objects)
    requires Standard(ts, d, g) && it.generation >= 0
    ensures Run(it, ts, api, objs).failed <==>
              || !Prepare(it, ts).Ready?
              || (exists j: nat :: j < |Prepare(it, ts).env.resources| && j in api.applyFails)
              || (Collects(it, ts) &&
                  (api.deletable.None? ||
                   exists kind :: kind in api.deletable.value && kind in api.listing && api.listing[kind].ListError?))
              || (PushActive(it, ts, |ts|) && api.gitFails)
  {
    if Prepare(it, ts).Ready? {
      RunInTwoSteps(it, ts, d, g, api, objs);
      StoredExactly(Prepare(it, ts).env.resources, api);
      if api.deletable.Some? {
        var kinds := api.deletable.value;
        SweepExact(it, Deployed(it, ts, api, objs), kinds, api);
        assert NoErrorBefore(kinds, api, |kinds|) <==>
               !exists kind :: kind in kinds && kind in api.listing && api.listing[kind].ListError? by {
          assert forall q :: 0 <= q < |kinds| ==> kinds[q] in kinds;
        }
      }
    }
  }

  // What a run prepares

  /** The trait stops the run: its configuration fails, or it is active and cannot be applied. */
  predicate Fails(t: Trait) {
    t.Producer? && (t.configureFails || (t.active && t.applyFails))
  }

  /** A run of the traits gets to its end exactly if none of them fails. */
  lemma {:induction false} ReadyExactly(it: Integration, ts: seq<Trait>, env: Env)
    ensures RunTraits(it, ts, env).Ready? <==> forall i :: 0 <= i < |ts| ==> !Fails(ts[i])
    decreases |ts|
  {
    if ts != [] {
      var t := ts[0];
      var env' := WithCondition(env, t.Configured(it).1);
      ReadyExactly(it, ts[1..], env');
      if Applied(it, t, env').Some? {
        ReadyExactly(it, ts[1..], Executed(Applied(it, t, env').value, t));
      }
      assert (forall i :: 0 <= i < |ts| ==> !Fails(ts[i])) <==>
             !Fails(t) && forall i :: 0 <= i < |ts[1..]| ==> !Fails(ts[1..][i]) by {
        assert forall i :: 0 < i < |ts| ==> ts[i] == ts[1..][i - 1];
      }
    }
  }

  /** What a trait reports when it is configured, spelled out for the traits a user can switch off. */
  function Reports(t: Trait): Option<string> {
    match t
    case Gc(e) => if e == Some(false) then Some("GC") else None
    case Owner(e, _) => if e == Some(false) then Some("Owner") else None
    case Producer(_, _, c, _, _, _, _) => c
    case _ => None
  }

  function AllReports(ts: seq<Trait>): seq<string> {
    if ts == [] then [] else
      (match Reports(ts[0]) case Some(c) => [c] case None => []) + AllReports(ts[1..])
  }

  /** Every condition of a run is reported, in the order of the traits, and no other. */
  lemma {:induction false} ReportsAll(it: Integration, ts: seq<Trait>, env: Env)
    requires RunTraits(it, ts, env).Ready?
    ensures RunTraits(it, ts, env).env.conditions == env.conditions + AllReports(ts)
    decreases |ts|
  {
    if ts != [] {
      var t := ts[0];
      var env' := WithCondition(env, t.Configured(it).1);
      var mine := match Reports(t) case Some(c) => [c] case None => [];
      assert env'.conditions == env.conditions + mine;
      ReportsAll(it, ts[1..], if t.Configured(it).0 then Executed(Applied(it, t, env').value, t) else env');
      assert (env.conditions + mine) + AllReports(ts[1..]) == env.conditions + (mine + AllReports(ts[1..]));
    }
  }

  /** The keys an active producer adds, and those of the bindings it may inject. */
  function AddedBy(t: Trait): set<Key> {
    if t.Producer? && t.active then Keys(t.adds) else {}
  }

  function BindingKeys(steps: seq<PostStep>): set<Key> {
    set s | s in steps :: s.binding.key
  }

  function InjectedBy(t: Trait): set<Key> {
    if t.Producer? && t.active then BindingKeys(t.postSteps) else {}
  }

  lemma KeysConcat(a: seq<Resource>, b: seq<Resource>)
    ensures Keys(a + b) == Keys(a) + Keys(b)
  {
  }

  lemma KeysOfOwned(it: Integration, target: map<string, string>, rs: seq<Resource>)
    ensures Keys(OwnedAll(it, target, rs)) == Keys(rs)
  {
    var out := OwnedAll(it, target, rs);
    forall i | 0 <= i < |rs| ensures out[i].key in Keys(rs) && rs[i].key in Keys(out) {
      assert rs[i] in rs && out[i] in out && out[i].key == rs[i].key;
    }
  }

  lemma {:induction false} KeysAfterStep(rs: seq<Resource>, steps: seq<PostStep>)
    ensures Keys(rs) <= Keys(AfterStep(rs, steps)) <= Keys(rs) + BindingKeys(steps)
    decreases |steps|
  {
    if steps != [] {
      assert steps == [steps[0]] + steps[1..] && steps[0] in steps;
      KeysAfterStep(rs, steps[1..]);
      KeysConcat([steps[0].binding], rs);
      KeysAfterStep([steps[0].binding] + rs, steps[1..]);
    }
  }

  lemma KeysOfStep(it: Integration, t: Trait, env: Env)
    requires t.Configured(it).0 && Applied(it, t, env).Some?
    ensures var next := Executed(Applied(it, t, env).value, t);
            && Keys(env.resources) + AddedBy(t) <= Keys(next.resources)
            && Keys(next.resources) <= Keys(env.resources) + AddedBy(t) + BindingKeys(env.postSteps) + InjectedBy(t)
            && BindingKeys(next.postSteps) == BindingKeys(env.postSteps) + InjectedBy(t)
  {
    var next := Applied(it, t, env).value;
    if t.Owner? {
      KeysOfOwned(it, TargetLabels(it, t.targetLabels), env.resources);
    } else if t.Producer? {
      KeysConcat(env.resources, t.adds);
    }
    KeysAfterStep(next.resources, next.postSteps);
  }

  /** Nothing an active producer adds is lost, and nothing comes from anywhere else but the injected bindings. */
  lemma {:induction false} PreparedKeys(it: Integration, ts: seq<Trait>, env: Env)
    requires RunTraits(it, ts, env).Ready?
    ensures var keys := Keys(RunTraits(it, ts, env).env.resources);
            && Keys(env.resources) <= keys
            && (forall i :: 0 <= i < |ts| ==> AddedBy(ts[i]) <= keys)
            && (forall k :: k in keys ==>
                  k in Keys(env.resources) || k in BindingKeys(env.postSteps) ||
                  exists i :: 0 <= i < |ts| && k in AddedBy(ts[i]) + InjectedBy(ts[i]))
    decreases |ts|
  {
    if ts != [] {
      var t := ts[0];
      var env' := WithCondition(env, t.Configured(it).1);
      var next := if t.Configured(it).0 then Executed(Applied(it, t, env').value, t) else env';
      if t.Configured(it).0 {
        KeysOfStep(it, t, env');
      } else {
        assert AddedBy(t) == {} && InjectedBy(t) == {};
      }
      PreparedKeys(it, ts[1..], next);
      assert forall i :: 0 < i < |ts| ==> ts[i] == ts[1..][i - 1];
      forall k | k in Keys(RunTraits(it, ts, env).env.resources)
        ensures k in Keys(env.resources) || k in BindingKeys(env.postSteps) ||
                exists i :: 0 <= i < |ts| && k in AddedBy(ts[i]) + InjectedBy(ts[i])
      {
        if i :| 0 <= i < |ts[1..]| && k in AddedBy(ts[1..][i]) + InjectedBy(ts[1..][i]) {
          assert k in AddedBy(ts[i + 1]) + InjectedBy(ts[i + 1]);
        }
      }
    }
  }
}
