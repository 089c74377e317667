/** What a run of the ordered catalog leaves behind: its post actions, and how every resource is labelled and owned. */
module TraitRun {
  import opened Options
  import opened Decimal
  import opened Cluster
  import opened Traits

  predicate Ordered(ts: seq<Trait>) {
    forall i, j :: 0 <= i < j < |ts| ==> ts[i].Order() <= ts[j].Order()
  }

  /**
   The catalog after sorting: traits by ascending order, one deployer, one collector and one owner trait, every
   other trait ordered before the owner trait, and post steps that inject SinkBindings only.
   */
  ghost predicate Standard(ts: seq<Trait>, d: nat, g: nat) {
    && Ordered(ts)
    && Placed(ts, d, g)
    && (exists o :: 0 <= o < |ts| && ts[o].Owner?)
    && (forall i, j :: 0 <= i < j < |ts| && ts[i].Owner? ==> !ts[j].Owner?)
    && (forall i, j :: 0 <= i < j < |ts| && ts[i].GitOps? ==> !ts[j].GitOps?)
    && (forall i :: 0 <= i < |ts| && ts[i].Producer? ==> ts[i].order < OWNER_ORDER && BindingsOnly(ts[i].postSteps))
  }

  /** The deployer is at position d and the collector at position g, and nowhere else. */
  predicate Placed(ts: seq<Trait>, d: nat, g: nat) {
    && d < |ts| && g < |ts|
    && forall i :: 0 <= i < |ts| ==> (ts[i].Deployer? <==> i == d) && (ts[i].Gc? <==> i == g)
  }

  predicate BindingsOnly(steps: seq<PostStep>) {
    forall s :: s in steps ==> IsSinkBinding(s.binding.key.kind)
  }

  predicate GcActive(it: Integration, ts: seq<Trait>) {
    exists i :: 0 <= i < |ts| && ts[i].Gc? && ts[i].Configured(it).0
  }

  predicate OwnerActive(it: Integration, ts: seq<Trait>) {
    exists i :: 0 <= i < |ts| && ts[i].Owner? && ts[i].Configured(it).0
  }

  predicate IsStamped(it: Integration, r: Resource)
    requires it.generation >= 0
  {
    && r.labels.Some?
    && GENERATION_LABEL in r.labels.value && r.labels.value[GENERATION_LABEL] == Format(it.generation)
    && INTEGRATION_LABEL in r.labels.value && r.labels.value[INTEGRATION_LABEL] == it.name
  }

  predicate IsOwned(it: Integration, r: Resource) {
    r.key.ns == "" || r.key.ns == it.ns ==> r.owners == [it.Reference()]
  }

  /** The owner trait runs last. */
  lemma OwnerIsLast(ts: seq<Trait>, d: nat, g: nat)
    requires Standard(ts, d, g)
    ensures ts[|ts| - 1].Owner? && d < g < |ts| - 1
    ensures forall i :: 0 <= i < |ts| && ts[i].GitOps? ==> g < i < |ts| - 1
  {
    var o :| 0 <= o < |ts| && ts[o].Owner?;
    assert ts[o].Order() == OWNER_ORDER && ts[d].Order() == DEPLOYER_ORDER && ts[g].Order() == GC_ORDER;
    assert ts[|ts| - 1].Order() >= OWNER_ORDER;
  }

  // Which closures the traits register

  /** The gitops trait, if it is among the first n traits and active, pushes. */
  predicate PushActive(it: Integration, ts: seq<Trait>, n: nat)
    requires n <= |ts|
  {
    exists i :: 0 <= i < n && ts[i].GitOps? && ts[i].Configured(it).0
  }

  function ActionsFor(deploy: bool, collect: bool, push: bool): seq<PostAction> {
    (if deploy then [DeployResources] else []) + (if collect then [CollectGarbage] else []) +
    (if push then [PushToGit] else [])
  }

  /** What the first n traits have registered. */
  predicate Registers(it: Integration, ts: seq<Trait>, d: nat, g: nat, n: nat, env: Env)
    requires n <= |ts| && g < |ts|
  {
    var active := g < n && ts[g].Configured(it).0;
    && env.postActions == ActionsFor(d < n, active && CollectsAfterwards(it), PushActive(it, ts, n))
    && env.postProcessors == if active then [StampLabels] else []
  }

  /**
   The owner trait transfers a label exactly if the Integration has it, it is asked for by name or by wildcard, and the
   resource has none of its own; it sets the owner exactly in the Integration's namespace, or where none is given.
   */
  lemma OwnedExactly(it: Integration, wanted: seq<string>, r: Resource, x: string)
    ensures var labels, own := Owned(it, TargetLabels(it, wanted), r).labels, r.labels.Or(map[]);
            && labels.Some?
            && (x in labels.value <==> x in own || (x in it.labels && ("*" in wanted || x in wanted)))
            && (x in labels.value ==> labels.value[x] == if x in own then own[x] else it.labels[x])
    ensures var o := Owned(it, TargetLabels(it, wanted), r);
            && o.key == r.key
            && o.owners == if r.key.ns in {"", it.ns} then [OwnerRef(it.apiVersion, it.kind, it.name)] else r.owners
  {
  }

  /** Running the post steps once more would add nothing. */
  predicate Settled(env: Env) {
    env.postSteps == [] || HasSinkBinding(env.resources) || !HasController(env.resources)
  }

  predicate Quiet(env: Env) {
    BindingsOnly(env.postSteps) && Settled(env)
  }

  lemma {:induction false} AfterStepSettles(rs: seq<Resource>, steps: seq<PostStep>)
    requires BindingsOnly(steps)
    ensures HasSinkBinding(rs) || !HasController(rs) ==> AfterStep(rs, steps) == rs
    ensures var out := AfterStep(rs, steps); steps == [] || HasSinkBinding(out) || !HasController(out)
    decreases |steps|
  {
    if steps != [] {
      var more := [steps[0].binding] + rs;
      assert more[0] in more;
      AfterStepSettles(rs, steps[1..]);
      AfterStepSettles(more, steps[1..]);
    }
  }

  const CONTROLLER_KINDS := {
    Kind("apps", "v1", "Deployment"), Kind("batch", "v1", "CronJob"), Kind("serving.knative.dev", "v1", "Service")
  }

  /** A Knative SinkBinding: of that kind, in a group that mentions Knative. */
  ghost predicate BindsSink(k: Kind) {
    k.kind == "SinkBinding" && exists before: string, rest: string :: k.group == before + "knative" + rest
  }

  lemma BindsSinkExactly(k: Kind)
    ensures BindsSink(k) <==> IsSinkBinding(k)
  {
    var word := "knative";
    if before: string, rest: string :| k.group == before + word + rest {
      assert k.group[|before|..] == word + rest;
    }
    if i :| 0 <= i <= |k.group| && word <= k.group[i..] {
      assert k.group == k.group[..i] + word + k.group[i + |word|..];
    }
  }

  /** The post steps put the first binding in front, exactly if there is a controller and no binding yet. */
  lemma AfterStepExactly(rs: seq<Resource>, steps: seq<PostStep>)
    requires BindingsOnly(steps)
    ensures AfterStep(rs, steps) ==
            if steps != [] && (exists i :: 0 <= i < |rs| && rs[i].key.kind in CONTROLLER_KINDS) &&
               !(exists i :: 0 <= i < |rs| && BindsSink(rs[i].key.kind))
            then [steps[0].binding] + rs else rs
  {
    AfterStepSettles(rs, steps);
    assert HasController(rs) <==> exists i :: 0 <= i < |rs| && rs[i].key.kind in CONTROLLER_KINDS by {
      assert forall i :: 0 <= i < |rs| ==> rs[i] in rs;
    }
    assert HasSinkBinding(rs) <==> exists i :: 0 <= i < |rs| && BindsSink(rs[i].key.kind) by {
      forall i | 0 <= i < |rs| ensures rs[i] in rs && (BindsSink(rs[i].key.kind) <==> IsSinkBinding(rs[i].key.kind)) {
        BindsSinkExactly(rs[i].key.kind);
      }
    }
    if steps != [] && HasController(rs) && !HasSinkBinding(rs) {
      var more := [steps[0].binding] + rs;
      assert more[0] in more && HasSinkBinding(more);
      AfterStepSettles(more, steps[1..]);
    }
  }

  lemma OwnedKeepsKeys(it: Integration, target: map<string, string>, rs: seq<Resource>)
    ensures HasController(OwnedAll(it, target, rs)) == HasController(rs)
    ensures HasSinkBinding(OwnedAll(it, target, rs)) == HasSinkBinding(rs)
  {
    var out := OwnedAll(it, target, rs);
    assert forall i :: 0 <= i < |rs| ==> out[i].key == rs[i].key;
    SameKeys(rs, out);
    SameKeys(out, rs);
  }

  lemma SameKeys(a: seq<Resource>, b: seq<Resource>)
    requires |a| == |b| && forall i :: 0 <= i < |a| ==> b[i].key == a[i].key
    ensures HasController(a) ==> HasController(b)
    ensures HasSinkBinding(a) ==> HasSinkBinding(b)
  {
    if HasController(a) {
      var i :| 0 <= i < |a| && IsController(a[i].key.kind);
      assert b[i] in b;
    }
    if HasSinkBinding(a) {
      var i :| 0 <= i < |a| && IsSinkBinding(a[i].key.kind);
      assert b[i] in b;
    }
  }

  /** One enabled trait keeps the run quiet; the owner trait changes nothing but labels and owners. */
  lemma QuietStep(it: Integration, t: Trait, env: Env)
    requires Quiet(env) && t.Configured(it).0 && Applied(it, t, env).Some?
    requires t.Producer? ==> BindingsOnly(t.postSteps)
    ensures Quiet(Executed(Applied(it, t, env).value, t))
    ensures t.Owner? ==>
              Executed(Applied(it, t, env).value, t).resources ==
              OwnedAll(it, TargetLabels(it, t.targetLabels), env.resources)
  {
    var next := Applied(it, t, env).value;
    assert BindingsOnly(next.postSteps);
    AfterStepSettles(next.resources, next.postSteps);
    if t.Owner? {
      OwnedKeepsKeys(it, TargetLabels(it, t.targetLabels), env.resources);
    }
  }

  lemma {:induction false} QuietRun(it: Integration, ts: seq<Trait>, env: Env)
    requires Quiet(env) && forall i :: 0 <= i < |ts| && ts[i].Producer? ==> BindingsOnly(ts[i].postSteps)
    ensures RunTraits(it, ts, env).Ready? ==> Quiet(RunTraits(it, ts, env).env)
    decreases |ts|
  {
    if ts != [] {
      var t := ts[0];
      var env' := WithCondition(env, t.Configured(it).1);
      if !t.Configured(it).0 {
        QuietRun(it, ts[1..], env');
      } else if Applied(it, t, env').Some? {
        QuietStep(it, t, env');
        QuietRun(it, ts[1..], Executed(Applied(it, t, env').value, t));
      }
    }
  }

  /** The collector comes behind the deployer, and the gitops trait, if there is one, behind the collector. */
  predicate InOrder(ts: seq<Trait>, d: nat, g: nat) {
    && Placed(ts, d, g) && d < g
    && (forall i :: 0 <= i < |ts| && ts[i].GitOps? ==> g < i)
    && forall i, j :: 0 <= i < j < |ts| && ts[i].GitOps? ==> !ts[j].GitOps?
  }

  lemma PushStep(it: Integration, ts: seq<Trait>, n: nat)
    requires n < |ts|
    ensures PushActive(it, ts, n + 1) <==> PushActive(it, ts, n) || (ts[n].GitOps? && ts[n].Configured(it).0)
  {
  }

  lemma SkippedStep(it: Integration, ts: seq<Trait>, d: nat, g: nat, n: nat, env: Env)
    requires InOrder(ts, d, g) && n < |ts| && Registers(it, ts, d, g, n, env) && !ts[n].Configured(it).0
    ensures Registers(it, ts, d, g, n + 1, WithCondition(env, ts[n].Configured(it).1))
  {
    PushStep(it, ts, n);
    assert n != d;
  }

  lemma AppliedStep(it: Integration, ts: seq<Trait>, d: nat, g: nat, n: nat, env: Env)
    requires InOrder(ts, d, g) && n < |ts| && Registers(it, ts, d, g, n, env) && ts[n].Configured(it).0
    requires Applied(it, ts[n], env).Some?
    ensures Registers(it, ts, d, g, n + 1, Executed(Applied(it, ts[n], env).value, ts[n]))
  {
    PushStep(it, ts, n);
    var t := ts[n];
    if t.GitOps? {
      assert !PushActive(it, ts, n);
    } else if t.Deployer? || t.Gc? {
      assert !PushActive(it, ts, n);
    }
  }

  lemma {:induction false} RunRegisters(it: Integration, ts: seq<Trait>, d: nat, g: nat, n: nat, env: Env)
    requires InOrder(ts, d, g) && n <= |ts| && Registers(it, ts, d, g, n, env)
    ensures var out := RunTraits(it, ts[n..], env); out.Ready? ==> Registers(it, ts, d, g, |ts|, out.env)
    decreases |ts| - n
  {
    if n < |ts| {
      var t := ts[n];
      assert ts[n..][0] == t && ts[n..][1..] == ts[n + 1..];
      var env' := WithCondition(env, t.Configured(it).1);
      if !t.Configured(it).0 {
        SkippedStep(it, ts, d, g, n, env);
        RunRegisters(it, ts, d, g, n + 1, env');
      } else if Applied(it, t, env').Some? {
        AppliedStep(it, ts, d, g, n, env');
        RunRegisters(it, ts, d, g, n + 1, Executed(Applied(it, t, env').value, t));
      }
    }
  }

  lemma {:induction false} RunAppend(it: Integration, a: seq<Trait>, b: seq<Trait>, env: Env)
    ensures RunTraits(it, a + b, env) ==
            match RunTraits(it, a, env) case Ready(e) => RunTraits(it, b, e) case other => other
    decreases |a|
  {
    if a == [] {
      assert a + b == b;
    } else {
      assert (a + b)[1..] == a[1..] + b;
      var t := a[0];
      var env' := WithCondition(env, t.Configured(it).1);
      RunAppend(it, a[1..], b, env');
      if Applied(it, t, env').Some? {
        RunAppend(it, a[1..], b, Executed(Applied(it, t, env').value, t));
      }
    }
  }

  lemma GcActiveAt(it: Integration, ts: seq<Trait>, d: nat, g: nat)
    requires Placed(ts, d, g)
    ensures GcActive(it, ts) == ts[g].Configured(it).0
  {
  }

  /** The deployer's action, then the collector's if it is due, or the push. */
  function StandardActions(it: Integration, ts: seq<Trait>): seq<PostAction> {
    ActionsFor(true, GcActive(it, ts) && CollectsAfterwards(it), PushActive(it, ts, |ts|))
  }

  /** The closures registered by a run that reached its end. */
  lemma Registered(it: Integration, ts: seq<Trait>, d: nat, g: nat, env: Env)
    requires Standard(ts, d, g) && RunTraits(it, ts, EMPTY) == Ready(env)
    ensures env.postActions == StandardActions(it, ts)
    ensures env.postProcessors == if GcActive(it, ts) then [StampLabels] else []
  {
    OwnerIsLast(ts, d, g);
    GcActiveAt(it, ts, d, g);
    assert ts[0..] == ts;
    RunRegisters(it, ts, d, g, 0, EMPTY);
  }

  /** The post processing step on its own. */
  lemma StampOnce(it: Integration, env: Env)
    requires it.generation >= 0
    ensures PostProcess(it, [], env) == Ready(env)
    ensures var out := PostProcess(it, [StampLabels], env);
            if exists r :: r in env.resources && r.labels.None? then out.Panicked?
            else out == Ready(env.(resources := StampedAll(it, env.resources)))
  {
    assert [StampLabels][1..] == [];
  }

  /** When the owner trait is active every resource leaves the run owned, and with a label map. */
  lemma OwnedAtTheEnd(it: Integration, ts: seq<Trait>, d: nat, g: nat)
    requires Standard(ts, d, g) && RunTraits(it, ts, EMPTY).Ready?
    ensures OwnerActive(it, ts) ==>
              forall r :: r in RunTraits(it, ts, EMPTY).env.resources ==> r.labels.Some? && IsOwned(it, r)
  {
    OwnerIsLast(ts, d, g);
    var n := |ts| - 1;
    var init, owner := ts[..n], ts[n];
    assert ts == init + [owner];
    RunAppend(it, init, [owner], EMPTY);
    assert OwnerActive(it, ts) ==> owner.Configured(it).0;
    if OwnerActive(it, ts) {
      QuietRun(it, init, EMPTY);
      OwnerStep(it, owner, RunTraits(it, init, EMPTY).env);
    }
  }

  /** Running the owner trait alone. */
  lemma OwnerStep(it: Integration, owner: Trait, env: Env)
    requires owner.Owner? && owner.Configured(it).0 && Quiet(env)
    ensures RunTraits(it, [owner], env).Ready?
    ensures forall r :: r in RunTraits(it, [owner], env).env.resources ==> r.labels.Some? && IsOwned(it, r)
  {
    var before := WithCondition(env, owner.Configured(it).1);
    QuietStep(it, owner, before);
    assert [owner][1..] == [];
    assert RunTraits(it, [owner], env) == Ready(Executed(Applied(it, owner, before).value, owner));
  }

  /**
   The labels a resource is stored with are fixed before any post action runs: resources are deployed before the
   collector starts, each one stamped with the current generation when the collector is active, and owned by the
   Integration when the owner trait is.
   */
  lemma Preparation(it: Integration, ts: seq<Trait>, d: nat, g: nat)
    requires Standard(ts, d, g) && it.generation >= 0
    requires Prepare(it, ts).Ready?
    ensures var env := Prepare(it, ts).env;
            && env.postActions == StandardActions(it, ts)
            && (GcActive(it, ts) ==> forall r :: r in env.resources ==> IsStamped(it, r))
            && (OwnerActive(it, ts) ==> forall r :: r in env.resources ==> IsOwned(it, r))
  {
    var env := RunTraits(it, ts, EMPTY).env;
    Registered(it, ts, d, g, env);
    OwnedAtTheEnd(it, ts, d, g);
    StampOnce(it, env);
    if GcActive(it, ts) {
      StampedResources(it, env.resources);
    }
  }

  lemma StampedResources(it: Integration, rs: seq<Resource>)
    requires it.generation >= 0 && forall r :: r in rs ==> r.labels.Some?
    ensures forall r :: r in StampedAll(it, rs) ==> IsStamped(it, r)
    ensures (forall r :: r in rs ==> IsOwned(it, r)) ==> forall r :: r in StampedAll(it, rs) ==> IsOwned(it, r)
  {
    var out := StampedAll(it, rs);
    forall r | r in out ensures exists q :: q in rs && r == Stamped(it, q) {
      var i :| 0 <= i < |out| && out[i] == r;
      assert rs[i] in rs;
    }
  }

  /** Stamping panics exactly when the collector runs without the owner trait over a resource with no label map. */
  lemma PanicCondition(it: Integration, ts: seq<Trait>, d: nat, g: nat)
    requires Standard(ts, d, g) && it.generation >= 0 && RunTraits(it, ts, EMPTY).Ready?
    ensures Prepare(it, ts).Panicked? <==>
              && GcActive(it, ts) && !OwnerActive(it, ts)
              && exists r :: r in RunTraits(it, ts, EMPTY).env.resources && r.labels.None?
  {
    Registered(it, ts, d, g, RunTraits(it, ts, EMPTY).env);
    OwnedAtTheEnd(it, ts, d, g);
    StampOnce(it, RunTraits(it, ts, EMPTY).env);
  }

  // Runs that do not stamp

  /** The resource carries no generation label. */
  predicate Unnumbered(r: Resource) {
    GENERATION_LABEL !in FieldsOf(r).labels
  }

  /** Nobody but the collector trait writes a generation label. */
  predicate WritesNoStamp(it: Integration, ts: seq<Trait>) {
    && GENERATION_LABEL !in it.labels
    && forall i :: 0 <= i < |ts| && ts[i].Producer? ==>
                     (forall r :: r in ts[i].adds ==> Unnumbered(r)) && AllUnnumbered(ts[i].postSteps)
  }

  predicate AllUnnumbered(steps: seq<PostStep>) {
    forall s :: s in steps ==> Unnumbered(s.binding)
  }

  lemma {:induction false} AfterStepUnnumbered(rs: seq<Resource>, steps: seq<PostStep>)
    requires (forall r :: r in rs ==> Unnumbered(r)) && AllUnnumbered(steps)
    ensures forall r :: r in AfterStep(rs, steps) ==> Unnumbered(r)
    decreases |steps|
  {
    if steps != [] {
      assert steps[0] in steps;
      AfterStepUnnumbered(rs, steps[1..]);
      AfterStepUnnumbered([steps[0].binding] + rs, steps[1..]);
    }
  }

  lemma AppliedUnnumbered(it: Integration, t: Trait, env: Env)
    requires WritesNoStamp(it, [t])
    requires (forall r :: r in env.resources ==> Unnumbered(r)) && AllUnnumbered(env.postSteps)
    requires Applied(it, t, env).Some?
    ensures var next := Applied(it, t, env).value;
            (forall r :: r in next.resources ==> Unnumbered(r)) && AllUnnumbered(next.postSteps)
  {
    assert [t][0] == t;
    if t.Owner? {
      var target := TargetLabels(it, t.targetLabels);
      var out := OwnedAll(it, target, env.resources);
      forall i | 0 <= i < |out| ensures Unnumbered(out[i]) {
        assert out[i] == Owned(it, target, env.resources[i]) && Unnumbered(env.resources[i]);
      }
    }
  }

  lemma {:induction false} RunUnnumbered(it: Integration, ts: seq<Trait>, env: Env)
    requires WritesNoStamp(it, ts) && (forall r :: r in env.resources ==> Unnumbered(r)) && AllUnnumbered(env.postSteps)
    ensures var out := RunTraits(it, ts, env); out.Ready? ==> forall r :: r in out.env.resources ==> Unnumbered(r)
    decreases |ts|
  {
    if ts != [] {
      var t := ts[0];
      var env' := WithCondition(env, t.Configured(it).1);
      RunUnnumbered(it, ts[1..], env');
      if Applied(it, t, env').Some? {
        var next := Applied(it, t, env').value;
        AppliedUnnumbered(it, t, env');
        AfterStepUnnumbered(next.resources, next.postSteps);
        RunUnnumbered(it, ts[1..], Executed(next, t));
      }
    }
  }

  /** Without the collector nothing is stamped. */
  lemma UnstampedRun(it: Integration, ts: seq<Trait>, d: nat, g: nat)
    requires Standard(ts, d, g) && it.generation >= 0 && Prepare(it, ts).Ready?
    requires !GcActive(it, ts) && WritesNoStamp(it, ts)
    ensures forall r :: r in Prepare(it, ts).env.resources ==> Unnumbered(r)
  {
    var env := RunTraits(it, ts, EMPTY).env;
    Registered(it, ts, d, g, env);
    StampOnce(it, env);
    RunUnnumbered(it, ts, EMPTY);
  }
}
