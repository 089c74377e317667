/**
 The trait run: the catalog configures and applies every trait in order, then post processors run over the
 resources that were prepared. Traits other than `deployer`, `gc`, `gitops` and `owner` appear as producers of
 resources.
 */
module Traits {
  import opened Options
  import opened Decimal
  import opened Cluster

  const DEPLOYER_ORDER := 900
  const GC_ORDER := 1200
  const GITOPS_ORDER := 1700
  const OWNER_ORDER := 2500

  /** The closures that the traits register, as data. */
  datatype PostAction = DeployResources | CollectGarbage | PushToGit
  datatype PostProcessor = StampLabels
  datatype PostStep = InjectSinkBinding(binding: Resource)

  datatype Trait =
    | Deployer
    | Gc(enabled: Option<bool>)
    | GitOps(enabled: Option<bool>)
    | Owner(enabled: Option<bool>, targetLabels: seq<string>)
    | Producer(
        order: int, active: bool, condition: Option<string>, configureFails: bool, applyFails: bool,
        adds: seq<Resource>, postSteps: seq<PostStep>)
  {
    function Order(): int {
      match this
      case Deployer => DEPLOYER_ORDER
      case Gc(_) => GC_ORDER
      case GitOps(_) => GITOPS_ORDER
      case Owner(_, _) => OWNER_ORDER
      case Producer(_, _, _, _, _, _, _) => order
    }

    /** What `Configure` answers: whether the trait applies, and a condition to report. */
    function Configured(it: Integration): (bool, Option<string>) {
      match this
      case Deployer => (true, None)
      case Gc(e) =>
        if !e.Or(true) then (false, Some("GC")) else (it.InRunningPhases() || it.phase.UnDeploying?, None)
      case GitOps(e) => (e.Or(false) && it.phase.BuildComplete?, None)
      case Owner(e, _) =>
        if !e.Or(true) then (false, Some("Owner")) else (it.phase.Initialization? || it.InRunningPhases(), None)
      case Producer(_, a, c, _, _, _, _) => (a, c)
    }
  }

  datatype Env = Env(
    resources: seq<Resource>, postSteps: seq<PostStep>, postProcessors: seq<PostProcessor>,
    postActions: seq<PostAction>, executed: seq<Trait>, conditions: seq<string>)

  const EMPTY := Env([], [], [], [], [], [])

  /** A run of the catalog ends ready for its post actions, with an error, or in a panic. */
  datatype Outcome = Ready(env: Env) | Aborted(conditions: seq<string>) | Panicked

  // Owner trait

  function TargetLabels(it: Integration, wanted: seq<string>): map<string, string> {
    if "*" in wanted then it.labels else map k | k in wanted && k in it.labels :: it.labels[k]
  }

  /** Owner references are set inside the Integration namespace only; labels already present are kept. */
  function Owned(it: Integration, target: map<string, string>, r: Resource): Resource {
    Resource(
      r.key,
      Some(target + r.labels.Or(map[])),
      if r.key.ns == "" || r.key.ns == it.ns then [it.Reference()] else r.owners)
  }

  function OwnedAll(it: Integration, target: map<string, string>, rs: seq<Resource>): (out: seq<Resource>)
    ensures |out| == |rs| && forall i :: 0 <= i < |rs| ==> out[i] == Owned(it, target, rs[i])
  {
    if rs == [] then [] else [Owned(it, target, rs[0])] + OwnedAll(it, target, rs[1..])
  }

  // Garbage collector trait

  predicate CollectsAfterwards(it: Integration) {
    it.generation > 1 || it.phase.UnDeploying?
  }

  function Stamped(it: Integration, r: Resource): Resource
    requires r.labels.Some? && it.generation >= 0
  {
    r.(labels := Some(r.labels.value[GENERATION_LABEL := Format(it.generation)][INTEGRATION_LABEL := it.name]))
  }

  function StampedAll(it: Integration, rs: seq<Resource>): (out: seq<Resource>)
    requires it.generation >= 0
    requires forall r :: r in rs ==> r.labels.Some?
    ensures |out| == |rs| && forall i :: 0 <= i < |rs| ==> out[i] == Stamped(it, rs[i])
  {
    if rs == [] then [] else [Stamped(it, rs[0])] + StampedAll(it, rs[1..])
  }

  // Knative post step

  predicate IsController(k: Kind) {
    || k == Kind("apps", "v1", "Deployment")
    || k == Kind("batch", "v1", "CronJob")
    || k == Kind("serving.knative.dev", "v1", "Service")
  }

  predicate HasController(rs: seq<Resource>) {
    exists r :: r in rs && IsController(r.key.kind)
  }

  predicate IsSinkBinding(k: Kind) {
    k.kind == "SinkBinding" && exists i :: 0 <= i <= |k.group| && "knative" <= k.group[i..]
  }

  predicate HasSinkBinding(rs: seq<Resource>) {
    exists r :: r in rs && IsSinkBinding(r.key.kind)
  }

  /** Runs the post step processors: a sink binding is put first, once, as soon as there is a controller to bind. */
  function AfterStep(rs: seq<Resource>, steps: seq<PostStep>): seq<Resource>
    decreases |steps|
  {
    if steps == [] then rs
    else if HasSinkBinding(rs) || !HasController(rs) then AfterStep(rs, steps[1..])
    else AfterStep([steps[0].binding] + rs, steps[1..])
  }

  // Catalog

  /** `Apply` of one trait; None is an error. */
  function Applied(it: Integration, t: Trait, env: Env): Option<Env> {
    match t
    case Deployer => Some(env.(postActions := env.postActions + [DeployResources]))
    case Gc(_) =>
      Some(env.(
           postActions := env.postActions + (if CollectsAfterwards(it) then [CollectGarbage] else []),
           postProcessors := env.postProcessors + [StampLabels]))
    case GitOps(_) => Some(env.(postActions := env.postActions + [PushToGit]))
    case Owner(_, wanted) =>
      Some(env.(resources := OwnedAll(it, TargetLabels(it, wanted), env.resources)))
    case Producer(_, _, _, _, fails, adds, steps) =>
      if fails then None
      else Some(env.(resources := env.resources + adds, postSteps := env.postSteps + steps))
  }

  function WithCondition(env: Env, c: Option<string>): Env {
    if c.None? then env else env.(conditions := env.conditions + [c.value])
  }

  function Executed(env: Env, t: Trait): Env {
    env.(executed := env.executed + [t], resources := AfterStep(env.resources, env.postSteps))
  }

  function RunTraits(it: Integration, ts: seq<Trait>, env: Env): Outcome {
    if ts == [] then Ready(env) else
      var t := ts[0];
      var (enabled, condition) := t.Configured(it);
      var env := WithCondition(env, condition);
      if t.Producer? && t.configureFails then Aborted(env.conditions)
      else if !enabled then RunTraits(it, ts[1..], env)
      else match Applied(it, t, env)
           case None => Aborted(env.conditions)
           case Some(env) => RunTraits(it, ts[1..], Executed(env, t))
  }

  /** Writing a label into a nil map panics. */
  function PostProcess(it: Integration, ps: seq<PostProcessor>, env: Env): Outcome
    requires it.generation >= 0
  {
    if ps == [] then Ready(env)
    else if exists r :: r in env.resources && r.labels.None? then Panicked
    else PostProcess(it, ps[1..], env.(resources := StampedAll(it, env.resources)))
  }

  function Prepare(it: Integration, ts: seq<Trait>): Outcome
    requires it.generation >= 0
  {
    match RunTraits(it, ts, EMPTY)
    case Ready(env) => PostProcess(it, env.postProcessors, env)
    case other => other
  }

  /** The environment object that the catalog fills in. */
  class Environment {
    var resources: seq<Resource>
    var postSteps: seq<PostStep>
    var postProcessors: seq<PostProcessor>
    var postActions: seq<PostAction>
    var executed: seq<Trait>
    var conditions: seq<string>

    function State(): Env
      reads this
    {
      Env(resources, postSteps, postProcessors, postActions, executed, conditions)
    }

    constructor ()
      ensures State() == EMPTY
    {
      resources, postSteps, postProcessors, postActions, executed, conditions := [], [], [], [], [], [];
    }

    method RunPostSteps()
      modifies this
      ensures State() == old(State()).(resources := AfterStep(old(resources), old(postSteps)))
    {
      var i := 0;
      while i < |postSteps|
        invariant 0 <= i <= |postSteps|
        invariant State() == old(State()).(resources := resources)
        invariant AfterStep(resources, postSteps[i..]) == AfterStep(old(resources), old(postSteps))
      {
        if !HasSinkBinding(resources) && HasController(resources) {
          resources := [postSteps[i].binding] + resources;
        }
        i := i + 1;
      }
    }

    /** Visits every resource in place; false stands for the panic on a nil label map. */
    method Stamp(it: Integration) returns (ok: bool)
      requires it.generation >= 0
      modifies this
      ensures ok == forall r :: r in old(resources) ==> r.labels.Some?
      ensures ok ==> State() == old(State()).(resources := StampedAll(it, old(resources)))
    {
      var i := 0;
      while i < |resources|
        invariant 0 <= i <= |resources| == |old(resources)|
        invariant State() == old(State()).(resources := resources)
        invariant forall j :: 0 <= j < i ==>
                    old(resources)[j].labels.Some? && resources[j] == Stamped(it, old(resources)[j])
        invariant forall j :: i <= j < |resources| ==> resources[j] == old(resources)[j]
      {
        if resources[i].labels.None? {
          assert old(resources)[i] in old(resources);
          return false;
        }
        resources := resources[i := Stamped(it, resources[i])];
        i := i + 1;
      }
      assert resources == StampedAll(it, old(resources));
      return true;
    }

    /** The catalog's `apply`: every enabled trait in order, its post steps, then the post processors. */
    method ApplyCatalog(it: Integration, ts: seq<Trait>) returns (outcome: Outcome)
      requires State() == EMPTY && it.generation >= 0
      modifies this
      ensures outcome == Prepare(it, ts)
      ensures outcome.Ready? ==> State() == outcome.env
    {
      var i := 0;
      while i < |ts|
        invariant 0 <= i <= |ts|
        invariant RunTraits(it, ts[i..], State()) == RunTraits(it, ts, EMPTY)
      {
        var t := ts[i];
        var (enabled, condition) := t.Configured(it);
        ghost var before := WithCondition(State(), condition);
        if condition.Some? {
          conditions := conditions + [condition.value];
        }
        assert State() == before && ts[i..][1..] == ts[i + 1..];
        if t.Producer? && t.configureFails {
          return Aborted(conditions);
        }
        if enabled {
          match t {
            case Deployer =>
              postActions := postActions + [DeployResources];
            case Gc(_) =>
              postActions := postActions + (if CollectsAfterwards(it) then [CollectGarbage] else []);
              postProcessors := postProcessors + [StampLabels];
            case GitOps(_) =>
              postActions := postActions + [PushToGit];
            case Owner(_, wanted) =>
              resources := OwnedAll(it, TargetLabels(it, wanted), resources);
            case Producer(_, _, _, _, fails, adds, steps) =>
              if fails {
                return Aborted(conditions);
              }
              resources, postSteps := resources + adds, postSteps + steps;
          }
          assert Applied(it, t, before) == Some(State());
          executed := executed + [t];
          RunPostSteps();
        }
        i := i + 1;
      }
      assert ts[i..] == [];
      assert RunTraits(it, ts, EMPTY) == Ready(State());
      i := 0;
      while i < |postProcessors|
        invariant 0 <= i <= |postProcessors|
        invariant PostProcess(it, postProcessors[i..], State()) == Prepare(it, ts)
      {
        var ok := Stamp(it);
        if !ok {
          return Panicked;
        }
        i := i + 1;
      }
      return Ready(State());
    }
  }
}
