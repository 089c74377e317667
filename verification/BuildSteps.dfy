/** The build pipeline: steps are registered by ID, looked up from a task's IDs, sorted by phase and executed. */
module BuildSteps {
  import opened Options

  datatype Step = Step(id: string, phase: int, task: nat)

  // Registry

  type Registry = map<string, Step>

  /** A second step of one ID is refused, with a panic in the source. */
  function Registered(reg: Registry, s: Step): Registry {
    if s.id in reg then reg else reg[s.id := s]
  }

  function RegistryOf(history: seq<Step>): Registry {
    if history == [] then map[] else Registered(RegistryOf(history[..|history| - 1]), history[|history| - 1])
  }

  /** The step was accepted at position k: nothing before it had its ID. */
  predicate AcceptedAt(history: seq<Step>, k: int) {
    0 <= k < |history| && forall j :: 0 <= j < k ==> history[j].id != history[k].id
  }

  /** The step was accepted at some time. */
  ghost predicate IsAccepted(history: seq<Step>, s: Step) {
    exists k :: AcceptedAt(history, k) && history[k] == s
  }

  /** Whatever is registered under an ID is an accepted step of that ID. */
  lemma {:induction false} EntryIsAccepted(history: seq<Step>, id: string)
    requires id in RegistryOf(history)
    ensures RegistryOf(history)[id].id == id && IsAccepted(history, RegistryOf(history)[id])
  {
    var n := |history| - 1;
    var init := history[..n];
    assert history == init + [history[n]];
    if id in RegistryOf(init) {
      EntryIsAccepted(init, id);
      AcceptedLater(init, history[n], RegistryOf(init)[id]);
    } else {
      FreshId(init, id);
      assert AcceptedAt(history, n);
    }
  }

  /** An accepted step is registered under its ID for good. */
  lemma {:induction false} AcceptedIsEntry(history: seq<Step>, k: int)
    requires AcceptedAt(history, k)
    ensures history[k].id in RegistryOf(history) && RegistryOf(history)[history[k].id] == history[k]
  {
    var n := |history| - 1;
    if k < n {
      assert AcceptedAt(history[..n], k);
      AcceptedIsEntry(history[..n], k);
    } else {
      NotRegistered(history[..n], history[n].id);
    }
  }

  lemma AcceptedLater(history: seq<Step>, next: Step, s: Step)
    requires IsAccepted(history, s)
    ensures IsAccepted(history + [next], s)
  {
    var k :| AcceptedAt(history, k) && history[k] == s;
    var more := history + [next];
    assert more[k] == s && AcceptedAt(more, k);
  }

  lemma {:induction false} NotRegistered(history: seq<Step>, id: string)
    requires forall j :: 0 <= j < |history| ==> history[j].id != id
    ensures id !in RegistryOf(history)
  {
    if history != [] {
      NotRegistered(history[..|history| - 1], id);
    }
  }

  lemma {:induction false} FreshId(history: seq<Step>, id: string)
    requires id !in RegistryOf(history)
    ensures forall j :: 0 <= j < |history| ==> history[j].id != id
  {
    if history != [] {
      FreshId(history[..|history| - 1], id);
    }
  }

  function Ids(steps: seq<Step>): (ids: seq<string>)
    ensures |ids| == |steps| && forall i :: 0 <= i < |steps| ==> ids[i] == steps[i].id
  {
    seq(|steps|, i requires 0 <= i < |steps| => steps[i].id)
  }

  /** None is the error for an unknown step. */
  function Lookup(reg: Registry, ids: seq<string>): Option<seq<Step>> {
    if ids == [] then Some([]) else
      var n := |ids| - 1;
      match Lookup(reg, ids[..n])
      case None => None
      case Some(ss) => if ids[n] in reg then Some(ss + [reg[ids[n]]]) else None
  }

  /** Looking up the IDs of accepted steps gives back these steps, under every history of registrations. */
  lemma {:induction false} StepsRoundTrip(history: seq<Step>, steps: seq<Step>)
    requires forall i :: 0 <= i < |steps| ==> IsAccepted(history, steps[i])
    ensures Lookup(RegistryOf(history), Ids(steps)) == Some(steps)
  {
    if steps != [] {
      var n := |steps| - 1;
      StepsRoundTrip(history, steps[..n]);
      assert Ids(steps)[..n] == Ids(steps[..n]);
      var k :| AcceptedAt(history, k) && history[k] == steps[n];
      AcceptedIsEntry(history, k);
      assert steps == steps[..n] + [steps[n]];
    }
  }

  /** The other way round: what a lookup returns has the IDs asked for, and it fails only for an unknown ID. */
  lemma {:induction false} LookupRoundTrip(history: seq<Step>, ids: seq<string>)
    ensures var r := Lookup(RegistryOf(history), ids);
            && (r.Some? <==> forall i :: 0 <= i < |ids| ==> ids[i] in RegistryOf(history))
            && (r.Some? ==> Ids(r.value) == ids)
  {
    if ids != [] {
      var n := |ids| - 1;
      LookupRoundTrip(history, ids[..n]);
      if ids[n] in RegistryOf(history) {
        EntryIsAccepted(history, ids[n]);
      }
      assert ids == ids[..n] + [ids[n]];
      assert forall i :: 0 <= i < n ==> ids[..n][i] == ids[i];
    }
  }

  function RegisterAll(reg: Registry, steps: seq<Step>): (Registry, bool)
    decreases |steps|
  {
    if steps == [] then (reg, true)
    else if steps[0].id in reg then (reg, false)
    else RegisterAll(reg[steps[0].id := steps[0]], steps[1..])
  }

  /** Registration goes through exactly for new and distinct IDs. */
  lemma {:induction false} RegistersNewIdsOnly(reg: Registry, steps: seq<Step>)
    ensures RegisterAll(reg, steps).1 <==>
              && (forall i :: 0 <= i < |steps| ==> steps[i].id !in reg)
              && (forall i, j :: 0 <= i < j < |steps| ==> steps[i].id != steps[j].id)
    decreases |steps|
  {
    if steps != [] && steps[0].id !in reg {
      RegistersNewIdsOnly(reg[steps[0].id := steps[0]], steps[1..]);
      assert forall i :: 0 < i < |steps| ==> steps[i] == steps[1..][i - 1];
    }
  }

  class StepRegistry {
    var stepsById: Registry
    ghost var history: seq<Step>

    ghost predicate Valid()
      reads this
    {
      stepsById == RegistryOf(history)
    }

    constructor ()
      ensures Valid() && history == []
    {
      stepsById, history := map[], [];
    }

    /** Registers in order; false stands for the panic on a step that is already there. */
    method Register(steps: seq<Step>) returns (ok: bool)
      requires Valid()
      modifies this
      ensures Valid() && (stepsById, ok) == RegisterAll(old(stepsById), steps)
      ensures ok ==> history == old(history) + steps
    {
      var i := 0;
      assert steps[0..] == steps;
      while i < |steps|
        invariant 0 <= i <= |steps| && Valid() && history == old(history) + steps[..i]
        invariant RegisterAll(stepsById, steps[i..]) == RegisterAll(old(stepsById), steps)
      {
        assert steps[i..][0] == steps[i] && steps[i..][1..] == steps[i + 1..];
        if steps[i].id in stepsById {
          return false;
        }
        RegistrySnoc(history, steps[i]);
        stepsById := stepsById[steps[i].id := steps[i]];
        history := history + [steps[i]];
        assert history == old(history) + steps[..i + 1];
        i := i + 1;
      }
      assert steps[..i] == steps;
      return true;
    }

    method StepsFrom(ids: seq<string>) returns (steps: Option<seq<Step>>)
      ensures steps == Lookup(stepsById, ids)
    {
      var found: seq<Step> := [];
      var i := 0;
      while i < |ids|
        invariant 0 <= i <= |ids| && Lookup(stepsById, ids[..i]) == Some(found)
      {
        assert ids[..i + 1][..i] == ids[..i];
        if ids[i] !in stepsById {
          LookupFails(stepsById, ids, i);
          return None;
        }
        found := found + [stepsById[ids[i]]];
        i := i + 1;
      }
      assert ids[..i] == ids;
      return Some(found);
    }
  }

  lemma {:induction false} LookupFails(reg: Registry, ids: seq<string>, i: nat)
    requires i < |ids| && ids[i] !in reg
    ensures Lookup(reg, ids).None?
  {
    if i < |ids| - 1 {
      LookupFails(reg, ids[..|ids| - 1], i);
    }
  }

  lemma RegistrySnoc(history: seq<Step>, s: Step)
    ensures RegistryOf(history + [s]) == Registered(RegistryOf(history), s)
  {
    assert (history + [s])[..|history|] == history;
  }

  // Stable sort by phase

  function Insert(x: Step, s: seq<Step>): seq<Step> {
    if s == [] || x.phase <= s[0].phase then [x] + s else [s[0]] + Insert(x, s[1..])
  }

  /** `sort.SliceStable` by phase. */
  function ByPhase(s: seq<Step>): seq<Step> {
    if s == [] then [] else Insert(s[0], ByPhase(s[1..]))
  }

  predicate Ordered(s: seq<Step>) {
    forall i, j :: 0 <= i < j < |s| ==> s[i].phase <= s[j].phase
  }

  /** The steps of one phase, in their order. */
  function OfPhase(s: seq<Step>, p: int): seq<Step> {
    if s == [] then [] else if s[0].phase == p then [s[0]] + OfPhase(s[1..], p) else OfPhase(s[1..], p)
  }

  lemma {:induction false} InsertOrders(x: Step, s: seq<Step>)
    requires Ordered(s)
    ensures Ordered(Insert(x, s)) && |Insert(x, s)| == |s| + 1
    ensures forall y :: y in Insert(x, s) ==> y == x || y in s
  {
    if s != [] && x.phase > s[0].phase {
      InsertOrders(x, s[1..]);
      var rest := Insert(x, s[1..]);
      forall j | 0 <= j < |rest| ensures s[0].phase <= rest[j].phase {
        assert rest[j] in rest;
      }
    }
  }

  lemma {:induction false} InsertOfPhase(x: Step, s: seq<Step>, p: int)
    ensures OfPhase(Insert(x, s), p) == if x.phase == p then [x] + OfPhase(s, p) else OfPhase(s, p)
  {
    if s == [] || x.phase <= s[0].phase {
      assert ([x] + s)[1..] == s;
    } else {
      InsertOfPhase(x, s[1..], p);
      assert ([s[0]] + Insert(x, s[1..]))[1..] == Insert(x, s[1..]);
      if x.phase == p {
        assert s[0].phase != p;
      }
    }
  }

  /** Sorted by phase, and stable: within a phase nothing moves. */
  lemma {:induction false} ByPhaseIsStable(s: seq<Step>)
    ensures Ordered(ByPhase(s)) && |ByPhase(s)| == |s|
    ensures forall p :: OfPhase(ByPhase(s), p) == OfPhase(s, p)
  {
    if s != [] {
      ByPhaseIsStable(s[1..]);
      InsertOrders(s[0], ByPhase(s[1..]));
      forall p ensures OfPhase(ByPhase(s), p) == OfPhase(s, p) {
        InsertOfPhase(s[0], ByPhase(s[1..]), p);
      }
    }
  }

  lemma {:induction false} OfPhaseHead(s: seq<Step>, p: int) returns (i: nat)
    requires OfPhase(s, p) != []
    ensures i < |s| && s[i].phase == p
  {
    if s[0].phase == p {
      i := 0;
    } else {
      i := OfPhaseHead(s[1..], p);
      i := i + 1;
    }
  }

  lemma NotEmptyInItsPhase(s: seq<Step>)
    ensures s != [] ==> OfPhase(s, s[0].phase) != [] && OfPhase(s, s[0].phase)[0] == s[0]
  {
  }

  lemma SameFirst(a: seq<Step>, b: seq<Step>)
    requires Ordered(a) && Ordered(b) && a != [] && forall p :: OfPhase(a, p) == OfPhase(b, p)
    ensures b != [] && a[0] == b[0]
  {
    NotEmptyInItsPhase(a);
    var i := OfPhaseHead(b, a[0].phase);
    NotEmptyInItsPhase(b);
    var j := OfPhaseHead(a, b[0].phase);
    assert a[0].phase <= a[j].phase && b[0].phase <= b[i].phase;
  }

  /** There is only one stable order. */
  lemma {:induction false} StableOrderIsUnique(a: seq<Step>, b: seq<Step>)
    requires Ordered(a) && Ordered(b) && forall p :: OfPhase(a, p) == OfPhase(b, p)
    ensures a == b
    decreases |a|
  {
    NotEmptyInItsPhase(b);
    if a != [] {
      var p := a[0].phase;
      SameFirst(a, b);
      forall q ensures OfPhase(a[1..], q) == OfPhase(b[1..], q) {
        assert OfPhase(a, q) == OfPhase(b, q);
        if q == p {
          assert OfPhase(a[1..], q) == OfPhase(a, q)[1..] && OfPhase(b[1..], q) == OfPhase(b, q)[1..];
        }
      }
      StableOrderIsUnique(a[1..], b[1..]);
      assert a == [a[0]] + a[1..] && b == [b[0]] + b[1..];
    }
  }

  /** A list that is already ordered is left as it is. */
  lemma {:induction false} ResortingChangesNothing(s: seq<Step>)
    requires Ordered(s)
    ensures ByPhase(s) == s
  {
    ByPhaseIsStable(s);
    StableOrderIsUnique(ByPhase(s), s);
  }

  // Execution

  datatype Context = Context(baseImage: string, artifacts: seq<string>)

  /** A step's effect: the context afterwards and its error, if any. */
  type Execution = (Step, Context) -> (Context, Option<string>)

  /** What the surrounding context says before each step. */
  datatype Signal = Go | Canceled | TimedOut
  type Signals = nat -> Signal

  datatype Stop = Completed | StepFailed(error: string) | Interrupted | DeadlineExceeded
  datatype Run = Run(executed: nat, stop: Stop, ctx: Context)

  function RunFrom(steps: seq<Step>, i: nat, ctx: Context, signals: Signals, exec: Execution): Run
    requires i <= |steps|
    decreases |steps| - i
  {
    if i == |steps| then Run(i, Completed, ctx)
    else match signals(i)
         case Canceled => Run(i, Interrupted, ctx)
         case TimedOut => Run(i, DeadlineExceeded, ctx)
         case Go =>
           var (ctx', error) := exec(steps[i], ctx);
           if error.Some? then Run(i + 1, StepFailed(error.value), ctx')
           else RunFrom(steps, i + 1, ctx', signals, exec)
  }

  datatype Phase = NoPhase | Failed | PhaseInterrupted
  datatype BuildStatus = BuildStatus(phase: Phase, error: string, baseImage: string, artifacts: seq<string>)

  /** The context after the first n steps. */
  function ContextAfter(steps: seq<Step>, n: nat, ctx: Context, exec: Execution): Context
    requires n <= |steps|
  {
    if n == 0 then ctx else exec(steps[n - 1], ContextAfter(steps, n - 1, ctx, exec)).0
  }

  /** Step i runs without error when reached. */
  predicate Succeeds(steps: seq<Step>, i: nat, ctx: Context, exec: Execution)
    requires i < |steps|
  {
    exec(steps[i], ContextAfter(steps, i, ctx, exec)).1.None?
  }

  /** The step is reached with the go-ahead and runs without error. */
  predicate Passes(steps: seq<Step>, i: nat, ctx: Context, signals: Signals, exec: Execution)
    requires i < |steps|
  {
    signals(i) == Go && Succeeds(steps, i, ctx, exec)
  }

  /** The build stops at step n: it is the first that is not reached with the go-ahead, or fails. */
  predicate StopsAt(steps: seq<Step>, n: int, ctx: Context, signals: Signals, exec: Execution) {
    && 0 <= n < |steps| && !Passes(steps, n, ctx, signals, exec)
    && forall i :: 0 <= i < n ==> Passes(steps, i, ctx, signals, exec)
  }

  /**
   What is reported of a build that stops at step n: interrupted exactly on a cancellation, and then without image and
   artifacts; failed on a timeout or with the step's error, and then with what the steps up to there left.
   */
  predicate StoppedStatus(
    status: BuildStatus, steps: seq<Step>, n: nat, ctx: Context, signals: Signals, exec: Execution)
    requires n < |steps|
  {
    var left := ContextAfter(steps, if signals(n) == Go then n + 1 else n, ctx, exec);
    && status.phase == (if signals(n) == Canceled then PhaseInterrupted else Failed)
    && (signals(n) == Canceled ==>
          status.error == "context canceled" && status.baseImage == "" && status.artifacts == [])
    && (signals(n) == TimedOut ==> status.error == "context deadline exceeded")
    && (signals(n) == Go ==> exec(steps[n], ContextAfter(steps, n, ctx, exec)).1 == Some(status.error))
    && (signals(n) != Canceled ==> status.baseImage == left.baseImage && status.artifacts == left.artifacts)
  }

  predicate NeverStops(steps: seq<Step>, ctx: Context, signals: Signals, exec: Execution) {
    forall i :: 0 <= i < |steps| ==> Passes(steps, i, ctx, signals, exec)
  }

  /** The status reported for a run: an interrupted build reports neither image nor artifacts. */
  function StatusOf(r: Run): BuildStatus {
    match r.stop
    case Completed => BuildStatus(NoPhase, "", r.ctx.baseImage, r.ctx.artifacts)
    case StepFailed(e) => BuildStatus(Failed, e, r.ctx.baseImage, r.ctx.artifacts)
    case Interrupted => BuildStatus(PhaseInterrupted, "context canceled", "", [])
    case DeadlineExceeded => BuildStatus(Failed, "context deadline exceeded", r.ctx.baseImage, r.ctx.artifacts)
  }

  method Do(registry: StepRegistry, ids: seq<string>, ctx: Context, signals: Signals, exec: Execution)
    returns (status: BuildStatus)
    ensures Lookup(registry.stepsById, ids).None? ==> status == BuildStatus(Failed, "unknown build step", "", [])
    ensures Lookup(registry.stepsById, ids).Some? ==>
              var steps := ByPhase(Lookup(registry.stepsById, ids).value);
              && status == StatusOf(RunFrom(steps, 0, ctx, signals, exec))
              && (forall n: nat :: StopsAt(steps, n, ctx, signals, exec) ==>
                                     StoppedStatus(status, steps, n, ctx, signals, exec))
              && (NeverStops(steps, ctx, signals, exec) ==>
                    var left := ContextAfter(steps, |steps|, ctx, exec);
                    status == BuildStatus(NoPhase, "", left.baseImage, left.artifacts))
  {
    var found := registry.StepsFrom(ids);
    if found.None? {
      return BuildStatus(Failed, "unknown build step", "", []);
    }
    var steps := ByPhase(found.value);
    var phase, error, c := NoPhase, "", ctx;
    var i := 0;
    ghost var run := RunFrom(steps, 0, ctx, signals, exec);
    StatusExactly(steps, ctx, signals, exec);
    while i < |steps|
      invariant 0 <= i <= |steps| && phase == NoPhase && error == ""
      invariant RunFrom(steps, i, c, signals, exec) == run
    {
      var signal := signals(i);
      if signal != Go {
        phase := if signal == Canceled then PhaseInterrupted else Failed;
        error := if signal == Canceled then "context canceled" else "context deadline exceeded";
        break;
      }
      var (c', e) := exec(steps[i], c);
      c := c';
      if e.Some? {
        phase, error := Failed, e.value;
        break;
      }
      i := i + 1;
    }
    if phase == PhaseInterrupted {
      return BuildStatus(phase, error, "", []);
    }
    return BuildStatus(phase, error, c.baseImage, c.artifacts);
  }

  /**
   A run executes exactly a prefix of the steps: every executed step had the go-ahead and, but for a failing last one,
   succeeded; it stops at the first failure, cancellation or timeout, and completes only after all steps.
   */
  lemma ExecutesAPrefix(steps: seq<Step>, ctx: Context, signals: Signals, exec: Execution)
    ensures var r := RunFrom(steps, 0, ctx, signals, exec);
            && r.executed <= |steps| && r.ctx == ContextAfter(steps, r.executed, ctx, exec)
            && (forall i :: 0 <= i < r.executed ==> signals(i) == Go)
            && (forall i :: 0 <= i < r.executed && i + 1 < r.executed + (if r.stop.StepFailed? then 0 else 1) ==>
                              Succeeds(steps, i, ctx, exec))
            && match r.stop
               case Completed => r.executed == |steps|
               case StepFailed(e) =>
                 && r.executed > 0
                 && exec(steps[r.executed - 1], ContextAfter(steps, r.executed - 1, ctx, exec)).1 == Some(e)
               case Interrupted => r.executed < |steps| && signals(r.executed) == Canceled
               case DeadlineExceeded => r.executed < |steps| && signals(r.executed) == TimedOut
  {
    PrefixFrom(steps, 0, ctx, signals, exec);
  }

  lemma {:induction false} PrefixFrom(steps: seq<Step>, i: nat, ctx: Context, signals: Signals, exec: Execution)
    requires i <= |steps|
    requires forall j :: 0 <= j < i ==> signals(j) == Go && Succeeds(steps, j, ctx, exec)
    ensures var r := RunFrom(steps, i, ContextAfter(steps, i, ctx, exec), signals, exec);
            && i <= r.executed <= |steps| && r.ctx == ContextAfter(steps, r.executed, ctx, exec)
            && (forall j :: 0 <= j < r.executed ==> signals(j) == Go)
            && (forall j :: 0 <= j < r.executed && j + 1 < r.executed + (if r.stop.StepFailed? then 0 else 1) ==>
                              Succeeds(steps, j, ctx, exec))
            && match r.stop
               case Completed => r.executed == |steps|
               case StepFailed(e) =>
                 && r.executed > 0
                 && exec(steps[r.executed - 1], ContextAfter(steps, r.executed - 1, ctx, exec)).1 == Some(e)
               case Interrupted => r.executed < |steps| && signals(r.executed) == Canceled
               case DeadlineExceeded => r.executed < |steps| && signals(r.executed) == TimedOut
    decreases |steps| - i
  {
    if i < |steps| && signals(i) == Go && Succeeds(steps, i, ctx, exec) {
      PrefixFrom(steps, i + 1, ctx, signals, exec);
    }
  }

  /** What the status of a run says, from the steps, the signals and the effects alone. */
  lemma StatusExactly(steps: seq<Step>, ctx: Context, signals: Signals, exec: Execution)
    ensures var status := StatusOf(RunFrom(steps, 0, ctx, signals, exec));
            && (forall n: nat :: StopsAt(steps, n, ctx, signals, exec) ==>
                                   StoppedStatus(status, steps, n, ctx, signals, exec))
            && (NeverStops(steps, ctx, signals, exec) ==>
                  var left := ContextAfter(steps, |steps|, ctx, exec);
                  status == BuildStatus(NoPhase, "", left.baseImage, left.artifacts))
  {
    WhereItStops(steps, ctx, signals, exec);
    ExecutesAPrefix(steps, ctx, signals, exec);
  }

  /** A run that does not complete stops at one step, which it has executed exactly if that step failed. */
  lemma WhereItStops(steps: seq<Step>, ctx: Context, signals: Signals, exec: Execution)
    ensures var r := RunFrom(steps, 0, ctx, signals, exec);
            && (r.stop.Completed? <==> NeverStops(steps, ctx, signals, exec))
            && (forall n: nat :: StopsAt(steps, n, ctx, signals, exec) ==>
                                   && r.executed == (if signals(n) == Go then n + 1 else n)
                                   && (r.stop.StepFailed? <==> signals(n) == Go))
  {
    ExecutesAPrefix(steps, ctx, signals, exec);
    var r := RunFrom(steps, 0, ctx, signals, exec);
    var last := if r.stop.StepFailed? then r.executed - 1 else r.executed;
    forall i | 0 <= i < last ensures Passes(steps, i, ctx, signals, exec) {}
    assert last < |steps| ==> !Passes(steps, last, ctx, signals, exec);
    forall n: nat | StopsAt(steps, n, ctx, signals, exec) ensures n == last {
      assert n < |steps| && !Passes(steps, n, ctx, signals, exec);
    }
  }
}
