/** Applying objects server-side when the API server can, client-side otherwise; the first conclusive call decides. */
module Applier {
  import opened Options

  datatype Mode = Unprobed | ServerSide | ClientSide

  /**
   What one attempt at applying answers. A failure may come after the effect: the patch went through, but its response
   could not be read.
   */
  datatype Answer = Success | Incompatible | Failure(tookEffect: bool)

  /** One call: the object and how the two kinds of apply would answer; client-side apply is never incompatible. */
  datatype Call = Call(item: string, server: Answer, client: Answer)

  /** The applications that took effect, in order. */
  datatype State = State(mode: Mode, applied: seq<string>)

  const FRESH := State(Unprobed, [])

  predicate TakesEffect(a: Answer) {
    a.Success? || (a.Failure? && a.tookEffect)
  }

  function Landed(applied: seq<string>, item: string, a: Answer): seq<string> {
    if TakesEffect(a) then applied + [item] else applied
  }

  /** One call of `Apply`: the state afterwards and whether it returned without error. */
  function Applied(s: State, c: Call): (State, bool) {
    match s.mode
    case Unprobed =>
      (match c.server
       case Success => (State(ServerSide, s.applied + [c.item]), true)
       case Failure(_) => (State(Unprobed, Landed(s.applied, c.item, c.server)), false)
       case Incompatible => (State(ClientSide, Landed(s.applied, c.item, c.client)), c.client.Success?))
    case ServerSide => (State(ServerSide, Landed(s.applied, c.item, c.server)), c.server.Success?)
    case ClientSide => (State(ClientSide, Landed(s.applied, c.item, c.client)), c.client.Success?)
  }

  class ServerOrClientSideApplier {
    /** The stored answer and whether the probe counts as done. */
    var hasServerSideApply: Option<bool>
    var probed: bool
    ghost var applied: seq<string>

    ghost predicate Valid()
      reads this
    {
      probed == hasServerSideApply.Some?
    }

    ghost function Abstract(): State
      reads this
    {
      State(if !probed then Unprobed else if hasServerSideApply == Some(true) then ServerSide else ClientSide, applied)
    }

    constructor ()
      ensures Valid() && Abstract() == FRESH
    {
      hasServerSideApply, probed, applied := None, false, [];
    }

    method ServerSideApply(c: Call) returns (answer: Answer)
      modifies `applied
      ensures answer == c.server && applied == Landed(old(applied), c.item, answer)
    {
      answer := c.server;
      applied := Landed(applied, c.item, answer);
    }

    method ClientSideApply(c: Call) returns (answer: Answer)
      modifies `applied
      ensures answer == c.client && applied == Landed(old(applied), c.item, answer)
    {
      answer := c.client;
      applied := Landed(applied, c.item, answer);
    }

    method Apply(c: Call) returns (ok: bool)
      requires Valid()
      modifies this
      ensures Valid() && (Abstract(), ok) == Applied(old(Abstract()), c)
    {
      var once, failed := false, false;
      if !probed {
        probed, once := true, true;
        var answer := ServerSideApply(c);
        match answer {
          case Incompatible => hasServerSideApply := Some(false);
          case Success => hasServerSideApply := Some(true);
          case Failure(_) => failed := true;
        }
      }
      if failed {
        probed := false;
        return false;
      }
      if hasServerSideApply == Some(true) {
        if !once {
          var answer := ServerSideApply(c);
          return answer.Success?;
        }
        return true;
      }
      var answer := ClientSideApply(c);
      return answer.Success?;
    }
  }

  /** All calls in turn: the final state and each call's result. */
  function RunAll(s: State, calls: seq<Call>): (State, seq<bool>) {
    if calls == [] then (s, []) else
      var n := |calls| - 1;
      var (before, results) := RunAll(s, calls[..n]);
      var (after, ok) := Applied(before, calls[n]);
      (after, results + [ok])
  }

  /** The request that decides a call in a given mode. */
  function Deciding(mode: Mode, c: Call): Answer {
    if mode == ClientSide || (mode == Unprobed && c.server.Incompatible?) then c.client else c.server
  }

  /** How often a call applies its object: once if it succeeds, and once if it fails after the effect. */
  function Times(mode: Mode, c: Call, ok: bool): nat {
    if ok then 1 else if Deciding(mode, c) == Failure(true) then 1 else 0
  }

  function Repeated(item: string, n: nat): seq<string> {
    if n == 0 then [] else Repeated(item, n - 1) + [item]
  }

  /** What the calls should have applied, by their results alone. */
  function Expected(s: State, calls: seq<Call>): seq<string> {
    if calls == [] then [] else
      var n := |calls| - 1;
      var before := RunAll(s, calls[..n]).0;
      var ok := Applied(before, calls[n]).1;
      Expected(s, calls[..n]) + Repeated(calls[n].item, Times(before.mode, calls[n], ok))
  }

  /**
   Over every run, each successful call applied its object exactly once, and a failed call applied nothing unless the
   request that decided it failed after its effect, and then once.
   */
  lemma {:induction false} AppliedExactlyOnce(s: State, calls: seq<Call>)
    ensures |RunAll(s, calls).1| == |calls|
    ensures RunAll(s, calls).0.applied == s.applied + Expected(s, calls)
  {
    if calls != [] {
      var n := |calls| - 1;
      AppliedExactlyOnce(s, calls[..n]);
      OneCall(RunAll(s, calls[..n]).0, calls[n]);
    }
  }

  lemma {:induction false} OneCall(s: State, c: Call)
    ensures var (after, ok) := Applied(s, c);
            && after.applied == s.applied + Repeated(c.item, Times(s.mode, c, ok))
            && (ok <==> Deciding(s.mode, c).Success?)
  {
    assert Repeated(c.item, 1) == Repeated(c.item, 0) + [c.item] == [c.item];
    assert s.applied + [] == s.applied;
  }

  /** The first call whose probe says something. */
  predicate FirstConclusive(calls: seq<Call>, k: int) {
    && 0 <= k < |calls| && !calls[k].server.Failure?
    && forall j :: 0 <= j < k ==> calls[j].server.Failure?
  }

  /** The mode is that of the first conclusive probe and never changes; without one the applier stays unprobed. */
  lemma {:induction false} ModeIsFixedByFirstProbe(calls: seq<Call>)
    ensures var mode := RunAll(FRESH, calls).0.mode;
            && (mode == Unprobed <==> forall j :: 0 <= j < |calls| ==> calls[j].server.Failure?)
            && (forall k :: FirstConclusive(calls, k) ==>
                  mode == if calls[k].server.Success? then ServerSide else ClientSide)
  {
    if calls != [] {
      var n := |calls| - 1;
      var init := calls[..n];
      ModeIsFixedByFirstProbe(init);
      assert forall j :: 0 <= j < n ==> init[j] == calls[j];
      forall k | FirstConclusive(calls, k)
        ensures RunAll(FRESH, calls).0.mode == if calls[k].server.Success? then ServerSide else ClientSide
      {
        if k < n {
          assert FirstConclusive(init, k);
        }
      }
    }
  }
}
