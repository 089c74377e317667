/**
 Controller selection in the deploying phase: the deployer, cron, deployment and knative-service traits vote on a
 strategy, and the cron and knative-service traits change their own settings while they are configured.
 */
module Controllers {
  import opened Options
  import opened Cron

  datatype Strategy = Deployment | KnativeService | CronJob

  /** What stays fixed during a run. `None` in the source metadata stands for an inspection error. */
  datatype Facts = Facts(
    knativeProfile: bool, synthetic: bool, servingInstalled: bool,
    exposesHttp: Option<bool>, fromUris: Option<seq<Uri>>, passive: set<string>)

  datatype CronConfig = CronConfig(
    enabled: Option<bool>, auto: Option<bool>, fallback: Option<bool>, schedule: string, components: seq<string>)

  /** A vote: a strategy, an abstention, or an error. */
  datatype Vote = For(strategy: Strategy) | Abstains | VoteError

  // Selectors

  function KnativeVote(f: Facts, enabled: Option<bool>): Vote {
    if !enabled.Or(true) then Abstains
    else if !f.servingInstalled then (if enabled.Or(false) then VoteError else Abstains)
    else if enabled.Or(false) then For(KnativeService)
    else match f.exposesHttp
         case None => VoteError
         case Some(exposes) => if exposes then For(KnativeService) else Abstains
  }

  function CronVote(f: Facts, c: CronConfig): Vote {
    if c.fallback.Or(false) then Abstains
    else if c.schedule != "" then For(CronJob)
    else if !c.auto.Or(true) || f.fromUris.None? then Abstains
    else match GlobalCron(f.fromUris.value, f.passive, [])
         case Converted(_) => For(CronJob)
         case NotConvertible => Abstains
         case Panicked => VoteError
  }

  /** The selectors in their selection order: 0, 100, 1000 and 10000. */
  datatype Selector = DeployerSelector | KnativeSelector | CronSelector | DeploymentSelector {
    function SelectionOrder(): int {
      match this
      case DeployerSelector => 0
      case KnativeSelector => 100
      case CronSelector => 1000
      case DeploymentSelector => 10000
    }
  }

  /** The selectors in the order in which their traits run; knative-service only exists in its profile. */
  function Configured(f: Facts): seq<Selector> {
    [DeployerSelector, CronSelector, DeploymentSelector] + if f.knativeProfile then [KnativeSelector] else []
  }

  function Insert(s: Selector, sorted: seq<Selector>): seq<Selector> {
    if sorted == [] || s.SelectionOrder() < sorted[0].SelectionOrder() then [s] + sorted
    else [sorted[0]] + Insert(s, sorted[1..])
  }

  function SortSelectors(ss: seq<Selector>): seq<Selector> {
    if ss == [] then [] else Insert(ss[0], SortSelectors(ss[1..]))
  }

  function VoteOf(f: Facts, c: CronConfig, knative: Option<bool>, s: Selector): Vote {
    match s
    case DeployerSelector => Abstains
    case KnativeSelector => KnativeVote(f, knative)
    case CronSelector => CronVote(f, c)
    case DeploymentSelector => For(Deployment)
  }

  /** The first selector that does not abstain decides; the default is a deployment. */
  function FirstVote(f: Facts, c: CronConfig, knative: Option<bool>, ss: seq<Selector>): Vote {
    if ss == [] then For(Deployment)
    else match VoteOf(f, c, knative, ss[0])
         case Abstains => FirstVote(f, c, knative, ss[1..])
         case vote => vote
  }

  function Determine(f: Facts, c: CronConfig, knative: Option<bool>): Vote {
    FirstVote(f, c, knative, SortSelectors(Configured(f)))
  }

  // The cron trait

  /** None is an error. */
  function AutoConfigured(f: Facts, c: CronConfig): Option<CronConfig> {
    if f.fromUris.None? then None else
      match GlobalCron(f.fromUris.value, f.passive, [])
      case Panicked => None
      case Converted(info) =>
        Some(WithFallback(f, c.(
                             schedule := if c.schedule == "" then info.schedule else c.schedule,
                             components := UniqueAddAll(c.components, info.components))))
      case NotConvertible => Some(WithFallback(f, c))
  }

  /** With a generic cron endpoint and no schedule, another controller has to run the schedule. */
  function WithFallback(f: Facts, c: CronConfig): CronConfig
    requires f.fromUris.Some?
  {
    if c.schedule == "" && c.components == [] && c.fallback.None? &&
       exists u :: u in f.fromUris.value && u.component == "cron"
    then c.(fallback := Some(true)) else c
  }

  /** The new settings and whether the trait applies; None is an error. */
  function CronConfigured(f: Facts, c: CronConfig, knative: Option<bool>): Option<(CronConfig, bool)> {
    if !c.enabled.Or(true) || f.synthetic then Some((c, false)) else
      var auto := if c.auto.Or(true) then AutoConfigured(f, c) else Some(c);
      if auto.None? then None
      else if auto.value.fallback.Or(false) then Some((auto.value, true))
      else match Determine(f, auto.value, knative)
           case For(CronJob) =>
             var c := if auto.value.schedule != "" then auto.value.(enabled := Some(true)) else auto.value;
             Some((c, c.enabled.Or(false)))
           case For(_) => Some((auto.value, false))
           case _ => None
  }

  class CronTrait {
    var enabled: Option<bool>
    var auto: Option<bool>
    var fallback: Option<bool>
    var schedule: string
    var components: seq<string>

    function Config(): CronConfig
      reads this
    {
      CronConfig(enabled, auto, fallback, schedule, components)
    }

    constructor (c: CronConfig)
      ensures Config() == c
    {
      enabled, auto, fallback, schedule, components := c.enabled, c.auto, c.fallback, c.schedule, c.components;
    }

    method AutoConfigure(f: Facts) returns (ok: bool)
      modifies this
      ensures ok == AutoConfigured(f, old(Config())).Some?
      ensures ok ==> Config() == AutoConfigured(f, old(Config())).value
    {
      if f.fromUris.None? {
        return false;
      }
      var global := GetGlobalCron(f.fromUris.value, f.passive);
      if global.Panicked? {
        return false;
      }
      if schedule == "" && global.Converted? {
        schedule := global.info.schedule;
      }
      if global.Converted? {
        components := WithComponents(components, global.info.components);
      }
      if schedule == "" && components == [] && fallback.None? {
        var uris := f.fromUris.value;
        var i := 0;
        while i < |uris|
          invariant 0 <= i <= |uris| && fallback.None?
          invariant forall j :: 0 <= j < i ==> uris[j].component != "cron"
          invariant enabled == old(enabled) && auto == old(auto) && schedule == "" && components == []
        {
          if uris[i].component == "cron" {
            fallback := Some(true);
            assert uris[i] in uris;
            return true;
          }
          i := i + 1;
        }
      }
      return true;
    }

    method Configure(f: Facts, knative: Option<bool>) returns (ok: bool, applies: bool)
      modifies this
      ensures ok == CronConfigured(f, old(Config()), knative).Some?
      ensures ok ==> (Config(), applies) == CronConfigured(f, old(Config()), knative).value
    {
      applies := false;
      if !enabled.Or(true) || f.synthetic {
        return true, false;
      }
      if auto.Or(true) {
        ok := AutoConfigure(f);
        if !ok {
          return;
        }
      }
      if fallback.Or(false) {
        return true, true;
      }
      var vote := DetermineStrategy(f, Config(), knative);
      if !vote.For? {
        return false, false;
      }
      if vote.strategy != CronJob {
        return true, false;
      }
      if schedule != "" {
        enabled := Some(true);
      }
      return true, enabled.Or(false);
    }
  }

  // The knative-service trait

  /** The new setting and whether the trait applies; None is an error. */
  function KnativeConfigured(
    f: Facts, c: CronConfig, enabled: Option<bool>, controllers: seq<Strategy>): Option<(Option<bool>, bool)>
  {
    if !enabled.Or(true) || Deployment in controllers then Some((enabled, false)) else
      match Determine(f, c, enabled)
      case For(KnativeService) => Some((Some(true), true))
      case For(_) => Some((enabled, enabled.Or(false)))
      case _ => None
  }

  class KnativeServiceTrait {
    var enabled: Option<bool>

    constructor (e: Option<bool>)
      ensures enabled == e
    {
      enabled := e;
    }

    method Configure(f: Facts, c: CronConfig, controllers: seq<Strategy>) returns (ok: bool, applies: bool)
      modifies this
      ensures ok == KnativeConfigured(f, c, old(enabled), controllers).Some?
      ensures ok ==> (enabled, applies) == KnativeConfigured(f, c, old(enabled), controllers).value
    {
      if !enabled.Or(true) || Deployment in controllers {
        return true, false;
      }
      var vote := DetermineStrategy(f, c, enabled);
      if !vote.For? {
        return false, false;
      }
      if vote.strategy == KnativeService {
        enabled := Some(true);
      }
      return true, enabled.Or(false);
    }
  }

  method DetermineStrategy(f: Facts, c: CronConfig, knative: Option<bool>) returns (vote: Vote)
    ensures vote == Determine(f, c, knative)
  {
    var selectors := SortSelectors(Configured(f));
    var i := 0;
    while i < |selectors|
      invariant 0 <= i <= |selectors|
      invariant FirstVote(f, c, knative, selectors[i..]) == Determine(f, c, knative)
    {
      vote := VoteOf(f, c, knative, selectors[i]);
      if !vote.Abstains? {
        return;
      }
      i := i + 1;
    }
    return For(Deployment);
  }

  // The run

  datatype Deployed = Deployed(controllers: seq<Strategy>, cron: CronConfig, knative: Option<bool>) | RunError

  /** The traits in their execution order: cron (1000), deployment (1100), knative-service (1400). */
  function Deploy(f: Facts, c: CronConfig, knative: Option<bool>): Deployed {
    match CronConfigured(f, c, knative)
    case None => RunError
    case Some((c1, applies)) =>
      var controllers := if applies && !c1.fallback.Or(false) then [CronJob] else [];
      match Determine(f, c1, knative)
      case For(strategy) =>
        var controllers := if strategy == Deployment then controllers + [Deployment] else controllers;
        if !f.knativeProfile then Deployed(controllers, c1, knative)
        else (match KnativeConfigured(f, c1, knative, controllers)
              case None => RunError
              case Some((k1, applies)) =>
                Deployed(if applies then controllers + [KnativeService] else controllers, c1, k1))
      case _ => RunError
  }

  method RunDeploying(f: Facts, cron: CronTrait, knative: KnativeServiceTrait) returns (outcome: Deployed)
    modifies cron, knative
    ensures outcome == Deploy(f, old(cron.Config()), old(knative.enabled))
    ensures outcome.Deployed? ==> cron.Config() == outcome.cron && knative.enabled == outcome.knative
  {
    var controllers: seq<Strategy> := [];
    var ok, applies := cron.Configure(f, knative.enabled);
    if !ok {
      return RunError;
    }
    if applies && !cron.fallback.Or(false) {
      controllers := controllers + [CronJob];
    }
    var vote := DetermineStrategy(f, cron.Config(), knative.enabled);
    if !vote.For? {
      return RunError;
    }
    if vote.strategy == Deployment {
      controllers := controllers + [Deployment];
    }
    if f.knativeProfile {
      ok, applies := knative.Configure(f, cron.Config(), controllers);
      if !ok {
        return RunError;
      }
      if applies {
        controllers := controllers + [KnativeService];
      }
    }
    return Deployed(controllers, cron.Config(), knative.enabled);
  }

  // Theorems

  /** Priority of the votes: knative-service, then cron, then deployment. */
  lemma Priority(f: Facts, c: CronConfig, knative: Option<bool>)
    ensures Determine(f, c, knative) ==
            if f.knativeProfile && !KnativeVote(f, knative).Abstains? then KnativeVote(f, knative)
            else if !CronVote(f, c).Abstains? then CronVote(f, c)
            else For(Deployment)
  {
    var last := [CronSelector, DeploymentSelector];
    assert last[1..] == [DeploymentSelector];
    assert FirstVote(f, c, knative, [DeploymentSelector]) == For(Deployment);
    assert FirstVote(f, c, knative, last) == if CronVote(f, c).Abstains? then For(Deployment) else CronVote(f, c);
    if f.knativeProfile {
      SortedWithKnative();
      var ss := [DeployerSelector, KnativeSelector, CronSelector, DeploymentSelector];
      assert ss[1..][1..] == last && ss[1..][0] == KnativeSelector;
      assert FirstVote(f, c, knative, ss) == FirstVote(f, c, knative, ss[1..]);
    } else {
      SortedWithoutKnative();
      var ss := [DeployerSelector, CronSelector, DeploymentSelector];
      assert Configured(f) == ss && ss[1..] == last;
    }
  }

  lemma SortedWithoutKnative()
    ensures var ss := [DeployerSelector, CronSelector, DeploymentSelector]; SortSelectors(ss) == ss
  {
    var ss := [DeployerSelector, CronSelector, DeploymentSelector];
    assert ss[1..] == [CronSelector, DeploymentSelector] && ss[1..][1..] == [DeploymentSelector];
    assert [DeploymentSelector][1..] == [];
    assert SortSelectors([DeploymentSelector]) == Insert(DeploymentSelector, []) == [DeploymentSelector];
    assert SortSelectors(ss[1..]) == Insert(CronSelector, [DeploymentSelector]);
    assert SortSelectors(ss[1..]) == [CronSelector] + [DeploymentSelector];
    assert SortSelectors(ss) == Insert(DeployerSelector, [CronSelector] + [DeploymentSelector]);
  }

  lemma SortedWithKnative()
    ensures SortSelectors([DeployerSelector, CronSelector, DeploymentSelector] + [KnativeSelector]) ==
            [DeployerSelector, KnativeSelector, CronSelector, DeploymentSelector]
  {
    var ss := [DeployerSelector, CronSelector, DeploymentSelector] + [KnativeSelector];
    assert ss[1..] == [CronSelector, DeploymentSelector, KnativeSelector];
    assert ss[1..][1..] == [DeploymentSelector, KnativeSelector] && ss[1..][1..][1..] == [KnativeSelector];
    assert [KnativeSelector][1..] == [];
    var a := SortSelectors([KnativeSelector]);
    assert a == Insert(KnativeSelector, []) == [KnativeSelector];
    var b := SortSelectors(ss[1..][1..]);
    assert a[1..] == [];
    assert b == Insert(DeploymentSelector, a) == [KnativeSelector] + Insert(DeploymentSelector, []);
    assert b == [KnativeSelector, DeploymentSelector] && b[1..] == [DeploymentSelector];
    var c := SortSelectors(ss[1..]);
    assert c == Insert(CronSelector, b) == [KnativeSelector] + Insert(CronSelector, [DeploymentSelector]);
    assert Insert(CronSelector, [DeploymentSelector]) == [CronSelector, DeploymentSelector];
    assert c == [KnativeSelector, CronSelector, DeploymentSelector];
    assert SortSelectors(ss) == Insert(DeployerSelector, c) == [DeployerSelector] + c;
  }

  /** Auto-configuration changes the settings, not the vote. */
  lemma AutoConfigurationKeepsVote(f: Facts, c: CronConfig)
    requires c.auto.Or(true) && AutoConfigured(f, c).Some?
    ensures CronVote(f, AutoConfigured(f, c).value) == CronVote(f, c)
  {
    GlobalCronHasSchedule(f.fromUris.value, f.passive);
  }

  /** A cron vote for a CronJob always comes with a schedule once the trait has configured itself. */
  lemma VoteHasSchedule(f: Facts, c: CronConfig)
    requires !c.auto.Or(true) || AutoConfigured(f, c).Some?
    ensures var c' := if c.auto.Or(true) then AutoConfigured(f, c).value else c;
            CronVote(f, c') == For(CronJob) ==> c'.schedule != "" && !c'.fallback.Or(false)
  {
    if f.fromUris.Some? {
      GlobalCronHasSchedule(f.fromUris.value, f.passive);
    }
  }

  /** The cron trait does not run, so that it can vote but never create its CronJob. */
  predicate CronOff(f: Facts, c: CronConfig) {
    !c.enabled.Or(true) || f.synthetic
  }

  /**
   One controller per run. In every run without error the vote is the same before, during and after the traits change
   themselves, and the controllers created are exactly the one voted for; only a CronJob vote by a cron trait that is
   off leaves the Integration without a controller.
   */
  lemma OneController(f: Facts, c: CronConfig, knative: Option<bool>)
    requires Deploy(f, c, knative).Deployed?
    ensures var run := Deploy(f, c, knative);
            && Determine(f, c, knative).For?
            && Determine(f, run.cron, run.knative) == Determine(f, c, knative)
            && var strategy := Determine(f, c, knative).strategy;
            if CronOff(f, c) && strategy == CronJob then run.controllers == [] else run.controllers == [strategy]
  {
    var run := Deploy(f, c, knative);
    var c1 := CronConfigured(f, c, knative).value.0;
    CronStepKeepsVote(f, c, knative);
    Priority(f, c1, knative);
    Priority(f, c1, run.knative);
  }

  /** The cron trait's own step: same vote afterwards, and a CronJob exactly if that is the vote and the trait is on. */
  lemma CronStepKeepsVote(f: Facts, c: CronConfig, knative: Option<bool>)
    requires CronConfigured(f, c, knative).Some?
    ensures var (c1, applies) := CronConfigured(f, c, knative).value;
            && Determine(f, c1, knative) == Determine(f, c, knative)
            && (applies && !c1.fallback.Or(false) <==>
                  !CronOff(f, c) && Determine(f, c, knative) == For(CronJob))
  {
    var (c1, applies) := CronConfigured(f, c, knative).value;
    Priority(f, c, knative);
    Priority(f, c1, knative);
    if !CronOff(f, c) {
      VoteHasSchedule(f, c);
      if c.auto.Or(true) {
        AutoConfigurationKeepsVote(f, c);
        Priority(f, AutoConfigured(f, c).value, knative);
      }
    }
  }

  /** A disabled cron trait with a schedule leaves the Integration without a controller. */
  lemma DisabledCronStillVotes(f: Facts)
    requires !f.knativeProfile
    ensures var c := CronConfig(Some(false), None, None, "0 0 * * ?", []);
            Deploy(f, c, None) == Deployed([], c, None)
  {
    Priority(f, CronConfig(Some(false), None, None, "0 0 * * ?", []), None);
  }

  // The choice, from the inputs alone

  /** A Knative Service is wanted, and can be had. */
  predicate WantsKnative(f: Facts, knative: Option<bool>) {
    && f.knativeProfile && f.servingInstalled && knative != Some(false)
    && (knative == Some(true) || f.exposesHttp == Some(true))
  }

  /** A Knative Service is required that cannot be had, or the sources cannot be inspected for it. */
  predicate KnativeFails(f: Facts, knative: Option<bool>) {
    && f.knativeProfile
    && if f.servingInstalled then knative == None && f.exposesHttp == None else knative == Some(true)
  }

  /** Every endpoint is convertible or passive, and the convertible ones agree on a schedule. */
  predicate HasCommonSchedule(us: seq<Uri>, passive: set<string>) {
    && (forall i :: 0 <= i < |us| ==> us[i].component in {"timer", "quartz", "cron"} || us[i].component in passive)
    && var cs := Conversions(SupportedOf(us));
    && cs != [] && AllConverted(cs) && PairwiseEquivalent(cs)
  }

  /** The cron trait asks for a CronJob: no fallback, and a schedule of its own or the common one of the endpoints. */
  predicate WantsCronJob(f: Facts, c: CronConfig) {
    && c.fallback != Some(true)
    && (c.schedule != "" ||
        (c.auto != Some(false) && f.fromUris.Some? && HasCommonSchedule(f.fromUris.value, f.passive)))
  }

  lemma CommonScheduleExactly(us: seq<Uri>, passive: set<string>)
    ensures GlobalCron(us, passive, []).Converted? <==> HasCommonSchedule(us, passive)
  {
    GlobalCronExactly(us, passive, []);
    assert [] + SupportedOf(us) == SupportedOf(us);
    CommonSchedule(Conversions(SupportedOf(us)));
  }

  /** Inspecting the endpoints for a schedule panics, on a timer period of more than 64 bits. */
  predicate EndpointsPanic(f: Facts) {
    f.fromUris.Some? && GlobalCron(f.fromUris.value, f.passive, []).Panicked?
  }

  /** What decides the vote, for all facts and settings. */
  lemma VoteFromInputs(f: Facts, c: CronConfig, knative: Option<bool>)
    ensures var vote := Determine(f, c, knative);
            && (vote == For(KnativeService) <==> WantsKnative(f, knative))
            && (vote == VoteError <==>
                  || KnativeFails(f, knative)
                  || (!WantsKnative(f, knative) && c.fallback != Some(true) && c.schedule == "" &&
                      c.auto != Some(false) && EndpointsPanic(f)))
            && (vote == For(CronJob) <==>
                  !WantsKnative(f, knative) && !KnativeFails(f, knative) && WantsCronJob(f, c))
  {
    Priority(f, c, knative);
    if f.fromUris.Some? {
      CommonScheduleExactly(f.fromUris.value, f.passive);
    }
  }

  /**
   The controllers of a deploying run, from its inputs alone: the one that is wanted first, and a Deployment when
   nothing else is wanted; a cron trait that is off still wants a CronJob, and then there is none.
   */
  lemma ControllersFromInputs(f: Facts, c: CronConfig, knative: Option<bool>)
    requires Deploy(f, c, knative).Deployed?
    ensures Deploy(f, c, knative).controllers ==
            if WantsKnative(f, knative) then [KnativeService]
            else if !WantsCronJob(f, c) then [Deployment]
            else if c.enabled == Some(false) || f.synthetic then []
            else [CronJob]
  {
    OneController(f, c, knative);
    VoteFromInputs(f, c, knative);
  }

  /** And a run fails exactly when the Knative side fails or the endpoints that are looked at cannot be inspected. */
  lemma FailsExactly(f: Facts, c: CronConfig, knative: Option<bool>)
    ensures Deploy(f, c, knative).RunError? <==>
              || KnativeFails(f, knative)
              || (c.enabled != Some(false) && !f.synthetic && c.auto != Some(false) &&
                  (f.fromUris.None? || EndpointsPanic(f)))
              || (!WantsKnative(f, knative) && c.fallback != Some(true) && c.schedule == "" && c.auto != Some(false) &&
                  EndpointsPanic(f))
  {
    Priority(f, c, knative);
    if CronConfigured(f, c, knative).Some? {
      var (c1, applies) := CronConfigured(f, c, knative).value;
      CronStepKeepsVote(f, c, knative);
      Priority(f, c1, knative);
      Priority(f, c1, Some(true));
    }
    if c.auto.Or(true) && AutoConfigured(f, c).Some? {
      AutoConfigurationKeepsVote(f, c);
      Priority(f, AutoConfigured(f, c).value, knative);
    }
  }

  predicate IsOff(f: Facts, c: CronConfig) {
    c.enabled == Some(false) || f.synthetic
  }

  /** The endpoints agree on a schedule and the trait may take it over. */
  predicate TakesSchedule(f: Facts, c: CronConfig) {
    c.auto != Some(false) && f.fromUris.Some? && HasCommonSchedule(f.fromUris.value, f.passive)
  }

  /** Nothing is configured, nothing can be taken over, and there is a generic cron endpoint to take care of. */
  predicate FallsBack(f: Facts, c: CronConfig) {
    && c.auto != Some(false) && c.fallback == None && c.schedule == "" && c.components == []
    && f.fromUris.Some? && !HasCommonSchedule(f.fromUris.value, f.passive)
    && exists i :: 0 <= i < |f.fromUris.value| && f.fromUris.value[i].component == "cron"
  }

  /** The schedule of the first convertible endpoint. */
  function FirstSchedule(us: seq<Uri>): string {
    var cs := Conversions(SupportedOf(us));
    if cs != [] && cs[0].Converted? then cs[0].info.schedule else ""
  }

  /** What auto-configuration makes of the settings. */
  lemma AutoSettings(f: Facts, c: CronConfig)
    requires c.auto.Or(true) && AutoConfigured(f, c).Some?
    ensures var c1 := AutoConfigured(f, c).value;
            && f.fromUris.Some? && c1.auto == c.auto && c1.enabled == c.enabled
            && c1.fallback == (if FallsBack(f, c) then Some(true) else c.fallback)
            && c1.schedule ==
               (if c.schedule == "" && TakesSchedule(f, c) then FirstSchedule(f.fromUris.value) else c.schedule)
            && (!TakesSchedule(f, c) ==> c1.components == c.components)
            && (TakesSchedule(f, c) ==>
                  Elements(c1.components) ==
                  Elements(c.components) + ComponentsOf(Conversions(SupportedOf(f.fromUris.value))))
  {
    var us := f.fromUris.value;
    var global := GlobalCron(us, f.passive, []);
    CommonScheduleExactly(us, f.passive);
    GlobalCronExactly(us, f.passive, []);
    assert [] + SupportedOf(us) == SupportedOf(us);
    CommonSchedule(Conversions(SupportedOf(us)));
    GlobalCronHasSchedule(us, f.passive);
    if global.Converted? {
      UniqueAddAllElements(c.components, global.info.components);
    }
    assert (exists u :: u in us && u.component == "cron") <==> exists i :: 0 <= i < |us| && us[i].component == "cron";
  }

  /** What configuring the cron trait makes of its settings, and whether it runs: for its CronJob, or in fallback. */
  lemma CronSettings(f: Facts, c: CronConfig, knative: Option<bool>)
    requires CronConfigured(f, c, knative).Some?
    ensures var (c1, applies) := CronConfigured(f, c, knative).value;
            var creates := !IsOff(f, c) && !WantsKnative(f, knative) && !KnativeFails(f, knative) && WantsCronJob(f, c);
            var c2 := if !IsOff(f, c) && c.auto != Some(false) then AutoConfigured(f, c).Or(c) else c;
            && (applies <==> creates || (!IsOff(f, c) && c2.fallback == Some(true)))
            && c1 == if creates then c2.(enabled := Some(true)) else c2
  {
    CronStepKeepsVote(f, c, knative);
    VoteFromInputs(f, c, knative);
    if !IsOff(f, c) {
      VoteHasSchedule(f, c);
      if c.auto.Or(true) {
        AutoConfigurationKeepsVote(f, c);
        Priority(f, AutoConfigured(f, c).value, knative);
        Priority(f, c, knative);
      }
    }
  }

  /** The settings after a whole run are those, and a knative-service trait whose service is wanted is enabled. */
  lemma SettingsAfterRun(f: Facts, c: CronConfig, knative: Option<bool>)
    requires Deploy(f, c, knative).Deployed?
    ensures CronConfigured(f, c, knative).Some?
    ensures Deploy(f, c, knative).cron == CronConfigured(f, c, knative).value.0
    ensures Deploy(f, c, knative).knative == if WantsKnative(f, knative) then Some(true) else knative
  {
    OneController(f, c, knative);
    CronStepKeepsVote(f, c, knative);
    VoteFromInputs(f, c, knative);
  }
}
