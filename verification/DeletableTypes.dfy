/** Which kinds the collector may delete: discovery filtered by the operator's permissions, cached between calls. */
module DeletableTypes {
  import opened Options
  import opened Cluster

  /** `group/version` as it was parsed; a malformed one only matters when the group has to be taken from it. */
  datatype GroupVersion = Parsed(group: string, version: string) | Malformed
  datatype ApiResource = ApiResource(group: string, name: string, kind: string)
  datatype ApiResourceList = ApiResourceList(gv: GroupVersion, resources: seq<ApiResource>)
  datatype Rule = Rule(verbs: seq<string>, groups: seq<string>, resources: seq<string>)

  const DEFAULT_TYPES: set<Kind> := {
    Kind("", "v1", "ConfigMap"), Kind("apps", "v1", "Deployment"), Kind("", "v1", "Secret"),
    Kind("", "v1", "Service"), Kind("batch", "v1", "CronJob"), Kind("batch", "v1", "Job")
  }

  // Permissions

  /** `strings.Contains`. */
  predicate Contains(s: string, sub: string) {
    exists i :: 0 <= i <= |s| && sub <= s[i..]
  }

  /** `StringSliceContainsAnyOf`: some element has one of the items as a substring. */
  predicate ContainsAnyOf(slice: seq<string>, items: seq<string>) {
    exists i, j :: 0 <= i < |slice| && 0 <= j < |items| && Contains(slice[i], items[j])
  }

  predicate RuleGrants(rule: Rule, group: string, name: string) {
    && ContainsAnyOf(rule.verbs, ["delete", "*"])
    && (group in rule.groups || "*" in rule.groups)
    && (name in rule.resources || "*" in rule.resources)
  }

  predicate Granted(rules: seq<Rule>, group: string, name: string) {
    exists i :: 0 <= i < |rules| && RuleGrants(rules[i], group, name)
  }

  /** The group a resource belongs to: its own, or that of the list it is in. */
  function GroupOf(list: ApiResourceList, r: ApiResource): Option<string> {
    if r.group != "" then Some(r.group)
    else match list.gv case Parsed(g, _) => Some(g) case Malformed => None
  }

  function KindOf(list: ApiResourceList, r: ApiResource): Kind {
    match list.gv case Parsed(g, v) => Kind(g, v, r.kind) case Malformed => Kind("", "", r.kind)
  }

  /** Every resource has a group. */
  predicate Resolvable(lists: seq<ApiResourceList>) {
    forall l, r :: 0 <= l < |lists| && 0 <= r < |lists[l].resources| ==> GroupOf(lists[l], lists[l].resources[r]).Some?
  }

  /** Kind k is granted through resource r of list l. */
  predicate GrantedAs(lists: seq<ApiResourceList>, rules: seq<Rule>, l: int, r: int, k: Kind) {
    && 0 <= l < |lists| && 0 <= r < |lists[l].resources|
    && var resource := lists[l].resources[r];
    && KindOf(lists[l], resource) == k
    && GroupOf(lists[l], resource).Some?
    && Granted(rules, GroupOf(lists[l], resource).value, resource.name)
  }

  /** A rule lets the operator delete resources of this name in this group. */
  predicate MayDelete(rule: Rule, group: string, name: string) {
    && (exists i, verb :: 0 <= i < |rule.verbs| && verb in {"delete", "*"} && Contains(rule.verbs[i], verb))
    && (group in rule.groups || "*" in rule.groups)
    && (name in rule.resources || "*" in rule.resources)
  }

  /**
   What a kind is granted as: it is named after the list's group version and the resource's kind, and some rule grants
   the resource in its own group, or in that of the list when it has none.
   */
  lemma GrantedMeans(lists: seq<ApiResourceList>, rules: seq<Rule>, l: nat, r: nat, k: Kind, gv: GroupVersion)
    requires l < |lists| && r < |lists[l].resources| && gv == lists[l].gv
    ensures var resource := lists[l].resources[r];
            GrantedAs(lists, rules, l, r, k) <==>
              && (if gv.Parsed? then k == Kind(gv.group, gv.version, resource.kind)
                  else k == Kind("", "", resource.kind) && resource.group != "")
              && var group := if resource.group == "" && gv.Parsed? then gv.group else resource.group;
              exists i :: 0 <= i < |rules| && MayDelete(rules[i], group, resource.name)
  {
    var items := ["delete", "*"];
    assert items[0] == "delete" && items[1] == "*";
    forall rule: Rule, group, name ensures MayDelete(rule, group, name) <==> RuleGrants(rule, group, name) {
      if i, verb :| 0 <= i < |rule.verbs| && verb in {"delete", "*"} && Contains(rule.verbs[i], verb) {
        assert verb == items[0] || verb == items[1];
      }
      if i, j :| 0 <= i < |rule.verbs| && 0 <= j < |items| && Contains(rule.verbs[i], items[j]) {
        assert items[j] in {"delete", "*"};
      }
    }
  }

  /** The error is exactly a resource without a group of its own in a list whose group version cannot be parsed. */
  lemma ResolvableMeans(lists: seq<ApiResourceList>)
    ensures Resolvable(lists) <==>
              forall l, r :: 0 <= l < |lists| && 0 <= r < |lists[l].resources| ==>
                lists[l].resources[r].group != "" || lists[l].gv.Parsed?
  {
    assert forall l, r :: 0 <= l < |lists| && 0 <= r < |lists[l].resources| ==>
        (GroupOf(lists[l], lists[l].resources[r]).Some? <==> lists[l].resources[r].group != "" || lists[l].gv.Parsed?);
  }

  method IsGranted(rules: seq<Rule>, group: string, name: string) returns (granted: bool)
    ensures granted == Granted(rules, group, name)
  {
    var i := 0;
    while i < |rules|
      invariant 0 <= i <= |rules|
      invariant forall j :: 0 <= j < i ==> !RuleGrants(rules[j], group, name)
    {
      var rule := rules[i];
      if ContainsAnyOf(rule.verbs, ["delete", "*"]) {
        var g := 0;
        while g < |rule.groups|
          invariant 0 <= g <= |rule.groups|
          invariant (group in rule.groups[..g] || "*" in rule.groups[..g]) ==>
                      name !in rule.resources && "*" !in rule.resources
        {
          var r := 0;
          while r < |rule.resources|
            invariant 0 <= r <= |rule.resources|
            invariant (group == rule.groups[g] || rule.groups[g] == "*") ==>
                        name !in rule.resources[..r] && "*" !in rule.resources[..r]
          {
            if (group == rule.groups[g] || rule.groups[g] == "*") &&
               (name == rule.resources[r] || rule.resources[r] == "*") {
              assert RuleGrants(rules[i], group, name);
              return true;
            }
            r := r + 1;
          }
          assert rule.resources[..r] == rule.resources;
          g := g + 1;
        }
        assert rule.groups[..g] == rule.groups;
      }
      i := i + 1;
    }
    return false;
  }

  /** The nested loops over the discovered lists; None is the error for a group version that cannot be parsed. */
  method GrantedKinds(lists: seq<ApiResourceList>, rules: seq<Rule>) returns (kinds: Option<set<Kind>>)
    ensures kinds.Some? <==> Resolvable(lists)
    ensures kinds.Some? ==> forall k :: k in kinds.value <==> exists l, r :: GrantedAs(lists, rules, l, r, k)
  {
    var found: set<Kind> := {};
    var l := 0;
    while l < |lists|
      invariant 0 <= l <= |lists| && Resolvable(lists[..l])
      invariant forall k :: k in found ==> exists i, r :: GrantedAs(lists, rules, i, r, k)
      invariant forall i, r, k :: GrantedAs(lists, rules, i, r, k) && i < l ==> k in found
    {
      var list := lists[l];
      var r := 0;
      while r < |list.resources|
        invariant 0 <= r <= |list.resources|
        invariant forall j :: 0 <= j < r ==> GroupOf(list, list.resources[j]).Some?
        invariant forall k :: k in found ==> exists i, j :: GrantedAs(lists, rules, i, j, k)
        invariant forall i, j, k :: GrantedAs(lists, rules, i, j, k) && (i < l || (i == l && j < r)) ==> k in found
      {
        var group := GroupOf(list, list.resources[r]);
        if group.None? {
          return None;
        }
        var granted := IsGranted(rules, group.value, list.resources[r].name);
        if granted {
          assert GrantedAs(lists, rules, l, r, KindOf(list, list.resources[r]));
          found := found + {KindOf(list, list.resources[r])};
        }
        r := r + 1;
      }
      l := l + 1;
    }
    assert lists[..l] == lists;
    return Some(found);
  }

  /** The verb test is by substring, so the verb `deletecollection` alone passes for `delete`. */
  lemma CollectionVerbPassesForDelete()
    ensures ContainsAnyOf(["deletecollection"], ["delete", "*"]) && "delete" !in ["deletecollection"]
  {
    var v := "deletecollection";
    assert v[0..] == v && "delete" <= v;
    assert Contains(["deletecollection"][0], ["delete", "*"][0]);
  }

  const STANDARD_VERBS := ["get", "list", "watch", "create", "update", "patch", "delete", "deletecollection", "*"]

  /** Among the standard verbs, exactly that one makes the test differ from asking for the delete permission. */
  lemma VerbTest(verbs: seq<string>)
    requires forall v :: v in verbs ==> v in STANDARD_VERBS
    ensures ContainsAnyOf(verbs, ["delete", "*"]) == ("delete" in verbs || "*" in verbs) <==>
              ("deletecollection" in verbs ==> "delete" in verbs || "*" in verbs)
  {
    CollectionVerbPassesForDelete();
    forall i | 0 <= i < |verbs|
      ensures (Contains(verbs[i], "delete") || Contains(verbs[i], "*")) <==>
                verbs[i] == "delete" || verbs[i] == "*" || verbs[i] == "deletecollection"
    {
      VerbContains(verbs[i]);
    }
    var items := ["delete", "*"];
    assert items[0] == "delete" && items[1] == "*";
    if i :| 0 <= i < |verbs| && verbs[i] in ["delete", "*", "deletecollection"] {
      assert Contains(verbs[i], items[0]) || Contains(verbs[i], items[1]);
    }
  }

  lemma ContainsItsStart(s: string)
    ensures Contains(s, "*") ==> '*' in s
    ensures Contains(s, "delete") ==> exists i :: 0 <= i < |s| - 1 && s[i] == 'd' && s[i + 1] == 'e'
  {
    if Contains(s, "*") {
      var i :| 0 <= i <= |s| && "*" <= s[i..];
      assert s[i] == s[i..][0];
    }
    if Contains(s, "delete") {
      var i :| 0 <= i <= |s| && "delete" <= s[i..];
      assert s[i] == s[i..][0] && s[i + 1] == s[i..][1];
    }
  }

  lemma VerbContains(v: string)
    requires v in STANDARD_VERBS
    ensures (Contains(v, "delete") || Contains(v, "*")) <==> v == "delete" || v == "*" || v == "deletecollection"
  {
    if v == "delete" || v == "deletecollection" || v == "*" {
      assert v[0..] == v && ("delete" <= v || "*" <= v);
    } else {
      ContainsItsStart(v);
    }
  }

  // The cache

  /** What one call is answered by: the rate limiter, or a discovery that may fail. */
  datatype Call =
    | RateLimited
    | DiscoveryFailed
    | Discovered(lists: seq<ApiResourceList>, rules: seq<Rule>)

  /** The outcome of a discovery, with the default types when nothing is granted; None is an error. */
  ghost function Discovery(c: Call): Option<set<Kind>> {
    match c
    case Discovered(lists, rules) =>
      if !Resolvable(lists) then None else
        var kinds := set l, r | 0 <= l < |lists| && 0 <= r < |lists[l].resources| &&
                                GrantedAs(lists, rules, l, r, KindOf(lists[l], lists[l].resources[r]))
                     :: KindOf(lists[l], lists[l].resources[r]);
        Some(if kinds == {} then DEFAULT_TYPES else kinds)
    case _ => None
  }

  /** The types of the last successful discovery, or none yet. */
  ghost function LastDiscovery(calls: seq<Call>): set<Kind> {
    if calls == [] then {} else
      var c := Discovery(calls[|calls| - 1]);
      if c.Some? then c.value else LastDiscovery(calls[..|calls| - 1])
  }

  /** A Go map used as a set: a reference, so handing it out shares it. */
  class TypeSet {
    var kinds: set<Kind>

    constructor (kinds: set<Kind>)
      ensures this.kinds == kinds
    {
      this.kinds := kinds;
    }
  }

  class TypeCache {
    var collectable: TypeSet
    ghost var calls: seq<Call>

    ghost predicate Valid()
      reads this, collectable
    {
      collectable.kinds == LastDiscovery(calls)
    }

    constructor ()
      ensures Valid() && calls == [] && fresh(collectable)
    {
      collectable := new TypeSet({});
      calls := [];
    }

    /**
     Over every sequence of calls: each answer is the last successful discovery, in a map of its own that nobody else
     holds; an error answer leaves the cache as it was.
     */
    method GetDeletableTypes(call: Call) returns (types: Option<TypeSet>)
      requires Valid()
      modifies this
      ensures Valid() && calls == old(calls) + [call]
      ensures types.None? <==> !call.RateLimited? && Discovery(call).None?
      ensures types.Some? ==> fresh(types.value) && types.value != collectable
      ensures types.Some? ==> types.value.kinds == LastDiscovery(calls)
      ensures collectable == old(collectable) || fresh(collectable)
      ensures types.None? ==> collectable == old(collectable)
    {
      calls := calls + [call];
      assert calls[..|calls| - 1] == old(calls);
      match call
      case RateLimited =>
        var copy := new TypeSet(collectable.kinds);
        return Some(copy);
      case DiscoveryFailed =>
        return None;
      case Discovered(lists, rules) =>
        var kinds := GrantedKinds(lists, rules);
        if kinds.None? {
          return None;
        }
        var found := if kinds.value == {} then DEFAULT_TYPES else kinds.value;
        DiscoveryKinds(lists, rules, kinds.value);
        collectable := new TypeSet(found);
        var copy := new TypeSet(found);
        return Some(copy);
    }

    /** The collector's use of the answer: it adds the profile's types to it. These never reach the cache. */
    method TypesForProfile(call: Call, profileTypes: set<Kind>) returns (types: Option<set<Kind>>)
      requires Valid()
      modifies this
      ensures Valid() && calls == old(calls) + [call]
      ensures types.None? <==> !call.RateLimited? && Discovery(call).None?
      ensures types.Some? ==> types.value == LastDiscovery(calls) + profileTypes
      ensures collectable.kinds == LastDiscovery(calls)
    {
      var answer := GetDeletableTypes(call);
      if answer.None? {
        return None;
      }
      var mine := answer.value;
      var todo := profileTypes;
      while todo != {}
        invariant todo <= profileTypes && fresh(mine) && mine != collectable
        invariant Valid() && calls == old(calls) + [call]
        invariant mine.kinds == LastDiscovery(calls) + (profileTypes - todo)
        decreases |todo|
      {
        var k :| k in todo;
        if k !in mine.kinds {
          mine.kinds := mine.kinds + {k};
        }
        todo := todo - {k};
      }
      return Some(mine.kinds);
    }
  }

  lemma DiscoveryKinds(lists: seq<ApiResourceList>, rules: seq<Rule>, kinds: set<Kind>)
    requires Resolvable(lists)
    requires forall k :: k in kinds <==> exists l, r :: GrantedAs(lists, rules, l, r, k)
    ensures Discovery(Discovered(lists, rules)) == Some(if kinds == {} then DEFAULT_TYPES else kinds)
  {
    var all := set l, r | 0 <= l < |lists| && 0 <= r < |lists[l].resources| &&
                          GrantedAs(lists, rules, l, r, KindOf(lists[l], lists[l].resources[r]))
               :: KindOf(lists[l], lists[l].resources[r]);
    forall k | k in kinds ensures k in all {
      var l, r :| GrantedAs(lists, rules, l, r, k);
    }
    assert kinds == all;
  }
}
