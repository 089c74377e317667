/** Deciding whether an IntegrationKit that was built before can serve an Integration. */
module KitMatching {
  import opened Options

  // Sorting strings, byte by byte

  predicate Leq(a: string, b: string) {
    a == "" || (b != "" && (a[0] < b[0] || (a[0] == b[0] && Leq(a[1..], b[1..]))))
  }

  lemma {:induction false} LeqTotal(a: string, b: string)
    ensures Leq(a, b) || Leq(b, a)
  {
    if a != "" && b != "" {
      LeqTotal(a[1..], b[1..]);
    }
  }

  lemma {:induction false} LeqAntisymmetric(a: string, b: string)
    requires Leq(a, b) && Leq(b, a)
    ensures a == b
  {
    if a != "" && b != "" {
      LeqAntisymmetric(a[1..], b[1..]);
      assert a == [a[0]] + a[1..] && b == [b[0]] + b[1..];
    }
  }

  lemma {:induction false} LeqTransitive(a: string, b: string, c: string)
    requires Leq(a, b) && Leq(b, c)
    ensures Leq(a, c)
  {
    if a != "" && a[0] == b[0] && b[0] == c[0] {
      LeqTransitive(a[1..], b[1..], c[1..]);
    }
  }

  function Insert(x: string, s: seq<string>): seq<string> {
    if s == [] || Leq(x, s[0]) then [x] + s else [s[0]] + Insert(x, s[1..])
  }

  /** `slices.Sort`. */
  function Sort(s: seq<string>): seq<string> {
    if s == [] then [] else Insert(s[0], Sort(s[1..]))
  }

  predicate Sorted(s: seq<string>) {
    forall i, j :: 0 <= i < j < |s| ==> Leq(s[i], s[j])
  }

  lemma {:induction false} InsertKeeps(x: string, s: seq<string>)
    ensures multiset(Insert(x, s)) == multiset(s) + multiset{x}
  {
    if s != [] && !Leq(x, s[0]) {
      InsertKeeps(x, s[1..]);
      assert s == [s[0]] + s[1..];
    }
  }

  lemma {:induction false} InsertSorts(x: string, s: seq<string>)
    requires Sorted(s)
    ensures Sorted(Insert(x, s))
    ensures forall y :: y in Insert(x, s) ==> y == x || y in s
  {
    if s == [] {
    } else if Leq(x, s[0]) {
      forall j | 0 <= j < |s| ensures Leq(x, s[j]) {
        if j > 0 {
          LeqTransitive(x, s[0], s[j]);
        }
      }
    } else {
      LeqTotal(x, s[0]);
      InsertSorts(x, s[1..]);
      var rest := Insert(x, s[1..]);
      forall j | 0 <= j < |rest| ensures Leq(s[0], rest[j]) {
        assert rest[j] in rest;
      }
    }
  }

  lemma {:induction false} SortSorts(s: seq<string>)
    ensures Sorted(Sort(s)) && multiset(Sort(s)) == multiset(s)
  {
    if s != [] {
      SortSorts(s[1..]);
      InsertSorts(s[0], Sort(s[1..]));
      InsertKeeps(s[0], Sort(s[1..]));
      assert s == [s[0]] + s[1..];
    }
  }

  lemma SortLength(s: seq<string>)
    ensures |Sort(s)| == |s|
  {
    SortSorts(s);
    assert |multiset(Sort(s))| == |multiset(s)|;
  }

  lemma HeadIsLeast(s: seq<string>, x: string)
    requires Sorted(s) && s != [] && x in s
    ensures Leq(s[0], x)
  {
    var i :| 0 <= i < |s| && s[i] == x;
    if i == 0 {
      LeqTotal(x, x);
    }
  }

  lemma TailMultiset(s: seq<string>)
    requires s != []
    ensures multiset(s[1..]) == multiset(s) - multiset{s[0]}
  {
    assert s == [s[0]] + s[1..];
  }

  lemma SameHead(a: seq<string>, b: seq<string>)
    requires Sorted(a) && Sorted(b) && a != [] && b != [] && multiset(a) == multiset(b)
    ensures a[0] == b[0]
  {
    assert a[0] in multiset(b) && b[0] in multiset(a);
    HeadIsLeast(a, b[0]);
    HeadIsLeast(b, a[0]);
    LeqAntisymmetric(a[0], b[0]);
  }

  lemma {:induction false} SortedIsUnique(a: seq<string>, b: seq<string>)
    requires Sorted(a) && Sorted(b) && multiset(a) == multiset(b)
    ensures a == b
  {
    assert |multiset(a)| == |a| && |multiset(b)| == |b|;
    if a != [] {
      SameHead(a, b);
      TailMultiset(a);
      TailMultiset(b);
      SortedIsUnique(a[1..], b[1..]);
      assert a == [a[0]] + a[1..] && b == [b[0]] + b[1..];
    }
  }

  /** Comparing sorted copies is comparing multisets. */
  lemma SortedCopiesEqual(a: seq<string>, b: seq<string>)
    ensures Sort(a) == Sort(b) <==> multiset(a) == multiset(b)
  {
    SortSorts(a);
    SortSorts(b);
    if multiset(a) == multiset(b) {
      SortedIsUnique(Sort(a), Sort(b));
    }
  }

  // Builder trait

  method SortInPlace(a: array<string>)
    modifies a
    ensures a[..] == Sort(old(a[..]))
  {
    var sorted := Sort(a[..]);
    SortLength(a[..]);
    var i := 0;
    while i < a.Length
      invariant 0 <= i <= a.Length && a[..i] == sorted[..i]
    {
      a[i] := sorted[i];
      i := i + 1;
    }
  }

  method SortedCopy(a: array<string>) returns (c: array<string>)
    ensures fresh(c) && c[..] == Sort(a[..])
  {
    c := new string[a.Length](i requires 0 <= i < a.Length reads a => a[i]);
    assert c[..] == a[..];
    SortInPlace(c);
  }

  /** The builder settings by value. */
  datatype BuilderConfig = BuilderConfig(baseImage: string, properties: seq<string>, tasks: seq<string>)

  predicate BuilderMatches(t: BuilderConfig, other: BuilderConfig) {
    t.baseImage == other.baseImage && multiset(t.properties) == multiset(other.properties) &&
    multiset(t.tasks) == multiset(other.tasks)
  }

  class BuilderTrait {
    var baseImage: string
    var properties: array<string>
    var tasks: array<string>

    constructor (c: BuilderConfig)
      ensures fresh(properties) && fresh(tasks) && Config() == c
    {
      baseImage := c.baseImage;
      properties := new string[|c.properties|](i requires 0 <= i < |c.properties| => c.properties[i]);
      tasks := new string[|c.tasks|](i requires 0 <= i < |c.tasks| => c.tasks[i]);
      new;
      assert properties[..] == c.properties && tasks[..] == c.tasks;
    }

    function Config(): BuilderConfig
      reads this, properties, tasks
    {
      BuilderConfig(baseImage, properties[..], tasks[..])
    }

    /** Sorts copies only: with an empty modifies clause neither trait changes. */
    method Matches(other: BuilderTrait) returns (match_: bool)
      ensures match_ == BuilderMatches(Config(), other.Config())
    {
      if baseImage != other.baseImage || properties.Length != other.properties.Length ||
         tasks.Length != other.tasks.Length
      {
        assert |multiset(properties[..])| == properties.Length;
        assert |multiset(other.properties[..])| == other.properties.Length;
        assert |multiset(tasks[..])| == tasks.Length && |multiset(other.tasks[..])| == other.tasks.Length;
        return false;
      }
      SortedCopiesEqual(properties[..], other.properties[..]);
      SortedCopiesEqual(tasks[..], other.tasks[..]);
      var a := SortedCopy(properties);
      var b := SortedCopy(other.properties);
      if a[..] != b[..] {
        return false;
      }
      var c := SortedCopy(tasks);
      var d := SortedCopy(other.tasks);
      return c[..] == d[..];
    }
  }

  // Quarkus trait

  const JVM := "jvm"
  const DEFAULT_NATIVE_IMAGE := "quay.io/quarkus/quarkus-micro-image:2.0"

  datatype QuarkusConfig = QuarkusConfig(modes: seq<string>, nativeBaseImage: string)

  function EffectiveModes(q: QuarkusConfig): set<string> {
    if q.modes == [] then {JVM} else set m | m in q.modes
  }

  function EffectiveImage(q: QuarkusConfig): string {
    if q.nativeBaseImage == "" then DEFAULT_NATIVE_IMAGE else q.nativeBaseImage
  }

  predicate QuarkusMatches(t: QuarkusConfig, other: QuarkusConfig) {
    EffectiveModes(t) <= EffectiveModes(other) && EffectiveImage(t) == EffectiveImage(other)
  }

  method MatchQuarkus(t: QuarkusConfig, other: QuarkusConfig) returns (match_: bool)
    ensures match_ == QuarkusMatches(t, other)
  {
    if |t.modes| == 0 && |other.modes| != 0 && JVM !in other.modes {
      return false;
    }
    var i := 0;
    while i < |t.modes|
      invariant 0 <= i <= |t.modes|
      invariant forall j :: 0 <= j < i ==> t.modes[j] in EffectiveModes(other)
    {
      var mode := t.modes[i];
      if !(mode == JVM && |other.modes| == 0) && mode !in other.modes {
        assert mode in EffectiveModes(t);
        return false;
      }
      i := i + 1;
    }
    var image := t.nativeBaseImage;
    if image == "" {
      image := DEFAULT_NATIVE_IMAGE;
    }
    var otherImage := other.nativeBaseImage;
    if otherImage == "" {
      otherImage := DEFAULT_NATIVE_IMAGE;
    }
    return image == otherImage;
  }

  // All traits that influence a kit

  /** The decoded settings of one trait. */
  datatype Setting = Camel(runtimeVersion: string) | Builder(builder: BuilderConfig) | Quarkus(quarkus: QuarkusConfig)

  /** The options of an Integration or a kit; None is a setting that cannot be decoded. */
  type TraitOptions = map<string, Option<Setting>>

  const INFLUENCING := ["camel", "builder", "quarkus"]

  function Zero(id: string): Setting {
    if id == "camel" then Camel("")
    else if id == "builder" then Builder(BuilderConfig("", [], []))
    else Quarkus(QuarkusConfig([], ""))
  }

  /** Missing options decode to the trait's zero value. */
  function Decoded(opts: TraitOptions, id: string): Option<Setting> {
    if id in opts then opts[id] else Some(Zero(id))
  }

  /** The kit's trait is asked whether it matches the Integration's. */
  predicate SettingMatches(kit: Setting, it: Setting) {
    match (kit, it)
    case (Camel(a), Camel(b)) => a == b
    case (Builder(a), Builder(b)) => BuilderMatches(a, b)
    case (Quarkus(a), Quarkus(b)) => QuarkusMatches(a, b)
    case _ => false
  }

  /** Every influencing trait can be decoded to a setting of its own kind. */
  predicate Decodable(opts: TraitOptions) {
    forall id :: id in INFLUENCING ==>
      var s := Decoded(opts, id);
      s.Some? && (s.value.Camel? == (id == "camel")) && (s.value.Builder? == (id == "builder"))
  }

  predicate KitMatches(it: TraitOptions, kit: TraitOptions)
    requires Decodable(it) && Decodable(kit)
  {
    forall id :: id in INFLUENCING ==> SettingMatches(Decoded(kit, id).value, Decoded(it, id).value)
  }

  /** The verdict of the traits from the i-th on: the first mismatch or decoding error decides. */
  function Verdict(it: TraitOptions, kit: TraitOptions, i: nat): Option<bool>
    requires i <= |INFLUENCING|
    decreases |INFLUENCING| - i
  {
    if i == |INFLUENCING| then Some(true) else
      var a, b := Decoded(it, INFLUENCING[i]), Decoded(kit, INFLUENCING[i]);
      if a.None? || b.None? then None
      else if !SettingMatches(b.value, a.value) then Some(false)
      else Verdict(it, kit, i + 1)
  }

  /** The loop over the catalog; None is a decoding error. */
  method HasMatchingTraits(it: TraitOptions, kit: TraitOptions) returns (matching: Option<bool>)
    ensures matching == Verdict(it, kit, 0)
    ensures Decodable(it) && Decodable(kit) ==> matching == Some(KitMatches(it, kit))
    ensures matching == Some(true) <==>
              forall id :: id in INFLUENCING ==>
                && Decoded(it, id).Some? && Decoded(kit, id).Some?
                && SettingMatches(Decoded(kit, id).value, Decoded(it, id).value)
    ensures matching == Some(false) ==>
              exists id :: id in INFLUENCING && Decoded(it, id).Some? && Decoded(kit, id).Some? &&
                           !SettingMatches(Decoded(kit, id).value, Decoded(it, id).value)
    ensures matching.None? ==> exists id :: id in INFLUENCING && (Decoded(it, id).None? || Decoded(kit, id).None?)
  {
    var i := 0;
    while i < |INFLUENCING|
      invariant 0 <= i <= |INFLUENCING| && Verdict(it, kit, i) == Verdict(it, kit, 0)
      invariant forall j :: 0 <= j < i ==>
                  && Decoded(it, INFLUENCING[j]).Some? && Decoded(kit, INFLUENCING[j]).Some?
                  && SettingMatches(Decoded(kit, INFLUENCING[j]).value, Decoded(it, INFLUENCING[j]).value)
    {
      var id := INFLUENCING[i];
      assert id in INFLUENCING;
      var a := Decoded(it, id);
      if a.None? {
        return None;
      }
      var b := Decoded(kit, id);
      if b.None? {
        return None;
      }
      var ok := MatchSettings(b.value, a.value);
      if !ok {
        return Some(false);
      }
      i := i + 1;
    }
    return Some(true);
  }

  method MatchSettings(kit: Setting, it: Setting) returns (ok: bool)
    ensures ok == SettingMatches(kit, it)
  {
    match (kit, it)
    case (Camel(a), Camel(b)) =>
      ok := b == a;
    case (Builder(a), Builder(b)) =>
      var ta := new BuilderTrait(a);
      var tb := new BuilderTrait(b);
      ok := ta.Matches(tb);
    case (Quarkus(a), Quarkus(b)) =>
      ok := MatchQuarkus(a, b);
    case _ =>
      ok := false;
  }

  /** Kit matching is a preorder: a kit serves its own settings, and serving is transitive. */
  lemma KitMatchingIsAPreorder(a: TraitOptions, b: TraitOptions, c: TraitOptions)
    requires Decodable(a) && Decodable(b) && Decodable(c)
    ensures KitMatches(a, a)
    ensures KitMatches(a, b) && KitMatches(b, c) ==> KitMatches(a, c)
  {
    if KitMatches(a, b) && KitMatches(b, c) {
      forall id | id in INFLUENCING ensures SettingMatches(Decoded(c, id).value, Decoded(a, id).value) {
        assert SettingMatches(Decoded(b, id).value, Decoded(a, id).value);
        assert SettingMatches(Decoded(c, id).value, Decoded(b, id).value);
      }
    }
  }

  /** It is not symmetric: a kit without modes serves an Integration that also wants native mode, not conversely. */
  lemma KitMatchingIsNotSymmetric()
    ensures var plain: TraitOptions := map[];
            var both: TraitOptions := map["quarkus" := Some(Quarkus(QuarkusConfig([JVM, "native"], "")))];
            Decodable(plain) && Decodable(both) && KitMatches(both, plain) && !KitMatches(plain, both)
  {
    var plain: TraitOptions := map[];
    var modes := QuarkusConfig([JVM, "native"], "");
    var both: TraitOptions := map["quarkus" := Some(Quarkus(modes))];
    assert "camel"[0] != "quarkus"[0] && "builder"[0] != "quarkus"[0] && "camel"[0] != "builder"[0];
    assert modes.modes[0] == JVM && modes.modes[1] == "native";
    assert "native"[0] != JVM[0] && "native" in EffectiveModes(modes);
    assert INFLUENCING[2] == "quarkus" && "quarkus" in INFLUENCING;
  }

  /** The settings an Integration or a kit ends up with, defaults filled in. */
  datatype Effective = Effective(
    runtimeVersion: string, builderImage: string, properties: multiset<string>, tasks: multiset<string>,
    modes: set<string>, nativeImage: string)

  ghost predicate HasCamel(opts: TraitOptions, e: Effective) {
    if "camel" in opts then opts["camel"] == Some(Camel(e.runtimeVersion)) else e.runtimeVersion == ""
  }

  ghost predicate HasBuilder(opts: TraitOptions, e: Effective) {
    if "builder" in opts then
      exists p, t :: opts["builder"] == Some(Builder(BuilderConfig(e.builderImage, p, t))) &&
                     multiset(p) == e.properties && multiset(t) == e.tasks
    else e.builderImage == "" && e.properties == multiset{} && e.tasks == multiset{}
  }

  ghost predicate HasQuarkus(opts: TraitOptions, e: Effective) {
    if "quarkus" in opts then
      exists m: seq<string>, image :: opts["quarkus"] == Some(Quarkus(QuarkusConfig(m, image))) &&
                                      e.modes == (if m == [] then {"jvm"} else set x | x in m) &&
                                      e.nativeImage == (if image == "" then DEFAULT_NATIVE_IMAGE else image)
    else e.modes == {"jvm"} && e.nativeImage == DEFAULT_NATIVE_IMAGE
  }

  predicate MatchesOn(it: TraitOptions, kit: TraitOptions, id: string)
    requires Decodable(it) && Decodable(kit) && id in INFLUENCING
  {
    SettingMatches(Decoded(kit, id).value, Decoded(it, id).value)
  }

  lemma CamelMatches(it: TraitOptions, kit: TraitOptions, a: Effective, b: Effective)
    requires Decodable(it) && Decodable(kit) && HasCamel(it, a) && HasCamel(kit, b)
    ensures "camel" in INFLUENCING && (MatchesOn(it, kit, "camel") <==> a.runtimeVersion == b.runtimeVersion)
  {
    assert INFLUENCING[0] == "camel";
  }

  lemma BuilderMatchesOn(it: TraitOptions, kit: TraitOptions, a: Effective, b: Effective)
    requires Decodable(it) && Decodable(kit) && HasBuilder(it, a) && HasBuilder(kit, b)
    ensures "builder" in INFLUENCING
    ensures MatchesOn(it, kit, "builder") <==>
              a.builderImage == b.builderImage && a.properties == b.properties && a.tasks == b.tasks
  {
    assert INFLUENCING[1] == "builder" && "builder" != "camel";
  }

  lemma QuarkusMatchesOn(it: TraitOptions, kit: TraitOptions, a: Effective, b: Effective)
    requires Decodable(it) && Decodable(kit) && HasQuarkus(it, a) && HasQuarkus(kit, b)
    ensures "quarkus" in INFLUENCING
    ensures MatchesOn(it, kit, "quarkus") <==> b.modes <= a.modes && a.nativeImage == b.nativeImage
  {
    assert INFLUENCING[2] == "quarkus" && "quarkus" != "camel" && "quarkus"[0] != "builder"[0];
  }

  /** A kit matches exactly if its modes are among those wanted and everything else is equal. */
  lemma KitMatchesExactly(it: TraitOptions, kit: TraitOptions, a: Effective, b: Effective)
    requires Decodable(it) && HasCamel(it, a) && HasBuilder(it, a) && HasQuarkus(it, a)
    requires Decodable(kit) && HasCamel(kit, b) && HasBuilder(kit, b) && HasQuarkus(kit, b)
    ensures KitMatches(it, kit) <==> b.modes <= a.modes && b == a.(modes := b.modes)
  {
    CamelMatches(it, kit, a, b);
    BuilderMatchesOn(it, kit, a, b);
    QuarkusMatchesOn(it, kit, a, b);
    assert KitMatches(it, kit) <==> forall id :: id in INFLUENCING ==> MatchesOn(it, kit, id);
    assert forall id :: id in INFLUENCING <==> id == "camel" || id == "builder" || id == "quarkus";
  }
}
