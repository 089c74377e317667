/**
 The numbering of an Integration's sources. The camel trait creates a ConfigMap per source, the mount trait later
 mounts them and writes their locations; each of the three traversals counts on its own.
 */
module Sources {
  import opened Decimal

  datatype Source = Source(name: string, content: string, contentRef: string, contentKey: string, fromKamelet: bool)

  /** Whether a source is embedded in the binary, and how paths are joined. */
  type Embedding = Source -> bool
  type Joining = (string, string) -> string

  const SOURCES_MOUNT_PATH := "/etc/camel/sources"
  const CONTENT_KEY := "content"

  /** The ConfigMap created for a source, numbered. */
  datatype SourceMap = SourceMap(index: nat, content: string) {
    function Name(integration: string): string {
      MapName(integration, index)
    }
  }

  /** A source's volume refers to a created ConfigMap by its number or to the source's own reference. */
  datatype MapRef = Numbered(index: nat) | Named(name: string) {
    function Name(integration: string): string {
      match this case Numbered(i) => MapName(integration, i) case Named(n) => n
    }
  }

  /** Volumes and mounts are named after the index. */
  datatype SourceVolume = SourceVolume(index: nat, configMap: MapRef, key: string, file: string)
  datatype SourceMount = SourceMount(index: nat, path: string, subPath: string)

  function MapName(integration: string, i: nat): string {
    integration + "-source-" + Pad3(i)
  }

  function VolumeName(i: nat): string {
    "i-source-" + Pad3(i)
  }

  function LocationKey(i: nat): string {
    "camel.k.sources[" + Format(i) + "].location"
  }

  function TrimSlash(s: string): string {
    if "/" <= s then s[1..] else s
  }

  /** One leading slash goes, and nothing else. */
  lemma TrimSlashExactly(s: string)
    ensures TrimSlash("/" + s) == s
    ensures (forall rest: string :: s != "/" + rest) ==> TrimSlash(s) == s
  {
    assert ("/" + s)[1..] == s;
    if "/" <= s {
      assert s == "/" + s[1..];
    }
  }

  // Filters

  function Filter(ss: seq<Source>, p: Source -> bool): seq<Source> {
    if ss == [] then [] else
      var n := |ss| - 1;
      if p(ss[n]) then Filter(ss[..n], p) + [ss[n]] else Filter(ss[..n], p)
  }

  lemma FilterSnoc(ss: seq<Source>, s: Source, p: Source -> bool)
    ensures Filter(ss + [s], p) == if p(s) then Filter(ss, p) + [s] else Filter(ss, p)
  {
    assert (ss + [s])[..|ss|] == ss;
  }

  lemma {:induction false} FilterConcat(a: seq<Source>, b: seq<Source>, p: Source -> bool)
    ensures Filter(a + b, p) == Filter(a, p) + Filter(b, p)
    decreases |b|
  {
    if b == [] {
      assert a + b == a;
    } else {
      var n := |b| - 1;
      assert b == b[..n] + [b[n]];
      assert a + b == (a + b[..n]) + [b[n]];
      FilterConcat(a, b[..n], p);
      FilterSnoc(a + b[..n], b[n], p);
    }
  }

  function Both(p: Source -> bool, q: Source -> bool): Source -> bool {
    (s: Source) => p(s) && q(s)
  }

  /** Filtering twice is filtering by both. */
  lemma {:induction false} FilterBoth(ss: seq<Source>, p: Source -> bool, q: Source -> bool)
    ensures Filter(Filter(ss, p), q) == Filter(ss, Both(p, q))
  {
    if ss != [] {
      var n := |ss| - 1;
      FilterBoth(ss[..n], p, q);
      FilterSnoc(Filter(ss[..n], p), ss[n], q);
    }
  }

  lemma {:induction false} FilterSame(ss: seq<Source>, p: Source -> bool, q: Source -> bool)
    requires forall i :: 0 <= i < |ss| ==> p(ss[i]) == q(ss[i])
    ensures Filter(ss, p) == Filter(ss, q)
  {
    if ss != [] {
      FilterSame(ss[..|ss| - 1], p, q);
    }
  }

  lemma {:induction false} FilterIsAll(ss: seq<Source>, p: Source -> bool)
    ensures |Filter(ss, p)| <= |ss|
    ensures Filter(ss, p) == ss <==> forall i :: 0 <= i < |ss| ==> p(ss[i])
  {
    if ss != [] {
      var n := |ss| - 1;
      FilterIsAll(ss[..n], p);
      assert ss == ss[..n] + [ss[n]];
      assert forall i :: 0 <= i < n ==> ss[..n][i] == ss[i];
    }
  }

  /** What is mounted: neither embedded nor part of a Kamelet. */
  function MountTest(embedded: Embedding): Source -> bool {
    (s: Source) => !embedded(s) && !s.fromKamelet
  }

  function Mounted(ss: seq<Source>, embedded: Embedding): seq<Source> {
    Filter(ss, MountTest(embedded))
  }

  function CreateTest(): Source -> bool {
    (s: Source) => s.contentRef == ""
  }

  /** The sources without a reference, for which a ConfigMap is created. */
  function Created(ss: seq<Source>): seq<Source> {
    Filter(ss, CreateTest())
  }

  lemma {:induction false} FilterKeeps(ss: seq<Source>, p: Source -> bool, s: Source)
    ensures multiset(Filter(ss, p))[s] == if p(s) then multiset(ss)[s] else 0
  {
    if ss != [] {
      var n := |ss| - 1;
      FilterKeeps(ss[..n], p, s);
      assert ss == ss[..n] + [ss[n]];
    }
  }

  /** Every source that is neither embedded nor part of a Kamelet is mounted, as often as it occurs, and no other. */
  lemma MountedExactly(ss: seq<Source>, embedded: Embedding, s: Source)
    ensures multiset(Mounted(ss, embedded))[s] == if embedded(s) || s.fromKamelet then 0 else multiset(ss)[s]
    ensures multiset(Created(Mounted(ss, embedded)))[s] ==
            if embedded(s) || s.fromKamelet || s.contentRef != "" then 0 else multiset(ss)[s]
  {
    FilterKeeps(ss, MountTest(embedded), s);
    FilterKeeps(Mounted(ss, embedded), CreateTest(), s);
  }

  // First traversal

  function MapsFor(created: seq<Source>): seq<SourceMap> {
    seq(|created|, i requires 0 <= i < |created| => SourceMap(i, created[i].content))
  }

  lemma MapsSnoc(created: seq<Source>, s: Source)
    ensures MapsFor(created + [s]) == MapsFor(created) + [SourceMap(|created|, s.content)]
  {
  }

  method ComputeSourceMaps(ss: seq<Source>, embedded: Embedding) returns (maps: seq<SourceMap>)
    ensures maps == MapsFor(Created(Mounted(ss, embedded)))
  {
    maps := [];
    var i, n := 0, 0;
    while n < |ss|
      invariant 0 <= n <= |ss| && i == |maps| && maps == MapsFor(Created(Mounted(ss[..n], embedded)))
    {
      var s := ss[n];
      assert ss[..n + 1] == ss[..n] + [s];
      FilterSnoc(ss[..n], s, MountTest(embedded));
      FilterSnoc(Mounted(ss[..n], embedded), s, CreateTest());
      MapsSnoc(Created(Mounted(ss[..n], embedded)), s);
      if s.contentRef == "" && !embedded(s) && !s.fromKamelet {
        maps := maps + [SourceMap(i, s.content)];
        i := i + 1;
      }
      n := n + 1;
    }
    assert ss[..n] == ss;
  }

  // Second traversal

  function VolumeAt(ms: seq<Source>, k: nat): SourceVolume
    requires k < |ms|
  {
    var s := ms[k];
    SourceVolume(
      k,
      if s.contentRef != "" then Named(s.contentRef) else Numbered(|Created(ms[..k])|),
      if s.contentKey != "" then s.contentKey else CONTENT_KEY,
      TrimSlash(s.name))
  }

  function MountAt(ms: seq<Source>, k: nat, join: Joining): SourceMount
    requires k < |ms|
  {
    SourceMount(k, join(SOURCES_MOUNT_PATH, TrimSlash(ms[k].name)), TrimSlash(ms[k].name))
  }

  function VolumesFor(ms: seq<Source>): seq<SourceVolume> {
    seq(|ms|, k requires 0 <= k < |ms| => VolumeAt(ms, k))
  }

  function MountsFor(ms: seq<Source>, join: Joining): seq<SourceMount> {
    seq(|ms|, k requires 0 <= k < |ms| => MountAt(ms, k, join))
  }

  lemma VolumesSnoc(ms: seq<Source>, s: Source, join: Joining)
    ensures VolumesFor(ms + [s]) == VolumesFor(ms) + [VolumeAt(ms + [s], |ms|)]
    ensures MountsFor(ms + [s], join) == MountsFor(ms, join) + [MountAt(ms + [s], |ms|, join)]
    ensures (ms + [s])[..|ms|] == ms
  {
    var more := ms + [s];
    forall k | 0 <= k < |ms| ensures VolumeAt(more, k) == VolumeAt(ms, k) {
      assert more[..k] == ms[..k];
    }
  }

  method ConfigureSourceVolumes(ss: seq<Source>, embedded: Embedding, join: Joining)
    returns (vols: seq<SourceVolume>, mounts: seq<SourceMount>)
    ensures vols == VolumesFor(Mounted(ss, embedded)) && mounts == MountsFor(Mounted(ss, embedded), join)
  {
    vols, mounts := [], [];
    var idx, cmx, n := 0, 0, 0;
    ghost var ms: seq<Source> := [];
    while n < |ss|
      invariant 0 <= n <= |ss| && ms == Mounted(ss[..n], embedded) && idx == |ms| && cmx == |Created(ms)|
      invariant vols == VolumesFor(ms) && mounts == MountsFor(ms, join)
    {
      var s := ss[n];
      assert ss[..n + 1] == ss[..n] + [s];
      FilterSnoc(ss[..n], s, MountTest(embedded));
      if !embedded(s) && !s.fromKamelet {
        var configMap := Numbered(cmx);
        if s.contentRef != "" {
          configMap := Named(s.contentRef);
        }
        var key := CONTENT_KEY;
        if s.contentKey != "" {
          key := s.contentKey;
        }
        var file := TrimSlash(s.name);
        VolumesSnoc(ms, s, join);
        FilterSnoc(ms, s, CreateTest());
        vols := vols + [SourceVolume(idx, configMap, key, file)];
        mounts := mounts + [SourceMount(idx, join(SOURCES_MOUNT_PATH, file), file)];
        idx := idx + 1;
        if s.contentRef == "" {
          cmx := cmx + 1;
        }
        ms := ms + [s];
      }
      n := n + 1;
    }
    assert ss[..n] == ss;
  }

  // Third traversal

  /** The location property of each index. */
  function LocationsFor(ms: seq<Source>, join: Joining): map<nat, string> {
    map k: nat | k < |ms| :: "file:" + join(SOURCES_MOUNT_PATH, TrimSlash(ms[k].name))
  }

  lemma LocationsSnoc(ms: seq<Source>, s: Source, join: Joining)
    ensures LocationsFor(ms + [s], join) ==
            LocationsFor(ms, join)[|ms| := "file:" + join(SOURCES_MOUNT_PATH, TrimSlash(s.name))]
  {
  }

  method AddSourceLocations(ss: seq<Source>, embedded: Embedding, join: Joining) returns (locations: map<nat, string>)
    ensures locations == LocationsFor(Mounted(ss, embedded), join)
  {
    locations := map[];
    var idx, n := 0, 0;
    while n < |ss|
      invariant 0 <= n <= |ss| && idx == |Mounted(ss[..n], embedded)|
      invariant locations == LocationsFor(Mounted(ss[..n], embedded), join)
    {
      var s := ss[n];
      assert ss[..n + 1] == ss[..n] + [s];
      FilterSnoc(ss[..n], s, MountTest(embedded));
      LocationsSnoc(Mounted(ss[..n], embedded), s, join);
      if !embedded(s) && !s.fromKamelet {
        locations := locations[idx := "file:" + join(SOURCES_MOUNT_PATH, TrimSlash(s.name))];
        idx := idx + 1;
      }
      n := n + 1;
    }
    assert ss[..n] == ss;
  }

  // Names are numbers

  lemma LocationKeyInjective(a: nat, b: nat)
    requires LocationKey(a) == LocationKey(b)
    ensures a == b
  {
    var prefix, suffix := "camel.k.sources[", "].location";
    assert |Format(a)| == |Format(b)|;
    assert (prefix + Format(a) + suffix)[|prefix|..|prefix| + |Format(a)|] == Format(a);
    assert (prefix + Format(b) + suffix)[|prefix|..|prefix| + |Format(b)|] == Format(b);
    FormatInjective(a, b);
  }

  lemma MapNameInjective(integration: string, a: nat, b: nat)
    requires MapName(integration, a) == MapName(integration, b)
    ensures a == b
  {
    var prefix := integration + "-source-";
    assert (prefix + Pad3(a))[|prefix|..] == Pad3(a);
    assert (prefix + Pad3(b))[|prefix|..] == Pad3(b);
    Pad3Injective(a, b);
  }

  lemma VolumeNameInjective(a: nat, b: nat)
    requires VolumeName(a) == VolumeName(b)
    ensures a == b
  {
    var prefix := "i-source-";
    assert (prefix + Pad3(a))[|prefix|..] == Pad3(a);
    assert (prefix + Pad3(b))[|prefix|..] == Pad3(b);
    Pad3Injective(a, b);
  }

  // Agreement

  /** The counter of the second traversal finds the ConfigMap of the first. */
  lemma {:induction false} CountersAgree(ms: seq<Source>, k: nat)
    requires k < |ms| && ms[k].contentRef == ""
    ensures |Created(ms[..k])| < |Created(ms)| && Created(ms)[|Created(ms[..k])|] == ms[k]
  {
    var n := |ms| - 1;
    if k < n {
      CountersAgree(ms[..n], k);
      assert ms[..n][..k] == ms[..k];
    }
  }

  /**
   The three traversals agree. For a source without a reference the mounted volume names the ConfigMap made for that
   very source and no other one; the location property of an index is the path mounted at that index; and the mounted
   key is the one the ConfigMap holds exactly when the source asks for no other key.
   */
  lemma TraversalsAgree(integration: string, ms: seq<Source>, k: nat, join: Joining)
    requires k < |ms|
    ensures var maps, vol, mount := MapsFor(Created(ms)), VolumesFor(ms)[k], MountsFor(ms, join)[k];
            && VolumeName(mount.index) == VolumeName(vol.index)
            && k in LocationsFor(ms, join) && LocationsFor(ms, join)[k] == "file:" + mount.path
            && (ms[k].contentRef == "" ==>
                  && vol.configMap.Numbered? && vol.configMap.index < |maps|
                  && maps[vol.configMap.index].Name(integration) == vol.configMap.Name(integration)
                  && maps[vol.configMap.index].content == ms[k].content
                  && (forall i :: 0 <= i < |maps| && maps[i].Name(integration) == vol.configMap.Name(integration) ==>
                                    i == vol.configMap.index)
                  && (vol.key == CONTENT_KEY <==> ms[k].contentKey in {"", CONTENT_KEY}))
            && (ms[k].contentRef != "" ==> vol.configMap.Name(integration) == ms[k].contentRef)
  {
    if ms[k].contentRef == "" {
      CountersAgree(ms, k);
      var maps := MapsFor(Created(ms));
      var c := |Created(ms[..k])|;
      forall i | 0 <= i < |maps| && maps[i].Name(integration) == MapName(integration, c) ensures i == c {
        MapNameInjective(integration, i, c);
      }
    }
  }

  // Kamelet sources that arrive in between

  predicate HasName(ss: seq<Source>, name: string) {
    exists i :: 0 <= i < |ss| && ss[i].name == name
  }

  function ShadowTest(generated: seq<Source>): Source -> bool {
    (s: Source) => !HasName(generated, s.name)
  }

  /** Generated sources first, then the spec's sources that no generated one replaces. */
  function AllSources(generated: seq<Source>, spec: seq<Source>): seq<Source> {
    generated + Filter(spec, ShadowTest(generated))
  }

  function NameTest(name: string): Source -> bool {
    (s: Source) => s.name != name
  }

  function Without(ss: seq<Source>, name: string): seq<Source> {
    Filter(ss, NameTest(name))
  }

  function Replaced(ss: seq<Source>, k: Source): (r: seq<Source>)
    ensures |r| == |ss| && forall i :: 0 <= i < |ss| ==> r[i] == if ss[i].name == k.name then k else ss[i]
  {
    seq(|ss|, i requires 0 <= i < |ss| => if ss[i].name == k.name then k else ss[i])
  }

  /** A Kamelet source replaces the generated ones of its name, or is appended. */
  function WithKamelet(generated: seq<Source>, k: Source): seq<Source> {
    if HasName(generated, k.name) then Replaced(generated, k) else generated + [k]
  }

  method AddKameletSource(generated: seq<Source>, k: Source) returns (r: seq<Source>)
    ensures r == WithKamelet(generated, k)
  {
    r := generated;
    var replaced, i := false, 0;
    while i < |generated|
      invariant 0 <= i <= |generated| == |r|
      invariant replaced <==> exists j :: 0 <= j < i && generated[j].name == k.name
      invariant forall j :: 0 <= j < i ==> r[j] == if generated[j].name == k.name then k else generated[j]
      invariant forall j :: i <= j < |r| ==> r[j] == generated[j]
    {
      if r[i].name == k.name {
        replaced := true;
        r := r[i := k];
      }
      i := i + 1;
    }
    if !replaced {
      r := r + [k];
    } else {
      assert r == Replaced(generated, k);
    }
  }

  lemma KameletName(generated: seq<Source>, k: Source, name: string)
    ensures HasName(WithKamelet(generated, k), name) <==> HasName(generated, name) || name == k.name
  {
    var g := WithKamelet(generated, k);
    if i :| 0 <= i < |generated| && generated[i].name == name {
      assert g[i].name == name;
    }
    if HasName(generated, k.name) {
      var i :| 0 <= i < |generated| && generated[i].name == k.name;
      assert g[i].name == k.name;
    } else {
      assert g[|generated|].name == k.name;
    }
    if i :| 0 <= i < |g| && g[i].name == name && name != k.name {
      assert generated[i].name == name;
    }
  }

  /** Replacing by a Kamelet source removes exactly the sources of that name from what is mounted. */
  lemma {:induction false} ReplacedMounted(ss: seq<Source>, k: Source, embedded: Embedding)
    requires k.fromKamelet
    ensures Mounted(Replaced(ss, k), embedded) == Without(Mounted(ss, embedded), k.name)
  {
    if ss != [] {
      var n := |ss| - 1;
      ReplacedMounted(ss[..n], k, embedded);
      assert Replaced(ss, k)[..n] == Replaced(ss[..n], k);
      FilterSnoc(Mounted(ss[..n], embedded), ss[n], NameTest(k.name));
    }
  }

  lemma GeneratedMounted(generated: seq<Source>, k: Source, embedded: Embedding)
    requires k.fromKamelet
    ensures Mounted(WithKamelet(generated, k), embedded) == Without(Mounted(generated, embedded), k.name)
  {
    ReplacedMounted(generated, k, embedded);
    if !HasName(generated, k.name) {
      FilterSnoc(generated, k, MountTest(embedded));
      assert Replaced(generated, k) == generated;
    }
  }

  /** The sources of the spec that stay visible next to a Kamelet source. */
  lemma VisibleWithKamelet(generated: seq<Source>, spec: seq<Source>, k: Source)
    ensures Filter(spec, ShadowTest(WithKamelet(generated, k))) == Without(Filter(spec, ShadowTest(generated)), k.name)
  {
    var g := WithKamelet(generated, k);
    FilterBoth(spec, ShadowTest(generated), NameTest(k.name));
    forall i | 0 <= i < |spec|
      ensures ShadowTest(g)(spec[i]) == Both(ShadowTest(generated), NameTest(k.name))(spec[i])
    {
      KameletName(generated, k, spec[i].name);
    }
    FilterSame(spec, ShadowTest(g), Both(ShadowTest(generated), NameTest(k.name)));
  }

  lemma FiltersCommute(ss: seq<Source>, p: Source -> bool, q: Source -> bool)
    ensures Filter(Filter(ss, p), q) == Filter(Filter(ss, q), p)
  {
    FilterBoth(ss, p, q);
    FilterBoth(ss, q, p);
    FilterSame(ss, Both(p, q), Both(q, p));
  }

  /** A Kamelet source takes the mounted sources of its own name away and nothing else. */
  lemma KameletInserted(generated: seq<Source>, spec: seq<Source>, k: Source, embedded: Embedding)
    requires k.fromKamelet
    ensures Mounted(AllSources(WithKamelet(generated, k), spec), embedded) ==
            Without(Mounted(AllSources(generated, spec), embedded), k.name)
  {
    var g, visible := WithKamelet(generated, k), Filter(spec, ShadowTest(generated));
    calc {
      Mounted(AllSources(g, spec), embedded);
      { FilterConcat(g, Filter(spec, ShadowTest(g)), MountTest(embedded)); }
      Mounted(g, embedded) + Mounted(Filter(spec, ShadowTest(g)), embedded);
      { GeneratedMounted(generated, k, embedded); VisibleWithKamelet(generated, spec, k); }
      Without(Mounted(generated, embedded), k.name) + Mounted(Without(visible, k.name), embedded);
      { FiltersCommute(visible, NameTest(k.name), MountTest(embedded)); }
      Without(Mounted(generated, embedded), k.name) + Without(Mounted(visible, embedded), k.name);
      { FilterConcat(Mounted(generated, embedded), Mounted(visible, embedded), NameTest(k.name)); }
      Without(Mounted(generated, embedded) + Mounted(visible, embedded), k.name);
      { FilterConcat(generated, visible, MountTest(embedded)); }
      Without(Mounted(AllSources(generated, spec), embedded), k.name);
    }
  }

  /**
   So a Kamelet source that arrives between the traversals changes no number exactly when no mounted source has its
   name.
   */
  lemma NumberingIsStable(generated: seq<Source>, spec: seq<Source>, k: Source, embedded: Embedding)
    requires k.fromKamelet
    ensures var ms := Mounted(AllSources(generated, spec), embedded);
            Mounted(AllSources(WithKamelet(generated, k), spec), embedded) == ms <==> !HasName(ms, k.name)
  {
    KameletInserted(generated, spec, k, embedded);
    FilterIsAll(Mounted(AllSources(generated, spec), embedded), NameTest(k.name));
  }

  function WithKamelets(generated: seq<Source>, ks: seq<Source>): seq<Source>
    decreases |ks|
  {
    if ks == [] then generated else WithKamelets(WithKamelet(generated, ks[0]), ks[1..])
  }

  function OtherTest(ks: seq<Source>): Source -> bool {
    (s: Source) => !HasName(ks, s.name)
  }

  /** Any number of Kamelet sources take the mounted sources of their names away and nothing else. */
  lemma {:induction false} KameletsInserted(
    generated: seq<Source>, spec: seq<Source>, ks: seq<Source>, embedded: Embedding)
    requires forall i :: 0 <= i < |ks| ==> ks[i].fromKamelet
    ensures Mounted(AllSources(WithKamelets(generated, ks), spec), embedded) ==
            Filter(Mounted(AllSources(generated, spec), embedded), OtherTest(ks))
    decreases |ks|
  {
    var ms := Mounted(AllSources(generated, spec), embedded);
    if ks == [] {
      FilterIsAll(ms, OtherTest(ks));
    } else {
      var k, rest := ks[0], ks[1..];
      KameletInserted(generated, spec, k, embedded);
      KameletsInserted(WithKamelet(generated, k), spec, rest, embedded);
      FilterBoth(ms, NameTest(k.name), OtherTest(rest));
      forall i | 0 <= i < |ms| ensures Both(NameTest(k.name), OtherTest(rest))(ms[i]) == OtherTest(ks)(ms[i]) {
        HeadOrRest(ks, ms[i].name);
      }
      FilterSame(ms, Both(NameTest(k.name), OtherTest(rest)), OtherTest(ks));
    }
  }

  lemma HeadOrRest(ks: seq<Source>, name: string)
    requires ks != []
    ensures HasName(ks, name) <==> ks[0].name == name || HasName(ks[1..], name)
  {
    if i :| 0 <= i < |ks[1..]| && ks[1..][i].name == name {
      assert ks[i + 1].name == name;
    }
    if i :| 0 < i < |ks| && ks[i].name == name {
      assert ks[1..][i - 1].name == name;
    }
  }

  /** So all of them together change no number exactly when no mounted source has the name of one of them. */
  lemma NumberingIsStableForAll(generated: seq<Source>, spec: seq<Source>, ks: seq<Source>, embedded: Embedding)
    requires forall i :: 0 <= i < |ks| ==> ks[i].fromKamelet
    ensures var ms := Mounted(AllSources(generated, spec), embedded);
            Mounted(AllSources(WithKamelets(generated, ks), spec), embedded) == ms
            <==> forall i :: 0 <= i < |ms| ==> !HasName(ks, ms[i].name)
  {
    KameletsInserted(generated, spec, ks, embedded);
    FilterIsAll(Mounted(AllSources(generated, spec), embedded), OtherTest(ks));
  }
}
