/** Mounting configs and resources: unique volume names and the mounts that refer to them. */
module Volumes {
  import opened Decimal

  datatype Storage = ConfigMapStorage | SecretStorage | PvcStorage
  datatype Config = Config(name: string, storage: Storage, key: string, destination: string)

  datatype Volume = Volume(name: string, storage: Storage, source: string, key: string)
  datatype Mount = Mount(volume: string, subPath: string, readOnly: bool)

  /** `kubernetes.SanitizeLabel` and `filepath.Base`: any functions on strings. */
  type Naming = string -> string

  function Names(vols: seq<Volume>): set<string> {
    set v | v in vols :: v.name
  }

  predicate Distinct(vols: seq<Volume>) {
    forall i, j :: 0 <= i < j < |vols| ==> vols[i].name != vols[j].name
  }

  function Candidate(base: string, suffix: nat): string {
    base + "-" + Format(suffix)
  }

  lemma CandidateInjective(base: string, a: nat, b: nat)
    requires Candidate(base, a) == Candidate(base, b)
    ensures a == b
  {
    var prefix := base + "-";
    assert (prefix + Format(a))[|prefix|..] == Format(a);
    assert (prefix + Format(b))[|prefix|..] == Format(b);
    FormatInjective(a, b);
  }

  lemma {:induction false} NamesBound(vols: seq<Volume>)
    ensures |Names(vols)| <= |vols|
  {
    if vols != [] {
      var n := |vols| - 1;
      NamesBound(vols[..n]);
      assert vols == vols[..n] + [vols[n]];
      assert Names(vols) == Names(vols[..n]) + {vols[n].name};
    }
  }

  /** The candidates tried so far. */
  function Tried(base: string, n: nat): set<string> {
    set i | 1 <= i < n :: Candidate(base, i)
  }

  lemma {:induction false} TriedCount(base: string, n: nat)
    requires n >= 1
    ensures |Tried(base, n)| == n - 1
  {
    if n == 1 {
      assert Tried(base, n) == {};
    } else {
      TriedCount(base, n - 1);
      assert Tried(base, n) == Tried(base, n - 1) + {Candidate(base, n - 1)};
      forall i | 1 <= i < n - 1 ensures Candidate(base, i) != Candidate(base, n - 1) {
        if Candidate(base, i) == Candidate(base, n - 1) {
          CandidateInjective(base, i, n - 1);
        }
      }
    }
  }

  lemma SubsetSize(a: set<string>, b: set<string>)
    requires a <= b
    ensures |a| <= |b|
  {
    assert b == a + (b - a);
  }

  /** Pigeonhole: as many taken candidates as that cannot be, so the search ends. */
  lemma SuffixBound(base: string, n: nat, vols: seq<Volume>)
    requires n >= 1 && Tried(base, n) <= Names(vols)
    ensures n - 1 <= |vols|
  {
    TriedCount(base, n);
    SubsetSize(Tried(base, n), Names(vols));
    NamesBound(vols);
  }

  method VolumeExists(name: string, vols: seq<Volume>) returns (found: bool)
    ensures found == (name in Names(vols))
  {
    var i := 0;
    while i < |vols|
      invariant 0 <= i <= |vols| && name !in Names(vols[..i])
    {
      assert vols[..i + 1] == vols[..i] + [vols[i]];
      if vols[i].name == name {
        assert vols[i] in vols;
        return true;
      }
      i := i + 1;
    }
    assert vols[..i] == vols;
    return false;
  }

  /** The first free suffix, from n on. */
  function FreeSuffix(base: string, n: nat, vols: seq<Volume>): (s: nat)
    requires n >= 1 && Tried(base, n) <= Names(vols)
    ensures s >= n && Candidate(base, s) !in Names(vols) && Tried(base, s) <= Names(vols)
    decreases |vols| + 1 - n
  {
    SuffixBound(base, n, vols);
    if Candidate(base, n) !in Names(vols) then n else
      assert Tried(base, n + 1) == Tried(base, n) + {Candidate(base, n)};
      SuffixBound(base, n + 1, vols);
      FreeSuffix(base, n + 1, vols)
  }

  /** The volume name that is chosen and the name of the resource behind it. */
  function NameFor(name: string, vols: seq<Volume>, sanitize: Naming): (string, string) {
    var base := sanitize(name);
    if base !in Names(vols) then (base, name) else
      assert Tried(base, 1) == {};
      var s := FreeSuffix(base, 1, vols);
      (Candidate(base, s), Candidate(name, s))
  }

  /** The source's open loop. */
  method SanitizeVolumeName(name: string, vols: seq<Volume>, sanitize: Naming)
    returns (volName: string, confName: string)
    ensures (volName, confName) == NameFor(name, vols, sanitize)
  {
    var base := sanitize(name);
    var taken := VolumeExists(base, vols);
    if !taken {
      return base, name;
    }
    var suffix := 1;
    assert Tried(base, 1) == {};
    while true
      invariant suffix >= 1 && Tried(base, suffix) <= Names(vols) && suffix - 1 <= |vols|
      invariant FreeSuffix(base, suffix, vols) == FreeSuffix(base, 1, vols)
      decreases |vols| + 1 - suffix
    {
      var candidate := Candidate(base, suffix);
      taken := VolumeExists(candidate, vols);
      if !taken {
        return candidate, Candidate(name, suffix);
      }
      assert Tried(base, suffix + 1) == Tried(base, suffix) + {candidate};
      SuffixBound(base, suffix + 1, vols);
      suffix := suffix + 1;
    }
  }

  /**
   The name is free; it is the plain one exactly when that is free, and only then the volume refers to the resource
   that was asked for. The search takes at most one candidate more than there are volumes, and takes the first.
   */
  lemma NameIsFree(name: string, vols: seq<Volume>, sanitize: Naming)
    ensures var (volName, confName) := NameFor(name, vols, sanitize);
            && volName !in Names(vols)
            && (sanitize(name) !in Names(vols) <==> volName == sanitize(name))
            && (sanitize(name) !in Names(vols) <==> confName == name)
            && (sanitize(name) in Names(vols) ==>
                  exists s: nat :: 1 <= s <= |vols| + 1 && volName == sanitize(name) + "-" + Format(s) &&
                                   confName == name + "-" + Format(s) &&
                                   forall i: nat :: 1 <= i < s ==> sanitize(name) + "-" + Format(i) in Names(vols))
  {
    var base := sanitize(name);
    if base in Names(vols) {
      assert Tried(base, 1) == {};
      var s := FreeSuffix(base, 1, vols);
      SuffixBound(base, s, vols);
      assert |Candidate(base, s)| > |base| && |Candidate(name, s)| > |name|;
      forall i: nat | 1 <= i < s ensures base + "-" + Format(i) in Names(vols) {
        assert Candidate(base, i) in Tried(base, s);
      }
    }
  }

  function VolumeFor(c: Config, vols: seq<Volume>, sanitize: Naming): Volume {
    var (volName, confName) := NameFor(c.name, vols, sanitize);
    Volume(volName, c.storage, confName, c.key)
  }

  function MountFor(c: Config, volume: string, base: Naming): Mount {
    Mount(volume, if c.destination != "" && c.key != "" then base(c.destination) else "", !c.storage.PvcStorage?)
  }

  function VolumesAfter(vols: seq<Volume>, cs: seq<Config>, sanitize: Naming): seq<Volume>
    decreases |cs|
  {
    if cs == [] then vols else VolumesAfter(vols + [VolumeFor(cs[0], vols, sanitize)], cs[1..], sanitize)
  }

  function MountsFor(vols: seq<Volume>, cs: seq<Config>, sanitize: Naming, base: Naming): seq<Mount>
    decreases |cs|
  {
    if cs == [] then [] else
      var v := VolumeFor(cs[0], vols, sanitize);
      [MountFor(cs[0], v.name, base)] + MountsFor(vols + [v], cs[1..], sanitize, base)
  }

  /** The pod template that the trait fills in. */
  class PodTemplate {
    var vols: seq<Volume>
    var mounts: seq<Mount>
    var initMounts: seq<seq<Mount>>

    constructor (vols: seq<Volume>, mounts: seq<Mount>, initMounts: seq<seq<Mount>>)
      ensures this.vols == vols && this.mounts == mounts && this.initMounts == initMounts
    {
      this.vols, this.mounts, this.initMounts := vols, mounts, initMounts;
    }

    /** One more volume and its mount, in the main container and in every init container. */
    method MountResource(c: Config, sanitize: Naming, base: Naming)
      modifies this
      ensures vols == old(vols) + [VolumeFor(c, old(vols), sanitize)]
      ensures mounts == old(mounts) + [MountFor(c, VolumeFor(c, old(vols), sanitize).name, base)]
      ensures var v, m := vols[|old(vols)|], mounts[|old(mounts)|];
              && v.storage == c.storage && v.key == c.key && (v.name, v.source) == NameFor(c.name, old(vols), sanitize)
              && m.volume == v.name && (m.readOnly <==> c.storage != PvcStorage)
              && m.subPath == if c.destination == "" || c.key == "" then "" else base(c.destination)
      ensures |initMounts| == |old(initMounts)|
      ensures forall i :: 0 <= i < |initMounts| ==>
                initMounts[i] == old(initMounts)[i] + [MountFor(c, VolumeFor(c, old(vols), sanitize).name, base)]
    {
      var refName, confName := SanitizeVolumeName(c.name, vols, sanitize);
      var dstFile := "";
      if c.destination != "" {
        dstFile := if c.key != "" then base(c.destination) else c.key;
      }
      var m := Mount(refName, dstFile, !c.storage.PvcStorage?);
      vols := vols + [Volume(refName, c.storage, confName, c.key)];
      mounts := mounts + [m];
      ghost var inits, v, w := initMounts, vols, mounts;
      var i := 0;
      while i < |initMounts|
        invariant 0 <= i <= |initMounts| == |inits| && vols == v && mounts == w
        invariant forall j :: 0 <= j < i ==> initMounts[j] == inits[j] + [m]
        invariant forall j :: i <= j < |inits| ==> initMounts[j] == inits[j]
      {
        initMounts := initMounts[i := initMounts[i] + [m]];
        i := i + 1;
      }
    }

    /** Configs first, then resources. */
    method MountAll(configs: seq<Config>, resources: seq<Config>, sanitize: Naming, base: Naming)
      modifies this
      ensures vols == VolumesAfter(old(vols), configs + resources, sanitize)
      ensures mounts == old(mounts) + MountsFor(old(vols), configs + resources, sanitize, base)
      ensures |initMounts| == |old(initMounts)|
      ensures forall i :: 0 <= i < |initMounts| ==>
                initMounts[i] == old(initMounts)[i] + MountsFor(old(vols), configs + resources, sanitize, base)
    {
      var all := configs + resources;
      ghost var added := MountsFor(vols, all, sanitize, base);
      var n := 0;
      assert all[0..] == all;
      while n < |all|
        invariant 0 <= n <= |all| && |initMounts| == |old(initMounts)|
        invariant VolumesAfter(vols, all[n..], sanitize) == VolumesAfter(old(vols), all, sanitize)
        invariant mounts + MountsFor(vols, all[n..], sanitize, base) == old(mounts) + added
        invariant forall i :: 0 <= i < |initMounts| ==>
                    initMounts[i] + MountsFor(vols, all[n..], sanitize, base) == old(initMounts)[i] + added
      {
        ghost var v, ms, inits := vols, mounts, initMounts;
        ghost var m := MountFor(all[n], VolumeFor(all[n], v, sanitize).name, base);
        assert all[n..][0] == all[n] && all[n..][1..] == all[n + 1..];
        MountResource(all[n], sanitize, base);
        ghost var rest := MountsFor(vols, all[n + 1..], sanitize, base);
        Regroup(ms, m, rest);
        forall i | 0 <= i < |initMounts| ensures initMounts[i] + rest == old(initMounts)[i] + added {
          Regroup(inits[i], m, rest);
        }
        n := n + 1;
      }
      assert all[n..] == [];
    }
  }

  lemma Regroup(a: seq<Mount>, m: Mount, b: seq<Mount>)
    ensures (a + [m]) + b == a + ([m] + b)
  {
  }

  /** Volume i is the only one the mount can mean. */
  predicate Means(vols: seq<Volume>, i: int, m: Mount)
    requires 0 <= i < |vols|
  {
    vols[i].name == m.volume && forall j :: 0 <= j < |vols| && vols[j].name == m.volume ==> j == i
  }

  /** The mount names exactly one volume. */
  predicate Resolves(m: Mount, vols: seq<Volume>) {
    exists i :: 0 <= i < |vols| && Means(vols, i, m)
  }

  predicate AllResolve(ms: seq<Mount>, vols: seq<Volume>) {
    forall k :: 0 <= k < |ms| ==> Resolves(ms[k], vols)
  }

  lemma StillResolves(vols: seq<Volume>, v: Volume, m: Mount)
    requires v.name !in Names(vols) && Resolves(m, vols)
    ensures Resolves(m, vols + [v])
  {
    var more := vols + [v];
    var i :| 0 <= i < |vols| && Means(vols, i, m);
    assert vols[i] in vols;
    assert forall j :: 0 <= j < |vols| ==> more[j] == vols[j];
    assert Means(more, i, m);
  }

  /** A volume under a new name disturbs no mount, and its own mount finds it. */
  lemma OneMoreVolume(vols: seq<Volume>, v: Volume, m: Mount, ms: seq<Mount>)
    requires Distinct(vols) && v.name !in Names(vols) && m.volume == v.name && AllResolve(ms, vols)
    ensures Distinct(vols + [v]) && AllResolve(ms + [m], vols + [v])
  {
    var more := vols + [v];
    forall i | 0 <= i < |vols| ensures more[i] == vols[i] && vols[i].name != v.name {
      assert vols[i] in vols;
    }
    assert Means(more, |vols|, m);
    forall k | 0 <= k < |ms + [m]| ensures Resolves((ms + [m])[k], more) {
      if k < |ms| {
        StillResolves(vols, v, ms[k]);
      }
    }
  }

  /**
   Any sequence of config and resource mounts keeps the volume names distinct and every mount, old or new, naming
   exactly one volume.
   */
  lemma {:induction false} MountingKeepsNamesUnique(
    vols: seq<Volume>, ms: seq<Mount>, cs: seq<Config>, sanitize: Naming, base: Naming)
    requires Distinct(vols) && AllResolve(ms, vols)
    ensures var after := VolumesAfter(vols, cs, sanitize);
            Distinct(after) && |after| == |vols| + |cs| && AllResolve(ms + MountsFor(vols, cs, sanitize, base), after)
    decreases |cs|
  {
    if cs == [] {
      assert ms + [] == ms;
    } else {
      var v := VolumeFor(cs[0], vols, sanitize);
      var m := MountFor(cs[0], v.name, base);
      NameIsFree(cs[0].name, vols, sanitize);
      OneMoreVolume(vols, v, m, ms);
      MountingKeepsNamesUnique(vols + [v], ms + [m], cs[1..], sanitize, base);
      Regroup(ms, m, MountsFor(vols + [v], cs[1..], sanitize, base));
    }
  }
}
