/** Incremental image builds: choosing a published image as base layer and the artifacts that go on top of it. */
module ImageReuse {
  datatype Artifact = Artifact(id: string, target: string, checksum: string)
  datatype Image = Image(image: string, artifacts: seq<Artifact>)

  const LIB_PREFIX := "dependencies/lib"
  const NO_IMAGE := Image("", [])

  predicate IsLib(a: Artifact) {
    LIB_PREFIX <= a.target
  }

  /** The libraries are what lies in the library directory or below, by prefix. */
  lemma IsLibExactly(a: Artifact)
    ensures IsLib(a) <==> exists rest: string :: a.target == "dependencies/lib" + rest
  {
    if IsLib(a) {
      assert a.target == "dependencies/lib" + a.target[|LIB_PREFIX|..];
    }
  }

  function Libs(artifacts: seq<Artifact>): seq<Artifact> {
    if artifacts == [] then [] else
      var n := |artifacts| - 1;
      Libs(artifacts[..n]) + if IsLib(artifacts[n]) then [artifacts[n]] else []
  }

  /** The required checksums by ID; of several entries with one ID the last wins. */
  function Required(artifacts: seq<Artifact>): map<string, string> {
    if artifacts == [] then map[] else
      var n := |artifacts| - 1;
      Required(artifacts[..n])[artifacts[n].id := artifacts[n].checksum]
  }

  predicate Matches(required: map<string, string>, a: Artifact) {
    a.checksum != "" && a.id in required && required[a.id] == a.checksum
  }

  /** The IDs an image has in common with what is required. */
  function Common(required: map<string, string>, artifacts: seq<Artifact>): set<string> {
    set a | a in artifacts && IsLib(a) && Matches(required, a) :: a.id
  }

  /** The checksum required for an ID is that of its last entry. */
  lemma {:induction false} RequiredExactly(artifacts: seq<Artifact>, id: string)
    ensures id in Required(artifacts) <==> exists i :: 0 <= i < |artifacts| && artifacts[i].id == id
    ensures forall i :: 0 <= i < |artifacts| && artifacts[i].id == id &&
                        (forall j :: i < j < |artifacts| ==> artifacts[j].id != id) ==>
                          id in Required(artifacts) && Required(artifacts)[id] == artifacts[i].checksum
  {
    if artifacts != [] {
      var n := |artifacts| - 1;
      RequiredExactly(artifacts[..n], id);
      assert forall i :: 0 <= i < n ==> artifacts[..n][i] == artifacts[i];
    }
  }

  /** An ID is shared exactly if a library of the image has it with a checksum, and that is the required one. */
  lemma CommonExactly(required: map<string, string>, artifacts: seq<Artifact>, id: string)
    ensures id in Common(required, artifacts) <==>
              exists i :: && 0 <= i < |artifacts| && artifacts[i].id == id && IsLib(artifacts[i])
                          && id in required && artifacts[i].checksum == required[id] != ""
  {
    if i :| 0 <= i < |artifacts| && artifacts[i].id == id && IsLib(artifacts[i]) && Matches(required, artifacts[i]) {
      assert artifacts[i] in artifacts;
    }
  }

  /** The surplus count of the source: artifacts that are neither common nor application artifacts. */
  function Surplus(required: map<string, string>, artifacts: seq<Artifact>): int {
    |artifacts| - |Common(required, artifacts)| - (|artifacts| - |Libs(artifacts)|)
  }

  predicate Eligible(required: map<string, string>, i: Image) {
    Surplus(required, i.artifacts) <= 0
  }

  // The count is sound

  lemma {:induction false} LibsAreThere(artifacts: seq<Artifact>)
    ensures |Libs(artifacts)| <= |artifacts|
    ensures forall a :: a in Libs(artifacts) <==> a in artifacts && IsLib(a)
  {
    if artifacts != [] {
      var n := |artifacts| - 1;
      LibsAreThere(artifacts[..n]);
      assert artifacts == artifacts[..n] + [artifacts[n]];
    }
  }

  function MatchingIds(required: map<string, string>, libs: seq<Artifact>): set<string> {
    set a | a in libs && Matches(required, a) :: a.id
  }

  predicate DistinctIds(libs: seq<Artifact>) {
    forall i, j :: 0 <= i < j < |libs| ==> libs[i].id != libs[j].id
  }

  predicate AllMatch(required: map<string, string>, libs: seq<Artifact>) {
    forall i :: 0 <= i < |libs| ==> Matches(required, libs[i])
  }

  lemma Snoc(required: map<string, string>, init: seq<Artifact>, last: Artifact)
    ensures AllMatch(required, init + [last]) <==> AllMatch(required, init) && Matches(required, last)
    ensures DistinctIds(init + [last]) <==> DistinctIds(init) && forall i :: 0 <= i < |init| ==> init[i].id != last.id
    ensures MatchingIds(required, init + [last]) ==
            MatchingIds(required, init) + if Matches(required, last) then {last.id} else {}
  {
    var libs := init + [last];
    assert libs[|init|] == last && forall i :: 0 <= i < |init| ==> libs[i] == init[i];
  }

  lemma MatchingIdsOfMatching(required: map<string, string>, libs: seq<Artifact>, id: string)
    requires AllMatch(required, libs)
    ensures id in MatchingIds(required, libs) <==> exists i :: 0 <= i < |libs| && libs[i].id == id
  {
    if i :| 0 <= i < |libs| && libs[i].id == id {
      assert libs[i] in libs;
    }
  }

  /** Pigeonhole: there are as many matching IDs as libraries exactly when all match and no ID repeats. */
  lemma {:induction false} Pigeonhole(required: map<string, string>, libs: seq<Artifact>)
    ensures |MatchingIds(required, libs)| <= |libs|
    ensures |MatchingIds(required, libs)| == |libs| <==> AllMatch(required, libs) && DistinctIds(libs)
  {
    if libs != [] {
      var n := |libs| - 1;
      var init, last := libs[..n], libs[n];
      assert libs == init + [last];
      Pigeonhole(required, init);
      Snoc(required, init, last);
      var ids := MatchingIds(required, init);
      if AllMatch(required, init) {
        MatchingIdsOfMatching(required, init, last.id);
      }
      if !Matches(required, last) {
        assert MatchingIds(required, libs) == ids;
      } else if last.id in ids {
        assert MatchingIds(required, libs) == ids;
      } else {
        assert |MatchingIds(required, libs)| == |ids| + 1;
      }
    }
  }

  /**
   The surplus test accepts an image exactly when its library artifacts have distinct IDs and each one matches a
   required ID and checksum.
   */
  lemma SurplusIsSound(required: map<string, string>, i: Image)
    ensures Eligible(required, i) <==> AllMatch(required, Libs(i.artifacts)) && DistinctIds(Libs(i.artifacts))
    ensures Surplus(required, i.artifacts) >= 0
  {
    LibsAreThere(i.artifacts);
    Pigeonhole(required, Libs(i.artifacts));
    assert Common(required, i.artifacts) == MatchingIds(required, Libs(i.artifacts));
  }

  // Choosing the image

  /** Image i is eligible, none shares more libraries, and no later one as many. */
  predicate IsBest(required: map<string, string>, images: seq<Image>, i: int) {
    && 0 <= i < |images| && Eligible(required, images[i])
    && forall j :: 0 <= j < |images| && Eligible(required, images[j]) ==>
         |Common(required, images[j].artifacts)| <
         |Common(required, images[i].artifacts)| + if j <= i then 1 else 0
  }

  /** The answer is the best image with what it shares, or no image when none is eligible. */
  ghost predicate IsAnswer(required: map<string, string>, images: seq<Image>, best: Image, common: set<string>) {
    || (best == NO_IMAGE && common == {} && forall i :: 0 <= i < |images| ==> !Eligible(required, images[i]))
    || exists i :: IsBest(required, images, i) && best == images[i] && common == Common(required, images[i].artifacts)
  }

  /** The comparison of the source finds the best of one image more. */
  lemma OneMoreImage(required: map<string, string>, images: seq<Image>, i: Image, best: Image, common: set<string>)
    requires IsAnswer(required, images, best, common)
    ensures var shared := Common(required, i.artifacts);
            if Eligible(required, i) && |shared| >= |common| then IsAnswer(required, images + [i], i, shared)
            else IsAnswer(required, images + [i], best, common)
  {
    var all, n := images + [i], |images|;
    assert all[n] == i && forall j :: 0 <= j < n ==> all[j] == images[j];
    if Eligible(required, i) && |Common(required, i.artifacts)| >= |common| {
      assert IsBest(required, all, n);
    } else if k :| IsBest(required, images, k) && best == images[k] && common == Common(required, images[k].artifacts) {
      assert IsBest(required, all, k);
    }
  }

  /** There is one best image at most, and the answer is that one. */
  lemma AnswerIsBest(required: map<string, string>, images: seq<Image>, best: Image, common: set<string>)
    requires IsAnswer(required, images, best, common)
    ensures forall i :: IsBest(required, images, i) ==>
                          best == images[i] && common == Common(required, images[i].artifacts)
  {
    forall i, j | IsBest(required, images, i) && IsBest(required, images, j) ensures i == j {}
  }

  /** A best image exists exactly when some image is eligible. */
  lemma {:induction false} BestExists(required: map<string, string>, images: seq<Image>)
    returns (best: Image, common: set<string>)
    ensures IsAnswer(required, images, best, common)
    ensures (exists i :: IsBest(required, images, i)) <==>
              exists i :: 0 <= i < |images| && Eligible(required, images[i])
  {
    best, common := NO_IMAGE, {};
    if images != [] {
      var n := |images| - 1;
      best, common := BestExists(required, images[..n]);
      OneMoreImage(required, images[..n], images[n], best, common);
      assert images == images[..n] + [images[n]];
      var shared := Common(required, images[n].artifacts);
      if Eligible(required, images[n]) && |shared| >= |common| {
        best, common := images[n], shared;
      }
    }
    if i :| IsBest(required, images, i) {
      assert Eligible(required, images[i]);
    }
  }

  method FindBestImage(images: seq<Image>, artifacts: seq<Artifact>) returns (best: Image, common: set<string>)
    ensures IsAnswer(Required(artifacts), images, best, common)
  {
    best, common := NO_IMAGE, {};
    var required: map<string, string> := map[];
    var n := 0;
    while n < |artifacts|
      invariant 0 <= n <= |artifacts| && required == Required(artifacts[..n])
    {
      assert artifacts[..n + 1][..n] == artifacts[..n];
      required := required[artifacts[n].id := artifacts[n].checksum];
      n := n + 1;
    }
    assert artifacts[..n] == artifacts;
    var k := 0;
    while k < |images|
      invariant 0 <= k <= |images|
      invariant IsAnswer(required, images[..k], best, common)
    {
      var nonLib, shared := Inspect(required, images[k].artifacts);
      var surplus := |images[k].artifacts| - |shared| - nonLib;
      OneMoreImage(required, images[..k], images[k], best, common);
      assert images[..k + 1] == images[..k] + [images[k]];
      if surplus <= 0 && |shared| >= |common| {
        best, common := images[k], shared;
      }
      k := k + 1;
    }
    assert images[..k] == images;
  }

  lemma OneMoreArtifact(required: map<string, string>, init: seq<Artifact>, last: Artifact)
    ensures Libs(init + [last]) == Libs(init) + if IsLib(last) then [last] else []
    ensures Common(required, init + [last]) ==
            Common(required, init) + if IsLib(last) && Matches(required, last) then {last.id} else {}
  {
    assert (init + [last])[..|init|] == init;
  }

  /** One pass over the artifacts of an image: how many are not libraries, and which IDs are shared. */
  method Inspect(required: map<string, string>, artifacts: seq<Artifact>) returns (nonLib: nat, shared: set<string>)
    ensures nonLib == |artifacts| - |Libs(artifacts)|
    ensures shared == Common(required, artifacts)
  {
    nonLib, shared := 0, {};
    var n := 0;
    while n < |artifacts|
      invariant 0 <= n <= |artifacts|
      invariant nonLib == n - |Libs(artifacts[..n])| && shared == Common(required, artifacts[..n])
    {
      var a := artifacts[n];
      assert artifacts[..n + 1] == artifacts[..n] + [a];
      OneMoreArtifact(required, artifacts[..n], a);
      if !IsLib(a) {
        nonLib := nonLib + 1;
      } else if a.checksum != "" && (if a.id in required then required[a.id] else "") == a.checksum {
        shared := shared + {a.id};
      }
      n := n + 1;
    }
    assert artifacts[..n] == artifacts;
  }

  // Layering

  /** The required artifacts that are copied on top of the base image, and those left to it. */
  function Selected(artifacts: seq<Artifact>, common: set<string>): seq<Artifact> {
    if artifacts == [] then [] else
      var n := |artifacts| - 1;
      Selected(artifacts[..n], common) + if artifacts[n].id in common then [] else [artifacts[n]]
  }

  function LeftToBase(artifacts: seq<Artifact>, common: set<string>): seq<Artifact> {
    if artifacts == [] then [] else
      var n := |artifacts| - 1;
      LeftToBase(artifacts[..n], common) + if artifacts[n].id in common then [artifacts[n]] else []
  }

  method SelectArtifacts(images: seq<Image>, artifacts: seq<Artifact>, root: string)
    returns (base: string, selected: seq<Artifact>)
    ensures
      || (&& base == root && selected == artifacts
          && forall i :: IsBest(Required(artifacts), images, i) ==> images[i].image == "")
      || exists i :: IsBest(Required(artifacts), images, i) && base == images[i].image != "" &&
                     selected == Selected(artifacts, Common(Required(artifacts), images[i].artifacts))
  {
    base, selected := root, artifacts;
    var best, common := FindBestImage(images, artifacts);
    AnswerIsBest(Required(artifacts), images, best, common);
    if best.image != "" {
      base, selected := best.image, [];
      var n := 0;
      while n < |artifacts|
        invariant 0 <= n <= |artifacts| && selected == Selected(artifacts[..n], common)
      {
        assert artifacts[..n + 1][..n] == artifacts[..n];
        if artifacts[n].id !in common {
          selected := selected + [artifacts[n]];
        }
        n := n + 1;
      }
      assert artifacts[..n] == artifacts;
    }
  }

  /** The base image really holds the artifact: same ID, same checksum. */
  predicate InBase(i: Image, a: Artifact) {
    exists b :: b in i.artifacts && IsLib(b) && b.id == a.id && b.checksum == a.checksum
  }

  predicate NothingLost(artifacts: seq<Artifact>, i: Image) {
    forall a :: a in LeftToBase(artifacts, Common(Required(artifacts), i.artifacts)) ==> InBase(i, a)
  }

  /** Conservation: every required artifact is selected or left to the base, none is lost and none duplicated. */
  lemma {:induction false} Conservation(artifacts: seq<Artifact>, common: set<string>)
    ensures multiset(Selected(artifacts, common)) + multiset(LeftToBase(artifacts, common)) == multiset(artifacts)
    ensures forall a :: a in Selected(artifacts, common) <==> a in artifacts && a.id !in common
    ensures forall a :: a in LeftToBase(artifacts, common) <==> a in artifacts && a.id in common
  {
    if artifacts != [] {
      var n := |artifacts| - 1;
      var init := artifacts[..n];
      Conservation(init, common);
      assert artifacts == init + [artifacts[n]];
    }
  }

  /** What is selected on top of an eligible image is not in that image already. */
  lemma NeverBoth(artifacts: seq<Artifact>, i: Image, a: Artifact)
    requires Eligible(Required(artifacts), i)
    requires a in Selected(artifacts, Common(Required(artifacts), i.artifacts))
    ensures !InBase(i, a)
  {
    var common := Common(Required(artifacts), i.artifacts);
    Conservation(artifacts, common);
    SurplusIsSound(Required(artifacts), i);
    LibsAreThere(i.artifacts);
    forall b | b in i.artifacts && IsLib(b) ensures b.id in common {
      var libs := Libs(i.artifacts);
      assert b in libs;
      var k :| 0 <= k < |libs| && libs[k] == b;
    }
  }

  /** Every entry agrees with the checksum that is looked up for its ID, if that one can be matched at all. */
  predicate Unambiguous(artifacts: seq<Artifact>) {
    forall i :: 0 <= i < |artifacts| ==>
      artifacts[i].id in Required(artifacts) &&
      (Required(artifacts)[artifacts[i].id] == "" || artifacts[i].checksum == Required(artifacts)[artifacts[i].id])
  }

  lemma {:induction false} RequiredEntries(artifacts: seq<Artifact>)
    ensures forall i :: 0 <= i < |artifacts| ==> artifacts[i].id in Required(artifacts)
    ensures DistinctIds(artifacts) ==>
              forall i :: 0 <= i < |artifacts| ==> Required(artifacts)[artifacts[i].id] == artifacts[i].checksum
  {
    if artifacts != [] {
      var n := |artifacts| - 1;
      RequiredEntries(artifacts[..n]);
      assert forall i :: 0 <= i < n ==> artifacts[..n][i] == artifacts[i];
    }
  }

  /** Unique IDs are enough. */
  lemma UniqueIdsAreUnambiguous(artifacts: seq<Artifact>)
    requires DistinctIds(artifacts)
    ensures Unambiguous(artifacts)
  {
    RequiredEntries(artifacts);
  }

  /** With an unambiguous list, whatever is left to an image is in that image. */
  lemma LayeringIsSound(artifacts: seq<Artifact>, i: Image)
    requires Unambiguous(artifacts)
    ensures NothingLost(artifacts, i)
  {
    var required := Required(artifacts);
    var common := Common(required, i.artifacts);
    Conservation(artifacts, common);
    forall a | a in LeftToBase(artifacts, common) ensures InBase(i, a) {
      var b :| b in i.artifacts && IsLib(b) && Matches(required, b) && b.id == a.id;
      var k :| 0 <= k < |artifacts| && artifacts[k] == a;
    }
  }

  /**
   Incremental layering is safe for every eligible base image exactly when the list of artifacts is unambiguous;
   otherwise some image makes the builder drop an artifact that the image holds in a different version.
   */
  lemma LayeringCondition(artifacts: seq<Artifact>)
    ensures Unambiguous(artifacts) <==>
              forall i: Image :: Eligible(Required(artifacts), i) ==> NothingLost(artifacts, i)
  {
    RequiredEntries(artifacts);
    if Unambiguous(artifacts) {
      forall i: Image ensures NothingLost(artifacts, i) {
        LayeringIsSound(artifacts, i);
      }
    } else {
      var k :| 0 <= k < |artifacts| && Required(artifacts)[artifacts[k].id] != "" &&
               artifacts[k].checksum != Required(artifacts)[artifacts[k].id];
      var i := Counterexample(artifacts, k);
      assert Eligible(Required(artifacts), i);
    }
  }

  lemma OneLibImage(required: map<string, string>, lib: Artifact)
    requires IsLib(lib) && Matches(required, lib)
    ensures var i := Image("base", [lib]);
            Eligible(required, i) && Common(required, i.artifacts) == {lib.id} &&
            forall a :: InBase(i, a) ==> a.checksum == lib.checksum
  {
    var i := Image("base", [lib]);
    var artifacts := i.artifacts;
    LibsOfOne(lib);
    assert Libs(artifacts) == [lib];
    SurplusIsSound(required, i);
    assert lib in artifacts && forall a :: a in artifacts ==> a == lib;
  }

  lemma LibsOfOne(lib: Artifact)
    requires IsLib(lib)
    ensures Libs([lib]) == [lib]
  {
    assert [lib][..0] == [];
  }

  lemma Counterexample(artifacts: seq<Artifact>, k: nat) returns (i: Image)
    requires k < |artifacts| && artifacts[k].id in Required(artifacts)
    requires Required(artifacts)[artifacts[k].id] != "" && artifacts[k].checksum != Required(artifacts)[artifacts[k].id]
    ensures Eligible(Required(artifacts), i) && !NothingLost(artifacts, i)
  {
    var a := artifacts[k];
    var lib := Artifact(a.id, LIB_PREFIX, Required(artifacts)[a.id]);
    i := Image("base", [lib]);
    OneLibImage(Required(artifacts), lib);
    Conservation(artifacts, {a.id});
    assert a in LeftToBase(artifacts, {a.id});
    assert !InBase(i, a);
  }
}
