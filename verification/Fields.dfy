/** Splitting a schedule into its space-separated fields and joining it again. */
module Fields {
  /** `strings.Split(s, " ")`. */
  function Split(s: string): (fs: seq<string>)
    ensures |fs| >= 1
  {
    if s == "" then [""]
    else if s[0] == ' ' then [""] + Split(s[1..])
    else var rest := Split(s[1..]); [[s[0]] + rest[0]] + rest[1..]
  }

  /** `strings.Join(fs, " ")`. */
  function Join(fs: seq<string>): string {
    if fs == [] then "" else if |fs| == 1 then fs[0] else fs[0] + " " + Join(fs[1..])
  }

  predicate NoSpaces(fs: seq<string>) {
    forall i :: 0 <= i < |fs| ==> ' ' !in fs[i]
  }

  lemma {:induction false} JoinSplit(s: string)
    ensures Join(Split(s)) == s && NoSpaces(Split(s))
  {
    if s != "" {
      JoinSplit(s[1..]);
      var rest := Split(s[1..]);
      assert s == [s[0]] + s[1..];
      if s[0] == ' ' {
        assert ([""] + rest)[1..] == rest;
      } else {
        var fs := [[s[0]] + rest[0]] + rest[1..];
        assert fs[1..] == rest[1..];
        if |rest| > 1 {
          assert rest[0] + " " + Join(rest[1..]) == Join(rest);
        }
      }
    }
  }

  lemma {:induction false} SplitJoin(fs: seq<string>)
    requires fs != [] && NoSpaces(fs)
    ensures Split(Join(fs)) == fs
    decreases |fs|, if fs == [] then 0 else |fs[0]|
  {
    if fs[0] == "" {
      if |fs| > 1 {
        SplitJoin(fs[1..]);
        assert Join(fs) == " " + Join(fs[1..]);
        assert Join(fs)[1..] == Join(fs[1..]);
        assert fs == [""] + fs[1..];
      }
    } else {
      var c := fs[0][0];
      var shorter := [fs[0][1..]] + fs[1..];
      assert shorter[1..] == fs[1..];
      SplitJoin(shorter);
      assert c in fs[0];
      assert Join(fs) == [c] + Join(shorter);
      assert Join(fs)[1..] == Join(shorter);
      assert [c] + shorter[0] == fs[0];
      assert [[c] + shorter[0]] + shorter[1..] == fs;
    }
  }
}
