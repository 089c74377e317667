/** Splitting an option's property into path segments: quotes are trimmed and trailing indexes become segments. */
module PropertyPath {
  import opened Options

  function TrimQuotes(s: string): string {
    if |s| >= 2 && s[0] == s[|s| - 1] && (s[0] == '"' || s[0] == '\'') then s[1..|s| - 1] else s
  }

  /** The part is something between two equal quotes. */
  ghost predicate InQuotes(s: string) {
    exists inner: string :: s == "\"" + inner + "\"" || s == "'" + inner + "'"
  }

  /** Quotes around a part are trimmed, whatever is between them; any other part is left as it is. */
  lemma QuotesAreTrimmed(s: string)
    ensures TrimQuotes("\"" + s + "\"") == s && TrimQuotes("'" + s + "'") == s
    ensures !InQuotes(s) ==> TrimQuotes(s) == s
  {
    var double, single := "\"" + s + "\"", "'" + s + "'";
    assert double[1..|double| - 1] == s && single[1..|single| - 1] == s;
    if TrimQuotes(s) != s {
      var inner := s[1..|s| - 1];
      assert s == [s[0]] + inner + [s[0]];
      assert s == "\"" + inner + "\"" || s == "'" + inner + "'";
    }
  }

  /** There is an index to split off: a bracket after the first character and a closing one at the end. */
  predicate EndsWithIndex(s: string) {
    |s| > 0 && s[|s| - 1] == ']' && exists i :: 0 < i < |s| && s[i] == '['
  }

  /** `strings.LastIndex(s, "[")`. */
  function LastBracket(s: string): (i: nat)
    requires '[' in s
    ensures i < |s| && s[i] == '[' && forall j :: i < j < |s| ==> s[j] != '['
  {
    var n := |s| - 1;
    if s[n] == '[' then n else LastBracket(s[..n])
  }

  /** The base and the indexes behind it, in reading order. */
  function Pieces(s: string): seq<string> {
    if EndsWithIndex(s) then
      Pieces(s[..LastBracket(s)]) + [s[LastBracket(s)..]]
    else [s]
  }

  function Concat(ss: seq<string>): string {
    if ss == [] then "" else Concat(ss[..|ss| - 1]) + ss[|ss| - 1]
  }

  /** A segment such as `[3]`: bracketed, with no further bracket opened inside. */
  predicate IsIndexPiece(s: string) {
    |s| >= 2 && s[0] == '[' && s[|s| - 1] == ']' && forall i :: 0 < i < |s| ==> s[i] != '['
  }

  /** Nothing is left to split off. */
  predicate IsBase(s: string) {
    s != "" && !EndsWithIndex(s)
  }

  lemma BracketIsInside(s: string)
    requires EndsWithIndex(s)
    ensures '[' in s && 0 < LastBracket(s) < |s| - 1 && IsIndexPiece(s[LastBracket(s)..])
  {
    var p := LastBracket(s);
    assert forall i :: 0 < i < |s[p..]| ==> s[p..][i] == s[p + i];
  }

  lemma ConcatSnoc(ss: seq<string>, s: string)
    ensures Concat(ss + [s]) == Concat(ss) + s
  {
    assert (ss + [s])[..|ss|] == ss;
  }

  /** Splitting loses nothing and goes as far as possible. */
  lemma {:induction false} PiecesRebuild(s: string)
    requires s != ""
    ensures Concat(Pieces(s)) == s
    ensures |Pieces(s)| >= 1 && IsBase(Pieces(s)[0])
    ensures forall i :: 1 <= i < |Pieces(s)| ==> IsIndexPiece(Pieces(s)[i])
    decreases |s|
  {
    if EndsWithIndex(s) {
      BracketIsInside(s);
      var p := LastBracket(s);
      PiecesRebuild(s[..p]);
      ConcatSnoc(Pieces(s[..p]), s[p..]);
      assert s == s[..p] + s[p..];
    } else {
      ConcatSnoc([], s);
      assert [] + [s] == [s];
    }
  }

  lemma SplitsBefore(front: string, last: string)
    requires front != "" && IsIndexPiece(last)
    ensures var s := front + last; EndsWithIndex(s) && '[' in s && LastBracket(s) == |front|
  {
    var s := front + last;
    assert s[|front|] == last[0] == '[';
    assert forall j :: |front| < j < |s| ==> s[j] == last[j - |front|];
  }

  lemma PiecesSnoc(front: string, last: string)
    requires front != "" && IsIndexPiece(last)
    ensures Pieces(front + last) == Pieces(front) + [last]
  {
    SplitsBefore(front, last);
    assert (front + last)[..|front|] == front && (front + last)[|front|..] == last;
  }

  lemma Associative(a: string, b: string, c: string)
    ensures (a + b) + c == a + (b + c)
  {
  }

  lemma {:induction false} ConcatLast(base: string, ss: seq<string>)
    requires ss != []
    ensures base + Concat(ss) == (base + Concat(ss[..|ss| - 1])) + ss[|ss| - 1]
  {
    Associative(base, Concat(ss[..|ss| - 1]), ss[|ss| - 1]);
  }

  /** Any base followed by any indexes is split back into exactly these. */
  lemma {:induction false} PiecesRoundTrip(base: string, indexes: seq<string>)
    requires IsBase(base) && forall i :: 0 <= i < |indexes| ==> IsIndexPiece(indexes[i])
    ensures Pieces(base + Concat(indexes)) == [base] + indexes
    decreases |indexes|
  {
    if indexes == [] {
      assert base + Concat(indexes) == base;
    } else {
      var n := |indexes| - 1;
      var init, last := indexes[..n], indexes[n];
      assert indexes == init + [last];
      calc {
        Pieces(base + Concat(indexes));
        { ConcatLast(base, indexes); }
        Pieces((base + Concat(init)) + last);
        { PiecesSnoc(base + Concat(init), last); }
        Pieces(base + Concat(init)) + [last];
        { PiecesRoundTrip(base, init); }
        [base] + init + [last];
        [base] + indexes;
      }
    }
  }

  lemma PartMeans(part: string)
    ensures forall s: string :: part == "\"" + s + "\"" || part == "'" + s + "'" ==> TrimQuotes(part) == s
    ensures !InQuotes(part) ==> TrimQuotes(part) == part
  {
    QuotesAreTrimmed(part);
    forall s: string | part == "\"" + s + "\"" || part == "'" + s + "'" ensures TrimQuotes(part) == s {
      QuotesAreTrimmed(s);
    }
  }

  /** One quoted or unquoted part; None is the panic on an empty one. */
  method SplitPart(part: string) returns (pieces: Option<seq<string>>)
    ensures pieces == if TrimQuotes(part) == "" then None else Some(Pieces(TrimQuotes(part)))
    ensures forall s: string :: part == "\"" + s + "\"" || part == "'" + s + "'" ==>
                                  pieces == if s == "" then None else Some(Pieces(s))
    ensures !InQuotes(part) ==> pieces == if part == "" then None else Some(Pieces(part))
  {
    PartMeans(part);
    var cur := TrimQuotes(part);
    if cur == "" {
      return None;
    }
    var split := SplitIndexes(cur);
    return Some(split);
  }

  /** The loop of the source: indexes are split off from the end, then put in reading order. */
  method SplitIndexes(part: string) returns (pieces: seq<string>)
    requires part != ""
    ensures pieces == Pieces(part)
  {
    var cur := part;
    var tmp: seq<string> := [];
    while EndsWithIndex(cur)
      invariant cur != ""
      invariant Pieces(cur) + Backward(tmp) == Pieces(part)
      decreases |cur|
    {
      BracketIsInside(cur);
      var pos := LastBracket(cur);
      BackwardSnoc(tmp, cur[pos..]);
      assert Pieces(cur) + Backward(tmp) == Pieces(cur[..pos]) + ([cur[pos..]] + Backward(tmp));
      tmp := tmp + [cur[pos..]];
      cur := cur[..pos];
    }
    BackwardSnoc(tmp, cur);
    tmp := tmp + [cur];
    pieces := [];
    var i := |tmp|;
    while i > 0
      invariant 0 <= i <= |tmp| && pieces == Backward(tmp)[..|tmp| - i]
    {
      i := i - 1;
      pieces := pieces + [tmp[i]];
    }
  }

  function Backward(ss: seq<string>): (r: seq<string>)
    ensures |r| == |ss| && forall i :: 0 <= i < |ss| ==> r[i] == ss[|ss| - 1 - i]
  {
    seq(|ss|, i requires 0 <= i < |ss| => ss[|ss| - 1 - i])
  }

  lemma BackwardSnoc(ss: seq<string>, s: string)
    ensures Backward(ss + [s]) == [s] + Backward(ss)
  {
  }

  function AllPieces(parts: seq<string>): seq<string> {
    if parts == [] then [] else AllPieces(parts[..|parts| - 1]) + Pieces(TrimQuotes(parts[|parts| - 1]))
  }

  predicate IsEmptyPart(part: string) {
    part == "" || part == "\"\"" || part == "''"
  }

  /** Splitting panics exactly on a part that is empty or an empty pair of quotes. */
  method ConfigTreePropertySplit(parts: seq<string>) returns (res: Option<seq<string>>)
    ensures res.None? <==> exists i :: 0 <= i < |parts| && IsEmptyPart(parts[i])
    ensures res.Some? ==> res.value == AllPieces(parts)
  {
    var all: seq<string> := [];
    var i := 0;
    while i < |parts|
      invariant 0 <= i <= |parts| && all == AllPieces(parts[..i])
      invariant forall j :: 0 <= j < i ==> !IsEmptyPart(parts[j])
    {
      var pieces := SplitPart(parts[i]);
      EmptyParts(parts[i]);
      if pieces.None? {
        return None;
      }
      assert parts[..i + 1][..i] == parts[..i];
      all := all + pieces.value;
      i := i + 1;
    }
    assert parts[..i] == parts;
    return Some(all);
  }

  lemma EmptyParts(part: string)
    ensures TrimQuotes(part) == "" <==> IsEmptyPart(part)
  {
    if |part| == 2 {
      assert part == [part[0], part[1]];
    }
  }

  /** A quoted part is split exactly as what is between its quotes, and any other part as it is. */
  lemma QuotedParts(parts: seq<string>, s: string)
    ensures AllPieces(parts + ["\"" + s + "\""]) == AllPieces(parts) + Pieces(s)
    ensures AllPieces(parts + ["'" + s + "'"]) == AllPieces(parts) + Pieces(s)
    ensures !InQuotes(s) ==> AllPieces(parts + [s]) == AllPieces(parts) + Pieces(s)
  {
    QuotesAreTrimmed(s);
    OnePart(parts, "\"" + s + "\"");
    OnePart(parts, "'" + s + "'");
    OnePart(parts, s);
  }

  lemma OnePart(parts: seq<string>, part: string)
    ensures AllPieces(parts + [part]) == AllPieces(parts) + Pieces(TrimQuotes(part))
  {
    assert (parts + [part])[..|parts|] == parts;
  }
}
