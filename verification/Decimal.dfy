/** Optional values, used where the source returns a nil pointer or a second `ok` result. */
module Options {
  datatype Option<+T> = None | Some(value: T) {
    function Or(default: T): T {
      if Some? then value else default
    }
  }
}

/** The decimal formatting and parsing that labels, volume names, ConfigMap names and cron fields rely on. */
module Decimal {
  import opened Options

  const MAX_INT64 := 0x7FFF_FFFF_FFFF_FFFF
  const MAX_UINT64 := 0xFFFF_FFFF_FFFF_FFFF

  predicate IsDigit(c: char) {
    '0' <= c <= '9'
  }

  predicate IsDigits(s: string) {
    |s| > 0 && forall i :: 0 <= i < |s| ==> IsDigit(s[i])
  }

  function Digit(d: nat): (c: char)
    requires d < 10
    ensures IsDigit(c) && c as int - '0' as int == d
  {
    "0123456789"[d]
  }

  /** `%d` and `strconv.FormatInt` of a non-negative number. */
  function Format(n: nat): (s: string) {
    if n < 10 then [Digit(n)] else Format(n / 10) + [Digit(n % 10)]
  }

  /** The number a non-empty string of digits denotes; leading zeros are allowed. */
  function Value(s: string): (n: nat)
    requires IsDigits(s)
  {
    var last := s[|s| - 1] as int - '0' as int;
    if |s| == 1 then last else
      assert forall i :: 0 <= i < |s| - 1 ==> s[..|s| - 1][i] == s[i];
      10 * Value(s[..|s| - 1]) + last
  }

  /** `%03d` of a non-negative number. */
  function Pad3(n: nat): (s: string) {
    var s := Format(n);
    if |s| >= 3 then s else if |s| == 2 then "0" + s else if |s| == 1 then "00" + s else s
  }

  lemma {:induction false} FormatValue(n: nat)
    ensures IsDigits(Format(n)) && Value(Format(n)) == n
    ensures Format(n)[0] == '0' ==> n == 0
  {
    if n >= 10 {
      FormatValue(n / 10);
      var s := Format(n);
      assert s[..|s| - 1] == Format(n / 10);
    }
  }

  lemma FormatInjective(a: nat, b: nat)
    requires Format(a) == Format(b)
    ensures a == b
  {
    FormatValue(a);
    FormatValue(b);
  }

  lemma {:induction false} LeadingZero(s: string)
    requires IsDigits(s)
    ensures IsDigits("0" + s) && Value("0" + s) == Value(s)
  {
    var t := "0" + s;
    assert forall i :: 0 <= i < |t| ==> t[i] == if i == 0 then '0' else s[i - 1];
    if |s| == 1 {
      assert t[..1] == "0";
    } else {
      LeadingZero(s[..|s| - 1]);
      assert t[..|t| - 1] == "0" + s[..|s| - 1];
    }
  }

  lemma Pad3Value(n: nat)
    ensures IsDigits(Pad3(n)) && Value(Pad3(n)) == n
    ensures |Pad3(n)| >= 3 && (|Pad3(n)| > 3 ==> Pad3(n)[0] != '0')
  {
    FormatValue(n);
    var s := Format(n);
    if |s| < 3 {
      LeadingZero(s);
      LeadingZero("0" + s);
      assert "0" + ("0" + s) == "00" + s;
    }
  }

  /** Two different numbers never share a three-digit padded name, also beyond 999. */
  lemma Pad3Injective(a: nat, b: nat)
    requires Pad3(a) == Pad3(b)
    ensures a == b
  {
    Pad3Value(a);
    Pad3Value(b);
  }

  /** `strconv.ParseInt(s, 10, 64)` and, on a 64-bit platform, `strconv.Atoi`. */
  function ParseInt64(s: string): (r: Option<int>)
    ensures r.Some? ==> -MAX_INT64 - 1 <= r.value <= MAX_INT64
  {
    var negative := |s| > 0 && s[0] == '-';
    var body := if |s| > 0 && (s[0] == '-' || s[0] == '+') then s[1..] else s;
    if !IsDigits(body) then None else
      var value: int := if negative then -(Value(body) as int) else Value(body);
      if -MAX_INT64 - 1 <= value <= MAX_INT64 then Some(value) else None
  }

  /** A generation that was formatted into a label is read back as the same number. */
  lemma ParseFormat(n: nat)
    requires n <= MAX_INT64
    ensures ParseInt64(Format(n)) == Some(n)
  {
    FormatValue(n);
    assert IsDigit(Format(n)[0]);
  }
}
