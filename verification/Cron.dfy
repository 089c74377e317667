/** Cron schedules derived from Camel endpoints: timers, Quartz expressions and the schedule several endpoints share. */
module Cron {
  import opened Options
  import opened Decimal
  import opened Fields

  /** A parsed Camel endpoint URI. */
  datatype Uri = Uri(component: string, params: map<string, string>) {
    function Param(name: string): string {
      if name in params then params[name] else ""
    }
  }

  /** A parameter reads as empty exactly if it is absent or empty, and as given otherwise. */
  lemma ParamExactly(u: Uri, name: string)
    ensures u.Param(name) == "" <==> name !in u.params || u.params[name] == ""
    ensures name in u.params ==> u.Param(name) == u.params[name]
  {
  }

  datatype Info = Info(components: seq<string>, schedule: string)

  /** The conversion of an endpoint; a timer period beyond 64 bits panics. */
  datatype Conversion = Converted(info: Info) | NotConvertible | Panicked

  // Timers

  function PeriodSchedule(period: nat): Option<string> {
    if period == 0 || period % 1000 != 0 then None else
      var seconds := period / 1000;
      if seconds % 3600 == 0 then
        var hours := seconds / 3600;
        if hours == 24 then Some("0 0 * * ?")
        else if hours < 24 && 24 % hours == 0 then Some("0 0/" + Format(hours) + " * * ?")
        else None
      else if seconds % 60 == 0 then
        var minutes := seconds / 60;
        if minutes < 60 && 60 % minutes == 0 then Some("0/" + Format(minutes) + " * * * ?") else None
      else None
  }

  function TimerToCron(u: Uri): Conversion {
    var period := u.Param("period");
    if u.Param("delay") != "" || u.Param("repeatCount") != "" || u.Param("time") != "" then NotConvertible
    else if !IsDigits(period) then NotConvertible
    else if Value(period) > MAX_UINT64 then Panicked
    else match PeriodSchedule(Value(period))
         case Some(s) => Converted(Info(["timer"], s))
         case None => NotConvertible
  }

  /** The slash at position i separates a start from a step, and the value is reached from there. */
  predicate StepAdmits(f: string, i: nat, v: int)
    requires i < |f|
  {
    && f[i] == '/' && IsDigits(f[..i]) && IsDigits(f[i + 1..])
    && var start, step := Value(f[..i]), Value(f[i + 1..]);
    step > 0 && v >= start && (v - start) % step == 0
  }

  /** When a field admits a value: a wildcard, a number, or a start with a step. */
  predicate FieldMatches(f: string, v: int) {
    || f == "*" || f == "?"
    || (IsDigits(f) && v == Value(f))
    || (exists i :: 0 < i < |f| - 1 && StepAdmits(f, i, v))
  }

  /** A day of the calendar as the last three fields see it. */
  datatype Day = Day(dayOfMonth: int, month: int, dayOfWeek: int)

  /** Whether a five-field schedule fires in the minute t counted from some midnight, for a given calendar. */
  predicate Fires(schedule: string, calendar: int -> Day, t: int) {
    var fs := Split(schedule);
    var day := calendar(t / 1440);
    && |fs| == 5
    && FieldMatches(fs[0], t % 60) && FieldMatches(fs[1], t / 60 % 24)
    && FieldMatches(fs[2], day.dayOfMonth) && FieldMatches(fs[3], day.month) && FieldMatches(fs[4], day.dayOfWeek)
  }

  /** The periods, in minutes, that a cron schedule can express. */
  predicate Schedulable(m: int) {
    m > 0 && ((m < 60 && 60 % m == 0) || (m % 60 == 0 && 24 % (m / 60) == 0))
  }

  lemma DigitsAreNoSpace(n: nat)
    ensures ' ' !in Format(n) && '/' !in Format(n)
  {
    FormatValue(n);
  }

  lemma NumberMatches(n: nat, v: int)
    ensures FieldMatches(Format(n), v) <==> v == n
  {
    FormatValue(n);
    DigitsAreNoSpace(n);
  }

  lemma StepMatches(n: nat, v: int)
    requires n > 0
    ensures FieldMatches("0/" + Format(n), v) <==> v >= 0 && v % n == 0
  {
    var f := "0/" + Format(n);
    FormatValue(n);
    DigitsAreNoSpace(n);
    assert f[1] == '/' && f[..1] == "0" && f[2..] == Format(n);
    OnlySlash(f, Format(n));
    assert f != "*" && f != "?" && !IsDigits(f);
    assert Value("0") == 0 && IsDigits("0");
    if v >= 0 && v % n == 0 {
      assert StepAdmits(f, 1, v);
    }
  }

  lemma OnlySlash(f: string, digits: string)
    requires f == "0/" + digits && '/' !in digits
    ensures forall i :: 0 <= i < |f| && f[i] == '/' ==> i == 1
  {
    assert forall i :: 2 <= i < |f| ==> f[i] == digits[i - 2];
  }

  lemma FiveFields(a: string, b: string, c: string, d: string, e: string)
    requires NoSpaces([a, b, c, d, e])
    ensures Split(a + " " + b + " " + c + " " + d + " " + e) == [a, b, c, d, e]
  {
    var fs := [a, b, c, d, e];
    assert fs[1..] == [b, c, d, e] && fs[1..][1..] == [c, d, e] && fs[1..][1..][1..] == [d, e];
    assert [b, c, d, e][1..] == [c, d, e] && [c, d, e][1..] == [d, e] && [d, e][1..] == [e];
    calc {
      Join(fs);
      a + " " + Join([b, c, d, e]);
      a + " " + (b + " " + Join([c, d, e]));
      a + " " + (b + " " + (c + " " + Join([d, e])));
      a + " " + (b + " " + (c + " " + (d + " " + e)));
      a + " " + b + " " + c + " " + d + " " + e;
    }
    SplitJoin(fs);
  }

  /** A schedule that runs every day fires by its first two fields alone. */
  lemma EveryDay(a: string, b: string, calendar: int -> Day, t: int)
    requires ' ' !in a && ' ' !in b
    ensures Fires(a + " " + b + " * * ?", calendar, t) <==> FieldMatches(a, t % 60) && FieldMatches(b, t / 60 % 24)
  {
    FiveFields(a, b, "*", "*", "?");
    assert a + " " + b + " * * ?" == a + " " + b + " " + "*" + " " + "*" + " " + "?";
  }

  lemma MinuteSchedule(m: nat, calendar: int -> Day, t: int)
    requires 0 < m < 60 && 60 % m == 0
    ensures Fires("0/" + Format(m) + " * * * ?", calendar, t) <==> t % m == 0
  {
    DigitsAreNoSpace(m);
    EveryDay("0/" + Format(m), "*", calendar, t);
    assert "0/" + Format(m) + " * * * ?" == "0/" + Format(m) + " " + "*" + " * * ?";
    StepMatches(m, t % 60);
    Wraps(60, m, t);
  }

  lemma DivModUnique(a: int, b: int, q: int, r: int)
    requires b > 0 && a == b * q + r && 0 <= r < b
    ensures a / b == q && a % b == r
  {
    var d := q - a / b;
    assert b * d == a % b - r;
    assert d > 0 ==> b * d >= b;
    assert d < 0 ==> b * d <= -b;
  }

  /** Counting modulo a multiple of m first does not change the remainder by m. */
  lemma Wraps(n: int, m: int, t: int)
    requires 0 < m && 0 < n && n % m == 0
    ensures t % n % m == t % m
  {
    var k, q, r := n / m, t / n, t % n;
    var p, s := r / m, r % m;
    assert t == n * q + r && n == m * k && r == m * p + s;
    assert n * q == m * (k * q);
    assert t == m * (k * q + p) + s;
    DivModUnique(t, m, k * q + p, s);
  }

  lemma HourSchedule(h: nat, calendar: int -> Day, t: int)
    requires 0 < h < 24 && 24 % h == 0
    ensures Fires("0 0/" + Format(h) + " * * ?", calendar, t) <==> t % (60 * h) == 0
  {
    DigitsAreNoSpace(h);
    EveryDay("0", "0/" + Format(h), calendar, t);
    assert "0 0/" + Format(h) + " * * ?" == "0" + " " + ("0/" + Format(h)) + " * * ?";
    NumberMatches(0, t % 60);
    StepMatches(h, t / 60 % 24);
    Wraps(24, h, t / 60);
    HourWraps(h, t);
  }

  lemma HourWraps(h: int, t: int)
    requires h > 0
    ensures t % 60 == 0 && t / 60 % h == 0 <==> t % (60 * h) == 0
  {
    var u := t / 60;
    if t % 60 == 0 && u % h == 0 {
      var p := u / h;
      assert u == h * p && t == 60 * u;
      assert 60 * (h * p) == (60 * h) * p;
      DivModUnique(t, 60 * h, p, 0);
    }
    if t % (60 * h) == 0 {
      var p := t / (60 * h);
      assert t == (60 * h) * p;
      assert (60 * h) * p == 60 * (h * p);
      DivModUnique(t, 60, h * p, 0);
      DivModUnique(u, h, p, 0);
    }
  }

  lemma DaySchedule(calendar: int -> Day, t: int)
    ensures Fires("0 0 * * ?", calendar, t) <==> t % 1440 == 0
  {
    EveryDay("0", "0", calendar, t);
    assert "0 0 * * ?" == "0" + " " + "0" + " * * ?";
    assert Format(0) == "0";
    NumberMatches(0, t % 60);
    NumberMatches(0, t / 60 % 24);
    HourWraps(24, t);
  }

  /** A schedule exists exactly for the schedulable periods. */
  lemma ScheduleExists(period: nat)
    ensures PeriodSchedule(period).Some? <==> period % 60000 == 0 && Schedulable(period / 60000)
  {
    var seconds, m := period / 1000, period / 60000;
    InMinutes(period);
    if period % 60000 == 0 && m > 0 {
      if m % 60 == 0 && m / 60 > 24 {
        LongDivisor(m / 60);
      }
    }
  }

  /** Counting in seconds, then hours or minutes, as opposed to minutes directly. */
  lemma InMinutes(period: nat)
    ensures period % 1000 == 0 && period / 1000 % 60 == 0 <==> period % 60000 == 0
    ensures period % 60000 == 0 ==> period / 1000 / 60 == period / 60000
    ensures period % 60000 == 0 ==> (period / 1000 % 3600 == 0 <==> period / 60000 % 60 == 0)
    ensures period % 60000 == 0 && period / 60000 % 60 == 0 ==> period / 1000 / 3600 == period / 60000 / 60
    ensures period / 1000 % 3600 == 0 ==> period / 1000 % 60 == 0
  {
    if period % 60000 == 0 {
      var m := period / 60000;
      assert period == 60000 * m && period / 1000 == 60 * m;
    }
  }

  lemma LongDivisor(h: nat)
    requires h > 24
    ensures 24 % h != 0
  {
  }

  /**
   Timer translation preserves meaning: over all time counted from a midnight, in every calendar, the schedule of a
   timer fires in exactly the minutes divisible by its period.
   */
  lemma TimerMeaning(period: nat, calendar: int -> Day, t: int)
    requires PeriodSchedule(period).Some?
    ensures Fires(PeriodSchedule(period).value, calendar, t) <==> t % (period / 60000) == 0
  {
    ScheduleExists(period);
    var m := period / 60000;
    var seconds := period / 1000;
    assert period == 60000 * m && seconds == 60 * m;
    if m % 60 == 0 {
      assert seconds / 3600 == m / 60 && seconds % 3600 == 0;
      if m == 1440 {
        DaySchedule(calendar, t);
      } else {
        HourSchedule(m / 60, calendar, t);
      }
    } else {
      assert seconds % 3600 != 0 && seconds / 60 == m;
      MinuteSchedule(m, calendar, t);
    }
  }

  /**
   A timer endpoint, from its parameters to its meaning: a plain timer converts exactly when its period is a number of
   at most 64 bits that is schedulable, and the schedule then fires at exactly the timer's minutes.
   */
  lemma TimerEndpoint(u: Uri, calendar: int -> Day, t: int)
    ensures TimerToCron(u).Panicked? <==>
              && u.Param("delay") == "" && u.Param("repeatCount") == "" && u.Param("time") == ""
              && IsDigits(u.Param("period")) && Value(u.Param("period")) > MAX_UINT64
    ensures TimerToCron(u).Converted? <==>
              && u.Param("delay") == "" && u.Param("repeatCount") == "" && u.Param("time") == ""
              && IsDigits(u.Param("period")) && Value(u.Param("period")) <= MAX_UINT64
              && Value(u.Param("period")) % 60000 == 0 && Schedulable(Value(u.Param("period")) / 60000)
    ensures TimerToCron(u).Converted? ==>
              (Fires(TimerToCron(u).info.schedule, calendar, t) <==> t % (Value(u.Param("period")) / 60000) == 0)
  {
    if IsDigits(u.Param("period")) {
      var period := Value(u.Param("period"));
      ScheduleExists(period);
      if PeriodSchedule(period).Some? {
        TimerMeaning(period, calendar, t);
      }
    }
  }

  // Equivalence

  /** `strings.ReplaceAll(s, "?", "*")`. */
  function Starred(s: string): (r: string)
    ensures |r| == |s| && forall i :: 0 <= i < |s| ==> r[i] == if s[i] == '?' then '*' else s[i]
  {
    if s == "" then "" else [if s[0] == '?' then '*' else s[0]] + Starred(s[1..])
  }

  predicate Equivalent(a: string, b: string) {
    Starred(a) == Starred(b)
  }

  /** Two schedules are equivalent exactly when they differ in nothing but which wildcard they use. */
  lemma EquivalentExactly(a: string, b: string)
    ensures Equivalent(a, b) <==>
              && |a| == |b|
              && forall i :: 0 <= i < |a| ==> a[i] == b[i] || (a[i] in {'?', '*'} && b[i] in {'?', '*'})
  {
    if Starred(a) == Starred(b) {
      forall i | 0 <= i < |a| ensures a[i] == b[i] || (a[i] in {'?', '*'} && b[i] in {'?', '*'}) {
        assert Starred(a)[i] == Starred(b)[i];
      }
    }
  }

  lemma {:induction false} StarredFields(s: string)
    ensures |Split(Starred(s))| == |Split(s)|
    ensures forall i :: 0 <= i < |Split(s)| ==> Split(Starred(s))[i] == Starred(Split(s)[i])
  {
    if s != "" {
      StarredFields(s[1..]);
      assert Starred(s)[1..] == Starred(s[1..]);
      if s[0] != ' ' {
        var rest := Split(s[1..]);
        assert Starred([s[0]] + rest[0]) == [Starred(s)[0]] + Starred(rest[0]);
      }
    }
  }

  lemma StarredMatches(f: string, v: int)
    ensures FieldMatches(Starred(f), v) == FieldMatches(f, v)
  {
    var s := Starred(f);
    if '?' !in f {
      assert s == f;
    } else {
      var q :| 0 <= q < |f| && f[q] == '?';
      assert s[q] == '*';
      if |f| == 1 {
        assert s == "*" && f == "?";
      } else {
        NoWildcardInside(f, q, v);
        NoWildcardInside(s, q, v);
      }
    }
  }

  /** A longer field with a wildcard character inside matches nothing. */
  lemma NoWildcardInside(f: string, q: nat, v: int)
    requires |f| > 1 && q < |f| && (f[q] == '?' || f[q] == '*')
    ensures !FieldMatches(f, v)
  {
    assert !IsDigits(f);
    forall i | 0 < i < |f| - 1 && f[i] == '/' ensures !IsDigits(f[..i]) || !IsDigits(f[i + 1..]) {
      if q < i {
        assert f[..i][q] == f[q];
      } else {
        assert f[i + 1..][q - i - 1] == f[q];
      }
    }
  }

  /** Equivalent schedules of wildcards, numbers and steps fire in the same minutes. */
  lemma EquivalentMinutes(a: string, b: string, calendar: int -> Day, t: int)
    requires Equivalent(a, b)
    ensures Fires(a, calendar, t) == Fires(b, calendar, t)
  {
    StarredKeepsFires(a, calendar, t);
    StarredKeepsFires(b, calendar, t);
  }

  lemma StarredKeepsFires(s: string, calendar: int -> Day, t: int)
    ensures Fires(Starred(s), calendar, t) == Fires(s, calendar, t)
  {
    StarredFields(s);
    var fs := Split(s);
    if |fs| == 5 {
      var day := calendar(t / 1440);
      StarredMatches(fs[0], t % 60);
      StarredMatches(fs[1], t / 60 % 24);
      StarredMatches(fs[2], day.dayOfMonth);
      StarredMatches(fs[3], day.month);
      StarredMatches(fs[4], day.dayOfWeek);
    }
  }

  lemma DivisorIsSmaller(a: nat, b: nat)
    requires a > 0 && b > 0 && a % b == 0
    ensures b <= a
  {
  }

  /** Two timers share a schedule only if their periods are equal. */
  lemma TimersAreDistinguished(p1: nat, p2: nat)
    requires PeriodSchedule(p1).Some? && PeriodSchedule(p2).Some?
    requires Equivalent(PeriodSchedule(p1).value, PeriodSchedule(p2).value)
    ensures p1 == p2
  {
    ScheduleExists(p1);
    ScheduleExists(p2);
    var m1, m2 := p1 / 60000, p2 / 60000;
    var calendar := (d: int) => Day(1, 1, 1);
    forall t: int ensures t % m1 == 0 <==> t % m2 == 0 {
      TimerMeaning(p1, calendar, t);
      TimerMeaning(p2, calendar, t);
      EquivalentMinutes(PeriodSchedule(p1).value, PeriodSchedule(p2).value, calendar, t);
    }
    assert m1 % m1 == 0 && m2 % m2 == 0;
    DivisorIsSmaller(m1, m2);
    DivisorIsSmaller(m2, m1);
  }

  // Quartz and cron expressions

  function ToKubernetesCron(cron: string): string {
    var parts := Split(cron);
    if |parts| > 5 && parts[0] != "0" then "" else
      var parts := if |parts| > 5 then parts[1..] else parts;
      var parts := if |parts| == 6 && (parts[5] == "*" || parts[5] == "?") then parts[..5] else parts;
      if |parts| == 5 then Join(parts) else ""
  }

  predicate Accepted(cron: string) {
    var parts := Split(cron);
    || |parts| == 5
    || (|parts| == 6 && parts[0] == "0")
    || (|parts| == 7 && parts[0] == "0" && (parts[6] == "*" || parts[6] == "?"))
  }

  lemma FiveFieldsNotEmpty(fs: seq<string>)
    requires |fs| == 5
    ensures Join(fs) != ""
  {
  }

  /** The result is empty, or five fields; it is not empty exactly for the accepted forms. */
  lemma NormalFormHasFiveFields(cron: string)
    ensures ToKubernetesCron(cron) != "" <==> Accepted(cron)
    ensures ToKubernetesCron(cron) != "" ==> |Split(ToKubernetesCron(cron))| == 5
  {
    JoinSplit(cron);
    var parts := Split(cron);
    if Accepted(cron) {
      var five := if |parts| == 5 then parts else parts[1..6];
      if |parts| == 6 {
        assert parts[1..] == parts[1..6];
      } else if |parts| == 7 {
        assert parts[1..][..5] == parts[1..6];
      }
      assert ToKubernetesCron(cron) == Join(five);
      assert NoSpaces(five);
      SplitJoin(five);
      FiveFieldsNotEmpty(five);
    }
  }

  /** Normalising once more changes nothing. */
  lemma NormalisingTwice(cron: string)
    ensures ToKubernetesCron(ToKubernetesCron(cron)) == ToKubernetesCron(cron)
  {
    NormalFormHasFiveFields(cron);
    JoinSplit(ToKubernetesCron(cron));
  }

  datatype Field = Second | Minute | Hour | DayOfMonth | Month | DayOfWeek | Year
  datatype Moment = Moment(second: int, minute: int, hour: int, dayOfMonth: int, month: int, dayOfWeek: int, year: int)

  /** Any reading of the fields in which a zero second and a wildcard year mean what they say. */
  type Reading = (Field, string, int) -> bool

  ghost predicate Sensible(r: Reading) {
    && (forall v: int :: r(Second, "0", v) <==> v == 0)
    && (forall v: int :: r(Year, "*", v) && r(Year, "?", v))
  }

  /** The five fields of a minute, whatever comes before and after them. */
  predicate MinuteFires(fs: seq<string>, r: Reading, m: Moment)
    requires |fs| == 5
  {
    && r(Minute, fs[0], m.minute) && r(Hour, fs[1], m.hour)
    && r(DayOfMonth, fs[2], m.dayOfMonth) && r(Month, fs[3], m.month) && r(DayOfWeek, fs[4], m.dayOfWeek)
  }

  /** Kubernetes fires at the start of a matching minute. */
  predicate KubernetesFires(cron: string, r: Reading, m: Moment) {
    var fs := Split(cron);
    |fs| == 5 && m.second == 0 && MinuteFires(fs, r, m)
  }

  /** Any reading of the fields, lists, ranges and names included, that takes `?` for `*`. */
  ghost predicate WildcardsAlike(r: Reading) {
    forall field, f, v :: r(field, Starred(f), v) == r(field, f, v)
  }

  /** Equivalent schedules fire at the same moments, under every such reading. */
  lemma EquivalentFiresAlike(a: string, b: string, r: Reading, m: Moment)
    requires WildcardsAlike(r) && Equivalent(a, b)
    ensures KubernetesFires(a, r, m) == KubernetesFires(b, r, m)
  {
    StarredReads(a, r, m);
    StarredReads(b, r, m);
  }

  lemma StarredReads(s: string, r: Reading, m: Moment)
    requires WildcardsAlike(r)
    ensures KubernetesFires(Starred(s), r, m) == KubernetesFires(s, r, m)
  {
    StarredFields(s);
    var fs := Split(s);
    if |fs| == 5 {
      assert r(Minute, Starred(fs[0]), m.minute) == r(Minute, fs[0], m.minute);
      assert r(Hour, Starred(fs[1]), m.hour) == r(Hour, fs[1], m.hour);
    }
  }

  /** Quartz expressions start with the seconds and may end with the year. */
  predicate QuartzFires(cron: string, r: Reading, m: Moment) {
    var fs := Split(cron);
    && (|fs| == 6 || |fs| == 7)
    && r(Second, fs[0], m.second) && MinuteFires(fs[1..6], r, m)
    && (|fs| == 7 ==> r(Year, fs[6], m.year))
  }

  /** Normalisation keeps the meaning: at every moment both forms fire or neither does. */
  lemma QuartzMeaning(cron: string, r: Reading, m: Moment)
    requires Sensible(r) && ToKubernetesCron(cron) != "" && |Split(cron)| > 5
    ensures QuartzFires(cron, r, m) == KubernetesFires(ToKubernetesCron(cron), r, m)
  {
    NormalFormHasFiveFields(cron);
    JoinSplit(cron);
    var parts := Split(cron);
    var five := parts[1..6];
    if |parts| == 6 {
      assert parts[1..] == five;
    } else {
      assert parts[1..][..5] == five;
    }
    assert NoSpaces(five);
    SplitJoin(five);
  }

  function QuartzToCron(u: Uri): Conversion {
    var normalized := ToKubernetesCron(u.Param("cron"));
    if u.Param("fireNow") != "" || u.Param("customCalendar") != "" || u.Param("startDelayedSeconds") != "" then
      NotConvertible
    else if normalized == "" then NotConvertible
    else Converted(Info(["quartz"], normalized))
  }

  function CronToCron(u: Uri): Conversion {
    var normalized := ToKubernetesCron(u.Param("schedule"));
    if normalized == "" then NotConvertible else Converted(Info(["cron"], normalized))
  }

  /** A Quartz endpoint converts exactly if it has no option that cron lacks and its expression is accepted. */
  lemma QuartzEndpoint(u: Uri)
    ensures QuartzToCron(u).Converted? <==>
              && u.Param("fireNow") == "" && u.Param("customCalendar") == "" && u.Param("startDelayedSeconds") == ""
              && Accepted(u.Param("cron"))
    ensures !QuartzToCron(u).Panicked?
    ensures QuartzToCron(u).Converted? ==>
              QuartzToCron(u).info == Info(["quartz"], ToKubernetesCron(u.Param("cron")))
  {
    NormalFormHasFiveFields(u.Param("cron"));
  }

  /** A generic cron endpoint converts exactly if its schedule is accepted. */
  lemma CronEndpoint(u: Uri)
    ensures CronToCron(u).Converted? <==> Accepted(u.Param("schedule"))
    ensures !CronToCron(u).Panicked?
    ensures CronToCron(u).Converted? ==> CronToCron(u).info == Info(["cron"], ToKubernetesCron(u.Param("schedule")))
  {
    NormalFormHasFiveFields(u.Param("schedule"));
  }

  // The common schedule

  predicate Supported(u: Uri) {
    u.component == "timer" || u.component == "quartz" || u.component == "cron"
  }

  function Convert(u: Uri): (c: Conversion)
    requires Supported(u)
    ensures c.Converted? ==> c.info.components == [u.component] && c.info.schedule != ""
  {
    if u.component == "timer" then TimerToCron(u)
    else if u.component == "quartz" then QuartzToCron(u)
    else CronToCron(u)
  }

  predicate AllSupported(us: seq<Uri>) {
    forall i :: 0 <= i < |us| ==> Supported(us[i])
  }

  function UniqueAdd(s: seq<string>, item: string): seq<string> {
    if item in s then s else s + [item]
  }

  function UniqueAddAll(s: seq<string>, items: seq<string>): seq<string>
    decreases |items|
  {
    if items == [] then s else UniqueAddAll(UniqueAdd(s, items[0]), items[1..])
  }

  function Conversions(us: seq<Uri>): (cs: seq<Conversion>)
    requires AllSupported(us)
    ensures |cs| == |us| && forall i :: 0 <= i < |us| ==> cs[i] == Convert(us[i])
  {
    seq(|us|, i requires 0 <= i < |us| => Convert(us[i]))
  }

  /** The outcome of the loop over the endpoints' conversions, from the schedule found so far. */
  function CommonFrom(sofar: Option<Info>, cs: seq<Conversion>): Conversion
    decreases |cs|
  {
    if cs == [] then (match sofar case Some(info) => Converted(info) case None => NotConvertible) else
      match cs[0]
      case Converted(info) =>
        if sofar.None? then CommonFrom(Some(info), cs[1..])
        else if !Equivalent(sofar.value.schedule, info.schedule) then NotConvertible
        else CommonFrom(Some(Joined(sofar.value, info)), cs[1..])
      case other => other
  }

  function Joined(found: Info, more: Info): Info {
    Info(UniqueAddAll(found.components, more.components), found.schedule)
  }

  method GetCronForUris(us: seq<Uri>) returns (cron: Conversion)
    requires AllSupported(us)
    ensures cron == CommonFrom(None, Conversions(us))
  {
    ghost var cs := Conversions(us);
    var global: Option<Info> := None;
    var i := 0;
    while i < |us|
      invariant 0 <= i <= |us|
      invariant CommonFrom(global, cs[i..]) == CommonFrom(None, cs)
    {
      var c := Convert(us[i]);
      if !c.Converted? {
        return c;
      }
      if global.None? {
        global := Some(c.info);
      } else {
        if !Equivalent(global.value.schedule, c.info.schedule) {
          return NotConvertible;
        }
        var components := WithComponents(global.value.components, c.info.components);
        global := Some(Info(components, global.value.schedule));
      }
      i := i + 1;
    }
    return match global case Some(info) => Converted(info) case None => NotConvertible;
  }

  method WithComponents(existing: seq<string>, items: seq<string>) returns (components: seq<string>)
    ensures components == UniqueAddAll(existing, items)
  {
    components := existing;
    var i := 0;
    while i < |items|
      invariant 0 <= i <= |items|
      invariant UniqueAddAll(components, items[i..]) == UniqueAddAll(existing, items)
    {
      components := UniqueAdd(components, items[i]);
      i := i + 1;
    }
  }

  function Elements(s: seq<string>): set<string> {
    set x | x in s
  }

  predicate AllConverted(cs: seq<Conversion>) {
    forall i :: 0 <= i < |cs| ==> cs[i].Converted?
  }

  predicate PairwiseEquivalent(cs: seq<Conversion>)
    requires AllConverted(cs)
  {
    forall i, j :: 0 <= i < |cs| && 0 <= j < |cs| ==> Equivalent(cs[i].info.schedule, cs[j].info.schedule)
  }

  /** Every conversion succeeded with a schedule equivalent to the given one. */
  predicate AllEquivalentTo(cs: seq<Conversion>, schedule: string) {
    forall i :: 0 <= i < |cs| ==> cs[i].Converted? && Equivalent(schedule, cs[i].info.schedule)
  }

  function ComponentsOf(cs: seq<Conversion>): set<string> {
    set c, x | c in cs && c.Converted? && x in c.info.components :: x
  }

  lemma {:induction false} UniqueAddAllElements(s: seq<string>, items: seq<string>)
    ensures Elements(UniqueAddAll(s, items)) == Elements(s) + Elements(items)
    decreases |items|
  {
    if items != [] {
      UniqueAddAllElements(UniqueAdd(s, items[0]), items[1..]);
      assert items == [items[0]] + items[1..];
    }
  }

  predicate NoneTwice(s: seq<string>) {
    forall i, j :: 0 <= i < j < |s| ==> s[i] != s[j]
  }

  /** Adding keeps what is there, in order, and adds nothing twice. */
  lemma {:induction false} UniqueAddAllKeeps(s: seq<string>, items: seq<string>)
    ensures s <= UniqueAddAll(s, items)
    ensures NoneTwice(s) ==> NoneTwice(UniqueAddAll(s, items))
    decreases |items|
  {
    if items != [] {
      UniqueAddAllKeeps(UniqueAdd(s, items[0]), items[1..]);
    }
  }

  lemma {:induction false} CommonFromExactly(found: Info, cs: seq<Conversion>)
    ensures CommonFrom(Some(found), cs).Converted? <==> AllEquivalentTo(cs, found.schedule)
    ensures CommonFrom(Some(found), cs).Converted? ==>
              && CommonFrom(Some(found), cs).info.schedule == found.schedule
              && Elements(CommonFrom(Some(found), cs).info.components) == Elements(found.components) + ComponentsOf(cs)
    decreases |cs|
  {
    if cs != [] {
      var c := cs[0];
      assert forall i :: 0 < i < |cs| ==> cs[i] == cs[1..][i - 1];
      if c.Converted? && Equivalent(found.schedule, c.info.schedule) {
        CommonFromExactly(Joined(found, c.info), cs[1..]);
        UniqueAddAllElements(found.components, c.info.components);
        assert cs == [c] + cs[1..];
        assert ComponentsOf(cs) == Elements(c.info.components) + ComponentsOf(cs[1..]);
      }
    }
  }

  /**
   A common schedule exists exactly when there is an endpoint, all of them convert and all schedules are pairwise
   equivalent; it is the first schedule, and its components are those of all endpoints.
   */
  lemma CommonSchedule(cs: seq<Conversion>)
    ensures CommonFrom(None, cs).Converted? <==> cs != [] && AllConverted(cs) && PairwiseEquivalent(cs)
    ensures CommonFrom(None, cs).Converted? ==>
              && CommonFrom(None, cs).info.schedule == cs[0].info.schedule
              && Elements(CommonFrom(None, cs).info.components) == ComponentsOf(cs)
  {
    if cs != [] && cs[0].Converted? {
      var first := cs[0].info;
      CommonFromExactly(first, cs[1..]);
      assert forall i :: 0 < i < |cs| ==> cs[i] == cs[1..][i - 1];
      assert cs == [cs[0]] + cs[1..];
      assert ComponentsOf(cs) == Elements(first.components) + ComponentsOf(cs[1..]);
    }
  }

  lemma PrefixAgrees(cs: seq<Conversion>, schedule: string, k: nat)
    requires 0 < k <= |cs|
    ensures AllEquivalentTo(cs[..k], schedule) <==>
              && cs[0].Converted? && Equivalent(schedule, cs[0].info.schedule)
              && AllEquivalentTo(cs[1..][..k - 1], schedule)
  {
    var all, rest := cs[..k], cs[1..][..k - 1];
    assert all[0] == cs[0] && forall i :: 0 <= i < k - 1 ==> rest[i] == all[i + 1];
    assert forall i :: 0 < i < k ==> all[i] == rest[i - 1];
  }

  lemma {:induction false} PanicsFrom(found: Info, cs: seq<Conversion>)
    ensures CommonFrom(Some(found), cs).Panicked? <==>
              exists k :: 0 <= k < |cs| && cs[k].Panicked? && AllEquivalentTo(cs[..k], found.schedule)
    decreases |cs|
  {
    if cs != [] {
      var c, rest := cs[0], cs[1..];
      forall k | 0 < k < |cs|
        ensures cs[k] == rest[k - 1]
        ensures AllEquivalentTo(cs[..k], found.schedule) <==>
                  && c.Converted? && Equivalent(found.schedule, c.info.schedule)
                  && AllEquivalentTo(rest[..k - 1], found.schedule)
      {
        PrefixAgrees(cs, found.schedule, k);
      }
      assert AllEquivalentTo(cs[..0], found.schedule);
      if c.Converted? && Equivalent(found.schedule, c.info.schedule) {
        PanicsFrom(Joined(found, c.info), rest);
        if k :| 0 <= k < |rest| && rest[k].Panicked? && AllEquivalentTo(rest[..k], found.schedule) {
          assert cs[k + 1].Panicked? && AllEquivalentTo(cs[..k + 1], found.schedule);
        }
      }
    }
  }

  /** The search panics exactly on an endpoint that does, when all before it agree on a schedule. */
  lemma CommonPanics(cs: seq<Conversion>)
    ensures CommonFrom(None, cs).Panicked? <==>
              exists k :: 0 <= k < |cs| && cs[k].Panicked? && AllConverted(cs[..k]) && PairwiseEquivalent(cs[..k])
  {
    if cs != [] && cs[0].Converted? {
      var first, rest := cs[0].info, cs[1..];
      PanicsFrom(first, rest);
      forall k | 0 < k < |cs|
        ensures cs[k] == rest[k - 1]
        ensures AllEquivalentTo(rest[..k - 1], first.schedule) <==> AllConverted(cs[..k]) && PairwiseEquivalent(cs[..k])
      {
        CommonSchedule(cs[..k]);
        CommonFromExactly(first, rest[..k - 1]);
        assert cs[..k][1..] == rest[..k - 1] && cs[..k][0] == cs[0];
      }
      if k :| 0 <= k < |rest| && rest[k].Panicked? && AllEquivalentTo(rest[..k], first.schedule) {
        assert cs[k + 1].Panicked? && AllConverted(cs[..k + 1]) && PairwiseEquivalent(cs[..k + 1]);
      }
    } else if cs != [] {
      forall k | 0 < k < |cs| ensures !AllConverted(cs[..k]) {
        assert cs[..k][0] == cs[0];
      }
      assert AllConverted(cs[..0]) && PairwiseEquivalent(cs[..0]);
    }
  }

  /** Neither the existence of a common schedule nor its components depend on the order of the endpoints. */
  lemma CommonScheduleUnordered(a: seq<Uri>, b: seq<Uri>)
    requires AllSupported(a) && AllSupported(b) && multiset(a) == multiset(b)
    ensures var x, y := CommonFrom(None, Conversions(a)), CommonFrom(None, Conversions(b));
            && x.Converted? == y.Converted?
            && (x.Converted? ==>
                  && Equivalent(x.info.schedule, y.info.schedule)
                  && Elements(x.info.components) == Elements(y.info.components))
  {
    var ca, cb := Conversions(a), Conversions(b);
    CommonSchedule(ca);
    CommonSchedule(cb);
    SameConversions(a, b);
    SameConversions(b, a);
    OrderFree(ca, cb);
    OrderFree(cb, ca);
    if CommonFrom(None, ca).Converted? {
      assert cb[0] in ca;
      var i :| 0 <= i < |ca| && ca[i] == cb[0];
      assert Equivalent(ca[0].info.schedule, ca[i].info.schedule);
    }
  }

  lemma SameConversions(a: seq<Uri>, b: seq<Uri>)
    requires AllSupported(a) && AllSupported(b) && multiset(a) == multiset(b)
    ensures forall c :: c in Conversions(a) ==> c in Conversions(b)
  {
    forall c | c in Conversions(a) ensures c in Conversions(b) {
      var i :| 0 <= i < |a| && Conversions(a)[i] == c;
      assert a[i] in multiset(b);
      var j :| 0 <= j < |b| && b[j] == a[i];
      assert Conversions(b)[j] == c;
    }
  }

  lemma OrderFree(a: seq<Conversion>, b: seq<Conversion>)
    requires forall c :: c in a <==> c in b
    ensures a == [] ==> b == []
    ensures AllConverted(a) && PairwiseEquivalent(a) ==> AllConverted(b) && PairwiseEquivalent(b)
    ensures ComponentsOf(a) == ComponentsOf(b)
  {
    forall i | 0 <= i < |b| ensures b[i] in a {
      assert b[i] in b;
    }
    assert b != [] ==> b[0] in a;
    if AllConverted(a) && PairwiseEquivalent(a) {
      forall i, j | 0 <= i < |b| && 0 <= j < |b|
        ensures b[i].Converted? && b[j].Converted? && Equivalent(b[i].info.schedule, b[j].info.schedule)
      {
        assert b[i] in a && b[j] in a;
        var k :| 0 <= k < |a| && a[k] == b[i];
        var l :| 0 <= l < |a| && a[l] == b[j];
        assert Equivalent(a[k].info.schedule, a[l].info.schedule);
      }
    }
  }

  /** The schedule of an Integration: endpoints that are neither convertible nor passive rule one out. */
  function GlobalCron(us: seq<Uri>, passive: set<string>, cron: seq<Uri>): Conversion
    requires AllSupported(cron)
    decreases |us|
  {
    if us == [] then CommonFrom(None, Conversions(cron))
    else if Supported(us[0]) then GlobalCron(us[1..], passive, cron + [us[0]])
    else if us[0].component !in passive then NotConvertible
    else GlobalCron(us[1..], passive, cron)
  }

  function SupportedOf(us: seq<Uri>): (r: seq<Uri>)
    ensures AllSupported(r)
    decreases |us|
  {
    if us == [] then [] else if Supported(us[0]) then [us[0]] + SupportedOf(us[1..]) else SupportedOf(us[1..])
  }

  /** Passive endpoints are ignored, any other foreign endpoint rules the schedule out. */
  lemma {:induction false} GlobalCronExactly(us: seq<Uri>, passive: set<string>, cron: seq<Uri>)
    requires AllSupported(cron)
    ensures GlobalCron(us, passive, cron) ==
            if forall i :: 0 <= i < |us| ==> Supported(us[i]) || us[i].component in passive
            then CommonFrom(None, Conversions(cron + SupportedOf(us)))
            else NotConvertible
    decreases |us|
  {
    if us == [] {
      assert cron + SupportedOf(us) == cron;
    } else {
      var rest := us[1..];
      assert us == [us[0]] + rest;
      assert (forall i :: 0 <= i < |us| ==> Supported(us[i]) || us[i].component in passive) <==>
             (Supported(us[0]) || us[0].component in passive) &&
             forall i :: 0 <= i < |rest| ==> Supported(rest[i]) || rest[i].component in passive;
      if Supported(us[0]) {
        GlobalCronExactly(rest, passive, cron + [us[0]]);
        assert cron + [us[0]] + SupportedOf(rest) == cron + SupportedOf(us);
      } else if us[0].component in passive {
        GlobalCronExactly(us[1..], passive, cron);
      }
    }
  }

  /** A schedule that was found is never empty. */
  lemma GlobalCronHasSchedule(us: seq<Uri>, passive: set<string>)
    ensures GlobalCron(us, passive, []).Converted? ==> GlobalCron(us, passive, []).info.schedule != ""
  {
    GlobalCronExactly(us, passive, []);
    CommonSchedule(Conversions([] + SupportedOf(us)));
  }

  method GetGlobalCron(us: seq<Uri>, passive: set<string>) returns (cron: Conversion)
    ensures cron == GlobalCron(us, passive, [])
  {
    var found: seq<Uri> := [];
    var i := 0;
    while i < |us|
      invariant 0 <= i <= |us| && AllSupported(found)
      invariant GlobalCron(us[i..], passive, found) == GlobalCron(us, passive, [])
    {
      if Supported(us[i]) {
        found := found + [us[i]];
      } else if us[i].component !in passive {
        return NotConvertible;
      }
      i := i + 1;
    }
    cron := GetCronForUris(found);
  }

  // Wildcards

  function StarredAll(fs: seq<string>): (r: seq<string>)
    ensures |r| == |fs| && forall i :: 0 <= i < |fs| ==> r[i] == Starred(fs[i])
  {
    seq(|fs|, i requires 0 <= i < |fs| => Starred(fs[i]))
  }

  lemma {:induction false} StarredConcat(a: string, b: string)
    ensures Starred(a + b) == Starred(a) + Starred(b)
  {
    assert |Starred(a + b)| == |Starred(a) + Starred(b)|;
    assert forall i :: 0 <= i < |a + b| ==> Starred(a + b)[i] == (Starred(a) + Starred(b))[i];
  }

  lemma {:induction false} StarredJoin(fs: seq<string>)
    ensures Starred(Join(fs)) == Join(StarredAll(fs))
  {
    if |fs| > 1 {
      StarredJoin(fs[1..]);
      StarredConcat(fs[0] + " ", Join(fs[1..]));
      StarredConcat(fs[0], " ");
      assert StarredAll(fs)[1..] == StarredAll(fs[1..]);
      assert Starred(" ") == " ";
    }
  }

  /** Changing wildcards and normalising can be done in either order. */
  lemma NormalFormOfStarred(cron: string)
    ensures ToKubernetesCron(Starred(cron)) == Starred(ToKubernetesCron(cron))
  {
    StarredFields(cron);
    var parts, starred := Split(cron), Split(Starred(cron));
    assert forall i :: 0 <= i < |parts| ==> starred[i] == Starred(parts[i]);
    forall f: string ensures Starred(f) == "0" <==> f == "0" {
      assert |f| == 1 ==> f == [f[0]] && Starred(f) == [Starred(f)[0]];
    }
    forall f: string ensures Starred(f) == "*" || Starred(f) == "?" <==> f == "*" || f == "?" {
      assert |f| == 1 ==> f == [f[0]] && Starred(f) == [Starred(f)[0]];
    }
    if Accepted(cron) {
      var five := if |parts| == 5 then parts else parts[1..6];
      FiveOf(cron, five);
      FiveOf(Starred(cron), StarredAll(five));
      StarredJoin(five);
    } else {
      NormalFormHasFiveFields(cron);
      NormalFormHasFiveFields(Starred(cron));
      assert !Accepted(Starred(cron));
    }
  }

  lemma FiveOf(cron: string, five: seq<string>)
    requires Accepted(cron)
    requires five == if |Split(cron)| == 5 then Split(cron) else Split(cron)[1..6]
    ensures ToKubernetesCron(cron) == Join(five)
  {
    var parts := Split(cron);
    if |parts| == 6 {
      assert parts[1..] == five;
    } else if |parts| == 7 {
      assert parts[1..][..5] == five;
    }
  }

  /** The same endpoint, but for the wildcards of its schedule. */
  ghost predicate SameButWildcards(u: Uri, v: Uri) {
    && u.component == v.component
    && (forall p: string :: p != "cron" && p != "schedule" ==> u.Param(p) == v.Param(p))
    && Equivalent(u.Param("cron"), v.Param("cron")) && Equivalent(u.Param("schedule"), v.Param("schedule"))
  }

  lemma NormalFormsAreEquivalent(a: string, b: string)
    requires Equivalent(a, b)
    ensures Equivalent(ToKubernetesCron(a), ToKubernetesCron(b))
    ensures ToKubernetesCron(a) == "" <==> ToKubernetesCron(b) == ""
  {
    NormalFormOfStarred(a);
    NormalFormOfStarred(b);
    EquivalentExactly(ToKubernetesCron(a), ToKubernetesCron(b));
  }

  /** Two conversions with the same outcome, up to wildcards. */
  predicate Alike(c: Conversion, d: Conversion) {
    if c.Converted? then
      d.Converted? && d.info.components == c.info.components && Equivalent(c.info.schedule, d.info.schedule)
    else c == d
  }

  lemma ConvertsAlike(u: Uri, v: Uri)
    requires Supported(u) && SameButWildcards(u, v)
    ensures Alike(Convert(u), Convert(v))
  {
    NormalFormsAreEquivalent(u.Param("cron"), v.Param("cron"));
    NormalFormsAreEquivalent(u.Param("schedule"), v.Param("schedule"));
    OtherParams(u, v);
  }

  const OTHER_PARAMS :=
    {"delay", "repeatCount", "time", "period", "fireNow", "customCalendar", "startDelayedSeconds"}

  lemma OtherParams(u: Uri, v: Uri)
    requires SameButWildcards(u, v)
    ensures forall p :: p in OTHER_PARAMS ==> u.Param(p) == v.Param(p)
  {
    forall p | p in OTHER_PARAMS ensures u.Param(p) == v.Param(p) {
      assert |p| != 8 && (|p| == 4 ==> p[0] == 't');
    }
  }

  lemma {:induction false} CommonAlike(
    found: Option<Info>, other: Option<Info>, cs: seq<Conversion>, ds: seq<Conversion>)
    requires |cs| == |ds| && forall i :: 0 <= i < |cs| ==> Alike(cs[i], ds[i])
    requires found.Some? == other.Some?
    requires found.Some? ==> found.value.components == other.value.components
    requires found.Some? ==> Equivalent(found.value.schedule, other.value.schedule)
    ensures Alike(CommonFrom(found, cs), CommonFrom(other, ds))
    decreases |cs|
  {
    if cs != [] && cs[0].Converted? {
      assert Alike(cs[0], ds[0]);
      assert forall i :: 0 <= i < |cs| - 1 ==> cs[1..][i] == cs[i + 1] && ds[1..][i] == ds[i + 1];
      if found.None? {
        CommonAlike(Some(cs[0].info), Some(ds[0].info), cs[1..], ds[1..]);
      } else if Equivalent(found.value.schedule, cs[0].info.schedule) {
        CommonAlike(Some(Joined(found.value, cs[0].info)), Some(Joined(other.value, ds[0].info)), cs[1..], ds[1..]);
      }
    } else if cs != [] {
      assert Alike(cs[0], ds[0]);
    }
  }

  lemma {:induction false} GlobalAlike(
    us: seq<Uri>, vs: seq<Uri>, passive: set<string>, found: seq<Uri>, other: seq<Uri>)
    requires |us| == |vs| && forall i :: 0 <= i < |us| ==> SameButWildcards(us[i], vs[i])
    requires AllSupported(found) && AllSupported(other) && |found| == |other|
    requires forall i :: 0 <= i < |found| ==> SameButWildcards(found[i], other[i])
    ensures Alike(GlobalCron(us, passive, found), GlobalCron(vs, passive, other))
    decreases |us|
  {
    if us == [] {
      forall i | 0 <= i < |found| ensures Alike(Conversions(found)[i], Conversions(other)[i]) {
        ConvertsAlike(found[i], other[i]);
      }
      CommonAlike(None, None, Conversions(found), Conversions(other));
    } else {
      assert SameButWildcards(us[0], vs[0]);
      if Supported(us[0]) {
        GlobalAlike(us[1..], vs[1..], passive, found + [us[0]], other + [vs[0]]);
      } else if us[0].component in passive {
        GlobalAlike(us[1..], vs[1..], passive, found, other);
      }
    }
  }

  /**
   Which wildcards the endpoints use makes no difference: changing `?` to `*` or back in any schedules never changes
   whether there is a common schedule, and it stays the same up to wildcards.
   */
  lemma WildcardsMakeNoDifference(us: seq<Uri>, vs: seq<Uri>, passive: set<string>)
    requires |us| == |vs| && forall i :: 0 <= i < |us| ==> SameButWildcards(us[i], vs[i])
    ensures Alike(GlobalCron(us, passive, []), GlobalCron(vs, passive, []))
  {
    GlobalAlike(us, vs, passive, [], []);
  }
}
