/** Cron expressions and the bounded minute-by-minute search for the next run. Times are
    nanoseconds since Go's zero time; a zone is an arbitrary function from the minute number to
    the local clock, and `Utc` is the one used for the calendar bound. */
module CronSearch {
  import opened Text
  import opened Calendar
  import opened CronField

  const MAX_ITERATIONS: nat := 5 * 366 * 24 * 60
  const MINUTE: nat := 60_000_000_000

  datatype LocalTime = LocalTime(minute: int, hour: int, day: int, month: int, weekday: int)
  datatype Expression = Expression(minute: Matcher, hour: Matcher, dayOfMonth: Matcher, month: Matcher, dayOfWeek: Matcher)

  type Zone = nat -> LocalTime

  predicate DayMatches(e: Expression, t: LocalTime) {
    var dom, dow := Contains(e.dayOfMonth, t.day), Contains(e.dayOfWeek, t.weekday);
    if e.dayOfMonth.Any? && e.dayOfWeek.Any? then true
    else if e.dayOfMonth.Any? then dow
    else if e.dayOfWeek.Any? then dom
    else dom || dow
  }

  predicate Matches(e: Expression, t: LocalTime) {
    if !Contains(e.minute, t.minute) then false
    else if !Contains(e.hour, t.hour) then false
    else if !Contains(e.month, t.month) then false
    else DayMatches(e, t)
  }

  /** The either-day rule: two explicit day fields are alternatives; otherwise both have to allow the
      day, which "*" always does. */
  lemma MatchesExactly(e: Expression, t: LocalTime)
    ensures Matches(e, t) <==>
      && Contains(e.minute, t.minute) && Contains(e.hour, t.hour) && Contains(e.month, t.month)
      && if e.dayOfMonth.Values? && e.dayOfWeek.Values? then t.day in e.dayOfMonth.values || t.weekday in e.dayOfWeek.values
         else Contains(e.dayOfMonth, t.day) && Contains(e.dayOfWeek, t.weekday)
  {
  }

  function ParsedExpression(fields: seq<string>): Option<Expression>
    requires |fields| == 5
  {
    var minute := ParsedField(fields[0], 0, 59, false);
    var hour := ParsedField(fields[1], 0, 23, false);
    var dayOfMonth := ParsedField(fields[2], 1, 31, false);
    var month := ParsedField(fields[3], 1, 12, false);
    var dayOfWeek := ParsedField(fields[4], 0, 7, true);
    if minute.None? || hour.None? || dayOfMonth.None? || month.None? || dayOfWeek.None? then None
    else Some(Expression(minute.value, hour.value, dayOfMonth.value, month.value, dayOfWeek.value))
  }

  method ParseExpression(fields: seq<string>) returns (r: Option<Expression>)
    requires |fields| == 5
    ensures r == ParsedExpression(fields)
  {
    var minute := ParseField(fields[0], 0, 59, false);
    if minute.None? { return None; }
    var hour := ParseField(fields[1], 0, 23, false);
    if hour.None? { return None; }
    var dayOfMonth := ParseField(fields[2], 1, 31, false);
    if dayOfMonth.None? { return None; }
    var month := ParseField(fields[3], 1, 12, false);
    if month.None? { return None; }
    var dayOfWeek := ParseField(fields[4], 0, 7, true);
    if dayOfWeek.None? { return None; }
    r := Some(Expression(minute.value, hour.value, dayOfMonth.value, month.value, dayOfWeek.value));
  }

  ghost predicate FieldIn(m: Matcher, lo: int, hi: int) {
    m.Values? ==> m.values != {} && forall v :: v in m.values ==> lo <= v <= hi
  }

  /** What the parser guarantees. */
  ghost predicate InRange(e: Expression) {
    && FieldIn(e.minute, 0, 59) && FieldIn(e.hour, 0, 23)
    && FieldIn(e.dayOfMonth, 1, 31) && FieldIn(e.month, 1, 12)
    && FieldIn(e.dayOfWeek, 0, 6)
  }

  lemma ParsedFieldIn(raw: string, lo: int, hi: int, sunday: bool)
    requires Limits(lo, hi, sunday) && ParsedField(raw, lo, hi, sunday).Some?
    ensures FieldIn(ParsedField(raw, lo, hi, sunday).value, lo, if sunday then 6 else hi)
  {
    if ParsedField(raw, lo, hi, sunday).value.Values? {
      FieldInRange(raw, lo, hi, sunday);
    }
  }

  lemma ParsedInRange(fields: seq<string>)
    requires |fields| == 5 && ParsedExpression(fields).Some?
    ensures InRange(ParsedExpression(fields).value)
  {
    ParsedFieldIn(fields[0], 0, 59, false);
    ParsedFieldIn(fields[1], 0, 23, false);
    ParsedFieldIn(fields[2], 1, 31, false);
    ParsedFieldIn(fields[3], 1, 12, false);
    ParsedFieldIn(fields[4], 0, 7, true);
  }

  /** `t` is the least of the minutes [from, from + n) that matches. */
  ghost predicate LeastMatch(e: Expression, zone: Zone, from: nat, n: nat, t: nat) {
    from <= t < from + n && Matches(e, zone(t)) && forall u: nat :: from <= u < t ==> !Matches(e, zone(u))
  }

  ghost predicate NoMatch(e: Expression, zone: Zone, from: nat, n: nat) {
    forall u: nat :: from <= u < from + n ==> !Matches(e, zone(u))
  }

  /** First minute boundary strictly after `now`. */
  function FirstCandidate(now: nat): nat {
    now / MINUTE + 1
  }

  /** The search loop of `nextRunForSchedule`; the result is a minute number. */
  method Search(e: Expression, zone: Zone, now: nat) returns (r: Option<nat>)
    ensures r.Some? ==> LeastMatch(e, zone, FirstCandidate(now), MAX_ITERATIONS, r.value)
    ensures r.None? ==> NoMatch(e, zone, FirstCandidate(now), MAX_ITERATIONS)
  {
    var candidate := FirstCandidate(now);
    var iteration := 0;
    while iteration < MAX_ITERATIONS
      invariant 0 <= iteration <= MAX_ITERATIONS && candidate == FirstCandidate(now) + iteration
      invariant NoMatch(e, zone, FirstCandidate(now), iteration)
    {
      if Matches(e, zone(candidate)) {
        return Some(candidate);
      }
      candidate := candidate + 1;
      iteration := iteration + 1;
    }
    r := None;
  }

  /** The value the search returns, as a function. */
  ghost function NextMinute(e: Expression, zone: Zone, now: nat): (r: Option<nat>)
    ensures r.Some? ==> LeastMatch(e, zone, FirstCandidate(now), MAX_ITERATIONS, r.value)
    ensures r.None? <==> NoMatch(e, zone, FirstCandidate(now), MAX_ITERATIONS)
  {
    if t: nat :| LeastMatch(e, zone, FirstCandidate(now), MAX_ITERATIONS, t) then Some(t)
    else
      LeastExists(e, zone, FirstCandidate(now), MAX_ITERATIONS);
      None
  }

  lemma {:induction false} LeastExists(e: Expression, zone: Zone, from: nat, n: nat)
    ensures NoMatch(e, zone, from, n) || exists t: nat :: LeastMatch(e, zone, from, n, t)
  {
    if n > 0 {
      LeastExists(e, zone, from, n - 1);
      if NoMatch(e, zone, from, n - 1) {
        if Matches(e, zone(from + n - 1)) {
          assert LeastMatch(e, zone, from, n, from + n - 1);
        }
      } else {
        var t: nat :| LeastMatch(e, zone, from, n - 1, t);
        assert LeastMatch(e, zone, from, n, t);
      }
    }
  }

  /** The next run, in nanoseconds. */
  ghost function NextRun(e: Expression, zone: Zone, now: nat): (next: Option<nat>)
    ensures next.None? <==> NoMatch(e, zone, FirstCandidate(now), MAX_ITERATIONS)
  {
    var r := NextMinute(e, zone, now);
    if r.None? then None else Some(r.value * MINUTE)
  }

  /** The next run is the least matching minute boundary strictly after `now`. */
  lemma NextRunIsLeast(e: Expression, zone: Zone, now: nat, boundary: nat)
    requires NextRun(e, zone, now).Some?
    ensures var next := NextRun(e, zone, now).value;
            && next > now && next % MINUTE == 0 && Matches(e, zone(next / MINUTE))
            && (boundary % MINUTE == 0 && now < boundary < next ==> !Matches(e, zone(boundary / MINUTE)))
  {
    var t := NextMinute(e, zone, now).value;
    assert t * MINUTE / MINUTE == t && t * MINUTE % MINUTE == 0;
    if boundary % MINUTE == 0 && now < boundary < t * MINUTE {
      assert FirstCandidate(now) <= boundary / MINUTE < t;
    }
  }

  /** It stays the same for every later reading of the clock that precedes it. */
  lemma NextRunConstantUntilDue(e: Expression, zone: Zone, now: nat, later: nat)
    requires NextRun(e, zone, now).Some? && now <= later < NextRun(e, zone, now).value
    ensures NextRun(e, zone, later) == NextRun(e, zone, now)
  {
    var t := NextMinute(e, zone, now).value;
    assert FirstCandidate(now) <= FirstCandidate(later) <= t;
    assert LeastMatch(e, zone, FirstCandidate(later), MAX_ITERATIONS, t);
  }

  lemma NextRunMonotone(e: Expression, zone: Zone, now: nat, later: nat)
    requires now <= later && NextRun(e, zone, now).Some? && NextRun(e, zone, later).Some?
    ensures NextRun(e, zone, now).value <= NextRun(e, zone, later).value
  {
    if later < NextRun(e, zone, now).value {
      NextRunConstantUntilDue(e, zone, now, later);
    } else {
      NextRunIsLeast(e, zone, later, 0);
    }
  }

  function SpaceIndex(s: string): (i: nat)
    ensures i <= |s| && (s != "" && !IsSpace(s[0]) ==> i > 0)
  {
    if s == "" || IsSpace(s[0]) then 0 else 1 + SpaceIndex(s[1..])
  }

  lemma TrimLeftShrinks(s: string)
    ensures |TrimLeft(s)| <= |s| && (TrimLeft(s) == "" || !IsSpace(TrimLeft(s)[0]))
  {
  }

  /** `strings.Fields`. */
  function Fields(s: string): seq<string>
    decreases |s|
  {
    TrimLeftShrinks(s);
    var t := TrimLeft(s);
    if t == "" then [] else [t[..SpaceIndex(t)]] + Fields(t[SpaceIndex(t)..])
  }

  const EVERY := "@every "

  /** What a schedule string asks for; `None` is a validation error. Durations are parsed by
      `time.ParseDuration`, which is a parameter here. */
  datatype Schedule = Every(interval: nat) | Cron(expression: Expression)

  function ParsedSchedule(schedule: string, duration: string -> Option<int>): Option<Schedule> {
    if EVERY <= schedule then
      var d := duration(Trim(schedule[|EVERY|..]));
      if d.None? || d.value <= 0 then None else Some(Every(d.value))
    else
      var fields := Fields(schedule);
      if |fields| != 5 then None
      else
        var e := ParsedExpression(fields);
        if e.None? then None else Some(Cron(e.value))
  }

  /** `nextRunForSchedule`. */
  method NextRunForSchedule(schedule: string, duration: string -> Option<int>, zone: Zone, now: nat) returns (r: Option<nat>)
    ensures match ParsedSchedule(schedule, duration)
            case None => r == None
            case Some(Every(d)) => d > 0 && r == Some(now + d)
            case Some(Cron(e)) => InRange(e) && r == NextRun(e, zone, now)
    ensures "@every " <= schedule ==>
      var d := duration(Trim(schedule[7..]));
      r == if d.Some? && d.value > 0 then Some(now + d.value) else None
    ensures !("@every " <= schedule) && |Fields(schedule)| != 5 ==> r == None
  {
    if EVERY <= schedule {
      var d := duration(Trim(schedule[|EVERY|..]));
      if d.None? || d.value <= 0 {
        return None;
      }
      return Some(now + d.value);
    }
    var fields := Fields(schedule);
    if |fields| != 5 {
      return None;
    }
    var e := ParseExpression(fields);
    if e.None? {
      return None;
    }
    ParsedInRange(fields);
    var t := Search(e.value, zone, now);
    SearchIsNextMinute(e.value, zone, now, t);
    r := if t.None? then None else Some(t.value * MINUTE);
  }

  lemma SearchIsNextMinute(e: Expression, zone: Zone, now: nat, r: Option<nat>)
    requires r.Some? ==> LeastMatch(e, zone, FirstCandidate(now), MAX_ITERATIONS, r.value)
    requires r.None? ==> NoMatch(e, zone, FirstCandidate(now), MAX_ITERATIONS)
    ensures r == NextMinute(e, zone, now)
  {
  }

  const DAY_MINUTES: nat := 1440
  const WINDOW_DAYS: nat := 1830

  /** The UTC clock at the given minute. */
  function Utc(t: nat): LocalTime {
    var date := DateOf(t / DAY_MINUTES);
    LocalTime(t % 60, t / 60 % 24, date.day, date.month, Weekday(t / DAY_MINUTES))
  }

  /** Some minute of the search window matches. */
  ghost predicate Finds(e: Expression, start: nat) {
    !NoMatch(e, Utc, start, MAX_ITERATIONS)
  }

  /** Day `n` satisfies the month and day fields. */
  predicate DayAllowed(e: Expression, n: nat) {
    var date := DateOf(n);
    Contains(e.month, date.month) && DayMatches(e, LocalTime(0, 0, date.day, date.month, Weekday(n)))
  }

  lemma ClockOf(day: nat, hour: nat, minute: nat)
    requires hour < 24 && minute < 60
    ensures var t := day * DAY_MINUTES + hour * 60 + minute;
            t / DAY_MINUTES == day && t / 60 % 24 == hour && t % 60 == minute
  {
    var t := day * DAY_MINUTES + hour * 60 + minute;
    assert t / 60 == day * 24 + hour;
  }

  ghost function Pick(m: Matcher, lo: nat, hi: nat): (v: nat)
    requires FieldIn(m, lo, hi) && lo <= hi
    ensures lo <= v <= hi && Contains(m, v)
  {
    if m.Any? then lo else AnyOf(m.values)
  }

  /** An allowed day among the next 1829 gives a match inside the window. */
  lemma AllowedDayIsFound(e: Expression, start: nat, n: nat)
    requires InRange(e) && DayAllowed(e, n)
    requires start / DAY_MINUTES < n < start / DAY_MINUTES + WINDOW_DAYS
    ensures Finds(e, start)
  {
    var hour, minute := Pick(e.hour, 0, 23), Pick(e.minute, 0, 59);
    ClockOf(n, hour, minute);
    var t := n * DAY_MINUTES + hour * 60 + minute;
    assert Matches(e, Utc(t)) && start <= t < start + MAX_ITERATIONS;
  }

  /** A day other than 29 February that the expression allows in every year. */
  ghost predicate AllowsOrdinaryDay(e: Expression) {
    || e.dayOfWeek.Values? || e.dayOfMonth.Any?
    || exists m: nat, d: nat :: AllowsDate(e, m, d) && OrdinaryDate(m, d)
  }

  predicate AllowsDate(e: Expression, m: nat, d: nat) {
    Contains(e.month, m) && Contains(e.dayOfMonth, d)
  }

  /** A month and day that exist in every year. */
  predicate OrdinaryDate(m: nat, d: nat) {
    1 <= m <= 12 && 1 <= d <= DaysIn(1, m)
  }

  lemma OrdinaryDateAhead(start: nat, m: nat, d: nat) returns (n: nat)
    requires OrdinaryDate(m, d)
    ensures start < n < start + 1 + 2 * 366
    ensures DateOf(n) == Date(DateOf(start).year + 1, m, d)
  {
    var date := Date(DateOf(start).year + 1, m, d);
    assert Valid(date);
    DistanceToYear(start, 1, date);
    MonthTable(date.year);
    MonthMonotone(date.year, m + 1, 13);
    n := DayNumber(date);
  }

  lemma WeekdayShift(n: nat, w: nat)
    requires w <= 6
    ensures Weekday(n + (w + 7 - Weekday(n)) % 7) == w
  {
  }

  /** Days 1 to 7 of a month fall on all seven weekdays. */
  lemma WeekdayAhead(start: nat, m: nat, w: nat) returns (n: nat)
    requires 1 <= m <= 12 && w <= 6
    ensures start < n < start + WINDOW_DAYS && DateOf(n).month == m && Weekday(n) == w
  {
    var first := OrdinaryDateAhead(start, m, 1);
    var j := (w + 7 - Weekday(first)) % 7;
    n := OrdinaryDateAhead(start, m, 1 + j);
    NumberOfDate(first);
    NumberOfDate(n);
    assert n == first + j by { assert DayNumber(DateOf(n)) == DayNumber(DateOf(first)) + j; }
    WeekdayShift(first, w);
  }

  /** The search succeeds from every start when some ordinary day is allowed. */
  lemma OrdinaryDayIsFound(e: Expression, start: nat)
    requires InRange(e) && AllowsOrdinaryDay(e)
    ensures Finds(e, start)
  {
    var day := start / DAY_MINUTES;
    if e.dayOfWeek.Values? {
      var n := WeekdayAhead(day, Pick(e.month, 1, 12), Pick(e.dayOfWeek, 0, 6));
      AllowedDayIsFound(e, start, n);
    } else if e.dayOfMonth.Any? {
      var n := OrdinaryDateAhead(day, Pick(e.month, 1, 12), 1);
      AllowedDayIsFound(e, start, n);
    } else {
      var m: nat, d: nat :| AllowsDate(e, m, d) && OrdinaryDate(m, d);
      var n := OrdinaryDateAhead(day, m, d);
      AllowedDayIsFound(e, start, n);
    }
  }

  /** Otherwise only 29 February can match. */
  lemma OnlyLeapDayMatches(e: Expression, t: nat)
    requires !AllowsOrdinaryDay(e) && Matches(e, Utc(t))
    ensures DateOf(t / DAY_MINUTES).month == 2 && DateOf(t / DAY_MINUTES).day == 29
    ensures AllowsDate(e, 2, 29)
  {
    var date := DateOf(t / DAY_MINUTES);
    NumberOfDate(t / DAY_MINUTES);
    assert AllowsDate(e, date.month, date.day);
    assert !OrdinaryDate(date.month, date.day);
  }

  /** A minute of the window that falls on a 29 February at an allowed time of day. */
  ghost predicate LeapMinuteInWindow(e: Expression, start: nat) {
    exists t: nat :: start <= t < start + MAX_ITERATIONS && LeapMinute(e, t)
  }

  predicate LeapMinute(e: Expression, t: nat) {
    var date := DateOf(t / DAY_MINUTES);
    date.month == 2 && date.day == 29 && Contains(e.minute, t % 60) && Contains(e.hour, t / 60 % 24)
  }

  /** Exactly when the bounded search fails in UTC: no ordinary day is allowed, and either
      29 February is not allowed as well or the window holds none at an allowed time. */
  lemma SearchFailsExactly(e: Expression, start: nat)
    requires InRange(e)
    ensures !Finds(e, start) <==>
      && !AllowsOrdinaryDay(e)
      && (!AllowsDate(e, 2, 29) || !LeapMinuteInWindow(e, start))
  {
    if AllowsOrdinaryDay(e) {
      OrdinaryDayIsFound(e, start);
    } else {
      if Finds(e, start) {
        var t: nat :| start <= t < start + MAX_ITERATIONS && Matches(e, Utc(t));
        OnlyLeapDayMatches(e, t);
        assert LeapMinute(e, t);
      }
      if AllowsDate(e, 2, 29) && LeapMinuteInWindow(e, start) {
        var t: nat :| start <= t < start + MAX_ITERATIONS && LeapMinute(e, t);
        assert Matches(e, Utc(t));
      }
    }
  }

  predicate SkippedLeapYear(y: nat) {
    y % 100 == 0 && y % 400 != 0
  }

  /** The window always reaches a 29 February when none of the next four years is a century
      without one. */
  lemma LeapDayWithinFourYears(e: Expression, start: nat)
    requires InRange(e)
    requires var y := DateOf(start / DAY_MINUTES).year;
             forall x: nat :: y < x <= y + 4 ==> !SkippedLeapYear(x)
    ensures LeapMinuteInWindow(e, start)
  {
    var day := start / DAY_MINUTES;
    var n := LeapDayAhead(day);
    var hour, minute := Pick(e.hour, 0, 23), Pick(e.minute, 0, 59);
    ClockOf(n, hour, minute);
    var t := n * DAY_MINUTES + hour * 60 + minute;
    assert LeapMinute(e, t) && start <= t < start + MAX_ITERATIONS;
  }

  lemma LeapDayAhead(start: nat) returns (n: nat)
    requires var y := DateOf(start).year;
             forall x: nat :: y < x <= y + 4 ==> !SkippedLeapYear(x)
    ensures start < n < start + WINDOW_DAYS && DateOf(n).month == 2 && DateOf(n).day == 29
  {
    var y := DateOf(start).year;
    var k := 4 - y % 4;
    var date := Date(y + k, 2, 29);
    assert Leap(y + k) by { assert !SkippedLeapYear(y + k) && (y + k) % 4 == 0; }
    DistanceToYear(start, k, date);
    assert DaysBeforeMonth(date.year, 2) == 31 by { MonthTable(date.year); }
    n := DayNumber(date);
  }

  /** 1 March after the last leap day before such a century, and the first leap day after it. */
  function GapStart(century: nat): (d: Date)
    requires century >= 100
    ensures Valid(d)
  {
    Date(century - 4, 3, 1)
  }

  function GapEnd(century: nat): (d: Date)
    requires century >= 100 && SkippedLeapYear(century)
    ensures Valid(d)
  {
    LeapAfterCentury(century);
    Date(century + 4, 2, 29)
  }

  lemma LeapAfterCentury(century: nat)
    requires SkippedLeapYear(century)
    ensures Leap(century + 4)
  {
    var q := century / 100;
    assert century == q * 100;
    RemainderIs(century + 4, 4, 25 * q + 1, 0);
    RemainderIs(century + 4, 100, q, 4);
  }

  /** From 1 March four years before such a century until 1830 days before the next leap day,
      no 29 February lies in the window. */
  lemma NoLeapDayAroundCentury(e: Expression, century: nat, start: nat)
    requires century >= 100 && SkippedLeapYear(century)
    requires DayNumber(GapStart(century)) <= start / DAY_MINUTES
    requires start / DAY_MINUTES + WINDOW_DAYS < DayNumber(GapEnd(century))
    ensures !LeapMinuteInWindow(e, start)
  {
    forall t: nat | start <= t < start + MAX_ITERATIONS ensures !LeapMinute(e, t) {
      NoLeapDayBetween(century, t / DAY_MINUTES);
    }
  }

  lemma NoLeapDayBetween(century: nat, n: nat)
    requires century >= 100 && SkippedLeapYear(century)
    requires DayNumber(GapStart(century)) <= n < DayNumber(GapEnd(century))
    ensures !(DateOf(n).month == 2 && DateOf(n).day == 29)
  {
    if DateOf(n).month == 2 && DateOf(n).day == 29 {
      LeapDayYear(GapStart(century), GapEnd(century), n);
      NoLeapYearBetween(century, DateOf(n).year);
    }
  }

  predicate IsLeapDay(d: Date) {
    d.month == 2 && d.day == 29
  }

  lemma LeapDayYear(a: Date, b: Date, n: nat)
    requires Valid(a) && a.month == 3 && Valid(b) && IsLeapDay(b)
    ensures DayNumber(a) <= n < DayNumber(b) && IsLeapDay(DateOf(n)) ==> a.year < DateOf(n).year < b.year && Leap(DateOf(n).year)
  {
    NumberOfDate(n);
    if DayNumber(a) <= n < DayNumber(b) && IsLeapDay(DateOf(n)) {
      NotBefore(a, DateOf(n));
      NotBefore(DateOf(n), b);
    }
  }

  lemma NoLeapYearBetween(century: nat, y: nat)
    requires century >= 100 && SkippedLeapYear(century) && century - 4 < y < century + 4
    ensures !Leap(y)
  {
  }

  lemma NotBefore(a: Date, b: Date)
    requires Valid(a) && Valid(b) && DayNumber(a) <= DayNumber(b)
    ensures a == b || Before(a, b)
  {
    if a != b && !Before(a, b) {
      DayNumberMonotone(b, a);
    }
  }

  const LEAP_DAY := Expression(Values({0}), Values({0}), Values({29}), Values({2}), Any)

  /** "0 0 29 2 *" cannot be scheduled from 1 March 2096. */
  lemma LeapDayScheduleFailsIn2096()
    ensures var start := DayNumber(Date(2096, 3, 1)) * DAY_MINUTES;
            InRange(LEAP_DAY) && AllowsDate(LEAP_DAY, 2, 29) && !Finds(LEAP_DAY, start)
  {
    LeapDayGap();
    LeapDayNotFound(DayNumber(GapStart(2100)) * DAY_MINUTES);
  }

  // ---- the same for the text of the schedule ----

  predicate Solid(s: string) {
    s != "" && forall i :: 0 <= i < |s| ==> !IsSpace(s[i])
  }

  lemma {:induction false} SpaceAfter(head: string, rest: string)
    requires Solid(head) && (rest == "" || IsSpace(rest[0]))
    ensures SpaceIndex(head + rest) == |head|
  {
    var s := head + rest;
    if |head| == 1 {
      assert s[1..] == rest;
    } else {
      assert s[1..] == head[1..] + rest;
      SpaceAfter(head[1..], rest);
    }
  }

  lemma FieldsCons(head: string, tail: string)
    requires Solid(head)
    ensures Fields(head + [' '] + tail) == [head] + Fields(tail) && Fields(head) == [head]
  {
    var s := head + [' '] + tail;
    assert s == head + (" " + tail);
    SpaceAfter(head, " " + tail);
    assert s[..|head|] == head && s[|head|..] == " " + tail;
    SpacePrefix(tail);
    SpaceAfter(head, "");
    assert head + "" == head && head[|head|..] == "";
    assert Fields("") == [];
  }

  lemma SpacePrefix(tail: string)
    ensures Fields(" " + tail) == Fields(tail)
  {
    assert (" " + tail)[1..] == tail;
    assert TrimLeft(" " + tail) == TrimLeft(tail);
  }

  /** Fields separated by single spaces are found again. */
  lemma {:induction false} FieldsOfJoin(parts: seq<string>)
    requires parts != [] && forall i :: 0 <= i < |parts| ==> Solid(parts[i])
    ensures Fields(Join(parts, ' ')) == parts
  {
    if |parts| == 1 {
      FieldsCons(parts[0], "");
    } else {
      var tail := parts[1..];
      FieldsOfJoin(tail);
      FieldsCons(parts[0], Join(tail, ' '));
      assert parts == [parts[0]] + tail;
    }
  }

  // ---- schedules as they are written ----

  /** The five fields of a schedule, each a list of segments. */
  datatype Written = Written(minute: seq<Segment>, hour: seq<Segment>, dayOfMonth: seq<Segment>, month: seq<Segment>, dayOfWeek: seq<Segment>)

  predicate SoundField(segments: seq<Segment>, lo: int, hi: int, sunday: bool) {
    segments != [] && forall i :: 0 <= i < |segments| ==> Sound(segments[i], lo, hi, sunday)
  }

  predicate SoundSchedule(w: Written) {
    && SoundField(w.minute, 0, 59, false) && SoundField(w.hour, 0, 23, false) && SoundField(w.dayOfMonth, 1, 31, false)
    && SoundField(w.month, 1, 12, false) && SoundField(w.dayOfWeek, 0, 7, true)
  }

  predicate IsStar(segments: seq<Segment>) {
    segments == [Segment(Full, None)]
  }

  /** The value is one that some segment stands for. */
  ghost predicate Names(segments: seq<Segment>, lo: int, hi: int, sunday: bool, v: int)
    requires SoundField(segments, lo, hi, sunday)
  {
    exists i :: 0 <= i < |segments| && Selects(segments[i], lo, hi, sunday, v)
  }

  /** The parsed field is what the segments stand for. */
  ghost predicate Denotes(m: Matcher, segments: seq<Segment>, lo: int, hi: int, sunday: bool)
    requires SoundField(segments, lo, hi, sunday)
  {
    if IsStar(segments) then m == Any
    else m.Values? && forall v :: v in m.values <==> Names(segments, lo, hi, sunday, v)
  }

  lemma PrintedFieldDenotes(segments: seq<Segment>, lo: int, hi: int, sunday: bool)
    requires Limits(lo, hi, sunday) && SoundField(segments, lo, hi, sunday)
    ensures var m := ParsedField(PrintField(segments), lo, hi, sunday); m.Some? && Denotes(m.value, segments, lo, hi, sunday)
  {
    FieldRoundTrip(segments, lo, hi, sunday);
  }

  function FieldTexts(w: Written): seq<string> {
    [PrintField(w.minute), PrintField(w.hour), PrintField(w.dayOfMonth), PrintField(w.month), PrintField(w.dayOfWeek)]
  }

  function ScheduleText(w: Written): string {
    Join(FieldTexts(w), ' ')
  }

  /** The first field gives the minutes, the second the hours, then days, months and weekdays. */
  lemma ExpressionOfPrinted(w: Written)
    requires SoundSchedule(w)
    ensures var e := ParsedExpression(FieldTexts(w));
      && e.Some?
      && Denotes(e.value.minute, w.minute, 0, 59, false) && Denotes(e.value.hour, w.hour, 0, 23, false)
      && Denotes(e.value.dayOfMonth, w.dayOfMonth, 1, 31, false) && Denotes(e.value.month, w.month, 1, 12, false)
      && Denotes(e.value.dayOfWeek, w.dayOfWeek, 0, 7, true)
  {
    PrintedFieldDenotes(w.minute, 0, 59, false);
    PrintedFieldDenotes(w.hour, 0, 23, false);
    PrintedFieldDenotes(w.dayOfMonth, 1, 31, false);
    PrintedFieldDenotes(w.month, 1, 12, false);
    PrintedFieldDenotes(w.dayOfWeek, 0, 7, true);
  }

  lemma PrintedSegmentSolid(s: Segment)
    ensures Solid(Print(s)) && Print(s)[0] != '@'
  {
    PrintedBase(s.base);
    BaseSolid(s.base);
  }

  lemma BaseSolid(b: Base)
    ensures Solid(PrintBase(b)) && PrintBase(b)[0] != '@'
  {
    if b.Span? {
      var x, y := NatToString(b.first), NatToString(b.last);
      assert forall i :: 0 <= i < |x| ==> IsDigit(x[i]);
      assert forall i :: 0 <= i < |y| ==> IsDigit(y[i]);
    }
  }

  lemma {:induction false} JoinSolid(parts: seq<string>, sep: char)
    requires parts != [] && Solid(parts[0]) && forall i :: 0 <= i < |parts| ==> Solid(parts[i])
    ensures Join(parts, sep) != "" && Join(parts, sep)[..1] == parts[0][..1]
    ensures !IsSpace(sep) ==> Solid(Join(parts, sep))
  {
    if |parts| > 1 {
      JoinSolid(parts[1..], sep);
    }
  }

  lemma PrintedFieldSolid(segments: seq<Segment>)
    requires segments != []
    ensures Solid(PrintField(segments)) && PrintField(segments)[0] != '@'
  {
    forall i | 0 <= i < |segments| ensures Solid(Texts(segments)[i]) && Texts(segments)[i][0] != '@' {
      PrintedSegmentSolid(segments[i]);
    }
    JoinSolid(Texts(segments), ',');
  }

  lemma FieldTextsSolid(w: Written)
    requires w.minute != [] && w.hour != [] && w.dayOfMonth != [] && w.month != [] && w.dayOfWeek != []
    ensures forall i :: 0 <= i < |FieldTexts(w)| ==> Solid(FieldTexts(w)[i])
  {
    PrintedFieldSolid(w.minute);
    PrintedFieldSolid(w.hour);
    PrintedFieldSolid(w.dayOfMonth);
    PrintedFieldSolid(w.month);
    PrintedFieldSolid(w.dayOfWeek);
  }

  lemma NotEvery(parts: seq<string>)
    requires parts != [] && Solid(parts[0]) && parts[0][0] != '@' && forall i :: 0 <= i < |parts| ==> Solid(parts[i])
    ensures !(EVERY <= Join(parts, ' '))
  {
    JoinSolid(parts, ' ');
    assert Join(parts, ' ')[0] == Join(parts, ' ')[..1][0] != EVERY[0];
  }

  lemma FieldsOfPrinted(w: Written)
    requires SoundSchedule(w)
    ensures Fields(ScheduleText(w)) == FieldTexts(w) && !(EVERY <= ScheduleText(w))
  {
    FieldTextsSolid(w);
    PrintedFieldSolid(w.minute);
    FieldsOfJoin(FieldTexts(w));
    NotEvery(FieldTexts(w));
  }

  /** The printed schedule is read as these five fields. */
  lemma ScheduleOfPrinted(w: Written, duration: string -> Option<int>)
    requires SoundSchedule(w)
    ensures ParsedExpression(FieldTexts(w)).Some?
    ensures ParsedSchedule(ScheduleText(w), duration) == Some(Cron(ParsedExpression(FieldTexts(w)).value))
  {
    ExpressionOfPrinted(w);
    FieldsOfPrinted(w);
  }

  /** The local time meets the schedule as it is written: minute, hour and month are named, and so is the
      day, by either day field if both are given and by the given one if one is "*". */
  ghost predicate Meets(w: Written, t: LocalTime)
    requires SoundSchedule(w)
  {
    && (IsStar(w.minute) || Names(w.minute, 0, 59, false, t.minute))
    && (IsStar(w.hour) || Names(w.hour, 0, 23, false, t.hour))
    && (IsStar(w.month) || Names(w.month, 1, 12, false, t.month))
    && (|| (IsStar(w.dayOfMonth) && IsStar(w.dayOfWeek))
        || (!IsStar(w.dayOfMonth) && Names(w.dayOfMonth, 1, 31, false, t.day))
        || (!IsStar(w.dayOfWeek) && Names(w.dayOfWeek, 0, 7, true, t.weekday)))
  }

  /** A written schedule matches exactly the local times that meet it. */
  lemma MatchesAsWritten(w: Written, t: LocalTime)
    requires SoundSchedule(w)
    ensures ParsedExpression(FieldTexts(w)).Some?
    ensures Matches(ParsedExpression(FieldTexts(w)).value, t) <==> Meets(w, t)
  {
    ExpressionOfPrinted(w);
    MatchesExactly(ParsedExpression(FieldTexts(w)).value, t);
  }

  /** The next run of a written schedule is the first minute boundary after `now` whose local time meets
      it, and there is none exactly if no boundary of the next 2,635,200 minutes does. In particular a
      schedule with weekdays and "*" for the day runs on those weekdays only. */
  lemma NextRunAsWritten(w: Written, duration: string -> Option<int>, zone: Zone, now: nat, boundary: nat)
    requires SoundSchedule(w)
    ensures ParsedExpression(FieldTexts(w)).Some?
    ensures var e := ParsedExpression(FieldTexts(w)).value;
      && ParsedSchedule(ScheduleText(w), duration) == Some(Cron(e))
      && var next := NextRun(e, zone, now);
      && (next.Some? ==>
            && next.value > now && next.value % MINUTE == 0 && Meets(w, zone(next.value / MINUTE))
            && (IsStar(w.dayOfMonth) && !IsStar(w.dayOfWeek) ==> Names(w.dayOfWeek, 0, 7, true, zone(next.value / MINUTE).weekday))
            && (boundary % MINUTE == 0 && now < boundary < next.value ==> !Meets(w, zone(boundary / MINUTE))))
      && (boundary % MINUTE == 0 && now < boundary <= now + 2_635_200 * MINUTE && Meets(w, zone(boundary / MINUTE)) ==> next.Some?)
  {
    ScheduleOfPrinted(w, duration);
    MatchesAsWritten(w, zone(boundary / MINUTE));
    if boundary % MINUTE == 0 && now < boundary <= now + 2_635_200 * MINUTE {
      InWindow(now, boundary);
    }
    var e := ParsedExpression(FieldTexts(w)).value;
    var next := NextRun(e, zone, now);
    if next.Some? {
      NextRunIsLeast(e, zone, now, boundary);
      MatchesAsWritten(w, zone(next.value / MINUTE));
    }
  }

  lemma InWindow(now: nat, boundary: nat)
    requires boundary % MINUTE == 0 && now < boundary <= now + 2_635_200 * MINUTE
    ensures FirstCandidate(now) <= boundary / MINUTE < FirstCandidate(now) + MAX_ITERATIONS
  {
  }

  lemma LeapDayText()
    ensures Join(["0", "0", "29", "2", "*"], ' ') == "0 0 29 2 *"
  {
    JoinCons("2", ["*"], ' ');
    JoinCons("29", ["2", "*"], ' ');
    JoinCons("0", ["29", "2", "*"], ' ');
    JoinCons("0", ["0", "29", "2", "*"], ' ');
    assert ["0"] + ["0", "29", "2", "*"] == ["0", "0", "29", "2", "*"];
    assert ["0"] + ["29", "2", "*"] == ["0", "29", "2", "*"];
    assert ["29"] + ["2", "*"] == ["29", "2", "*"];
    assert ["2"] + ["*"] == ["2", "*"];
  }

  lemma LeapDayFields()
    ensures Fields("0 0 29 2 *") == ["0", "0", "29", "2", "*"]
  {
    FieldsOfJoin(["0", "0", "29", "2", "*"]);
    LeapDayText();
  }

  lemma LeapDayParsed()
    ensures ParsedExpression(["0", "0", "29", "2", "*"]) == Some(LEAP_DAY)
  {
    SmallNumbers();
    SingleValueField(0, 0, 59);
    SingleValueField(0, 0, 23);
    SingleValueField(29, 1, 31);
    SingleValueField(2, 1, 12);
    StarField();
  }

  lemma SmallNumbers()
    ensures NatToString(0) == "0" && NatToString(2) == "2" && NatToString(29) == "29"
  {
  }

  lemma StarField()
    ensures ParsedField("*", 0, 7, true) == Some(Any)
  {
    TrimFixesTrimmed("*");
  }

  lemma LeapDaySchedule(duration: string -> Option<int>)
    ensures ParsedSchedule("0 0 29 2 *", duration) == Some(Cron(LEAP_DAY))
  {
    LeapDayFields();
    LeapDayParsed();
    assert "0 0 29 2 *"[0] != EVERY[0];
  }

  lemma LeapDayNotFound(start: nat)
    requires DayNumber(GapStart(2100)) <= start / DAY_MINUTES < DayNumber(GapStart(2100)) + 1090
    ensures !Finds(LEAP_DAY, start)
  {
    LeapDayGap();
    NoLeapDayAroundCentury(LEAP_DAY, 2100, start);
    SearchFailsExactly(LEAP_DAY, start);
  }

  /** Whenever the search for "0 0 29 2 *" starts on 1 March 2096 or one of the 1089 days after it,
      there is no next run. */
  lemma LeapDayTextFails(duration: string -> Option<int>, now: nat)
    requires DayNumber(Date(2096, 3, 1)) <= FirstCandidate(now) / DAY_MINUTES < DayNumber(Date(2096, 3, 1)) + 1090
    ensures ParsedSchedule("0 0 29 2 *", duration) == Some(Cron(LEAP_DAY)) && NextRun(LEAP_DAY, Utc, now).None?
  {
    LeapDaySchedule(duration);
    LeapDayNotFound(FirstCandidate(now));
    NothingFoundNoRun(LEAP_DAY, now);
  }

  lemma NothingFoundNoRun(e: Expression, now: nat)
    requires !Finds(e, FirstCandidate(now))
    ensures NextRun(e, Utc, now).None?
  {
  }

  lemma LeapDayGap()
    ensures DayNumber(GapEnd(2100)) == DayNumber(GapStart(2100)) + 2920
    ensures InRange(LEAP_DAY) && !AllowsOrdinaryDay(LEAP_DAY)
  {
    MonthTable(2096);
    MonthTable(2104);
  }
}
