/**
  Recurring rules (a subset of RRULE, section 3.3.10 of RFC 5545): when a rule occurs, and how often in
  any long enough stretch of days. Weeks are blocks of seven days counted from the anchor.
*/
module Recurrence {
  import opened Results
  import opened Texts

  datatype Frequency = Daily | Weekly | Monthly | OtherFrequency

  /** A parsed rule. `interval` is the number INTERVAL stands for (1 if absent or empty). `byDay` holds
      the weekdays named by a non-empty BYDAY, Monday being 0; names that are no weekday drop out.
      `byMonthDay` holds the days named by a non-empty BYMONTHDAY. */
  datatype Rule = Rule(freq: Frequency, interval: int, byDay: Option<set<int>>, byMonthDay: Option<set<int>>)

  /** Days are numbered consecutively; `Weekday` is Monday-based, and `dayOfMonth` is the calendar. */
  const EPOCH_WEEKDAY := 3

  function Weekday(date: int): int {
    (date + EPOCH_WEEKDAY) % 7
  }

  /** `occurs_on`. Python's `//` and `%` floor, as Dafny's do for a positive divisor. */
  predicate OccursOn(rule: Rule, date: int, anchor: int, dayOfMonth: int -> int) {
    match rule.freq
    case Daily => rule.interval <= 1 || (date - anchor) % rule.interval == 0
    case Weekly =>
      && (rule.byDay.Some? ==> Weekday(date) in rule.byDay.value)
      && (rule.interval > 1 ==> ((date - anchor) / 7) % rule.interval == 0)
    case Monthly =>
      if rule.byMonthDay.Some? then dayOfMonth(date) in rule.byMonthDay.value
      else dayOfMonth(date) == dayOfMonth(anchor)
    case OtherFrequency => false
  }

  /** Occurrences among the `n` dates from `from` on. */
  function Occurrences(rule: Rule, from: int, n: nat, anchor: int, dayOfMonth: int -> int): nat
    decreases n
  {
    if n == 0 then 0
    else Occurrences(rule, from, n - 1, anchor, dayOfMonth) +
         if OccursOn(rule, from + n - 1, anchor, dayOfMonth) then 1 else 0
  }

  /** The interval as the rule applies it. */
  function Stride(rule: Rule): (n: int)
    ensures n >= 1
  {
    if rule.interval <= 1 then 1 else rule.interval
  }

  lemma {:induction false} OccurrencesSplit(rule: Rule, from: int, m: nat, n: nat, anchor: int, dayOfMonth: int -> int)
    ensures Occurrences(rule, from, m + n, anchor, dayOfMonth) ==
            Occurrences(rule, from, m, anchor, dayOfMonth) + Occurrences(rule, from + m, n, anchor, dayOfMonth)
    decreases n
  {
    if n > 0 {
      OccurrencesSplit(rule, from, m, n - 1, anchor, dayOfMonth);
      assert from + (m + n) - 1 == (from + m) + n - 1;
      assert m + n - 1 == m + (n - 1);
    }
  }

  /** With period `n`, a window of `n` days holds the same count wherever it starts. */
  lemma ShiftWindow(rule: Rule, from: int, n: nat, anchor: int, dayOfMonth: int -> int)
    requires OccursOn(rule, from, anchor, dayOfMonth) == OccursOn(rule, from + n, anchor, dayOfMonth)
    ensures Occurrences(rule, from, n, anchor, dayOfMonth) == Occurrences(rule, from + 1, n, anchor, dayOfMonth)
  {
    OccurrencesSplit(rule, from, 1, n, anchor, dayOfMonth);
    OccurrencesSplit(rule, from, n, 1, anchor, dayOfMonth);
    OneDay(rule, from, anchor, dayOfMonth);
    OneDay(rule, from + n, anchor, dayOfMonth);
    assert 1 + n == n + 1;
  }

  lemma {:induction false} OneDay(rule: Rule, from: int, anchor: int, dayOfMonth: int -> int)
    ensures Occurrences(rule, from, 1, anchor, dayOfMonth) == if OccursOn(rule, from, anchor, dayOfMonth) then 1 else 0
  {
    assert Occurrences(rule, from, 0, anchor, dayOfMonth) == 0;
    assert from + 1 - 1 == from;
  }

  ghost predicate Periodic(rule: Rule, n: nat, anchor: int, dayOfMonth: int -> int) {
    forall d :: OccursOn(rule, d, anchor, dayOfMonth) == OccursOn(rule, d + n, anchor, dayOfMonth)
  }

  lemma {:induction false} AnyWindow(rule: Rule, from: int, n: nat, anchor: int, dayOfMonth: int -> int)
    requires Periodic(rule, n, anchor, dayOfMonth)
    ensures Occurrences(rule, from, n, anchor, dayOfMonth) == Occurrences(rule, anchor, n, anchor, dayOfMonth)
    decreases if from >= anchor then from - anchor else anchor - from
  {
    if from > anchor {
      ShiftWindow(rule, from - 1, n, anchor, dayOfMonth);
      AnyWindow(rule, from - 1, n, anchor, dayOfMonth);
    } else if from < anchor {
      ShiftWindow(rule, from, n, anchor, dayOfMonth);
      AnyWindow(rule, from + 1, n, anchor, dayOfMonth);
    }
  }

  // ----- modular arithmetic -----

  lemma AddPeriod(a: int, n: int)
    requires n >= 1
    ensures (a + n) % n == a % n
  {
    var q := a / n;
    assert a == q * n + a % n;
    assert a + n == (q + 1) * n + a % n;
    QuotientIs(a + n, n, q + 1, a % n);
  }

  lemma MultipleApart(d: int, n: int)
    requires n >= 1
    ensures d >= 1 ==> d * n >= n
    ensures d <= -1 ==> d * n <= -n
  {
  }

  lemma QuotientIs(a: int, n: int, q: int, r: int)
    requires n >= 1 && 0 <= r < n && a == q * n + r
    ensures a / n == q && a % n == r
  {
    var d := a / n - q;
    assert a == (a / n) * n + a % n;
    assert d * n == (a / n) * n - q * n;
    MultipleApart(d, n);
  }

  lemma WeekAfter(a: int, n: int)
    requires n >= 1
    ensures (a + 7 * n) / 7 == a / 7 + n
    ensures (a + 7 * n) % 7 == a % 7
  {
    QuotientIs(a + 7 * n, 7, a / 7 + n, a % 7);
  }

  // ----- daily -----

  lemma DailyPeriodic(rule: Rule, anchor: int, dayOfMonth: int -> int)
    requires rule.freq.Daily?
    ensures Periodic(rule, Stride(rule), anchor, dayOfMonth)
  {
    forall d ensures OccursOn(rule, d, anchor, dayOfMonth) == OccursOn(rule, d + Stride(rule), anchor, dayOfMonth) {
      AddPeriod(d - anchor, Stride(rule));
      assert d + Stride(rule) - anchor == d - anchor + Stride(rule);
    }
  }

  lemma {:induction false} DailyFromAnchor(rule: Rule, n: nat, anchor: int, dayOfMonth: int -> int)
    requires rule.freq.Daily? && 1 <= n <= Stride(rule)
    ensures Occurrences(rule, anchor, n, anchor, dayOfMonth) == 1
    decreases n
  {
    if n == 1 {
      OneDay(rule, anchor, anchor, dayOfMonth);
      assert rule.interval > 1 ==> 0 % rule.interval == 0;
    } else {
      DailyFromAnchor(rule, n - 1, anchor, dayOfMonth);
      QuotientIs(n - 1, rule.interval, 0, n - 1);
      assert anchor + n - 1 - anchor == n - 1;
    }
  }

  /** A DAILY rule occurs exactly once in any `INTERVAL` consecutive days, before or after its anchor. */
  lemma {:induction false} DailyOncePerInterval(rule: Rule, from: int, anchor: int, dayOfMonth: int -> int)
    requires rule.freq.Daily?
    ensures Occurrences(rule, from, Stride(rule), anchor, dayOfMonth) == 1
  {
    DailyPeriodic(rule, anchor, dayOfMonth);
    AnyWindow(rule, from, Stride(rule), anchor, dayOfMonth);
    DailyFromAnchor(rule, Stride(rule), anchor, dayOfMonth);
  }

  // ----- weekly -----

  /** The weekdays on which a weekly rule can occur. */
  ghost function Allowed(rule: Rule): set<int> {
    if rule.byDay.Some? then set d | d in rule.byDay.value && 0 <= d < 7 else {0, 1, 2, 3, 4, 5, 6}
  }

  lemma WeeklyPeriodic(rule: Rule, anchor: int, dayOfMonth: int -> int)
    requires rule.freq.Weekly?
    ensures Periodic(rule, 7 * Stride(rule), anchor, dayOfMonth)
  {
    var n := Stride(rule);
    forall d ensures OccursOn(rule, d, anchor, dayOfMonth) == OccursOn(rule, d + 7 * n, anchor, dayOfMonth) {
      assert d + 7 * n - anchor == (d - anchor) + 7 * n;
      WeekAfter(d - anchor, n);
      assert d + 7 * n + EPOCH_WEEKDAY == (d + EPOCH_WEEKDAY) + 7 * n;
      WeekAfter(d + EPOCH_WEEKDAY, n);
      AddPeriod((d - anchor) / 7, n);
    }
  }

  /** In the anchor's own week the stride does not matter; in the other weeks of a period nothing occurs. */
  lemma WeekOfPeriod(rule: Rule, k: nat, anchor: int, dayOfMonth: int -> int)
    requires rule.freq.Weekly? && k < 7 * Stride(rule)
    ensures OccursOn(rule, anchor + k, anchor, dayOfMonth) <==> k < 7 && Weekday(anchor + k) in Allowed(rule)
  {
    assert anchor + k - anchor == k;
    var week := k / 7;
    assert week < Stride(rule);
    QuotientIs(week, Stride(rule), 0, week);
  }

  function DayAt(anchor: int, k: int): int {
    Weekday(anchor + k)
  }

  ghost function DaysSeen(rule: Rule, n: nat, anchor: int): set<int>
    requires n <= 7
  {
    set k | 0 <= k < n && DayAt(anchor, k) in Allowed(rule) :: DayAt(anchor, k)
  }

  lemma {:induction false} FirstWeek(rule: Rule, n: nat, anchor: int, dayOfMonth: int -> int)
    requires rule.freq.Weekly? && n <= 7
    ensures Occurrences(rule, anchor, n, anchor, dayOfMonth) == |DaysSeen(rule, n, anchor)|
    decreases n
  {
    if n == 0 {
      assert DaysSeen(rule, 0, anchor) == {};
    } else {
      FirstWeek(rule, n - 1, anchor, dayOfMonth);
      assert anchor + n - 1 == anchor + (n - 1);
      WeekOfPeriod(rule, n - 1, anchor, dayOfMonth);
      OneMoreDaySeen(rule, n - 1, anchor);
    }
  }

  lemma OneMoreDaySeen(rule: Rule, n: nat, anchor: int)
    requires n < 7
    ensures |DaysSeen(rule, n + 1, anchor)| ==
            |DaysSeen(rule, n, anchor)| + if DayAt(anchor, n) in Allowed(rule) then 1 else 0
  {
    var day := DayAt(anchor, n);
    forall k | 0 <= k < n ensures DayAt(anchor, k) != day {
      DistinctWeekdays(anchor, k, n);
    }
    assert day !in DaysSeen(rule, n, anchor);
    assert DaysSeen(rule, n + 1, anchor) == DaysSeen(rule, n, anchor) + if day in Allowed(rule) then {day} else {};
  }

  lemma DistinctWeekdays(anchor: int, i: nat, j: nat)
    requires i < j < 7
    ensures DayAt(anchor, i) != DayAt(anchor, j)
  {
  }

  lemma {:induction false} LaterWeeks(rule: Rule, n: nat, anchor: int, dayOfMonth: int -> int)
    requires rule.freq.Weekly? && 7 <= n <= 7 * Stride(rule)
    ensures Occurrences(rule, anchor, n, anchor, dayOfMonth) == Occurrences(rule, anchor, 7, anchor, dayOfMonth)
    decreases n
  {
    if n > 7 {
      LaterWeeks(rule, n - 1, anchor, dayOfMonth);
      assert anchor + n - 1 == anchor + (n - 1);
      WeekOfPeriod(rule, n - 1, anchor, dayOfMonth);
    }
  }

  lemma WholeWeek(rule: Rule, anchor: int)
    ensures DaysSeen(rule, 7, anchor) == Allowed(rule)
  {
    forall d | d in Allowed(rule) ensures d in DaysSeen(rule, 7, anchor) {
      var k := (d - Weekday(anchor)) % 7;
      assert DayAt(anchor, k) == d;
    }
  }

  /** A WEEKLY rule occurs, in any `7 * INTERVAL` consecutive days, exactly as often as it names distinct
      weekdays (seven times without BYDAY), before or after its anchor. */
  lemma {:induction false} WeeklyCount(rule: Rule, from: int, anchor: int, dayOfMonth: int -> int)
    requires rule.freq.Weekly?
    ensures Occurrences(rule, from, 7 * Stride(rule), anchor, dayOfMonth) == |Allowed(rule)|
    ensures rule.byDay.None? ==> |Allowed(rule)| == 7
  {
    WeeklyPeriodic(rule, anchor, dayOfMonth);
    AnyWindow(rule, from, 7 * Stride(rule), anchor, dayOfMonth);
    LaterWeeks(rule, 7 * Stride(rule), anchor, dayOfMonth);
    FirstWeek(rule, 7, anchor, dayOfMonth);
    WholeWeek(rule, anchor);
  }

  ghost predicate ValidWeekly(rule: Rule) {
    rule.freq.Weekly? && (rule.byDay.Some? ==> rule.byDay.value != {} && forall d :: d in rule.byDay.value ==>
        0 <= d < 7)
  }

  /** Hence no DAILY rule and no valid WEEKLY rule starves: some date of every period is an occurrence. */
  lemma {:induction false} NoStarvation(rule: Rule, from: int, anchor: int, dayOfMonth: int -> int)
    requires rule.freq.Daily? || ValidWeekly(rule)
    ensures exists d :: from <= d < from + 7 * Stride(rule) && OccursOn(rule, d, anchor, dayOfMonth)
  {
    if rule.freq.Daily? {
      DailyOncePerInterval(rule, from, anchor, dayOfMonth);
      var d := SomeOccurrence(rule, from, Stride(rule), anchor, dayOfMonth);
    } else {
      WeeklyCount(rule, from, anchor, dayOfMonth);
      if rule.byDay.Some? {
        var day :| day in rule.byDay.value;
        assert day in Allowed(rule);
      }
      var d := SomeOccurrence(rule, from, 7 * Stride(rule), anchor, dayOfMonth);
    }
  }

  lemma {:induction false} SomeOccurrence(rule: Rule, from: int, n: nat, anchor: int,
                                          dayOfMonth: int -> int) returns (d: int)
    requires Occurrences(rule, from, n, anchor, dayOfMonth) > 0
    ensures from <= d < from + n && OccursOn(rule, d, anchor, dayOfMonth)
    decreases n
  {
    if OccursOn(rule, from + n - 1, anchor, dayOfMonth) {
      d := from + n - 1;
    } else {
      d := SomeOccurrence(rule, from, n - 1, anchor, dayOfMonth);
    }
  }

  ghost predicate HasDay(dayOfMonth: int -> int, k: int) {
    exists d :: dayOfMonth(d) == k
  }

  /** A MONTHLY rule can starve, and does exactly when it names no day of any month. */
  lemma MonthlyStarvesIff(rule: Rule, anchor: int, dayOfMonth: int -> int)
    requires rule.freq.Monthly? && forall d :: 1 <= dayOfMonth(d) <= 31
    requires forall k :: 1 <= k <= 31 ==> HasDay(dayOfMonth, k)
    ensures (forall d :: !OccursOn(rule, d, anchor, dayOfMonth)) <==>
              rule.byMonthDay.Some? && forall k :: k in rule.byMonthDay.value ==> !(1 <= k <= 31)
  {
    if rule.byMonthDay.None? {
      assert OccursOn(rule, anchor, anchor, dayOfMonth);
    } else if exists k :: k in rule.byMonthDay.value && 1 <= k <= 31 {
      var k :| k in rule.byMonthDay.value && 1 <= k <= 31;
      assert HasDay(dayOfMonth, k);
      var d :| dayOfMonth(d) == k;
      assert OccursOn(rule, d, anchor, dayOfMonth);
    }
  }

  /** The optional anchor: without one, the date itself is the anchor. */
  predicate OccursAt(rule: Rule, date: int, anchor: Option<int>, dayOfMonth: int -> int) {
    OccursOn(rule, date, if anchor.Some? then anchor.value else date, dayOfMonth)
  }

  /** Without an anchor INTERVAL has no effect, and MONTHLY without BYMONTHDAY occurs every day. */
  lemma UnanchoredIgnoresInterval(rule: Rule, date: int, dayOfMonth: int -> int)
    ensures OccursAt(rule, date, None, dayOfMonth) <==>
              match rule.freq
              case Daily => true
              case Weekly => Weekday(date) in Allowed(rule)
              case Monthly => rule.byMonthDay.Some? ==> dayOfMonth(date) in rule.byMonthDay.value
              case OtherFrequency => false
  {
    QuotientIs(0, Stride(rule), 0, 0);
  }

  // ----- when a rule occurs, counted from the anchor -----

  /** Day 0 is a Thursday, 1 January 1970: day 4 and every seventh day before and after it is a Monday, and the other
      weekdays follow in order. */
  lemma MondayFirst(week: int, weekday: int)
    requires 0 <= weekday < 7
    ensures Weekday(4 + 7 * week + weekday) == weekday
  {
    QuotientIs(4 + 7 * week + weekday + EPOCH_WEEKDAY, 7, week + 1, weekday);
  }

  /** Date `date` is `extra` days after `times` strides of `stride` days. */
  ghost predicate Strides(anchor: int, date: int, stride: int, times: int, extra: int) {
    date == anchor + times * stride + extra
  }

  /** A DAILY rule occurs on the anchor and every INTERVAL days before and after it; every day if INTERVAL is below
      two. */
  lemma DailyOccursIff(rule: Rule, date: int, anchor: int, dayOfMonth: int -> int)
    requires rule.freq.Daily?
    ensures OccursOn(rule, date, anchor, dayOfMonth) <==>
              rule.interval < 2 || exists k :: Strides(anchor, date, rule.interval, k, 0)
  {
    if rule.interval >= 2 {
      var n := rule.interval;
      if OccursOn(rule, date, anchor, dayOfMonth) {
        assert date - anchor == ((date - anchor) / n) * n + (date - anchor) % n;
        assert Strides(anchor, date, n, (date - anchor) / n, 0);
      }
      if k :| Strides(anchor, date, n, k, 0) {
        QuotientIs(date - anchor, n, k, 0);
      }
    }
  }

  /** Week `week` of the anchor holds the seven days from `7 * week` days after it on. */
  ghost predicate InWeek(anchor: int, date: int, week: int) {
    anchor + 7 * week <= date < anchor + 7 * week + 7
  }

  /** A WEEKLY rule occurs on its weekdays, if it names any, in every INTERVAL-th week counted from the anchor's, before
      and after; in every week if INTERVAL is below two. */
  lemma WeeklyOccursIff(rule: Rule, date: int, anchor: int, dayOfMonth: int -> int)
    requires rule.freq.Weekly?
    ensures OccursOn(rule, date, anchor, dayOfMonth) <==>
              && (rule.byDay.Some? ==> Weekday(date) in rule.byDay.value)
              && (rule.interval < 2 ||
                  exists k, week :: Strides(0, week, rule.interval, k, 0) && InWeek(anchor, date, week))
  {
    if rule.interval >= 2 {
      var n, w := rule.interval, (date - anchor) / 7;
      assert InWeek(anchor, date, w);
      if w % n == 0 {
        assert w == (w / n) * n + w % n;
        assert Strides(0, w, n, w / n, 0);
      }
      if k, week :| Strides(0, week, n, k, 0) && InWeek(anchor, date, week) {
        QuotientIs(date - anchor, 7, week, date - anchor - 7 * week);
        QuotientIs(week, n, k, 0);
      }
    }
  }

  /** A MONTHLY rule occurs on the days of the month it names, or else on the anchor's, whatever its INTERVAL; a rule of
      any other frequency never occurs. */
  lemma OtherwiseOccursIff(rule: Rule, date: int, anchor: int, dayOfMonth: int -> int)
    requires !rule.freq.Daily? && !rule.freq.Weekly?
    ensures OccursOn(rule, date, anchor, dayOfMonth) <==>
              && rule.freq.Monthly?
              && (rule.byMonthDay.None? ==> dayOfMonth(date) == dayOfMonth(anchor))
              && (rule.byMonthDay.Some? ==> dayOfMonth(date) in rule.byMonthDay.value)
  {
  }

  // ----- from the parts of a rule text -----

  /** The KEY=VALUE parts of a rule, upper-cased and stripped. */
  type Parts = map<string, string>

  function Split(s: string, separator: char): (r: seq<string>)
    ensures |r| >= 1
  {
    if s == "" then [""]
    else
      var rest := Split(s[1..], separator);
      if s[0] == separator then [""] + rest else [[s[0]] + rest[0]] + rest[1..]
  }

  predicate Digits(s: string) {
    s != "" && forall i :: 0 <= i < |s| ==> '0' <= s[i] <= '9'
  }

  function Number(s: string): int
    requires forall i :: 0 <= i < |s| ==> '0' <= s[i] <= '9'
  {
    if s == "" then 0 else 10 * Number(s[..|s| - 1]) + (s[|s| - 1] as int - '0' as int)
  }

  /** `int(...)` on a stripped text: an optional sign and decimal digits, or an exception. */
  function IntOf(s: string): Option<int> {
    if Digits(s) then Some(Number(s))
    else if s != "" && s[0] == '-' && Digits(s[1..]) then Some(-Number(s[1..]))
    else if s != "" && s[0] == '+' && Digits(s[1..]) then Some(Number(s[1..]))
    else None
  }

  function DayOf(name: string): Option<int> {
    if name == "MO" then Some(0) else if name == "TU" then Some(1) else if name == "WE" then Some(2)
    else if name == "TH" then Some(3) else if name == "FR" then Some(4) else if name == "SA" then Some(5)
    else if name == "SU" then Some(6) else None
  }

  function DaysOf(names: seq<string>): set<int> {
    set n | n in names && DayOf(n).Some? :: DayOf(n).value
  }

  function MonthDaysOf(names: seq<string>): set<int> {
    set n | n in names && Digits(Strip(n)) :: Number(Strip(n))
  }

  function FrequencyOf(name: string): Frequency {
    if name == "DAILY" then Daily else if name == "WEEKLY" then Weekly else if name == "MONTHLY" then Monthly
    else OtherFrequency
  }

  /** What `occurs_on` reads from the parts; `None` is the exception of a malformed INTERVAL. */
  function RuleOf(parts: Parts): Option<Rule> {
    var freq := FrequencyOf(if "FREQ" in parts then parts["FREQ"] else "DAILY");
    var interval := IntOf(if "INTERVAL" in parts && parts["INTERVAL"] != "" then parts["INTERVAL"] else "1");
    var byDay := if "BYDAY" in parts && parts["BYDAY"] != "" then Some(DaysOf(Split(parts["BYDAY"], ','))) else None;
    var byMonthDay := if "BYMONTHDAY" in parts && parts["BYMONTHDAY"] != ""
                      then Some(MonthDaysOf(Split(parts["BYMONTHDAY"], ','))) else None;
    if interval.None? then None else Some(Rule(freq, interval.value, byDay, byMonthDay))
  }

  /** `is_valid_rule`. */
  predicate IsValidRule(parts: Parts) {
    && "FREQ" in parts && parts["FREQ"] in {"DAILY", "WEEKLY", "MONTHLY"}
    && ("BYDAY" in parts ==> forall n :: n in Split(parts["BYDAY"], ',') ==> DayOf(n).Some?)
    && ("BYMONTHDAY" in parts ==> forall n :: n in Split(parts["BYMONTHDAY"], ',') ==> Digits(Strip(n)))
  }

  // ----- what the parts of a rule stand for -----

  const NUMERALS := "0123456789"

  /** A number in decimal. */
  function Decimal(n: nat): (s: string) {
    if n < 10 then [NUMERALS[n]] else Decimal(n / 10) + [NUMERALS[n % 10]]
  }

  lemma NumeralAt(k: nat)
    requires k < 10
    ensures |NUMERALS| == 10 && NUMERALS[k] as int == '0' as int + k
  {
  }

  /** A digit is one of the ten numerals. */
  lemma DigitsIff(s: string)
    ensures Digits(s) <==> s != "" && forall i :: 0 <= i < |s| ==> s[i] in NUMERALS
  {
    forall i | 0 <= i < |s| ensures s[i] in NUMERALS <==> '0' <= s[i] <= '9' {
      if '0' <= s[i] <= '9' {
        NumeralAt(s[i] as int - '0' as int);
      }
    }
  }

  /** Round trip: a number reads back from its decimal spelling. */
  lemma {:induction false} DecimalReads(n: nat)
    ensures Digits(Decimal(n)) && Number(Decimal(n)) == n
    decreases n
  {
    var s := Decimal(n);
    NumeralAt(n % 10);
    if n < 10 {
      assert s[..0] == "" && Number("") == 0;
    } else {
      DecimalReads(n / 10);
      assert s[..|s| - 1] == Decimal(n / 10);
    }
  }

  /** Leading zeros do not count. */
  lemma {:induction false} ZeroInFront(s: string)
    requires Digits(s)
    ensures Digits("0" + s) && Number("0" + s) == Number(s)
    decreases |s|
  {
    var t := "0" + s;
    assert t[..|t| - 1] == "0" + s[..|s| - 1];
    if |s| == 1 {
      assert t[..1] == "0" && "0"[..0] == "" && s[..0] == "" && Number("") == 0;
    } else {
      ZeroInFront(s[..|s| - 1]);
    }
  }

  /** An integer reads back from its decimal spelling, with either sign. */
  lemma {:induction false} IntReads(n: nat)
    ensures IntOf(Decimal(n)) == Some(n) && IntOf("+" + Decimal(n)) == Some(n)
    ensures var minus := IntOf("-" + Decimal(n)); minus.Some? && minus.value + n == 0
  {
    DecimalReads(n);
    var s := Decimal(n);
    assert ("-" + s)[1..] == s && ("+" + s)[1..] == s;
    assert !Digits("-" + s) && !Digits("+" + s) by { assert ("-" + s)[0] == '-' && ("+" + s)[0] == '+'; }
  }

  ghost predicate Numeric(s: string) {
    s != "" && forall i :: 0 <= i < |s| ==> s[i] in NUMERALS
  }

  /** No other text is an integer: it is digits, possibly after one sign. */
  lemma IntOfIff(s: string)
    ensures IntOf(s).Some? <==> Numeric(s) || (s != "" && (s[0] == '+' || s[0] == '-') && Numeric(s[1..]))
  {
    DigitsIff(s);
    if s != "" {
      DigitsIff(s[1..]);
    }
  }

  const WEEKDAYS := ["MO", "TU", "WE", "TH", "FR", "SA", "SU"]

  /** The seven names, Monday first, and no other text name weekdays. */
  lemma DayNamed(k: nat, name: string)
    requires k < 7
    ensures |WEEKDAYS| == 7 && DayOf(WEEKDAYS[k]) == Some(k)
    ensures DayOf(name).Some? <==> name in WEEKDAYS
  {
    assert WEEKDAYS[0] == "MO" && WEEKDAYS[1] == "TU" && WEEKDAYS[2] == "WE" && WEEKDAYS[3] == "TH";
    assert WEEKDAYS[4] == "FR" && WEEKDAYS[5] == "SA" && WEEKDAYS[6] == "SU";
    assert "MO"[0] == 'M' && "TU"[1] == 'U' && "WE"[0] == 'W' && "TH"[1] == 'H' && "FR"[0] == 'F';
    assert "SA"[1] == 'A' && "SU"[1] == 'U' && "SA"[0] == 'S' && "SU"[0] == 'S' && "TU"[0] == 'T' && "TH"[0] == 'T';
  }

  /** A list as the rule text writes it. */
  function Listed(names: seq<string>): string {
    if names == [] then "" else if |names| == 1 then names[0] else names[0] + "," + Listed(names[1..])
  }

  lemma {:induction false} ListedSplits(names: seq<string>)
    requires names != [] && forall i :: 0 <= i < |names| ==> ',' !in names[i]
    ensures Split(Listed(names), ',') == names
    decreases |names|
  {
    if |names| == 1 {
      SplitLast(names[0], ',');
    } else {
      ListedSplits(names[1..]);
      SplitFirst(names[0], Listed(names[1..]), ',');
    }
  }

  function DayNames(days: seq<int>): seq<string>
    requires forall i :: 0 <= i < |days| ==> 0 <= days[i] < 7
  {
    seq(|days|, i requires 0 <= i < |days| => WEEKDAYS[days[i]])
  }

  function Decimals(numbers: seq<nat>): seq<string> {
    seq(|numbers|, i requires 0 <= i < |numbers| => Decimal(numbers[i]))
  }

  lemma DayNamesAre(days: seq<int>, i: nat)
    requires i < |days| && forall j :: 0 <= j < |days| ==> 0 <= days[j] < 7
    ensures var name := DayNames(days)[i]; ',' !in name && name != "" && DayOf(name) == Some(days[i])
  {
    DayNamed(days[i], "");
    assert |WEEKDAYS[days[i]]| == 2;
  }

  lemma DaysAre(names: seq<string>, days: seq<int>)
    requires |names| == |days| && forall i :: 0 <= i < |days| ==> DayOf(names[i]) == Some(days[i])
    ensures DaysOf(names) == set d | d in days
  {
    forall d | d in days ensures d in DaysOf(names) {
      var i :| 0 <= i < |days| && days[i] == d;
      assert names[i] in names;
    }
    forall d | d in DaysOf(names) ensures d in days {
      var n :| n in names && DayOf(n) == Some(d);
      var i :| 0 <= i < |names| && names[i] == n;
      assert days[i] == d;
    }
  }

  lemma DaysRead(days: seq<int>)
    requires days != [] && forall i :: 0 <= i < |days| ==> 0 <= days[i] < 7
    ensures Listed(DayNames(days)) != "" && Split(Listed(DayNames(days)), ',') == DayNames(days)
    ensures DaysOf(DayNames(days)) == set d | d in days
  {
    var names := DayNames(days);
    forall i | 0 <= i < |days| ensures ',' !in names[i] && names[i] != "" && DayOf(names[i]) == Some(days[i]) {
      DayNamesAre(days, i);
    }
    ListedSplits(names);
    ListedIsNotEmpty(names);
    DaysAre(names, days);
  }

  lemma {:induction false} ListedIsNotEmpty(names: seq<string>)
    requires names != [] && names[0] != ""
    ensures Listed(names) != ""
  {
  }

  lemma {:induction false} DecimalStays(n: nat)
    ensures var s := Decimal(n); ',' !in s && s != "" && Digits(Strip(s)) && Number(Strip(s)) == n
  {
    DecimalReads(n);
    DigitsStay(Decimal(n));
  }

  lemma MonthDaysAre(names: seq<string>, days: seq<nat>)
    requires |names| == |days|
    requires forall i :: 0 <= i < |days| ==> Digits(Strip(names[i])) && Number(Strip(names[i])) == days[i]
    ensures MonthDaysOf(names) == set d: int | d in days
  {
    forall d | d in days ensures d in MonthDaysOf(names) {
      var i :| 0 <= i < |days| && days[i] == d;
      assert names[i] in names;
    }
    forall d | d in MonthDaysOf(names) ensures d in days {
      var n :| n in names && Digits(Strip(n)) && Number(Strip(n)) == d;
      var i :| 0 <= i < |names| && names[i] == n;
      assert days[i] == d;
    }
  }

  lemma MonthDaysRead(days: seq<nat>)
    requires days != []
    ensures Listed(Decimals(days)) != "" && Split(Listed(Decimals(days)), ',') == Decimals(days)
    ensures MonthDaysOf(Decimals(days)) == set d: int | d in days
  {
    var names := Decimals(days);
    forall i | 0 <= i < |days|
      ensures ',' !in names[i] && names[i] != "" && Digits(Strip(names[i])) && Number(Strip(names[i])) == days[i]
    {
      DecimalStays(days[i]);
    }
    ListedSplits(names);
    ListedIsNotEmpty(names);
    MonthDaysAre(names, days);
  }

  lemma DigitsStay(s: string)
    requires Digits(s)
    ensures Strip(s) == s && ',' !in s
  {
  }

  function FrequencyName(freq: Frequency): string {
    match freq
    case Daily => "DAILY"
    case Weekly => "WEEKLY"
    case Monthly => "MONTHLY"
    case OtherFrequency => "YEARLY"
  }

  lemma FrequencyReads(freq: Frequency)
    ensures FrequencyOf(FrequencyName(freq)) == freq
  {
    assert |"DAILY"| == 5 && |"WEEKLY"| == 6 && |"MONTHLY"| == 7 && |"YEARLY"| == 6;
    assert "WEEKLY"[0] == 'W' && "YEARLY"[0] == 'Y';
  }

  lemma {:induction false} FourParts(freq: string, interval: string, days: string, monthDays: string)
    requires interval != "" && IntOf(interval).Some?
    ensures RuleOf(map["FREQ" := freq, "INTERVAL" := interval, "BYDAY" := days, "BYMONTHDAY" := monthDays]) ==
            Some(Rule(FrequencyOf(freq), IntOf(interval).value,
                      if days == "" then None else Some(DaysOf(Split(days, ','))),
                      if monthDays == "" then None else Some(MonthDaysOf(Split(monthDays, ',')))))
  {
    PartNamesDiffer();
  }

  /** Round trip: a rule written part by part is read as it was meant; an empty list is none. */
  lemma {:induction false} RuleReads(freq: Frequency, interval: nat, days: seq<int>, monthDays: seq<nat>)
    requires forall i :: 0 <= i < |days| ==> 0 <= days[i] < 7
    ensures RuleOf(map["FREQ" := FrequencyName(freq), "INTERVAL" := Decimal(interval),
                       "BYDAY" := Listed(DayNames(days)), "BYMONTHDAY" := Listed(Decimals(monthDays))]) ==
            Some(Rule(freq, interval, if days == [] then None else Some(set d | d in days),
                      if monthDays == [] then None else Some(set d: int | d in monthDays)))
  {
    FrequencyReads(freq);
    IntReads(interval);
    DecimalReads(interval);
    if days != [] { DaysRead(days); }
    if monthDays != [] { MonthDaysRead(monthDays); }
    FourParts(FrequencyName(freq), Decimal(interval), Listed(DayNames(days)), Listed(Decimals(monthDays)));
  }

  lemma PartNamesDiffer()
    ensures "FREQ" != "INTERVAL" && "FREQ" != "BYDAY" && "FREQ" != "BYMONTHDAY"
    ensures "INTERVAL" != "BYDAY" && "INTERVAL" != "BYMONTHDAY" && "BYDAY" != "BYMONTHDAY"
  {
    assert |"FREQ"| == 4 && |"INTERVAL"| == 8 && |"BYDAY"| == 5 && |"BYMONTHDAY"| == 10;
  }

  /** A missing FREQ means DAILY, a missing or empty INTERVAL one, and a missing or empty list none. Any
      other INTERVAL stands for its number. */
  lemma MissingParts(parts: Parts)
    ensures "FREQ" !in parts ==> RuleOf(parts) == RuleOf(parts["FREQ" := "DAILY"])
    ensures "INTERVAL" !in parts || parts["INTERVAL"] == "" ==> RuleOf(parts) == RuleOf(parts["INTERVAL" := "1"])
    ensures "INTERVAL" in parts && parts["INTERVAL"] != "" ==>
              (RuleOf(parts).Some? <==> IntOf(parts["INTERVAL"]).Some?) &&
              (RuleOf(parts).Some? ==> RuleOf(parts).value.interval == IntOf(parts["INTERVAL"]).value)
    ensures "BYDAY" !in parts || parts["BYDAY"] == "" ==>
              RuleOf(parts) == RuleOf(parts["BYDAY" := ""]) &&
              (RuleOf(parts).Some? ==> RuleOf(parts).value.byDay.None?)
    ensures "BYMONTHDAY" !in parts || parts["BYMONTHDAY"] == "" ==>
              RuleOf(parts) == RuleOf(parts["BYMONTHDAY" := ""]) &&
              (RuleOf(parts).Some? ==> RuleOf(parts).value.byMonthDay.None?)
  {
    PartNamesDiffer();
  }

  /** A rule is valid iff its frequency is one of three, every text between the commas of BYDAY is a weekday, and every
      one of BYMONTHDAY is a number. */
  lemma {:induction false} ValidIff(freq: string, days: seq<string>, monthDays: seq<string>)
    requires days != [] && monthDays != []
    requires forall i :: 0 <= i < |days| ==> ',' !in days[i]
    requires forall i :: 0 <= i < |monthDays| ==> ',' !in monthDays[i]
    ensures IsValidRule(map["FREQ" := freq, "BYDAY" := Listed(days), "BYMONTHDAY" := Listed(monthDays)]) <==>
              && (freq == "DAILY" || freq == "WEEKLY" || freq == "MONTHLY")
              && (forall i :: 0 <= i < |days| ==> days[i] in WEEKDAYS)
              && (forall i :: 0 <= i < |monthDays| ==> Numeric(Strip(monthDays[i])))
    ensures !IsValidRule(map["BYDAY" := Listed(days), "BYMONTHDAY" := Listed(monthDays)])
  {
    ListedSplits(days);
    ListedSplits(monthDays);
    PartNamesDiffer();
    forall i | 0 <= i < |days| ensures DayOf(days[i]).Some? <==> days[i] in WEEKDAYS {
      DayNamed(0, days[i]);
    }
    forall i | 0 <= i < |monthDays| ensures Digits(Strip(monthDays[i])) <==> Numeric(Strip(monthDays[i])) {
      DigitsIff(Strip(monthDays[i]));
    }
  }

  /** Validation does not look at INTERVAL: a valid rule still raises exactly when its INTERVAL is
      present, not empty and no integer. */
  lemma ValidRuleRaisesIff(parts: Parts)
    requires IsValidRule(parts)
    ensures RuleOf(parts).None? <==> "INTERVAL" in parts && parts["INTERVAL"] != "" && IntOf(parts["INTERVAL"]).None?
  {
    assert "1"[..0] == "";
    assert Number("") == 0;
  }

  /** A valid DAILY or WEEKLY rule with a numeric INTERVAL never starves: every stretch of seven times its
      interval has an occurrence, before or after the anchor. */
  lemma ValidRuleNeverStarves(parts: Parts, from: int, anchor: int, dayOfMonth: int -> int)
    requires IsValidRule(parts) && parts["FREQ"] != "MONTHLY" && RuleOf(parts).Some?
    ensures var rule := RuleOf(parts).value;
            exists d :: from <= d < from + 7 * Stride(rule) && OccursOn(rule, d, anchor, dayOfMonth)
  {
    var rule := RuleOf(parts).value;
    ValidByDayNamesDays(parts);
    NoStarvation(rule, from, anchor, dayOfMonth);
  }

  lemma ValidByDayNamesDays(parts: Parts)
    requires IsValidRule(parts) && parts["FREQ"] != "MONTHLY" && RuleOf(parts).Some?
    ensures RuleOf(parts).value.freq.Daily? || ValidWeekly(RuleOf(parts).value)
  {
    var rule := RuleOf(parts).value;
    if rule.freq.Weekly? && rule.byDay.Some? {
      NamedDays(Split(parts["BYDAY"], ','));
    }
  }

  lemma NamedDays(names: seq<string>)
    requires names != [] && forall n :: n in names ==> DayOf(n).Some?
    ensures DaysOf(names) != {} && forall d :: d in DaysOf(names) ==> 0 <= d < 7
  {
    assert names[0] in names;
    assert DayOf(names[0]).value in DaysOf(names);
  }

  /** Such a rule: DAILY with an INTERVAL that is no number. */
  lemma ValidRuleMayRaise()
    ensures var parts := map["FREQ" := "DAILY", "INTERVAL" := "X"]; IsValidRule(parts) && RuleOf(parts).None?
  {
    var parts := map["FREQ" := "DAILY", "INTERVAL" := "X"];
    assert "X"[0] == 'X';
    assert !Digits("X");
    assert IntOf("X") == None;
  }

  /** A rule that validation accepts as MONTHLY, and whose INTERVAL is numeric, never occurs exactly when it names
      days and none of them is a day of any month. */
  lemma ValidMonthlyStarvesIff(parts: Parts, anchor: int, dayOfMonth: int -> int)
    requires IsValidRule(parts) && parts["FREQ"] == "MONTHLY" && RuleOf(parts).Some?
    requires (forall d :: 1 <= dayOfMonth(d) <= 31) && forall k :: 1 <= k <= 31 ==> HasDay(dayOfMonth, k)
    ensures (forall d :: !OccursOn(RuleOf(parts).value, d, anchor, dayOfMonth)) <==>
              && "BYMONTHDAY" in parts
              && forall n :: n in Split(parts["BYMONTHDAY"], ',') ==> !(1 <= Number(Strip(n)) <= 31)
  {
    var rule := RuleOf(parts).value;
    MonthlyStarvesIff(rule, anchor, dayOfMonth);
    if "BYMONTHDAY" in parts {
      NamedMonthDays(parts["BYMONTHDAY"]);
    }
  }

  lemma {:induction false} NamedMonthDays(text: string)
    requires forall n :: n in Split(text, ',') ==> Digits(Strip(n))
    ensures text != ""
    ensures (forall k :: k in MonthDaysOf(Split(text, ',')) ==> !(1 <= k <= 31)) <==>
            (forall n :: n in Split(text, ',') ==> !(1 <= Number(Strip(n)) <= 31))
  {
    EmptyNamesNothing();
    forall n | n in Split(text, ',') ensures Number(Strip(n)) in MonthDaysOf(Split(text, ',')) {
    }
  }

  lemma EmptyNamesNothing()
    ensures "" in Split("", ',') && !Digits(Strip(""))
  {
    assert Split("", ',')[0] == "";
  }

  /** Such a rule: MONTHLY on day 0. */
  lemma ValidMonthlyMayStarve(anchor: int, dayOfMonth: int -> int, d: int)
    requires forall d :: 1 <= dayOfMonth(d) <= 31
    ensures var parts := map["FREQ" := "MONTHLY", "BYMONTHDAY" := "0"];
            IsValidRule(parts) && RuleOf(parts).Some? && !OccursOn(RuleOf(parts).value, d, anchor, dayOfMonth)
  {
    var parts := map["FREQ" := "MONTHLY", "BYMONTHDAY" := "0"];
    ZeroIsTheOnlyName();
    assert Digits("1");
    assert IntOf("1").Some?;
    assert "MONTHLY" != "DAILY" && "MONTHLY" != "WEEKLY" by {
      assert |"MONTHLY"| == 7 && |"DAILY"| == 5 && |"WEEKLY"| == 6;
    }
    assert RuleOf(parts).value.byMonthDay == Some({0});
  }

  lemma ZeroIsTheOnlyName()
    ensures Split("0", ',') == ["0"] && Strip("0") == "0" && Digits("0") && Number("0") == 0
    ensures MonthDaysOf(Split("0", ',')) == {0}
  {
    assert "0"[1..] == "" && "0"[..0] == "";
    assert Split("", ',') == [""];
    assert ['0'] + "" == "0";
    assert '0' !in " \t\r\n";
    assert Number("") == 0;
  }

  // ----- the rule text -----

  /** `replace(pattern, "")`: every occurrence from left to right. */
  function Remove(s: string, pattern: string): string
    requires pattern != ""
    decreases |s|
  {
    if |s| < |pattern| then s
    else if s[..|pattern|] == pattern then Remove(s[|pattern|..], pattern)
    else [s[0]] + Remove(s[1..], pattern)
  }

  /** The position of the first `=`, or the length. */
  function EqualsAt(s: string): (n: nat)
    ensures n <= |s|
    ensures forall i :: 0 <= i < n ==> s[i] != '='
    ensures n < |s| ==> s[n] == '='
  {
    if s == "" || s[0] == '=' then 0 else 1 + EqualsAt(s[1..])
  }

  /** One token of the rule enters the parts; a token without `=` is ignored. */
  function WithToken(parts: Parts, token: string): Parts {
    var n := EqualsAt(token);
    if n == |token| then parts else parts[Upper(Strip(token[..n])) := Upper(Strip(token[n + 1..]))]
  }

  function PartsOf(tokens: seq<string>): Parts {
    if tokens == [] then map[] else WithToken(PartsOf(tokens[..|tokens| - 1]), tokens[|tokens| - 1])
  }

  const PREFIX := "RRULE:"

  function Tokens(rule: string): seq<string> {
    Split(Remove(rule, PREFIX), ';')
  }

  /** `_parse`. */
  method Parse(rule: string) returns (parts: Parts)
    ensures parts == PartsOf(Tokens(rule))
  {
    parts := map[];
    var tokens := Split(Remove(rule, PREFIX), ';');
    var i := 0;
    while i < |tokens|
      invariant 0 <= i <= |tokens| && parts == PartsOf(tokens[..i])
    {
      var n := EqualsAt(tokens[i]);
      if n < |tokens[i]| {
        parts := parts[Upper(Strip(tokens[i][..n])) := Upper(Strip(tokens[i][n + 1..]))];
      }
      assert tokens[..i + 1][..i] == tokens[..i];
      i := i + 1;
    }
    assert tokens[..i] == tokens;
  }

  datatype Part = Part(key: string, value: string)

  /** A rule text from its parts. */
  function Written(parts: seq<Part>): string {
    if parts == [] then ""
    else if |parts| == 1 then parts[0].key + "=" + parts[0].value
    else parts[0].key + "=" + parts[0].value + ";" + Written(parts[1..])
  }

  /** The parts as a table, later ones winning. */
  function TableOf(parts: seq<Part>): Parts {
    if parts == [] then map[]
    else TableOf(parts[..|parts| - 1])[parts[|parts| - 1].key := parts[|parts| - 1].value]
  }

  /** Text that the parser takes as it stands. */
  ghost predicate Plain(s: string) {
    && (forall i :: 0 <= i < |s| ==> s[i] != ';' && s[i] != ':')
    && Upper(Strip(s)) == s
  }

  ghost predicate PlainPart(part: Part) {
    Plain(part.key) && Plain(part.value) && '=' !in part.key
  }

  lemma {:induction false} NothingToRemove(s: string)
    requires forall i :: 0 <= i < |s| ==> s[i] != ':'
    ensures Remove(s, PREFIX) == s
    decreases |s|
  {
    if |s| >= |PREFIX| {
      assert s[..|PREFIX|][5] == s[5] && PREFIX[5] == ':';
      NothingToRemove(s[1..]);
    }
  }

  /** Splitting takes the text up to the first separator as the first token. */
  lemma {:induction false} SplitFirst(token: string, rest: string, separator: char)
    requires separator !in token
    ensures Split(token + [separator] + rest, separator) == [token] + Split(rest, separator)
    decreases |token|
  {
    var text := token + [separator] + rest;
    if token == "" {
      assert text[1..] == rest;
    } else {
      SplitFirst(token[1..], rest, separator);
      assert text[1..] == token[1..] + [separator] + rest;
      assert text[0] == token[0];
      assert [token[0]] + token[1..] == token;
    }
  }

  lemma {:induction false} SplitLast(token: string, separator: char)
    requires separator !in token
    ensures Split(token, separator) == [token]
    decreases |token|
  {
    if token != "" {
      SplitLast(token[1..], separator);
      assert [token[0]] + token[1..] == token;
    }
  }

  function TokenOf(part: Part): string {
    part.key + "=" + part.value
  }

  function TokensOf(parts: seq<Part>): seq<string> {
    seq(|parts|, i requires 0 <= i < |parts| => TokenOf(parts[i]))
  }

  lemma {:induction false} WrittenOn(parts: seq<Part>)
    requires |parts| > 1
    ensures Written(parts) == TokenOf(parts[0]) + [';'] + Written(parts[1..])
    ensures TokensOf(parts) == [TokenOf(parts[0])] + TokensOf(parts[1..])
  {
  }

  lemma {:induction false} WrittenSplits(parts: seq<Part>)
    requires parts != [] && forall i :: 0 <= i < |parts| ==> PlainPart(parts[i])
    ensures Split(Written(parts), ';') == TokensOf(parts)
    ensures forall i :: 0 <= i < |Written(parts)| ==> Written(parts)[i] != ':'
    decreases |parts|
  {
    var token := TokenOf(parts[0]);
    assert ';' !in token && ':' !in token;
    if |parts| == 1 {
      SplitLast(token, ';');
    } else {
      WrittenSplits(parts[1..]);
      SplitFirst(token, Written(parts[1..]), ';');
      WrittenOn(parts);
    }
  }

  lemma TokenEnters(parts: Parts, part: Part)
    requires PlainPart(part)
    ensures WithToken(parts, TokenOf(part)) == parts[part.key := part.value]
  {
    var token := TokenOf(part);
    var n := EqualsAt(token);
    assert token[|part.key|] == '=';
    assert forall i :: 0 <= i < |part.key| ==> token[i] == part.key[i] && part.key[i] in part.key;
    assert n == |part.key|;
    assert token[..n] == part.key && token[n + 1..] == part.value;
  }

  lemma {:induction false} TokensEnter(parts: seq<Part>)
    requires forall i :: 0 <= i < |parts| ==> PlainPart(parts[i])
    ensures PartsOf(TokensOf(parts)) == TableOf(parts)
    decreases |parts|
  {
    if parts != [] {
      var front, last := parts[..|parts| - 1], parts[|parts| - 1];
      TokensEnter(front);
      var tokens := TokensOf(parts);
      assert tokens[..|tokens| - 1] == TokensOf(front);
      TokenEnters(TableOf(front), last);
    }
  }

  /** Round trip: a rule written from plain parts parses back to them, with or without its prefix. */
  lemma {:induction false} WrittenRuleParses(parts: seq<Part>)
    requires forall i :: 0 <= i < |parts| ==> PlainPart(parts[i])
    ensures PartsOf(Tokens(Written(parts))) == TableOf(parts)
    ensures PartsOf(Tokens(PREFIX + Written(parts))) == TableOf(parts)
  {
    var text := Written(parts);
    if parts == [] {
      assert text == "" && Remove(text, PREFIX) == "";
      assert Split("", ';') == [""] && PartsOf([""]) == map[];
    } else {
      WrittenSplits(parts);
      NothingToRemove(text);
      TokensEnter(parts);
    }
    assert (PREFIX + text)[..|PREFIX|] == PREFIX && (PREFIX + text)[|PREFIX|..] == text;
  }
}
