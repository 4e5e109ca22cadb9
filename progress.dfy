/** The progress dashboard (components/ProgressDashboard.tsx): the current
    streak, the daily goal setting, today's remaining minutes, and the
    month calendar with its completed days.  Days of the streak are integer
    day numbers; the calendar's completed days are `YYYY-MM-DD` keys. */
module Progress {
  import opened Types

  // ---------------------------------------------------------------------
  // Streak

  /** The day the walk back starts from: today when it is recorded,
      otherwise yesterday. */
  function StreakStart(history: seq<int>, today: int): int {
    if today in history then today else today - 1
  }

  /** Every day of `(lo, hi]` is in the history. */
  ghost predicate AllRecorded(history: seq<int>, lo: int, hi: int) {
    forall d :: lo < d <= hi ==> d in history
  }

  /** `calculateStreak`: counts back from the start day while each day is
      recorded.  The result is the length of the unbroken run of recorded
      days ending at the start day. */
  method CalculateStreak(history: seq<int>, today: int) returns (streak: nat)
    ensures AllRecorded(history, StreakStart(history, today) - streak, StreakStart(history, today))
    ensures StreakStart(history, today) - streak !in history
    ensures streak <= |set d | d in history|
    ensures today !in history && today - 1 !in history ==> streak == 0
  {
    var start := if today in history then today else today - 1;
    var checkDate := start;
    streak := 0;
    while true
      invariant checkDate == start - streak
      invariant AllRecorded(history, checkDate, start)
      invariant streak <= |set d | d in history && checkDate < d|
      decreases |set d | d in history && d <= checkDate|
    {
      if checkDate in history {
        RecordedDayCounts(history, checkDate);
        streak := streak + 1;
        checkDate := checkDate - 1;
      } else {
        break;
      }
    }
    SubsetCount(set d | d in history && checkDate < d, set d | d in history);
  }

  lemma {:induction false} SubsetCount<T>(a: set<T>, b: set<T>)
    requires a <= b
    ensures |a| <= |b|
  {
    assert b == a + (b - a);
    assert a * (b - a) == {};
  }

  /** Stepping past a recorded day moves it from the days still to visit to
      the days already passed. */
  lemma {:induction false} RecordedDayCounts(history: seq<int>, c: int)
    requires c in history
    ensures |set d | d in history && c - 1 < d| == |set d | d in history && c < d| + 1
    ensures |set d | d in history && d <= c - 1| < |set d | d in history && d <= c|
  {
    var above := set d | d in history && c < d;
    var above' := set d | d in history && c - 1 < d;
    assert above' == above + {c};
    var below := set d | d in history && d <= c;
    var below' := set d | d in history && d <= c - 1;
    assert below == below' + {c};
    assert c !in below';
  }

  /** The two streak postconditions pin the result down: at most one length
      has a full run and a gap just before it. */
  lemma {:induction false} StreakDetermined(history: seq<int>, start: int, k1: nat, k2: nat)
    requires AllRecorded(history, start - k1, start) && start - k1 !in history
    requires AllRecorded(history, start - k2, start) && start - k2 !in history
    ensures k1 == k2
  {
  }

  // ---------------------------------------------------------------------
  // Goal and today's status

  /** The range `handleSaveGoal` accepts, in minutes. */
  predicate GoalIsValid(minutes: int) {
    0 < minutes <= 180
  }

  /** Every value the goal slider offers (5 to 60 in steps of 5) is accepted. */
  lemma {:induction false} SliderValuesValid(v: int)
    requires 5 <= v <= 60 && v % 5 == 0
    ensures GoalIsValid(v)
  {
  }

  /** `Math.ceil(x / 60)` on an integer `x`: the least `m` with `60 * m >= x`. */
  function CeilDiv60(x: int): (m: int)
    ensures 60 * m >= x && 60 * (m - 1) < x
  {
    -((-x) / 60)
  }

  lemma {:induction false} CeilDiv60Least(x: int, m': int)
    requires 60 * m' >= x
    ensures m' >= CeilDiv60(x)
  {
  }

  datatype TodayStatus = Achieved | MinutesLeft(minutes: int)

  /** The status card: achieved, or the whole minutes still to practise. */
  function Today(p: DailyProgress): (r: TodayStatus)
    ensures p.completed <==> r.Achieved?
  {
    if p.completed then Achieved else MinutesLeft(CeilDiv60(p.goalSeconds - p.secondsActive))
  }

  /** The remaining minutes cover the remaining seconds with less than a
      minute to spare, and are positive while the goal is not yet reached. */
  lemma {:induction false} TodayMinutesCover(p: DailyProgress)
    requires !p.completed
    ensures 60 * Today(p).minutes >= p.goalSeconds - p.secondsActive
    ensures 60 * Today(p).minutes < p.goalSeconds - p.secondsActive + 60
    ensures p.secondsActive < p.goalSeconds ==> Today(p).minutes >= 1
  {
  }

  // ---------------------------------------------------------------------
  // Date keys

  function Digit(n: nat): char
    requires n < 10
  {
    ('0' as int + n) as char
  }

  predicate IsDigit(c: char) {
    '0' <= c <= '9'
  }

  predicate AllDigits(s: string) {
    forall k :: 0 <= k < |s| ==> IsDigit(s[k])
  }

  function DigitValue(c: char): (n: nat)
    requires IsDigit(c)
    ensures n < 10 && Digit(n) == c
  {
    c as int - '0' as int
  }

  /** `String(n)` for a non-negative integer. */
  function NatToDecimal(n: nat): (s: string)
    ensures |s| >= 1 && AllDigits(s)
    ensures n < 10 <==> |s| == 1
    ensures |s| > 1 ==> s[0] != '0'
    decreases n
  {
    if n < 10 then [Digit(n)] else NatToDecimal(n / 10) + [Digit(n % 10)]
  }

  /** The value of a string of decimal digits. */
  function DecimalValue(s: string): nat
    requires AllDigits(s)
  {
    if s == [] then 0 else 10 * DecimalValue(s[..|s| - 1]) + DigitValue(s[|s| - 1])
  }

  lemma {:induction false} DecimalRoundTrip(n: nat)
    ensures DecimalValue(NatToDecimal(n)) == n
    decreases n
  {
    if n >= 10 {
      var s := NatToDecimal(n);
      DecimalRoundTrip(n / 10);
      assert s[..|s| - 1] == NatToDecimal(n / 10);
    }
  }

  /** `String(n)` for any integer. */
  function IntToString(n: int): (s: string)
    ensures |s| >= 1
  {
    if n < 0 then "-" + NatToDecimal(-n) else NatToDecimal(n)
  }

  /** The text of a number starts with a minus sign exactly when it is negative. */
  lemma {:induction false} SignChar(n: int)
    ensures IntToString(n)[0] == '-' <==> n < 0
  {
    if n >= 0 {
      assert IsDigit(NatToDecimal(n)[0]);
    }
  }

  lemma {:induction false} IntToStringInjective(a: int, b: int)
    requires IntToString(a) == IntToString(b)
    ensures a == b
  {
    SignChar(a);
    SignChar(b);
    if a < 0 && b < 0 {
      assert NatToDecimal(-a) == IntToString(a)[1..];
      assert NatToDecimal(-b) == IntToString(b)[1..];
      NatToDecimalInjective(-a, -b);
    } else if 0 <= a && 0 <= b {
      NatToDecimalInjective(a, b);
    }
  }

  lemma {:induction false} NatToDecimalInjective(a: nat, b: nat)
    requires NatToDecimal(a) == NatToDecimal(b)
    ensures a == b
  {
    DecimalRoundTrip(a);
    DecimalRoundTrip(b);
  }

  /** `s.padStart(2, '0')` */
  function PadStart2(s: string): (r: string)
    ensures |s| >= 2 ==> r == s
    ensures |s| < 2 ==> |r| == 2 && r[2 - |s|..] == s && forall k :: 0 <= k < 2 - |s| ==> r[k] == '0'
  {
    if |s| >= 2 then s else if |s| == 1 then "0" + s else "00"
  }

  /** Two decimal digits of a number below 100. */
  function TwoDigits(n: nat): string
    requires n < 100
  {
    [Digit(n / 10), Digit(n % 10)]
  }

  lemma {:induction false} PadTwoDigits(n: nat)
    requires n < 100
    ensures PadStart2(IntToString(n)) == TwoDigits(n)
  {
    if n < 10 {
      assert IntToString(n) == [Digit(n)];
    } else {
      var q, r := n / 10, n % 10;
      assert q < 10 && r < 10;
      assert NatToDecimal(q) == [Digit(q)];
      assert IntToString(n) == [Digit(q)] + [Digit(r)];
    }
  }

  lemma {:induction false} TwoDigitsInjective(a: nat, b: nat)
    requires a < 100 && b < 100 && TwoDigits(a) == TwoDigits(b)
    ensures a == b
  {
    assert DigitValue(TwoDigits(a)[0]) == a / 10 && DigitValue(TwoDigits(a)[1]) == a % 10;
    assert DigitValue(TwoDigits(b)[0]) == b / 10 && DigitValue(TwoDigits(b)[1]) == b % 10;
  }

  /** The key `isDateCompleted` looks up: year, month + 1 and day, the last
      two zero-padded to two digits, joined by hyphens. */
  function DateKey(year: int, month: int, day: int): string {
    IntToString(year) + "-" + PadStart2(IntToString(month + 1)) + "-" + PadStart2(IntToString(day))
  }

  /** The six characters after the year in the key of a calendar day. */
  function DateSuffix(month: nat, day: nat): (r: string)
    requires month < 12 && day < 100
    ensures |r| == 6
  {
    "-" + TwoDigits(month + 1) + "-" + TwoDigits(day)
  }

  /** The key of a calendar day is the year followed by `-MM-DD`. */
  lemma {:induction false} DateKeyShape(year: int, month: int, day: int)
    requires 0 <= month < 12 && 1 <= day <= 31
    ensures DateKey(year, month, day) == IntToString(year) + DateSuffix(month, day)
  {
    PadTwoDigits(month + 1);
    PadTwoDigits(day);
  }

  lemma {:induction false} ConcatCancel<T>(a1: seq<T>, b1: seq<T>, a2: seq<T>, b2: seq<T>)
    requires a1 + b1 == a2 + b2 && |b1| == |b2|
    ensures a1 == a2 && b1 == b2
  {
    assert a1 == (a1 + b1)[..|a1|];
    assert a2 == (a2 + b2)[..|a2|];
    assert b1 == (a1 + b1)[|a1|..];
    assert b2 == (a2 + b2)[|a2|..];
  }

  lemma {:induction false} DateSuffixInjective(m1: nat, d1: nat, m2: nat, d2: nat)
    requires m1 < 12 && d1 < 100 && m2 < 12 && d2 < 100
    requires DateSuffix(m1, d1) == DateSuffix(m2, d2)
    ensures m1 == m2 && d1 == d2
  {
    assert DateSuffix(m1, d1)[1..3] == TwoDigits(m1 + 1);
    assert DateSuffix(m2, d2)[1..3] == TwoDigits(m2 + 1);
    assert DateSuffix(m1, d1)[4..] == TwoDigits(d1);
    assert DateSuffix(m2, d2)[4..] == TwoDigits(d2);
    TwoDigitsInjective(m1 + 1, m2 + 1);
    TwoDigitsInjective(d1, d2);
  }

  /** Different calendar days have different keys, so the calendar marks
      exactly the days whose key is recorded. */
  lemma {:induction false} DateKeyInjective(y1: int, m1: int, d1: int, y2: int, m2: int, d2: int)
    requires 0 <= m1 < 12 && 1 <= d1 <= 31 && 0 <= m2 < 12 && 1 <= d2 <= 31
    ensures DateKey(y1, m1, d1) == DateKey(y2, m2, d2) <==> y1 == y2 && m1 == m2 && d1 == d2
  {
    if DateKey(y1, m1, d1) == DateKey(y2, m2, d2) {
      DateKeyShape(y1, m1, d1);
      DateKeyShape(y2, m2, d2);
      ConcatCancel(IntToString(y1), DateSuffix(m1, d1), IntToString(y2), DateSuffix(m2, d2));
      IntToStringInjective(y1, y2);
      DateSuffixInjective(m1, d1, m2, d2);
    }
  }

  lemma {:induction false} DateKeyExample()
    ensures DateKey(2024, 2, 5) == "2024-03-05"
  {
    assert NatToDecimal(2024) == "2024" by {
      assert NatToDecimal(2) == "2";
      assert NatToDecimal(20) == "20";
      assert NatToDecimal(202) == "202";
    }
  }

  // ---------------------------------------------------------------------
  // Calendar months

  /** The year a `Date` constructor actually uses: 0 to 99 mean 1900 to 1999. */
  function ConstructorYear(y: int): int {
    if 0 <= y <= 99 then 1900 + y else y
  }

  /** `new Date(y, m, 1)` read back as (full year, month): months outside
      0..11 carry into the year. */
  function MonthStart(y: int, m: int): (r: (int, int))
    ensures 0 <= r.1 < 12
    ensures r.0 * 12 + r.1 == ConstructorYear(y) * 12 + m
  {
    (ConstructorYear(y) + m / 12, m % 12)
  }

  function PrevMonth(y: int, m: int): (int, int) {
    MonthStart(y, m - 1)
  }

  function NextMonth(y: int, m: int): (int, int) {
    MonthStart(y, m + 1)
  }

  /** Navigation wraps the year, and the two buttons undo each other, for
      every year after 100 (years 0 to 99 are read as 1900 to 1999). */
  lemma {:induction false} MonthNavigation(y: int, m: int)
    requires y > 100 && 0 <= m < 12
    ensures PrevMonth(y, 0) == (y - 1, 11) && NextMonth(y, 11) == (y + 1, 0)
    ensures 0 < m ==> PrevMonth(y, m) == (y, m - 1)
    ensures m < 11 ==> NextMonth(y, m) == (y, m + 1)
    ensures var p := PrevMonth(y, m); NextMonth(p.0, p.1) == (y, m)
    ensures var n := NextMonth(y, m); PrevMonth(n.0, n.1) == (y, m)
  {
  }

  /** Below year 100 the constructor's two-digit rule breaks that: going back
      from January 100 and forward again lands in January 2000. */
  lemma {:induction false} MonthNavigationTwoDigitYears()
    ensures PrevMonth(100, 0) == (99, 11)
    ensures NextMonth(99, 11) == (2000, 0)
  {
  }

  predicate IsLeapYear(y: int) {
    y % 4 == 0 && (y % 100 != 0 || y % 400 == 0)
  }

  /** The Gregorian length of month `m` (0 = January). */
  function MonthLength(y: int, m: int): (n: int)
    requires 0 <= m < 12
    ensures 28 <= n <= 31
    ensures n == 29 <==> m == 1 && IsLeapYear(y)
  {
    if m == 1 then (if IsLeapYear(y) then 29 else 28)
    else if m == 3 || m == 5 || m == 8 || m == 10 then 30
    else 31
  }

  /** `new Date(year, month + 1, 0).getDate()`: day 0 of the next month is
      the last day of this one. */
  function DaysInMonth(year: int, month: int): (n: int)
    ensures 28 <= n <= 31
  {
    var ym := MonthStart(year, month);
    MonthLength(ym.0, ym.1)
  }

  function YearLength(y: int): int
  {
    SumMonths(y, 12)
  }

  function SumMonths(y: int, k: nat): int
    requires k <= 12
  {
    if k == 0 then 0 else SumMonths(y, k - 1) + MonthLength(y, k - 1)
  }

  /** The twelve months add up to the Gregorian year. */
  lemma {:induction false} YearHasRightLength(y: int)
    ensures YearLength(y) == if IsLeapYear(y) then 366 else 365
  {
    var feb := MonthLength(y, 1);
    assert SumMonths(y, 1) == 31;
    assert SumMonths(y, 2) == 31 + feb;
    assert SumMonths(y, 3) == 62 + feb;
    assert SumMonths(y, 4) == 92 + feb;
    assert SumMonths(y, 5) == 123 + feb;
    assert SumMonths(y, 6) == 153 + feb;
    assert SumMonths(y, 7) == 184 + feb;
    assert SumMonths(y, 8) == 215 + feb;
    assert SumMonths(y, 9) == 245 + feb;
    assert SumMonths(y, 10) == 276 + feb;
    assert SumMonths(y, 11) == 306 + feb;
  }

  // ---------------------------------------------------------------------
  // Totals

  ghost predicate NoDuplicates<T>(s: seq<T>) {
    forall i, j :: 0 <= i < j < |s| ==> s[i] != s[j]
  }

  /** The number of distinct entries is at most the length, with equality
      exactly when nothing is recorded twice; the total shown counts
      every entry, duplicates included. */
  lemma {:induction false} DistinctCount<T>(s: seq<T>)
    ensures |set x | x in s| <= |s|
    ensures |set x | x in s| == |s| <==> NoDuplicates(s)
  {
    if s != [] {
      var rest := s[1..];
      DistinctCount(rest);
      var r := set x | x in rest;
      assert (set x | x in s) == r + {s[0]};
      if s[0] in rest {
        assert (set x | x in s) == r;
        var j :| 0 <= j < |rest| && rest[j] == s[0];
        assert s[0] == s[j + 1];
      } else {
        assert |set x | x in s| == |r| + 1;
        if NoDuplicates(s) {
          assert NoDuplicates(rest) by {
            forall i, j | 0 <= i < j < |rest| ensures rest[i] != rest[j] {
              assert rest[i] == s[i + 1] && rest[j] == s[j + 1];
            }
          }
        }
        if NoDuplicates(rest) {
          forall i, j | 0 <= i < j < |s| ensures s[i] != s[j] {
            if i == 0 {
              assert s[j] == rest[j - 1];
            } else {
              assert s[i] == rest[i - 1] && s[j] == rest[j - 1];
            }
          }
        }
      }
    }
  }

  // ---------------------------------------------------------------------
  // The component

  class Dashboard {
    const progress: DailyProgress
    const history: seq<string>
    var year: int
    var month: int
    var goalInput: int
    var isSaved: bool

    /** The shown month always lies in 0..11, as `getMonth` returns. */
    ghost predicate Valid()
      reads this
    {
      0 <= month < 12
    }

    /** Opens on the month of `now`, with the goal slider at the current goal. */
    constructor(progress0: DailyProgress, history0: seq<string>, nowYear: int, nowMonth: int)
      requires 0 <= nowMonth < 12
      ensures progress == progress0 && history == history0
      ensures year == nowYear && month == nowMonth
      ensures goalInput == CeilDiv60(progress0.goalSeconds) && !isSaved
      ensures Valid()
    {
      progress := progress0;
      history := history0;
      year := nowYear;
      month := nowMonth;
      goalInput := CeilDiv60(progress0.goalSeconds);
      isSaved := false;
    }

    method HandlePrevMonth()
      requires Valid()
      modifies this
      ensures (year, month) == PrevMonth(old(year), old(month))
      ensures goalInput == old(goalInput) && isSaved == old(isSaved)
      ensures Valid()
    {
      var ym := MonthStart(year, month - 1);
      year, month := ym.0, ym.1;
    }

    method HandleNextMonth()
      requires Valid()
      modifies this
      ensures (year, month) == NextMonth(old(year), old(month))
      ensures goalInput == old(goalInput) && isSaved == old(isSaved)
      ensures Valid()
    {
      var ym := MonthStart(year, month + 1);
      year, month := ym.0, ym.1;
    }

    method SetGoalInput(v: int)
      requires Valid()
      modifies this
      ensures goalInput == v
      ensures year == old(year) && month == old(month) && isSaved == old(isSaved)
      ensures Valid()
    {
      goalInput := v;
    }

    /** `handleSaveGoal`: `saved` is the goal handed to the host, if any. */
    method HandleSaveGoal() returns (saved: Option<int>)
      requires Valid()
      modifies this
      ensures GoalIsValid(old(goalInput)) ==> saved == Some(old(goalInput)) && isSaved
      ensures !GoalIsValid(old(goalInput)) ==> saved == None && isSaved == old(isSaved)
      ensures year == old(year) && month == old(month) && goalInput == old(goalInput)
      ensures Valid()
    {
      if goalInput > 0 && goalInput <= 180 {
        saved := Some(goalInput);
        isSaved := true;
      } else {
        saved := None;
      }
    }

    function DaysInShownMonth(): (n: int)
      reads this
      ensures 28 <= n <= 31
      ensures 0 <= month < 12 && ConstructorYear(year) == year ==> n == MonthLength(year, month)
    {
      DaysInMonth(year, month)
    }

    /** `isDateCompleted(day)` for the shown month: for a calendar day, the
        history holds the year followed by the two-digit month and day. */
    function IsDateCompleted(day: int): (done: bool)
      reads this
      ensures 0 <= month < 12 && 1 <= day <= 31 ==>
                (done <==> IntToString(year) + DateSuffix(month, day) in history)
    {
      var key := DateKey(year, month, day);
      if 0 <= month < 12 && 1 <= day <= 31 then
        DateKeyShape(year, month, day);
        key in history
      else
        key in history
    }

    /** `totalDays`: every recorded entry counts, so it bounds the number of
        distinct days from above. */
    function TotalDays(): (n: nat)
      reads this
      ensures n == |history|
      ensures n >= |set x | x in history|
      ensures n == |set x | x in history| <==> NoDuplicates(history)
    {
      DistinctCount(history);
      |history|
    }

    /** The status card: achieved, or the least whole minutes that cover
        the seconds still to practise. */
    function TodayCard(): (r: TodayStatus)
      reads this
      ensures progress.completed <==> r.Achieved?
      ensures r.MinutesLeft? ==> 60 * r.minutes >= progress.goalSeconds - progress.secondsActive
      ensures r.MinutesLeft? ==> 60 * r.minutes < progress.goalSeconds - progress.secondsActive + 60
      ensures r.MinutesLeft? && progress.secondsActive < progress.goalSeconds ==> r.minutes >= 1
    {
      if !progress.completed then
        TodayMinutesCover(progress);
        Today(progress)
      else
        Today(progress)
    }
  }
}
