/** The monthly and annual reports (internal/app/digest.go): when each is due
    on a chat's own clock, and that each goes out at most once. */
module DigestWindows {
  import opened Wrappers
  import opened Numerals

  // ---------- The calendar ----------

  predicate IsLeap(y: nat) {
    y % 4 == 0 && (y % 100 != 0 || y % 400 == 0)
  }

  function MonthLength(y: nat, m: nat): (days: nat)
    ensures 1 <= m <= 12 ==> 28 <= days <= 31
  {
    if m == 2 then (if IsLeap(y) then 29 else 28)
    else if m == 4 || m == 6 || m == 9 || m == 11 then 30
    else 31
  }

  function YearLength(y: nat): nat {
    if IsLeap(y) then 366 else 365
  }

  datatype Month = Month(year: nat, month: nat)

  /** A wall clock, to the hour. */
  datatype Local = Local(year: nat, month: nat, day: nat, hour: nat)

  predicate IsMonth(m: Month) {
    1 <= m.month <= 12
  }

  predicate IsLocal(t: Local) {
    1 <= t.year && 1 <= t.month <= 12 && 1 <= t.day <= MonthLength(t.year, t.month) && t.hour < 24
  }

  type Clock = t: Local | IsLocal(t) witness Local(1, 1, 1, 0)

  /** Days before the first of January of a year, and before the first of a
      month within its year. */
  function DaysBeforeYear(y: nat): nat {
    if y == 0 then 0 else DaysBeforeYear(y - 1) + YearLength(y - 1)
  }

  function DaysBeforeMonth(y: nat, m: nat): nat {
    if m <= 1 then 0 else DaysBeforeMonth(y, m - 1) + MonthLength(y, m - 1)
  }

  function DayNumber(y: nat, m: nat, d: nat): nat {
    DaysBeforeYear(y) + DaysBeforeMonth(y, m) + d
  }

  /** Hours since the calendar's beginning. */
  function HourNumber(t: Local): nat {
    24 * DayNumber(t.year, t.month, t.day) + t.hour
  }

  lemma YearIsItsMonths(y: nat)
    ensures DaysBeforeMonth(y, 12) + MonthLength(y, 12) == YearLength(y)
  {
    var leap := if IsLeap(y) then 1 else 0;
    assert DaysBeforeMonth(y, 2) == 31;
    assert DaysBeforeMonth(y, 3) == 59 + leap;
    assert DaysBeforeMonth(y, 5) == 120 + leap;
    assert DaysBeforeMonth(y, 7) == 181 + leap;
    assert DaysBeforeMonth(y, 9) == 243 + leap;
    assert DaysBeforeMonth(y, 11) == 304 + leap;
  }

  /** Thirty days hath September: from August on the longer months are the even
      ones. */
  lemma MonthLengths(y: nat, m: nat)
    requires 1 <= m <= 12 && m != 2
    ensures MonthLength(y, m) == 30 + (m + m / 8) % 2
  {
  }

  lemma QuotientIs(n: nat, d: nat, q: nat, r: nat)
    requires d > 0 && n == d * q + r && r < d
    ensures n / d == q
  {
    DivMod(n, d);
    if n / d < q {
      MulMonotone(d, n / d + 1, q);
    } else if n / d > q {
      MulMonotone(d, q + 1, n / d);
    }
  }

  lemma Multiple(n: nat, d: nat, q: nat)
    requires d > 0 && n == d * q
    ensures n % d == 0
  {
    DivMod(n, d);
    QuotientIs(n, d, q, 0);
  }

  lemma Nested(y: nat)
    ensures y % 400 == 0 ==> y % 100 == 0
    ensures y % 100 == 0 ==> y % 4 == 0
  {
    if y % 400 == 0 {
      DivMod(y, 400);
      Multiple(y, 100, 4 * (y / 400));
    }
    if y % 100 == 0 {
      DivMod(y, 100);
      Multiple(y, 4, 25 * (y / 100));
    }
  }

  lemma Steps(y: nat, d: nat)
    requires d > 0
    ensures (y + d) / d == (y + d - 1) / d + if y % d == 0 then 1 else 0
  {
    var q, r := y / d, y % d;
    assert y == d * q + r;
    QuotientIs(y + d, d, q + 1, r);
    if r == 0 {
      QuotientIs(y + d - 1, d, q, d - 1);
    } else {
      QuotientIs(y + d - 1, d, q + 1, r - 1);
    }
  }

  /** The days before a year, with a leap day every fourth year but the hundredth,
      and again every four-hundredth. */
  lemma {:induction false} DaysBefore(y: nat)
    ensures DaysBeforeYear(y) == 365 * y + (y + 3) / 4 - (y + 99) / 100 + (y + 399) / 400
  {
    if y > 0 {
      DaysBefore(y - 1);
      Steps(y - 1, 4);
      Steps(y - 1, 100);
      Steps(y - 1, 400);
      Nested(y - 1);
    }
  }

  function NextMonth(m: Month): Month {
    if m.month == 12 then Month(m.year + 1, 1) else Month(m.year, m.month + 1)
  }

  /** The day after a month's last is the first of the next month, over New Year
      and in leap years too. */
  lemma MonthsFollow(m: Month)
    requires IsMonth(m)
    ensures DayNumber(NextMonth(m).year, NextMonth(m).month, 1) == DayNumber(m.year, m.month, MonthLength(m.year, m.month)) + 1
  {
    YearIsItsMonths(m.year);
  }

  predicate Earlier(m: Month, n: Month) {
    m.year < n.year || (m.year == n.year && m.month < n.month)
  }

  function PreviousMonth(n: Month): (p: Month)
    requires IsMonth(n) && (n.month > 1 || n.year > 0)
    ensures IsMonth(p) && NextMonth(p) == n
  {
    if n.month == 1 then Month(n.year - 1, 12) else Month(n.year, n.month - 1)
  }

  lemma {:induction false} EarlierMonthEndsBefore(m: Month, n: Month)
    requires IsMonth(m) && IsMonth(n) && Earlier(m, n)
    ensures DayNumber(m.year, m.month, MonthLength(m.year, m.month)) < DayNumber(n.year, n.month, 1)
    decreases n.year, n.month
  {
    var p := PreviousMonth(n);
    MonthsFollow(p);
    if p != m {
      EarlierMonthEndsBefore(m, p);
    }
  }

  /** No two dates have the same number. */
  lemma SameDate(t: Clock, y: nat, m: nat, d: nat)
    requires 1 <= m <= 12 && 1 <= d <= MonthLength(y, m) && DayNumber(t.year, t.month, t.day) == DayNumber(y, m, d)
    ensures t.year == y && t.month == m && t.day == d
  {
    if Earlier(Month(t.year, t.month), Month(y, m)) {
      EarlierMonthEndsBefore(Month(t.year, t.month), Month(y, m));
    } else if Earlier(Month(y, m), Month(t.year, t.month)) {
      EarlierMonthEndsBefore(Month(y, m), Month(t.year, t.month));
    }
  }

  // ---------- When a report is due ----------

  /** The day of month zero of the month after, as the program asks for it. */
  function LastDay(y: nat, m: nat): nat {
    MonthLength(y, m)
  }

  function DueMonthly(t: Clock): Option<Month> {
    if t.day == LastDay(t.year, t.month) && t.hour >= 20 then Some(Month(t.year, t.month))
    else if t.day == 1 && t.hour < 6 then
      if t.month == 1 then Some(Month(t.year - 1, 12)) else Some(Month(t.year, t.month - 1))
    else None
  }

  function DueAnnual(t: Clock): Option<nat> {
    if t.month == 12 && t.day == 31 && t.hour >= 20 then Some(t.year)
    else if t.month == 1 && t.day == 1 && t.hour < 6 then Some(t.year - 1)
    else None
  }

  /** Twenty hundred on the last day of a month. */
  function Opens(m: Month): nat {
    24 * DayNumber(m.year, m.month, MonthLength(m.year, m.month)) + 20
  }

  predicate InWindow(m: Month, t: Local) {
    Opens(m) <= HourNumber(t) < Opens(m) + 10
  }

  lemma DueIsInWindow(m: Month, t: Clock)
    requires DueMonthly(t) == Some(m)
    ensures IsMonth(m) && InWindow(m, t)
  {
    if t.day == LastDay(t.year, t.month) && t.hour >= 20 {
      assert m == Month(t.year, t.month) && HourNumber(t) == Opens(m) + (t.hour - 20);
    } else {
      assert NextMonth(m) == Month(t.year, t.month);
      MonthsFollow(m);
      assert HourNumber(t) == Opens(m) + 4 + t.hour;
    }
  }

  lemma WindowDay(m: Month, t: Clock)
    requires IsMonth(m) && InWindow(m, t)
    ensures var n, last := DayNumber(t.year, t.month, t.day), DayNumber(m.year, m.month, MonthLength(m.year, m.month));
            (n == last && t.hour >= 20) || (n == last + 1 && t.hour < 6)
  {
  }

  lemma InWindowIsDue(m: Month, t: Clock)
    requires IsMonth(m) && InWindow(m, t)
    ensures DueMonthly(t) == Some(m)
  {
    var next := NextMonth(m);
    WindowDay(m, t);
    MonthsFollow(m);
    if t.hour >= 20 {
      SameDate(t, m.year, m.month, MonthLength(m.year, m.month));
    } else {
      SameDate(t, next.year, next.month, 1);
    }
  }

  /** A month's report is due exactly in the ten hours from 20:00 on its last
      day to 06:00 on the day after, and so for one month at a time. */
  lemma DueExactlyInWindow(m: Month, t: Clock)
    requires IsMonth(m)
    ensures DueMonthly(t) == Some(m) <==> InWindow(m, t)
  {
    if DueMonthly(t) == Some(m) {
      DueIsInWindow(m, t);
    }
    if InWindow(m, t) {
      InWindowIsDue(m, t);
    }
  }

  /** A year's report is due exactly when its December's is. */
  lemma AnnualIsDecember(y: nat, t: Clock)
    ensures DueAnnual(t) == Some(y) <==> DueMonthly(t) == Some(Month(y, 12))
  {
  }

  // ---------- Period keys ----------

  function MonthKey(m: Month): string {
    Padded(m.year, 4) + ['-'] + Padded(m.month, 2)
  }

  /** Different months have different keys, in any century. */
  lemma MonthKeyInjective(m: Month, n: Month)
    requires MonthKey(m) == MonthKey(n)
    ensures m == n
  {
    forall k | k == m || k == n ensures Split(MonthKey(k), '-') == [Padded(k.year, 4), Padded(k.month, 2)] {
      PaddedFree(k.year, 4, '-');
      PaddedFree(k.month, 2, '-');
      SplitAt(Padded(k.year, 4), '-', Padded(k.month, 2));
      SplitFree(Padded(k.month, 2), '-');
    }
    PaddedKeepsValue(m.year, 4);
    PaddedKeepsValue(n.year, 4);
    PaddedKeepsValue(m.month, 2);
    PaddedKeepsValue(n.month, 2);
  }

  lemma YearKeyInjective(y: nat, z: nat)
    requires Padded(y, 4) == Padded(z, 4)
    ensures y == z
  {
    PaddedKeepsValue(y, 4);
    PaddedKeepsValue(z, 4);
  }

  // ---------- Claims ----------

  type ChatId = int

  datatype Kind = Monthly | Annual

  datatype Report = Report(chat: ChatId, kind: Kind, key: string)

  /** The periods claimed, and the reports handed to the outbox. */
  datatype State = State(claimed: set<Report>, sent: seq<Report>)

  /** What a chat's turn finds: its own clock, whether the period had any
      standings, whether the chat wants reports, and whether something fails
      before the claim commits. */
  datatype Turn = Turn(chat: ChatId, local: Clock, active: bool, wanted: bool, fails: bool)

  function Enqueued(s: State, r: Report, t: Turn): State {
    if t.fails || r in s.claimed then s
    else if !t.active then s.(claimed := s.claimed + {r})
    else if !t.wanted then s
    else State(s.claimed + {r}, s.sent + [r])
  }

  function MonthlyReport(chat: ChatId, m: Month): Report {
    Report(chat, Monthly, MonthKey(m))
  }

  function AnnualReport(chat: ChatId, y: nat): Report {
    Report(chat, Annual, Padded(y, 4))
  }

  lemma KeySamples(chat: ChatId)
    ensures MonthlyReport(chat, Month(2026, 9)).key == "2026-09" && MonthlyReport(chat, Month(2026, 11)).key == "2026-11"
    ensures AnnualReport(chat, 2026).key == "2026"
  {
    assert FormatNat(2026, 10) == "2026" by {
      assert FormatNat(202, 10) == FormatNat(20, 10) + "2" && FormatNat(20, 10) == "20";
    }
    assert FormatNat(11, 10) == "11" && FormatNat(9, 10) == "9";
    assert Zeros(1) == "0";
  }

  /** The report a chat's turn is about, if any: December's is part of the
      annual one. */
  function Wanted(t: Turn): Option<Report> {
    if DueAnnual(t.local).Some? then Some(AnnualReport(t.chat, DueAnnual(t.local).value))
    else if DueMonthly(t.local).Some? then Some(MonthlyReport(t.chat, DueMonthly(t.local).value))
    else None
  }

  function TurnTaken(s: State, t: Turn): State {
    if Wanted(t).Some? then Enqueued(s, Wanted(t).value, t) else s
  }

  /** The report that tells a chat about a month: December is told with its
      year. */
  function ReportFor(chat: ChatId, m: Month): Report {
    if m.month == 12 then AnnualReport(chat, m.year) else MonthlyReport(chat, m)
  }

  lemma WantedExactlyWhen(t: Turn, m: Month)
    requires IsMonth(m) && InWindow(m, t.local)
    ensures Wanted(t) == Some(ReportFor(t.chat, m))
  {
    InWindowIsDue(m, t.local);
    AnnualIsDecember(m.year, t.local);
    if DueAnnual(t.local).Some? {
      AnnualIsDecember(DueAnnual(t.local).value, t.local);
    }
  }

  lemma WantedHasWindow(t: Turn)
    requires Wanted(t).Some?
    ensures exists m :: IsMonth(m) && InWindow(m, t.local)
  {
    if DueAnnual(t.local).Some? {
      AnnualIsDecember(DueAnnual(t.local).value, t.local);
    }
    DueIsInWindow(DueMonthly(t.local).value, t.local);
  }

  /** A turn changes something exactly when it does not fail, a month's window is
      open on the chat's clock, its report is not claimed yet, and the chat
      wants it or has nothing to report. */
  lemma TurnActsExactlyWhen(s: State, t: Turn)
    ensures TurnTaken(s, t) != s <==>
              !t.fails && (t.wanted || !t.active)
              && exists m :: IsMonth(m) && InWindow(m, t.local) && ReportFor(t.chat, m) !in s.claimed
  {
    if Wanted(t).Some? {
      WantedHasWindow(t);
    }
    forall m | IsMonth(m) && InWindow(m, t.local) ensures Wanted(t) == Some(ReportFor(t.chat, m)) {
      WantedExactlyWhen(t, m);
    }
  }

  function TurnsTaken(s: State, turns: seq<Turn>): State {
    if turns == [] then s else TurnTaken(TurnsTaken(s, turns[..|turns| - 1]), turns[|turns| - 1])
  }

  class DigestScheduler {
    var claimed: set<Report>
    var sent: seq<Report>

    constructor ()
      ensures Snapshot() == State({}, [])
    {
      claimed, sent := {}, [];
    }

    function Snapshot(): State
      reads this
    {
      State(claimed, sent)
    }

    /** One chat's trouble does not keep the next from its turn. */
    method Dispatch(turns: seq<Turn>)
      modifies this
      ensures Snapshot() == TurnsTaken(old(Snapshot()), turns)
    {
      for i := 0 to |turns|
        invariant Snapshot() == TurnsTaken(old(Snapshot()), turns[..i])
      {
        assert turns[..i + 1][..i] == turns[..i];
        var t := turns[i];
        var annual, monthly := DueAnnual(t.local), DueMonthly(t.local);
        forall y: nat ensures DueAnnual(t.local) == Some(y) <==> DueMonthly(t.local) == Some(Month(y, 12)) {
          AnnualIsDecember(y, t.local);
        }
        if monthly.Some? && (annual.None? || monthly.value.year != annual.value || monthly.value.month != 12) {
          assert annual.None?;
          Enqueue(MonthlyReport(t.chat, monthly.value), t);
        }
        if annual.Some? {
          Enqueue(AnnualReport(t.chat, annual.value), t);
        }
      }
      assert turns[..|turns|] == turns;
    }

    method Enqueue(r: Report, t: Turn)
      modifies this
      ensures Snapshot() == Enqueued(old(Snapshot()), r, t)
    {
      if t.fails || r in claimed {
        return;
      }
      if !t.active {
        claimed := claimed + {r};
        return;
      }
      if t.wanted {
        claimed := claimed + {r};
        sent := sent + [r];
      }
    }
  }

  // ---------- Any sequence of turns ----------

  predicate Inv(s: State) {
    && (forall i :: 0 <= i < |s.sent| ==> s.sent[i] in s.claimed)
    && (forall i, j :: 0 <= i < j < |s.sent| ==> s.sent[i] != s.sent[j])
  }

  lemma {:induction false} TurnsKeep(s: State, turns: seq<Turn>)
    requires Inv(s)
    ensures Inv(TurnsTaken(s, turns))
  {
    if turns != [] {
      TurnsKeep(s, turns[..|turns| - 1]);
    }
  }

  /** A chat gets a month's or a year's report at most once, however often and
      whenever the scheduler runs. */
  lemma AtMostOnce(turns: seq<Turn>, i: nat, j: nat)
    requires i < j < |TurnsTaken(State({}, []), turns).sent|
    ensures TurnsTaken(State({}, []), turns).sent[i] != TurnsTaken(State({}, []), turns).sent[j]
  {
    TurnsKeep(State({}, []), turns);
  }

  lemma NoDecemberAlone(t: Turn, r: Report)
    requires Wanted(t) == Some(r)
    ensures forall y :: r != MonthlyReport(r.chat, Month(y, 12))
  {
    forall y ensures r != MonthlyReport(r.chat, Month(y, 12)) {
      if DueAnnual(t.local).None? {
        var m := DueMonthly(t.local).value;
        AnnualIsDecember(m.year, t.local);
        if MonthKey(m) == MonthKey(Month(y, 12)) {
          MonthKeyInjective(m, Month(y, 12));
        }
      }
    }
  }

  /** Every report sent was due on the chat's clock at some turn, and no
      December is reported apart from its year. */
  lemma {:induction false} OnlyDueReports(turns: seq<Turn>, r: Report)
    requires r in TurnsTaken(State({}, []), turns).sent
    ensures exists i :: 0 <= i < |turns| && turns[i].chat == r.chat && turns[i].wanted && Wanted(turns[i]) == Some(r)
    ensures forall y :: r != MonthlyReport(r.chat, Month(y, 12))
  {
    var n := |turns| - 1;
    var before := TurnsTaken(State({}, []), turns[..n]);
    if r in before.sent {
      OnlyDueReports(turns[..n], r);
      var i :| 0 <= i < n && turns[..n][i].chat == r.chat && turns[..n][i].wanted && Wanted(turns[..n][i]) == Some(r);
      assert turns[i] == turns[..n][i];
    } else {
      assert Wanted(turns[n]) == Some(r);
      NoDecemberAlone(turns[n], r);
    }
  }

  /** A turn in the window that goes well settles the period for a chat that
      wants reports or had nothing to report; one that does not want them
      leaves the period open. */
  lemma TurnSettlesPeriod(s: State, t: Turn, m: Month)
    requires IsMonth(m) && InWindow(m, t.local) && !t.fails
    ensures var r := ReportFor(t.chat, m);
            && (t.wanted || !t.active ==> r in TurnTaken(s, t).claimed)
            && (t.wanted && t.active && r !in s.claimed ==> TurnTaken(s, t).sent == s.sent + [r])
            && (!t.wanted && t.active ==> TurnTaken(s, t) == s)
  {
    WantedExactlyWhen(t, m);
  }

  /** Once a chat's turn in the window goes well, the period is claimed for good:
      for a chat that wants reports or had nothing to report. */
  lemma {:induction false} EveryGoodTurnSettles(turns: seq<Turn>, i: nat, m: Month)
    requires i < |turns| && IsMonth(m) && InWindow(m, turns[i].local)
    requires !turns[i].fails && (turns[i].wanted || !turns[i].active)
    ensures ReportFor(turns[i].chat, m) in TurnsTaken(State({}, []), turns).claimed
  {
    var n := |turns| - 1;
    if i < n {
      EveryGoodTurnSettles(turns[..n], i, m);
    } else {
      TurnSettlesPeriod(TurnsTaken(State({}, []), turns[..n]), turns[n], m);
    }
  }

  predicate Silenced(turns: seq<Turn>, r: Report) {
    exists i :: 0 <= i < |turns| && !turns[i].fails && !turns[i].active && Wanted(turns[i]) == Some(r)
  }

  /** A claimed period was reported, unless a turn found nothing to report. */
  lemma {:induction false} ClaimedIsReported(turns: seq<Turn>, r: Report)
    requires r in TurnsTaken(State({}, []), turns).claimed
    ensures r in TurnsTaken(State({}, []), turns).sent || Silenced(turns, r)
  {
    if turns != [] {
      var n := |turns| - 1;
      if r in TurnsTaken(State({}, []), turns[..n]).claimed {
        ClaimedIsReported(turns[..n], r);
        if Silenced(turns[..n], r) {
          var i :| 0 <= i < n && !turns[..n][i].fails && !turns[..n][i].active && Wanted(turns[..n][i]) == Some(r);
          assert turns[i] == turns[..n][i];
        }
      } else {
        assert Wanted(turns[n]) == Some(r);
      }
    }
  }
}
