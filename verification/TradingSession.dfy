/**
 When simulated orders may be placed: trading windows in local time on weekdays, the search for the next
 opening, and the loop that turns a local time into an instant. Local times are minutes (or seconds) since
 1 January 1970 on the local clock; a time zone is its offset, in seconds, at each instant.
 */
module TradingSession {
  import opened Options

  const DAY: int := 1440
  const SEARCH_DAYS: int := 14

  /** Minutes of the day; the end is exclusive. */
  datatype Window = Window(start: int, end: int)

  function DayOf(minute: int): int { minute / DAY }
  function MinuteOf(minute: int): int { minute % DAY }

  /** Sunday is 0; day 0 was a Thursday. */
  function Weekday(day: int): int { (day + 4) % 7 }
  predicate IsWeekend(day: int) { Weekday(day) == 0 || Weekday(day) == 6 }

  // ---------------------------------------------------------------- parsing

  /** A window as read: a bound that is not a number is None. */
  datatype RawWindow = RawWindow(start: Option<int>, end: Option<int>)

  predicate Accepted(raw: RawWindow) {
    raw.start.Some? && raw.end.Some? && raw.start.value >= 0 && raw.end.value > raw.start.value
  }

  function ParseTradingSessions(raw: seq<RawWindow>): (sessions: seq<Window>)
    ensures Valid(sessions)
    ensures forall w :: w in sessions <==> RawWindow(Some(w.start), Some(w.end)) in raw && w.start >= 0 && w.end > w.start
  {
    if raw == [] then []
    else if Accepted(raw[0]) then [Window(raw[0].start.value, raw[0].end.value)] + ParseTradingSessions(raw[1..])
    else ParseTradingSessions(raw[1..])
  }

  ghost predicate Valid(sessions: seq<Window>) {
    forall i :: 0 <= i < |sessions| ==> sessions[i].start >= 0 && sessions[i].end > sessions[i].start
  }

  // ---------------------------------------------------------------- sessions and the next opening

  predicate Covered(sessions: seq<Window>, minute: int) {
    exists i :: 0 <= i < |sessions| && sessions[i].start <= minute < sessions[i].end
  }

  predicate InSession(sessions: seq<Window>, now: int) {
    !IsWeekend(DayOf(now)) && Covered(sessions, MinuteOf(now))
  }

  function FirstAfter(sessions: seq<Window>, minute: int): (found: Option<Window>)
    ensures found.None? <==> forall i :: 0 <= i < |sessions| ==> sessions[i].start <= minute
    ensures found.Some? ==> found.value in sessions && found.value.start > minute
  {
    if sessions == [] then None
    else if sessions[0].start > minute then Some(sessions[0])
    else FirstAfter(sessions[1..], minute)
  }

  function Candidate(sessions: seq<Window>, dayOffset: nat, minute: int): Option<Window> {
    if dayOffset == 0 then FirstAfter(sessions, minute)
    else if sessions == [] then None else Some(sessions[0])
  }

  /** The local minute the search finds, looking from `dayOffset` days after `now`. */
  function NextOpen(sessions: seq<Window>, now: int, dayOffset: nat): Option<int>
    decreases SEARCH_DAYS - dayOffset
  {
    if dayOffset >= SEARCH_DAYS then None
    else
      var day := DayOf(now) + dayOffset;
      var window := Candidate(sessions, dayOffset, MinuteOf(now));
      if IsWeekend(day) || window.None? then NextOpen(sessions, now, dayOffset + 1)
      else Some(day * DAY + window.value.start)
  }

  /** The first minute from now on that is in session. */
  ghost predicate IsFirstOpening(sessions: seq<Window>, now: int, open: int) {
    now < open && InSession(sessions, open) && forall m :: now <= m < open ==> !InSession(sessions, m)
  }

  function NextTradingDay(day: int): (next: int)
    ensures day < next <= day + 3 && !IsWeekend(next)
    ensures forall d :: day < d < next ==> IsWeekend(d)
  {
    if !IsWeekend(day + 1) then day + 1 else if !IsWeekend(day + 2) then day + 2 else day + 3
  }

  /** Where the search stops: later today, or with the first listed window of the next trading day. */
  lemma WhereTheSearchStops(sessions: seq<Window>, now: int)
    requires sessions != []
    ensures var day, later := DayOf(now), FirstAfter(sessions, MinuteOf(now));
            NextOpen(sessions, now, 0) == Some(if !IsWeekend(day) && later.Some?
                                               then day * DAY + later.value.start
                                               else NextTradingDay(day) * DAY + sessions[0].start)
  {}

  /** No listed window starts before the first one. */
  ghost predicate LeadsWithEarliest(sessions: seq<Window>) {
    sessions != [] && sessions[0].start < DAY && forall i :: 0 <= i < |sessions| ==> sessions[0].start <= sessions[i].start
  }

  /** The first listed window after this minute of the day is the earliest one after it. */
  ghost predicate EarliestFirstAfter(sessions: seq<Window>, minute: int) {
    var found := FirstAfter(sessions, minute);
    found.Some? ==>
      found.value.start < DAY && forall i :: 0 <= i < |sessions| && sessions[i].start > minute ==> found.value.start <= sessions[i].start
  }

  ghost predicate WellOrdered(sessions: seq<Window>) {
    LeadsWithEarliest(sessions) && forall m :: 0 <= m < DAY && !Covered(sessions, m) ==> EarliestFirstAfter(sessions, m)
  }

  lemma DayAndMinute(day: int, minute: int)
    requires 0 <= minute < DAY
    ensures DayOf(day * DAY + minute) == day && MinuteOf(day * DAY + minute) == minute
  {}

  lemma Recombined(now: int)
    ensures now == DayOf(now) * DAY + MinuteOf(now) && 0 <= MinuteOf(now) < DAY
  {}

  lemma DaysAreOrdered(a: int, b: int)
    requires a <= b
    ensures DayOf(a) <= DayOf(b) && (DayOf(a) == DayOf(b) ==> MinuteOf(a) <= MinuteOf(b))
  {}

  /** Nothing is in session between a blocked minute and an opening later the same day. */
  lemma OpensLaterToday(sessions: seq<Window>, now: int, later: Window)
    requires Valid(sessions) && !InSession(sessions, now) && !IsWeekend(DayOf(now))
    requires EarliestFirstAfter(sessions, MinuteOf(now)) && FirstAfter(sessions, MinuteOf(now)) == Some(later)
    ensures IsFirstOpening(sessions, now, DayOf(now) * DAY + later.start)
  {
    var day, minute := DayOf(now), MinuteOf(now);
    var open := day * DAY + later.start;
    Recombined(now);
    DayAndMinute(day, later.start);
    assert InSession(sessions, open) by {
      var i :| 0 <= i < |sessions| && sessions[i] == later;
      assert sessions[i].start <= MinuteOf(open) < sessions[i].end;
    }
    forall m | now <= m < open ensures !InSession(sessions, m) {
      DaysAreOrdered(now, m);
      DaysAreOrdered(m, open);
      NotCoveredBetween(sessions, minute, later.start, MinuteOf(m));
    }
  }

  lemma NotCoveredBetween(sessions: seq<Window>, minute: int, until: int, m: int)
    requires !Covered(sessions, minute) && minute <= m < until
    requires forall i :: 0 <= i < |sessions| && sessions[i].start > minute ==> until <= sessions[i].start
    ensures !Covered(sessions, m)
  {}

  /** Nothing is in session before the earliest window of the next trading day, if today has no more windows. */
  lemma OpensOnTheNextTradingDay(sessions: seq<Window>, now: int)
    requires Valid(sessions) && !InSession(sessions, now) && LeadsWithEarliest(sessions)
    requires IsWeekend(DayOf(now)) || FirstAfter(sessions, MinuteOf(now)).None?
    ensures IsFirstOpening(sessions, now, NextTradingDay(DayOf(now)) * DAY + sessions[0].start)
  {}

  /** With well-ordered windows the search always finds the first opening, at most three days ahead. */
  lemma NextOpenIsTheFirstOpening(sessions: seq<Window>, now: int)
    requires Valid(sessions) && WellOrdered(sessions) && !InSession(sessions, now)
    ensures var open := NextOpen(sessions, now, 0);
            open.Some? && IsFirstOpening(sessions, now, open.value) && DayOf(open.value) <= DayOf(now) + 3
  {
    WhereTheSearchStops(sessions, now);
    Recombined(now);
    var later := FirstAfter(sessions, MinuteOf(now));
    if !IsWeekend(DayOf(now)) && later.Some? {
      OpensLaterToday(sessions, now, later.value);
      DayAndMinute(DayOf(now), later.value.start);
    } else {
      OpensOnTheNextTradingDay(sessions, now);
      DayAndMinute(NextTradingDay(DayOf(now)), sessions[0].start);
    }
  }

  /** Windows listed by start, all starting within the day, are well ordered. */
  lemma SortedWindowsAreWellOrdered(sessions: seq<Window>)
    requires sessions != [] && forall i :: 0 <= i < |sessions| ==> sessions[i].start < DAY
    requires forall i, j :: 0 <= i < j < |sessions| ==> sessions[i].start <= sessions[j].start
    ensures WellOrdered(sessions)
  {
    forall m ensures EarliestFirstAfter(sessions, m) {
      FirstOfSorted(sessions, m);
    }
  }

  lemma {:induction false} FirstOfSorted(sessions: seq<Window>, minute: int)
    requires forall i :: 0 <= i < |sessions| ==> sessions[i].start < DAY
    requires forall i, j :: 0 <= i < j < |sessions| ==> sessions[i].start <= sessions[j].start
    ensures EarliestFirstAfter(sessions, minute)
  {
    if sessions != [] && sessions[0].start <= minute {
      FirstOfSorted(sessions[1..], minute);
      forall i | 0 <= i < |sessions| && sessions[i].start > minute
        ensures FirstAfter(sessions, minute).value.start <= sessions[i].start
      {
        assert sessions[i] == sessions[1..][i - 1];
      }
    }
  }

  ghost predicate SearchIsRightAt(sessions: seq<Window>, now: int) {
    var open := NextOpen(sessions, now, 0);
    open.Some? && IsFirstOpening(sessions, now, open.value)
  }

  /** A window that starts within the day opens a session on a trading day. */
  lemma WindowStartsASession(sessions: seq<Window>, day: int, i: nat)
    requires Valid(sessions) && i < |sessions| && sessions[i].start < DAY && !IsWeekend(day)
    ensures InSession(sessions, day * DAY + sessions[i].start)
  {}

  /** Asked on a Saturday, only the earliest window of the day can be right on Monday. */
  lemma WeekendNeedsTheEarliestFirst(sessions: seq<Window>)
    requires Valid(sessions) && sessions != [] && SearchIsRightAt(sessions, 2 * DAY)
    ensures LeadsWithEarliest(sessions)
  {
    var open := 4 * DAY + sessions[0].start;
    WhereTheSearchStops(sessions, 2 * DAY);
    Recombined(open);
    var v :| 0 <= v < |sessions| && sessions[v].start <= MinuteOf(open) < sessions[v].end;
    WindowStartsASession(sessions, 4, v);
    forall i | 0 <= i < |sessions| ensures sessions[0].start <= sessions[i].start {
      if sessions[i].start < DAY {
        WindowStartsASession(sessions, 4, i);
      }
    }
  }

  /** Asked at an uncovered minute of a trading day, the window named must be right on that day. */
  lemma TradingDayNeedsTheEarliestFirst(sessions: seq<Window>, day: int, minute: int, found: Window)
    requires Valid(sessions) && !IsWeekend(day) && 0 <= minute < DAY
    requires FirstAfter(sessions, minute) == Some(found) && SearchIsRightAt(sessions, day * DAY + minute)
    ensures IsFirstOpening(sessions, day * DAY + minute, day * DAY + found.start)
    ensures forall i :: 0 <= i < |sessions| && minute < sessions[i].start < DAY ==> found.start <= sessions[i].start
  {
    hide NextOpen, Covered, FirstAfter;
    DayAndMinute(day, minute);
    WhereTheSearchStops(sessions, day * DAY + minute);
    forall i | 0 <= i < |sessions| && minute < sessions[i].start < DAY ensures found.start <= sessions[i].start {
      WindowStartsASession(sessions, day, i);
    }
  }

  /** Monday's answer is no later than Tuesday's first window; Friday's is not on a Saturday: so both are the same day. */
  lemma WeekdaysNeedTheEarliestFirst(sessions: seq<Window>, minute: int)
    requires Valid(sessions) && LeadsWithEarliest(sessions) && 0 <= minute < DAY && !Covered(sessions, minute)
    requires SearchIsRightAt(sessions, 4 * DAY + minute) && SearchIsRightAt(sessions, 1 * DAY + minute)
    ensures EarliestFirstAfter(sessions, minute)
  {
    hide IsFirstOpening, SearchIsRightAt, NextOpen, InSession, Covered, LeadsWithEarliest, Valid;
    var found := FirstAfter(sessions, minute);
    if found.Some? {
      TradingDayNeedsTheEarliestFirst(sessions, 4, minute, found.value);
      TradingDayNeedsTheEarliestFirst(sessions, 1, minute, found.value);
      FridayAndMonday(sessions, minute, found.value.start);
    }
  }

  lemma FridayAndMonday(sessions: seq<Window>, minute: int, start: int)
    requires Valid(sessions) && 0 <= minute < DAY && LeadsWithEarliest(sessions)
    requires IsFirstOpening(sessions, 4 * DAY + minute, 4 * DAY + start) && IsFirstOpening(sessions, 1 * DAY + minute, 1 * DAY + start)
    ensures start < DAY
  {
    hide Covered;
    WindowStartsASession(sessions, 5, 0);
    assert !(4 * DAY + minute <= 5 * DAY + sessions[0].start < 4 * DAY + start);
    assert start < 2 * DAY;
    assert InSession(sessions, 1 * DAY + start);
  }

  /** The search is right at every blocked minute exactly when the windows are well ordered. */
  lemma SearchIsRightIffWellOrdered(sessions: seq<Window>)
    requires Valid(sessions) && sessions != []
    ensures WellOrdered(sessions) <==> forall now :: !InSession(sessions, now) ==> SearchIsRightAt(sessions, now)
  {
    if WellOrdered(sessions) {
      forall now | !InSession(sessions, now) ensures SearchIsRightAt(sessions, now) {
        NextOpenIsTheFirstOpening(sessions, now);
      }
    } else if forall now :: !InSession(sessions, now) ==> SearchIsRightAt(sessions, now) {
      assert IsWeekend(DayOf(2 * DAY));
      WeekendNeedsTheEarliestFirst(sessions);
      forall m | 0 <= m < DAY && !Covered(sessions, m) ensures EarliestFirstAfter(sessions, m) {
        DayAndMinute(4, m);
        DayAndMinute(1, m);
        WeekdaysNeedTheEarliestFirst(sessions, m);
      }
    }
  }

  /** With the afternoon listed first, the search names the afternoon on the next day and skips the morning. */
  lemma UnsortedWindowsSkipAnOpening()
    ensures var sessions := [Window(780, 900), Window(570, 690)];
            Valid(sessions) && NextOpen(sessions, 2 * DAY, 0) == Some(4 * DAY + 780) && InSession(sessions, 4 * DAY + 570)
  {
    var sessions := [Window(780, 900), Window(570, 690)];
    WhereTheSearchStops(sessions, 2 * DAY);
    WindowStartsASession(sessions, 4, 1);
  }

  // ---------------------------------------------------------------- local time to instant

  /** The instant tried after k corrections. */
  function Guess(offset: int -> int, local: int, k: nat): int {
    if k == 0 then local else local - offset(Guess(offset, local, k - 1))
  }

  predicate Shows(offset: int -> int, instant: int, local: int) { instant + offset(instant) == local }

  predicate HitAt(offset: int -> int, local: int, k: nat) { Shows(offset, Guess(offset, local, k), local) }

  /** What the loop returns after checking guesses k, k+1, .. 3: the first one that shows the local time, else guess 4. */
  function LocalToUtc(offset: int -> int, local: int, k: nat): int
    decreases 4 - k
  {
    if k >= 4 || HitAt(offset, local, k) then Guess(offset, local, k) else LocalToUtc(offset, local, k + 1)
  }

  ghost predicate TwoValued(offset: int -> int, a: int, b: int) {
    forall u :: offset(u) == a || offset(u) == b
  }

  /** Three attempts find an instant showing the local time if the zone has only two offsets where it matters: at that
      instant, at the local time read as an instant, and at the first correction. */
  lemma TwoOffsetsNearbyAreEnough(offset: int -> int, local: int, u: int, a: int, b: int)
    requires Shows(offset, u, local)
    requires forall v :: v == u || v == local || v == local - offset(local) ==> offset(v) == a || offset(v) == b
    ensures exists k: nat :: k < 3 && HitAt(offset, local, k)
    ensures Shows(offset, LocalToUtc(offset, local, 0), local)
  {
    var g0, g1, g2 := Guess(offset, local, 0), Guess(offset, local, 1), Guess(offset, local, 2);
    assert g1 == local - offset(g0) && g2 == local - offset(g1);
    if offset(u) == offset(g0) {
      assert u == g1;
    } else if offset(g1) != offset(g0) {
      assert u == g2;
    }
    var k := if Shows(offset, g1, local) then 1 else 2;
    assert HitAt(offset, local, k);
    FirstHitIsReturned(offset, local, 0);
  }

  /** In a zone with two offsets, three attempts find an instant showing the local time if there is one. */
  lemma TwoOffsetsNeedThreeAttempts(offset: int -> int, local: int, a: int, b: int)
    requires TwoValued(offset, a, b)
    ensures (exists u :: Shows(offset, u, local)) <==> exists k: nat :: k < 3 && HitAt(offset, local, k)
    ensures (exists u :: Shows(offset, u, local)) <==> Shows(offset, LocalToUtc(offset, local, 0), local)
  {
    if u :| Shows(offset, u, local) {
      TwoOffsetsNearbyAreEnough(offset, local, u, a, b);
    }
  }

  lemma FirstHitIsReturned(offset: int -> int, local: int, k: nat)
    requires exists j: nat :: k <= j < 4 && HitAt(offset, local, j)
    ensures Shows(offset, LocalToUtc(offset, local, k), local)
    decreases 4 - k
  {
    if !HitAt(offset, local, k) {
      FirstHitIsReturned(offset, local, k + 1);
    }
  }

  lemma OneOffsetNeedsTwoAttempts(offset: int -> int, local: int, a: int)
    requires TwoValued(offset, a, a)
    ensures LocalToUtc(offset, local, 0) == local - a && Shows(offset, local - a, local)
    ensures exists k: nat :: k < 2 && HitAt(offset, local, k)
  {}

  /** With two offsets the loop settles on one correction of the first correction, for skipped local times too. */
  lemma TwoOffsetsClosedForm(offset: int -> int, local: int, a: int, b: int)
    requires TwoValued(offset, a, b)
    ensures LocalToUtc(offset, local, 0) == local - offset(local - offset(local))
  {
    var g1 := Guess(offset, local, 1);
    var g2 := Guess(offset, local, 2);
    assert g1 == local - offset(local) && g2 == local - offset(g1);
    assert Guess(offset, local, 3) == local - offset(g2) && Guess(offset, local, 4) == local - offset(Guess(offset, local, 3));
    assert HitAt(offset, local, 0) <==> offset(local) == 0;
    assert HitAt(offset, local, 1) <==> offset(g1) == offset(local);
    assert HitAt(offset, local, 2) <==> offset(g2) == offset(g1);
  }

  /** A local time that two offsets skip is answered by a local time off by exactly their difference. */
  lemma SkippedLocalTimesAreOffByTheChange(offset: int -> int, local: int, a: int, b: int)
    requires TwoValued(offset, a, b) && !exists u :: Shows(offset, u, local)
    ensures var u := LocalToUtc(offset, local, 0);
            u + offset(u) == local + (b - a) || u + offset(u) == local + (a - b)
  {}

  /** Three offsets are too many: from 3 to 1 to 2 hours within one hour, the loop circles between the last two and never
      tries the first. */
  lemma ThreeOffsetsCanMiss()
    ensures var offset := (u: int) => if u < -9000 then 10_800 else if u < -5400 then 3600 else 7200;
            Shows(offset, -10_800, 0) && !Shows(offset, LocalToUtc(offset, 0, 0), 0)
  {
    var offset := (u: int) => if u < -9000 then 10_800 else if u < -5400 then 3600 else 7200;
    assert Guess(offset, 0, 1) == -7200;
    assert Guess(offset, 0, 2) == -3600;
    assert Guess(offset, 0, 3) == -7200;
    assert Guess(offset, 0, 4) == -3600;
    assert !HitAt(offset, 0, 0) && !HitAt(offset, 0, 1) && !HitAt(offset, 0, 2) && !HitAt(offset, 0, 3);
    assert LocalToUtc(offset, 0, 0) == LocalToUtc(offset, 0, 1) == LocalToUtc(offset, 0, 2) == LocalToUtc(offset, 0, 3);
  }

  /** The first of the guesses k to 3 that shows the local time; the fifth guess if none does. */
  lemma {:induction false} FirstHitOrTheFifthGuess(offset: int -> int, local: int, k: nat)
    requires k <= 4 && forall j: nat :: j < k ==> !HitAt(offset, local, j)
    ensures IsFirstHit(offset, local, LocalToUtc(offset, local, k))
    decreases 4 - k
  {
    if k < 4 && !HitAt(offset, local, k) {
      FirstHitOrTheFifthGuess(offset, local, k + 1);
    }
  }

  ghost predicate IsFirstHit(offset: int -> int, local: int, instant: int) {
    exists k: nat :: k <= 4 && instant == Guess(offset, local, k)
                     && (k < 4 ==> instant + offset(instant) == local) && forall j: nat :: j < k ==> !HitAt(offset, local, j)
  }

  method BuildUtcDateForLocalTime(offset: int -> int, local: int) returns (instant: int)
    ensures instant == LocalToUtc(offset, local, 0) && IsFirstHit(offset, local, instant)
  {
    FirstHitOrTheFifthGuess(offset, local, 0);
    var guess := local;
    var attempt := 0;
    while attempt < 4
      invariant 0 <= attempt <= 4
      invariant guess == Guess(offset, local, attempt)
      invariant LocalToUtc(offset, local, 0) == LocalToUtc(offset, local, attempt)
    {
      var actual := guess + offset(guess);
      var diff := local - actual;
      if diff == 0 {
        return guess;
      }
      guess := guess + diff;
      attempt := attempt + 1;
    }
    return guess;
  }

  // ---------------------------------------------------------------- the guard

  function LocalMinute(offset: int -> int, now: int): int { (now + offset(now)) / 60 }

  method ResolveNextOpenAt(offset: int -> int, now: int, sessions: seq<Window>) returns (open: Option<int>)
    ensures var local := NextOpen(sessions, LocalMinute(offset, now), 0);
            open == if local.Some? then Some(LocalToUtc(offset, local.value * 60, 0)) else None
  {
    hide IsFirstHit, LocalToUtc, Guess;
    var current := LocalMinute(offset, now);
    var currentMinutes := MinuteOf(current);
    var dayOffset := 0;
    while dayOffset < SEARCH_DAYS
      invariant 0 <= dayOffset <= SEARCH_DAYS
      invariant NextOpen(sessions, current, 0) == NextOpen(sessions, current, dayOffset)
    {
      var targetDate := DayOf(current) + dayOffset;
      if !IsWeekend(targetDate) {
        var window := Candidate(sessions, dayOffset, currentMinutes);
        if window.Some? {
          var instant := BuildUtcDateForLocalTime(offset, (targetDate * DAY + window.value.start) * 60);
          return Some(instant);
        }
      }
      dayOffset := dayOffset + 1;
    }
    return None;
  }

  /** The window has two numeric bounds, and ends after it starts. */
  predicate IsUsable(window: RawWindow) {
    window.start != None && window.end != None && 0 <= window.start.value < window.end.value
  }

  /** From Monday to Friday, at or after the start of a usable window and before its end. Days count from a Thursday. */
  ghost predicate IsOpen(raw: seq<RawWindow>, minute: int) {
    && 1 <= (minute / 1440 + 4) % 7 <= 5
    && exists k :: 0 <= k < |raw| && IsUsable(raw[k]) && raw[k].start.value <= minute % 1440 < raw[k].end.value
  }

  lemma InSessionMeans(raw: seq<RawWindow>, minute: int)
    ensures InSession(ParseTradingSessions(raw), minute) <==> IsOpen(raw, minute)
    ensures ParseTradingSessions(raw) == [] <==> forall k :: 0 <= k < |raw| ==> !IsUsable(raw[k])
  {
    var sessions := ParseTradingSessions(raw);
    if Covered(sessions, MinuteOf(minute)) {
      var i :| 0 <= i < |sessions| && sessions[i].start <= MinuteOf(minute) < sessions[i].end;
      assert sessions[i] in sessions;
      var k :| 0 <= k < |raw| && raw[k] == RawWindow(Some(sessions[i].start), Some(sessions[i].end));
      assert IsUsable(raw[k]);
    }
    forall k | 0 <= k < |raw| && IsUsable(raw[k])
      ensures sessions != [] && (raw[k].start.value <= MinuteOf(minute) < raw[k].end.value ==> Covered(sessions, MinuteOf(minute)))
    {
      var w := Window(raw[k].start.value, raw[k].end.value);
      assert raw[k] == RawWindow(Some(w.start), Some(w.end));
      assert w in sessions;
      var i :| 0 <= i < |sessions| && sessions[i] == w;
    }
    if sessions != [] {
      assert sessions[0] in sessions;
      var k :| 0 <= k < |raw| && raw[k] == RawWindow(Some(sessions[0].start), Some(sessions[0].end));
      assert IsUsable(raw[k]);
    }
  }

  /** The first minute from `from` on at which a window is open. */
  ghost predicate OpensFirstAt(raw: seq<RawWindow>, from: int, open: int) {
    from < open && IsOpen(raw, open) && forall m :: from <= m < open ==> !IsOpen(raw, m)
  }

  /** Usable windows listed by their starts, all within the day. */
  ghost predicate ListedByStart(raw: seq<RawWindow>) {
    forall i, j :: 0 <= i < |raw| && 0 <= j < |raw| && IsUsable(raw[i]) && IsUsable(raw[j]) ==>
      raw[i].start.value < 1440 && (i <= j ==> raw[i].start.value <= raw[j].start.value)
  }

  lemma {:induction false} ParsedByStart(raw: seq<RawWindow>)
    requires ListedByStart(raw)
    ensures var sessions := ParseTradingSessions(raw);
            && (forall i :: 0 <= i < |sessions| ==> sessions[i].start < DAY)
            && forall i, j :: 0 <= i < j < |sessions| ==> sessions[i].start <= sessions[j].start
  {
    if raw != [] {
      TailIsListedByStart(raw);
      ParsedByStart(raw[1..]);
      var rest := ParseTradingSessions(raw[1..]);
      if Accepted(raw[0]) {
        forall i | 0 <= i < |rest| ensures raw[0].start.value <= rest[i].start && raw[0].start.value < DAY {
          FrontIsEarliest(raw, rest[i]);
        }
        assert raw[0].start.value < DAY by { assert IsUsable(raw[0]); }
        ConsIsByStart(Window(raw[0].start.value, raw[0].end.value), rest);
      }
    }
  }

  lemma TailIsListedByStart(raw: seq<RawWindow>)
    requires raw != [] && ListedByStart(raw)
    ensures ListedByStart(raw[1..])
  {}

  lemma FrontIsEarliest(raw: seq<RawWindow>, later: Window)
    requires raw != [] && ListedByStart(raw) && IsUsable(raw[0]) && later in ParseTradingSessions(raw[1..])
    ensures raw[0].start.value <= later.start
  {
    var k :| 0 <= k < |raw[1..]| && raw[1..][k] == RawWindow(Some(later.start), Some(later.end));
    assert raw[k + 1] == raw[1..][k] && IsUsable(raw[k + 1]);
  }

  lemma ConsIsByStart(first: Window, rest: seq<Window>)
    requires first.start < DAY && forall i :: 0 <= i < |rest| ==> first.start <= rest[i].start < DAY
    requires forall i, j :: 0 <= i < j < |rest| ==> rest[i].start <= rest[j].start
    ensures forall i, j :: 0 <= i < j < |[first] + rest| ==> ([first] + rest)[i].start <= ([first] + rest)[j].start
    ensures forall i :: 0 <= i < |[first] + rest| ==> ([first] + rest)[i].start < DAY
  {}

  /** With windows listed by start, a blocked caller's next opening is the first minute at which one is open. */
  lemma BlockedUntilTheFirstOpening(raw: seq<RawWindow>, minute: int)
    requires ListedByStart(raw) && !IsOpen(raw, minute) && exists k :: 0 <= k < |raw| && IsUsable(raw[k])
    ensures var open := NextOpen(ParseTradingSessions(raw), minute, 0);
            open.Some? && OpensFirstAt(raw, minute, open.value)
  {
    var sessions := ParseTradingSessions(raw);
    InSessionMeans(raw, minute);
    ParsedByStart(raw);
    SortedWindowsAreWellOrdered(sessions);
    NextOpenIsTheFirstOpening(sessions, minute);
    var open := NextOpen(sessions, minute, 0).value;
    hide NextOpen, WellOrdered, InSession, IsOpen;
    InSessionMeans(raw, open);
    forall m | minute <= m < open ensures !IsOpen(raw, m) {
      InSessionMeans(raw, m);
    }
  }

  datatype Reason = WithinTradingSession | OutsideTradingSession | SessionGuardDisabled | SessionGuardNotConfigured
  datatype GuardResult = GuardResult(allowed: bool, reason: Reason, nextOpenAt: Option<int>)

  method EvaluateTradingSessionGuard(enforce: bool, offset: int -> int, raw: seq<RawWindow>, now: int) returns (result: GuardResult)
    ensures var sessions, local := ParseTradingSessions(raw), LocalMinute(offset, now);
            && (result.allowed <==> !enforce || sessions == [] || InSession(sessions, local))
            && (result.allowed ==> result.nextOpenAt == None)
            && (!result.allowed ==> NextOpen(sessions, local, 0).Some? && result.reason == OutsideTradingSession)
            && (!result.allowed ==> result.nextOpenAt == Some(LocalToUtc(offset, NextOpen(sessions, local, 0).value * 60, 0)))
            && (result.reason == SessionGuardDisabled <==> !enforce)
            && (result.reason == SessionGuardNotConfigured <==> enforce && sessions == [])
    ensures var local := (now + offset(now)) / 60;
            && (result.allowed <==> !enforce || (forall k :: 0 <= k < |raw| ==> !IsUsable(raw[k])) || IsOpen(raw, local))
            && (!result.allowed ==>
                  exists open :: result.nextOpenAt == Some(LocalToUtc(offset, open * 60, 0)) && (ListedByStart(raw) ==> OpensFirstAt(raw, local, open)))
  {
    hide IsFirstHit, LocalToUtc, Guess, OpensFirstAt, ListedByStart, IsOpen;
    InSessionMeans(raw, LocalMinute(offset, now));
    var sessions := ParseTradingSessions(raw);
    if !enforce {
      return GuardResult(true, SessionGuardDisabled, None);
    }
    if sessions == [] {
      return GuardResult(true, SessionGuardNotConfigured, None);
    }
    if InSession(sessions, LocalMinute(offset, now)) {
      return GuardResult(true, WithinTradingSession, None);
    }
    WhereTheSearchStops(sessions, LocalMinute(offset, now));
    if ListedByStart(raw) {
      BlockedUntilTheFirstOpening(raw, LocalMinute(offset, now));
    }
    var nextOpen := ResolveNextOpenAt(offset, now, sessions);
    return GuardResult(false, OutsideTradingSession, nextOpen);
  }

  /** The loop settles on `target`, judged by the zone at three instants known before: the opening read as an
      instant, and the opening under either offset. */
  predicate SettlesOn(offset: int -> int, opening: int, target: int, other: int) {
    (offset(opening) == target && offset(opening - target) == target)
    || (offset(opening) == other && offset(opening - other) == target)
  }

  /**
   What a blocked caller is told, in any zone with two offsets. The instant shows the first opening exactly
   when that local time exists. It is not after now exactly when the clock will go forward (or has gone back)
   by at least the wait, as seen from now, and the loop settles on that other offset; this covers openings
   that the clock change skips.
   */
  lemma AnnouncedOpening(offset: int -> int, a: int, b: int, sessions: seq<Window>, now: int)
    requires TwoValued(offset, a, b) && Valid(sessions) && WellOrdered(sessions) && !InSession(sessions, LocalMinute(offset, now))
    ensures var found := NextOpen(sessions, LocalMinute(offset, now), 0);
            found.Some? && IsFirstOpening(sessions, LocalMinute(offset, now), found.value)
    ensures var opening := NextOpen(sessions, LocalMinute(offset, now), 0).value * 60;
            var instant := LocalToUtc(offset, opening, 0);
            var current, other := offset(now), a + b - offset(now);
            var wait := opening - (now + current);
            && wait > 0
            && (Shows(offset, instant, opening) <==> exists u :: Shows(offset, u, opening))
            && (instant <= now <==> wait <= other - current && SettlesOn(offset, opening, other, current))
            && (a == b ==> instant > now)
  {
    hide InSession, NextOpen, LocalToUtc, WellOrdered, SettlesOn;
    NextOpenIsTheFirstOpening(sessions, LocalMinute(offset, now));
    var local := NextOpen(sessions, LocalMinute(offset, now), 0).value;
    assert (now + offset(now)) / 60 + 1 <= local;
    AnnouncedInstant(offset, a, b, local * 60, now);
  }

  lemma AnnouncedInstant(offset: int -> int, a: int, b: int, opening: int, now: int)
    requires TwoValued(offset, a, b) && now + offset(now) < opening
    ensures var instant := LocalToUtc(offset, opening, 0);
            var current, other := offset(now), a + b - offset(now);
            && (Shows(offset, instant, opening) <==> exists u :: Shows(offset, u, opening))
            && (instant <= now <==> opening - (now + current) <= other - current && SettlesOn(offset, opening, other, current))
            && (a == b ==> instant > now)
  {
    TwoOffsetsNeedThreeAttempts(offset, opening, a, b);
    TwoOffsetsClosedForm(offset, opening, a, b);
  }

  /** One window, asked before it on day 0, a Thursday. */
  lemma OpensToday(minute: int, window: Window)
    requires 0 <= minute < window.start < window.end && window.start < DAY
    ensures !InSession([window], minute) && NextOpen([window], minute, 0) == Some(window.start)
  {
    WhereTheSearchStops([window], minute);
    DayAndMinute(0, minute);
  }

  /** Set back from -4 to -5 hours at 06:00 UTC. */
  function Autumn(u: int): int { if u < 6 * 3600 then -4 * 3600 else -5 * 3600 }

  /** Set forward from -5 to -4 hours at 07:00 UTC. */
  function Spring(u: int): int { if u < 7 * 3600 then -5 * 3600 else -4 * 3600 }

  /** Asked at 06:10 (01:10 local) after the clock went back, the 01:30 named is the one at 05:30. */
  lemma OpeningCanLieInThePast()
    ensures TwoValued(Autumn, -4 * 3600, -5 * 3600) && LocalMinute(Autumn, 22_200) == 70
    ensures !InSession([Window(90, 120)], 70) && NextOpen([Window(90, 120)], 70, 0) == Some(90)
    ensures LocalToUtc(Autumn, 90 * 60, 0) == 19_800 < 22_200
  {
    OpensToday(70, Window(90, 120));
    TwoOffsetsClosedForm(Autumn, 90 * 60, -4 * 3600, -5 * 3600);
  }

  /** Asked at 06:45 (01:45 local) before the clock goes forward: 02:30 does not exist that day, and the instant named
      is 06:30. */
  lemma SkippedOpeningCanLieInThePast()
    ensures TwoValued(Spring, -5 * 3600, -4 * 3600) && LocalMinute(Spring, 24_300) == 105
    ensures !InSession([Window(150, 180)], 105) && NextOpen([Window(150, 180)], 105, 0) == Some(150)
    ensures !(exists u :: Shows(Spring, u, 150 * 60)) && LocalToUtc(Spring, 150 * 60, 0) == 23_400 < 24_300
  {
    OpensToday(105, Window(150, 180));
    TwoOffsetsClosedForm(Spring, 150 * 60, -5 * 3600, -4 * 3600);
  }
}
