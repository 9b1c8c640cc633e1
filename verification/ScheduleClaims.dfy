/**
 One recurring schedule and any number of workers that race to fire it. A worker reads a due row and its
 own `now`, and later claims the firing with a compare-and-set on the `nextRunAt` it read; an edit may
 re-arm the schedule in between.
 */
module ScheduleClaims {
  import opened Options
  import opened Basics

  const MINUTE_MS: nat := 60_000

  predicate ValidIntervalMinutes(minutes: int) {
    1 <= minutes <= 10080
  }

  function NextRunAtFrom(base: nat, intervalMinutes: nat): nat {
    base + intervalMinutes * MINUTE_MS
  }

  datatype Schedule = Schedule(enabled: bool, intervalMinutes: nat, nextRunAt: nat)

  datatype Worker = Idle | Due(nextRunAt: nat, intervalMinutes: nat, now: nat)

  /** One firing: the claimer's `now` (stored as lastTriggeredAt), the clock of its claim, the interval it
      used, and how many edits had re-armed the schedule before it. */
  datatype Fire = Fire(stamp: nat, at: nat, intervalMinutes: nat, rearms: nat)

  /** `fires` and `rearms` are history variables. */
  datatype State = State(clock: nat, schedule: Schedule, workers: map<nat, Worker>, fires: seq<Fire>, rearms: nat) {
    function WorkerOf(w: nat): Worker { if w in workers then workers[w] else Idle }
    function SetWorker(w: nat, worker: Worker): State { this.(workers := workers[w := worker]) }
  }

  /** `commits` is false when the rest of the claim's transaction fails and the claim is rolled back. */
  datatype Event =
    | Tick(ms: nat)
    | ReadDue(worker: nat)
    | Trigger(worker: nat, commits: bool)
    | Edit(intervalMinutes: Option<nat>, otherConfig: bool, enabled: Option<bool>)
    | Crash(worker: nat)

  predicate IsDue(schedule: Schedule, now: nat) {
    schedule.enabled && schedule.nextRunAt <= now
  }

  predicate ClaimMatches(schedule: Schedule, nextRunAt: nat) {
    schedule.enabled && schedule.nextRunAt == nextRunAt
  }

  function TriggerStep(s: State, w: nat, commits: bool): State {
    match s.WorkerOf(w)
    case Due(nextRunAt, interval, now) =>
      if commits && ClaimMatches(s.schedule, nextRunAt)
      then s.SetWorker(w, Idle).(
             schedule := s.schedule.(nextRunAt := NextRunAtFrom(now, interval)),
             fires := s.fires + [Fire(now, s.clock, interval, s.rearms)])
      else s.SetWorker(w, Idle)
    case Idle => s
  }

  /** An edit re-arms the schedule when it stays or becomes enabled and its configuration changed or it resumed. */
  predicate Rearms(schedule: Schedule, e: Event)
    requires e.Edit?
  {
    var enabled := e.enabled.GetOr(schedule.enabled);
    enabled && (e.intervalMinutes.Some? || e.otherConfig || !schedule.enabled)
  }

  function EditStep(s: State, e: Event): State
    requires e.Edit?
  {
    if e.intervalMinutes.Some? && !ValidIntervalMinutes(e.intervalMinutes.value) then s
    else
      var edited := Schedule(
        e.enabled.GetOr(s.schedule.enabled),
        e.intervalMinutes.GetOr(s.schedule.intervalMinutes),
        if Rearms(s.schedule, e) then s.clock else s.schedule.nextRunAt);
      s.(schedule := edited, rearms := if Rearms(s.schedule, e) then s.rearms + 1 else s.rearms)
  }

  function Next(s: State, e: Event): State {
    match e
    case Tick(ms) => s.(clock := s.clock + ms)
    case ReadDue(w) =>
      if s.WorkerOf(w).Idle? && IsDue(s.schedule, s.clock)
      then s.SetWorker(w, Due(s.schedule.nextRunAt, s.schedule.intervalMinutes, s.clock)) else s
    case Trigger(w, commits) => TriggerStep(s, w, commits)
    case Edit(_, _, _) => EditStep(s, e)
    case Crash(w) => s.SetWorker(w, Idle)
  }

  /** createSchedule: enabled and due at once. */
  function Created(clock: nat, intervalMinutes: nat): State {
    State(clock, Schedule(true, intervalMinutes, clock), map[], [], 0)
  }

  function Run(s: State, events: seq<Event>): State
    decreases |events|
  {
    if events == [] then s else Run(Next(s, events[0]), events[1..])
  }

  // ---------------------------------------------------------------- invariant

  ghost predicate FollowsWell(before: Fire, after: Fire) {
    && before.rearms <= after.rearms
    && before.stamp <= after.stamp
    && (before.rearms == after.rearms ==> after.stamp >= NextRunAtFrom(before.stamp, before.intervalMinutes))
  }

  ghost predicate WorkerOk(worker: Worker, clock: nat) {
    worker.Due? ==> worker.nextRunAt <= worker.now <= clock && ValidIntervalMinutes(worker.intervalMinutes)
  }

  ghost predicate Inv(s: State) {
    && ValidIntervalMinutes(s.schedule.intervalMinutes)
    && (forall w :: WorkerOk(s.WorkerOf(w), s.clock))
    && (forall i :: 0 <= i < |s.fires| ==>
          && s.fires[i].stamp <= s.fires[i].at <= s.clock
          && s.fires[i].rearms <= s.rearms
          && ValidIntervalMinutes(s.fires[i].intervalMinutes))
    && (forall i :: 0 < i < |s.fires| ==> FollowsWell(s.fires[i - 1], s.fires[i]))
    && (s.fires != [] ==>
          var last := s.fires[|s.fires| - 1];
          && last.stamp <= s.schedule.nextRunAt
          && (last.rearms == s.rearms ==> s.schedule.nextRunAt >= NextRunAtFrom(last.stamp, last.intervalMinutes)))
  }

  lemma StepKeepsInv(s: State, e: Event)
    requires Inv(s)
    ensures Inv(Next(s, e))
  {
    if e.Trigger? {
      TriggerKeepsInv(s, e.worker, e.commits);
    } else {
      var t := Next(s, e);
      forall w ensures WorkerOk(t.WorkerOf(w), t.clock) {
        assert WorkerOk(s.WorkerOf(w), s.clock);
      }
    }
  }

  lemma TriggerKeepsInv(s: State, w: nat, commits: bool)
    requires Inv(s)
    ensures Inv(TriggerStep(s, w, commits))
  {
    var t := TriggerStep(s, w, commits);
    assert WorkerOk(s.WorkerOf(w), s.clock);
    forall v ensures WorkerOk(t.WorkerOf(v), t.clock) {
      assert WorkerOk(s.WorkerOf(v), s.clock);
    }
    assert forall i :: 0 <= i < |s.fires| ==> t.fires[i] == s.fires[i];
  }

  lemma {:induction false} RunKeepsInv(s: State, events: seq<Event>)
    requires Inv(s)
    ensures Inv(Run(s, events))
    decreases |events|
  {
    if events != [] {
      StepKeepsInv(s, events[0]);
      RunKeepsInv(Next(s, events[0]), events[1..]);
    }
  }

  // ---------------------------------------------------------------- results over every run

  /** Two successive firings with no re-arming edit in between are at least the first one's interval apart,
      measured between the claimers' `now` stamps. */
  lemma SuccessiveFiringsAreSpaced(clock: nat, minutes: nat, events: seq<Event>, i: nat)
    requires ValidIntervalMinutes(minutes)
    requires var fires := Run(Created(clock, minutes), events).fires;
             0 < i < |fires| && fires[i].rearms == fires[i - 1].rearms
    ensures var fires := Run(Created(clock, minutes), events).fires;
            fires[i].stamp >= fires[i - 1].stamp + fires[i - 1].intervalMinutes * 60_000
  {
    RunKeepsInv(Created(clock, minutes), events);
  }

  /** Measured between the claims themselves, the gap may fall short by the time the first claimer waited
      between its read and its claim, and by no more. */
  lemma ClaimInstantsLoseOnlyTheFirstWait(clock: nat, minutes: nat, events: seq<Event>, i: nat)
    requires ValidIntervalMinutes(minutes)
    requires var fires := Run(Created(clock, minutes), events).fires;
             0 < i < |fires| && fires[i].rearms == fires[i - 1].rearms
    ensures var fires := Run(Created(clock, minutes), events).fires;
            fires[i].at - fires[i - 1].at >=
              fires[i - 1].intervalMinutes * 60_000 - (fires[i - 1].at - fires[i - 1].stamp)
  {
    RunKeepsInv(Created(clock, minutes), events);
    var s := Run(Created(clock, minutes), events);
    assert s.fires[i].stamp <= s.fires[i].at;
  }

  /** Every later firing that follows the last one with no re-arming edit in between is claimed at least one
      interval after the last claim. */
  ghost predicate NextClaimKeepsInterval(s: State)
    requires s.fires != []
  {
    var n := |s.fires|;
    forall more :: |Run(s, more).fires| > n && Run(s, more).fires[n].rearms == s.fires[n - 1].rearms ==>
      Run(s, more).fires[n].at >= s.fires[n - 1].at + s.fires[n - 1].intervalMinutes * 60_000
  }

  /** Measured between claims, the interval is guaranteed just after a claim exactly when that claimer did
      not wait between its read and its claim. */
  lemma ClaimGapIsGuaranteedIffNoWait(s: State, w: nat)
    requires Inv(s) && s.fires != [] && s.schedule.enabled && s.WorkerOf(w).Idle?
    requires var last := s.fires[|s.fires| - 1];
             && last.at == s.clock && last.rearms == s.rearms
             && s.schedule.nextRunAt == NextRunAtFrom(last.stamp, last.intervalMinutes)
    ensures NextClaimKeepsInterval(s) <==> s.fires[|s.fires| - 1].at == s.fires[|s.fires| - 1].stamp
  {
    var n := |s.fires|;
    var last := s.fires[n - 1];
    if last.at == last.stamp {
      forall more | |Run(s, more).fires| > n && Run(s, more).fires[n].rearms == last.rearms
        ensures Run(s, more).fires[n].at >= last.at + last.intervalMinutes * MINUTE_MS
      {
        RunKeepsInv(s, more);
        FiresGrow(s, more);
        assert FollowsWell(Run(s, more).fires[n - 1], Run(s, more).fires[n]);
      }
    } else {
      var wait := if s.schedule.nextRunAt > s.clock then s.schedule.nextRunAt - s.clock else 0;
      var s1 := Next(s, Tick(wait));
      var s2 := Next(s1, ReadDue(w));
      var s3 := Next(s2, Trigger(w, true));
      var more := [Tick(wait), ReadDue(w), Trigger(w, true)];
      assert more[1..][1..] == [Trigger(w, true)] && [Trigger(w, true)][1..] == [];
      assert Run(s3, []) == s3 && Run(s2, [Trigger(w, true)]) == s3;
      assert Run(s1, more[1..]) == s3;
      assert Run(s, more) == s3;
      assert s3.fires == s.fires + [Fire(s1.clock, s1.clock, s.schedule.intervalMinutes, s.rearms)];
    }
  }

  /** It does fall short: a worker reads the due schedule, waits a minute, claims it, and the next claim comes after four. */
  lemma WaitShortensTheNextGap()
    ensures var waited := Next(Next(Next(Created(0, 5), ReadDue(1)), Tick(MINUTE_MS)), Trigger(1, true));
            var s := Next(Next(Next(waited, Tick(4 * MINUTE_MS)), ReadDue(2)), Trigger(2, true));
            s.fires == [Fire(0, 60_000, 5, 0), Fire(300_000, 300_000, 5, 0)]
  {
    var read := Next(Created(0, 5), ReadDue(1));
    assert read.WorkerOf(1) == Due(0, 5, 0);
    var waited := Next(Next(read, Tick(MINUTE_MS)), Trigger(1, true));
    assert waited.fires == [Fire(0, MINUTE_MS, 5, 0)] && waited.schedule == Schedule(true, 5, 5 * MINUTE_MS);
    var again := Next(Next(waited, Tick(4 * MINUTE_MS)), ReadDue(2));
    assert again.WorkerOf(2) == Due(5 * MINUTE_MS, 5, 5 * MINUTE_MS);
  }

  lemma {:induction false} FiresGrow(s: State, events: seq<Event>)
    ensures s.fires <= Run(s, events).fires
    decreases |events|
  {
    if events != [] {
      assert s.fires <= Next(s, events[0]).fires;
      FiresGrow(Next(s, events[0]), events[1..]);
    }
  }

  ghost predicate Chained(fires: seq<Fire>) {
    forall i :: 0 < i < |fires| ==> FollowsWell(fires[i - 1], fires[i])
  }

  lemma {:induction false} SpanOfFirings(fires: seq<Fire>, i: nat, j: nat, minMinutes: nat)
    requires Chained(fires) && i <= j < |fires|
    requires forall k :: i <= k < j ==> fires[k].intervalMinutes >= minMinutes
    ensures fires[i].stamp <= fires[j].stamp && fires[i].rearms <= fires[j].rearms
    ensures fires[j].stamp >= fires[i].stamp + minMinutes * MINUTE_MS * (j - i - (fires[j].rearms - fires[i].rearms))
    decreases j - i
  {
    if i < j {
      SpanOfFirings(fires, i, j - 1, minMinutes);
      assert FollowsWell(fires[j - 1], fires[j]);
      var unit := minMinutes * MINUTE_MS;
      var before := j - 1 - i - (fires[j - 1].rearms - fires[i].rearms);
      var after := j - i - (fires[j].rearms - fires[i].rearms);
      if fires[j].rearms == fires[j - 1].rearms {
        assert after == before + 1;
        assert unit * after == unit * before + unit;
        assert fires[j - 1].intervalMinutes * MINUTE_MS >= unit;
      } else {
        MulMonotone(unit, after, before);
      }
    }
  }

  ghost function InWindow(fires: seq<Fire>, from: nat, to: nat): set<int> {
    set i | 0 <= i < |fires| && from <= fires[i].stamp <= to
  }

  /** Every firing in the window used at least `minMinutes`, with at most `edits` re-arming edits between them. */
  ghost predicate WindowUses(fires: seq<Fire>, from: nat, to: nat, minMinutes: nat, rearms: nat, edits: nat) {
    forall i :: i in InWindow(fires, from, to) ==>
      fires[i].intervalMinutes >= minMinutes && rearms <= fires[i].rearms <= rearms + edits
  }

  lemma ChainedFiringsInWindow(fires: seq<Fire>, from: nat, to: nat, minMinutes: nat, rearms: nat, edits: nat)
    requires Chained(fires) && from <= to && minMinutes >= 1
    requires WindowUses(fires, from, to, minMinutes, rearms, edits)
    ensures |InWindow(fires, from, to)| <= (to - from) / (minMinutes * MINUTE_MS) + 1 + edits
  {
    var window := InWindow(fires, from, to);
    if k :| k in window {
      var i, j := FirstAndLast(window);
      InnerFiringsAreInWindow(fires, from, to, i, j);
      SpanOfFirings(fires, i, j, minMinutes);
      QuotientBound(minMinutes * MINUTE_MS, j - i - (fires[j].rearms - fires[i].rearms), to - from);
      RangeBoundsCard(window, i, j);
    } else {
      assert window == {};
    }
  }

  lemma InnerFiringsAreInWindow(fires: seq<Fire>, from: nat, to: nat, i: int, j: int)
    requires Chained(fires) && i in InWindow(fires, from, to) && j in InWindow(fires, from, to)
    ensures forall k :: i <= k <= j ==> k in InWindow(fires, from, to)
  {
    forall k | i <= k <= j ensures k in InWindow(fires, from, to) {
      SpanOfFirings(fires, i, k, 0);
      SpanOfFirings(fires, k, j, 0);
    }
  }

  /** In any closed window the schedule fires at most once per interval, plus once, plus once for each edit
      that re-armed it: missed slots never add up to a burst. */
  lemma FiringsInWindowAreBounded(
      clock: nat, minutes: nat, events: seq<Event>, from: nat, to: nat, minMinutes: nat, rearms: nat, edits: nat)
    requires ValidIntervalMinutes(minutes) && from <= to && minMinutes >= 1
    requires WindowUses(Run(Created(clock, minutes), events).fires, from, to, minMinutes, rearms, edits)
    ensures |InWindow(Run(Created(clock, minutes), events).fires, from, to)|
              <= (to - from) / (minMinutes * 60_000) + 1 + edits
  {
    RunKeepsInv(Created(clock, minutes), events);
    ChainedFiringsInWindow(Run(Created(clock, minutes), events).fires, from, to, minMinutes, rearms, edits);
  }

  lemma {:induction false} FirstAndLast(window: set<int>) returns (first: int, last: int)
    requires exists i :: i in window
    ensures first in window && last in window
    ensures forall i :: i in window ==> first <= i <= last
    decreases |window|
  {
    var x :| x in window;
    first, last := x, x;
    assert forall i :: i in window ==> i == x || i in window - {x};
    if y :| y in window - {x} {
      first, last := FirstAndLast(window - {x});
      if x < first { first := x; }
      if x > last { last := x; }
    }
  }

  /** With no re-arming edit at all: at most floor((to - from) / interval) + 1 firings. */
  lemma UneditedScheduleFiresOncePerInterval(clock: nat, minutes: nat, events: seq<Event>, from: nat, to: nat)
    requires ValidIntervalMinutes(minutes) && from <= to
    requires forall e :: e in events ==> !e.Edit?
    ensures |InWindow(Run(Created(clock, minutes), events).fires, from, to)| <= (to - from) / (minutes * 60_000) + 1
  {
    UneditedKeepsInterval(Created(clock, minutes), events, minutes);
    FiringsInWindowAreBounded(clock, minutes, events, from, to, minutes, 0, 0);
  }

  ghost predicate Unedited(s: State, minutes: nat) {
    && s.rearms == 0 && s.schedule.intervalMinutes == minutes
    && (forall w :: s.WorkerOf(w).Due? ==> s.WorkerOf(w).intervalMinutes == minutes)
    && (forall i :: 0 <= i < |s.fires| ==> s.fires[i].intervalMinutes == minutes && s.fires[i].rearms == 0)
  }

  lemma {:induction false} UneditedKeepsInterval(s: State, events: seq<Event>, minutes: nat)
    requires Unedited(s, minutes) && forall e :: e in events ==> !e.Edit?
    ensures Unedited(Run(s, events), minutes)
    decreases |events|
  {
    if events != [] {
      assert events[0] in events;
      var t := Next(s, events[0]);
      forall w | t.WorkerOf(w).Due? ensures t.WorkerOf(w).intervalMinutes == minutes {
        assert s.WorkerOf(w).Due? ==> s.WorkerOf(w).intervalMinutes == minutes;
      }
      UneditedKeepsInterval(Next(s, events[0]), events[1..], minutes);
    }
  }

  // ---------------------------------------------------------------- when it fires at all

  /** In any run only an enabled schedule that is due fires, and it is next due one interval after the claimer's read. */
  lemma OnlyADueScheduleFires(clock: nat, minutes: nat, events: seq<Event>, e: Event)
    requires ValidIntervalMinutes(minutes)
    requires var s := Run(Created(clock, minutes), events); Next(s, e).fires != s.fires
    ensures var s := Run(Created(clock, minutes), events);
            && s.schedule.enabled && s.schedule.nextRunAt <= s.clock
            && e.Trigger? && s.WorkerOf(e.worker).Due?
            && var read := s.WorkerOf(e.worker);
               && read.nextRunAt == s.schedule.nextRunAt && read.now <= s.clock
               && Next(s, e).fires == s.fires + [Fire(read.now, s.clock, read.intervalMinutes, s.rearms)]
               && Next(s, e).schedule == s.schedule.(nextRunAt := read.now + read.intervalMinutes * 60_000)
  {
    RunKeepsInv(Created(clock, minutes), events);
    if e.Trigger? {
      assert WorkerOk(Run(Created(clock, minutes), events).WorkerOf(e.worker), Run(Created(clock, minutes), events).clock);
    }
  }

  /** A free worker that comes by fires it exactly if it is enabled and due. */
  lemma FreeWorkerFiresIffDue(s: State, w: nat)
    requires s.WorkerOf(w).Idle?
    ensures var t := Next(Next(s, ReadDue(w)), Trigger(w, true));
            if s.schedule.enabled && s.schedule.nextRunAt <= s.clock
            then && t.fires == s.fires + [Fire(s.clock, s.clock, s.schedule.intervalMinutes, s.rearms)]
                 && t.schedule == s.schedule.(nextRunAt := s.clock + s.schedule.intervalMinutes * 60_000)
            else t.fires == s.fires && t.schedule == s.schedule
  {}

  predicate Resumes(e: Event) { e.Edit? && e.enabled == Some(true) }

  /** A paused schedule never fires and stays as it is due until an edit resumes it, though workers had read it before. */
  lemma {:induction false} PausedScheduleNeverFires(s: State, more: seq<Event>)
    requires !s.schedule.enabled && forall e :: e in more ==> !Resumes(e)
    ensures Run(s, more).fires == s.fires && !Run(s, more).schedule.enabled && Run(s, more).schedule.nextRunAt == s.schedule.nextRunAt
    decreases |more|
  {
    if more != [] {
      assert more[0] in more;
      StepKeepsPaused(s, more[0]);
      PausedScheduleNeverFires(Next(s, more[0]), more[1..]);
    }
  }

  lemma StepKeepsPaused(s: State, e: Event)
    requires !s.schedule.enabled && !Resumes(e)
    ensures Next(s, e).fires == s.fires && !Next(s, e).schedule.enabled && Next(s, e).schedule.nextRunAt == s.schedule.nextRunAt
  {}

  // ---------------------------------------------------------------- the service

  class AnalysisSchedulerService {
    var clock: nat
    var enabled: bool
    var intervalMinutes: nat
    var nextRunAt: nat
    var workers: map<nat, Worker>
    ghost var fires: seq<Fire>
    ghost var rearms: nat

    ghost function View(): State
      reads this
    {
      State(clock, Schedule(enabled, intervalMinutes, nextRunAt), workers, fires, rearms)
    }

    ghost predicate Valid()
      reads this
    {
      Inv(View())
    }

    function WorkerOf(w: nat): Worker
      reads this
    {
      if w in workers then workers[w] else Idle
    }

    /** createSchedule. */
    constructor CreateSchedule(clock: nat, intervalMinutes: nat)
      requires ValidIntervalMinutes(intervalMinutes)
      ensures Valid() && View() == Created(clock, intervalMinutes)
      ensures this.enabled && this.nextRunAt == clock == this.clock && this.intervalMinutes == intervalMinutes
    {
      this.clock := clock;
      this.enabled := true;
      this.intervalMinutes := intervalMinutes;
      this.nextRunAt := clock;
      this.workers := map[];
      this.fires := [];
      this.rearms := 0;
    }

    /** triggerNextDueSchedule, the candidate read. */
    method ReadDueCandidate(w: nat) returns (found: bool)
      requires Valid() && WorkerOf(w).Idle?
      modifies this`workers
      ensures Valid() && View() == Next(old(View()), ReadDue(w))
      ensures found <==> enabled && nextRunAt <= clock
      ensures workers == if found then old(workers)[w := Due(nextRunAt, intervalMinutes, clock)] else old(workers)
    {
      StepKeepsInv(View(), ReadDue(w));
      found := enabled && nextRunAt <= clock;
      if found {
        workers := workers[w := Due(nextRunAt, intervalMinutes, clock)];
      }
    }

    /** triggerNextDueSchedule, the transaction that begins with the claim. */
    method ClaimDueSchedule(w: nat, commits: bool) returns (fired: bool)
      requires Valid() && WorkerOf(w).Due?
      modifies this`nextRunAt, this`workers, this`fires
      ensures Valid() && View() == Next(old(View()), Trigger(w, commits))
      ensures var read := old(WorkerOf(w));
              && (fired <==> commits && enabled && old(nextRunAt) == read.nextRunAt)
              && (fired ==> nextRunAt == read.now + read.intervalMinutes * 60_000)
              && fires == if fired then old(fires) + [Fire(read.now, clock, read.intervalMinutes, rearms)] else old(fires)
      ensures !fired ==> nextRunAt == old(nextRunAt)
      ensures workers == old(workers)[w := Idle]
    {
      StepKeepsInv(View(), Trigger(w, commits));
      var candidate := workers[w];
      fired := commits && enabled && nextRunAt == candidate.nextRunAt;
      if fired {
        nextRunAt := NextRunAtFrom(candidate.now, candidate.intervalMinutes);
        fires := fires + [Fire(candidate.now, clock, candidate.intervalMinutes, rearms)];
      }
      workers := workers[w := Idle];
    }

    /** updateSchedule, read and write taken together. */
    method UpdateSchedule(newInterval: Option<nat>, otherConfig: bool, newEnabled: Option<bool>) returns (accepted: bool)
      requires Valid()
      modifies this`enabled, this`intervalMinutes, this`nextRunAt, this`rearms
      ensures Valid() && View() == Next(old(View()), Edit(newInterval, otherConfig, newEnabled))
      ensures accepted <==> newInterval == None || 1 <= newInterval.value <= 10080
      ensures !accepted ==> enabled == old(enabled) && intervalMinutes == old(intervalMinutes) && nextRunAt == old(nextRunAt)
      ensures accepted ==>
                && enabled == (if newEnabled == None then old(enabled) else newEnabled.value)
                && intervalMinutes == (if newInterval == None then old(intervalMinutes) else newInterval.value)
                && nextRunAt == if enabled && (newInterval != None || otherConfig || !old(enabled)) then clock else old(nextRunAt)
    {
      StepKeepsInv(View(), Edit(newInterval, otherConfig, newEnabled));
      accepted := newInterval.None? || ValidIntervalMinutes(newInterval.value);
      if accepted {
        var configChanged := newInterval.Some? || otherConfig;
        var willBeEnabled := newEnabled.GetOr(enabled);
        var resumed := !enabled && willBeEnabled;
        if willBeEnabled && (configChanged || resumed) {
          nextRunAt := clock;
          rearms := rearms + 1;
        }
        intervalMinutes := newInterval.GetOr(intervalMinutes);
        enabled := willBeEnabled;
      }
    }
  }
}
