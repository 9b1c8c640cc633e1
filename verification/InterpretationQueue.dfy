/**
 The AI-interpretation retry queue: any number of workers claim run groups with a guarded update made
 from a stale read, while lazy hydration and the Agent's write-back complete the same rows unguarded.
 Every event below is one database statement (or one transaction) of one writer; a run is any sequence
 of events, so it is any interleaving.
 */
module InterpretationQueue {
  import opened Options
  import opened Basics

  const MAX_ATTEMPTS: nat := 3
  const RETRY_BASE_MS: nat := 30_000

  datatype Status = Pending | Processing | Completed | Failed

  /** One run group. `missing` holds the runs without an interpretation; `claims` is a history variable:
      the clock at each successful claim, oldest first. */
  datatype Group = Group(
    agentManaged: bool,
    status: Status,
    attempts: nat,
    nextRetryAt: Option<nat>,
    missing: set<nat>,
    claims: seq<nat>)

  /** What a worker or a hydrating request holds between two statements. `job` is the attempt number of
      a queue worker, or None for a hydrating request. */
  datatype Actor =
    | Idle
    | Picked(group: nat, attempts: nat, now: nat)
    | Ensuring(group: nat, job: Option<nat>)
    | Requested(group: nat, job: Option<nat>, targets: set<nat>)
    | Ensured(group: nat, job: Option<nat>)
  {
    predicate Works(g: nat) { !Idle? && !Picked? && group == g }
    predicate InFlight() { !Idle? && !Picked? && job.Some? }
    predicate HoldsJob(g: nat) { InFlight() && group == g }
  }

  datatype State = State(clock: nat, groups: map<nat, Group>, actors: map<nat, Actor>) {
    function ActorOf(a: nat): Actor { if a in actors then actors[a] else Idle }
    function SetActor(a: nat, actor: Actor): State { this.(actors := actors[a := actor]) }
    function SetGroup(g: nat, group: Group): State { this.(groups := groups[g := group]) }
  }

  datatype Event =
    | Tick(ms: nat)
    | Create(group: nat, runs: set<nat>, agentManaged: bool)
    | Pick(actor: nat, group: nat)
    | Claim(actor: nat)
    | Open(actor: nat, group: nat)
    | LoadTargets(actor: nat)
    | Persist(actor: nat)
    | Finish(actor: nat)
    | Fail(actor: nat)
    | Crash(actor: nat)
    | WriteBack(group: nat)

  function RetryDelayMs(attempt: nat): nat {
    RETRY_BASE_MS * Power2((if attempt < 1 then 1 else attempt) - 1)
  }

  /** The `where` clause shared by the candidate read and the guarded claim. */
  predicate Ready(group: Group, now: nat) {
    group.status == Pending && (group.nextRetryAt.Some? ==> group.nextRetryAt.value <= now)
  }

  function Completing(group: Group): Group {
    group.(status := Completed, nextRetryAt := None)
  }

  function Claiming(group: Group, clock: nat): Group {
    group.(status := Processing, attempts := group.attempts + 1, nextRetryAt := None, claims := group.claims + [clock])
  }

  /** The unguarded failure write of the worker that holds attempt number `attempt`. */
  function Failing(group: Group, attempt: nat, clock: nat): Group {
    if attempt >= MAX_ATTEMPTS
    then group.(status := Failed, nextRetryAt := None)
    else group.(status := Pending, nextRetryAt := Some(clock + RetryDelayMs(attempt)))
  }

  function ClaimStep(s: State, a: nat): State {
    match s.ActorOf(a)
    case Picked(g, k, now) =>
      if g in s.groups && Ready(s.groups[g], now)
      then s.SetGroup(g, Claiming(s.groups[g], s.clock)).SetActor(a, Ensuring(g, Some(k + 1)))
      else s.SetActor(a, Idle)
    case _ => s
  }

  function LoadStep(s: State, a: nat): State {
    match s.ActorOf(a)
    case Ensuring(g, job) =>
      if g !in s.groups || s.groups[g].missing == {} then s.SetActor(a, Ensured(g, job))
      else s.SetActor(a, Requested(g, job, s.groups[g].missing))
    case _ => s
  }

  function PersistStep(s: State, a: nat): State {
    match s.ActorOf(a)
    case Requested(g, job, targets) =>
      if g in s.groups
      then s.SetGroup(g, s.groups[g].(missing := s.groups[g].missing - targets)).SetActor(a, Ensured(g, job))
      else s
    case _ => s
  }

  function FinishStep(s: State, a: nat): State {
    match s.ActorOf(a)
    case Ensured(g, job) =>
      if g in s.groups then s.SetGroup(g, Completing(s.groups[g])).SetActor(a, Idle) else s.SetActor(a, Idle)
    case _ => s
  }

  function FailStep(s: State, a: nat): State {
    var actor := s.ActorOf(a);
    if actor.Idle? || actor.Picked? then s
    else if actor.job.Some? && actor.group in s.groups
    then s.SetGroup(actor.group, Failing(s.groups[actor.group], actor.job.value, s.clock)).SetActor(a, Idle)
    else s.SetActor(a, Idle)
  }

  function Next(s: State, e: Event): State {
    match e
    case Tick(ms) => s.(clock := s.clock + ms)
    case Create(g, runs, agentManaged) =>
      if g in s.groups then s
      else s.SetGroup(g, Group(agentManaged, if agentManaged then Processing else Pending, 0, None, runs, []))
    case Pick(a, g) =>
      if s.ActorOf(a).Idle? && g in s.groups && Ready(s.groups[g], s.clock)
      then s.SetActor(a, Picked(g, s.groups[g].attempts, s.clock)) else s
    case Claim(a) => ClaimStep(s, a)
    case Open(a, g) =>
      if s.ActorOf(a).Idle? && g in s.groups && s.groups[g].status != Processing && s.groups[g].missing != {}
      then s.SetActor(a, Ensuring(g, None)) else s
    case LoadTargets(a) => LoadStep(s, a)
    case Persist(a) => PersistStep(s, a)
    case Finish(a) => FinishStep(s, a)
    case Fail(a) => FailStep(s, a)
    case Crash(a) => s.SetActor(a, Idle)
    case WriteBack(g) =>
      if g in s.groups then s.SetGroup(g, Completing(s.groups[g].(missing := {}))) else s
  }

  const INITIAL := State(0, map[], map[])

  function Run(s: State, events: seq<Event>): State
    decreases |events|
  {
    if events == [] then s else Run(Next(s, events[0]), events[1..])
  }

  // ---------------------------------------------------------------- invariant

  ghost predicate Spaced(claims: seq<nat>) {
    forall i :: 0 < i < |claims| ==> claims[i] >= claims[i - 1] + RetryDelayMs(i)
  }

  ghost predicate GroupOk(group: Group, clock: nat) {
    && group.attempts == |group.claims| <= MAX_ATTEMPTS
    && Spaced(group.claims)
    && (group.claims != [] ==> group.claims[|group.claims| - 1] <= clock)
    && (group.agentManaged ==> group.attempts == 0 && (group.status == Processing || group.status == Completed))
    && (group.status == Completed ==> group.missing == {})
    && (group.status == Failed ==> group.attempts == MAX_ATTEMPTS)
    && (group.status == Pending ==>
          && group.attempts < MAX_ATTEMPTS
          && (group.attempts == 0 <==> group.nextRetryAt == None)
          && (group.attempts > 0 ==>
                group.nextRetryAt.value >= group.claims[|group.claims| - 1] + RetryDelayMs(group.attempts)))
  }

  /** A stale read: if somebody claimed and failed since, the stored retry time is after the reader's `now`. */
  ghost predicate PickedOk(s: State, g: nat, k: nat, now: nat) {
    && g in s.groups
    && now <= s.clock
    && k <= s.groups[g].attempts
    && (s.groups[g].status == Pending && s.groups[g].attempts > k ==>
          s.groups[g].nextRetryAt.Some? && s.groups[g].nextRetryAt.value > now)
  }

  ghost predicate ActorOk(s: State, actor: Actor) {
    match actor
    case Idle => true
    case Picked(g, k, now) => PickedOk(s, g, k, now)
    case _ =>
      && actor.group in s.groups
      && (actor.job.Some? ==>
            && actor.job.value == s.groups[actor.group].attempts >= 1
            && s.groups[actor.group].status != Pending)
      && (actor.Requested? ==> s.groups[actor.group].missing <= actor.targets)
      && (actor.Ensured? ==> s.groups[actor.group].missing == {})
  }

  ghost predicate SingleJob(s: State) {
    forall a, b :: a != b && s.ActorOf(a).InFlight() && s.ActorOf(b).InFlight() ==>
      s.ActorOf(a).group != s.ActorOf(b).group
  }

  ghost predicate Inv(s: State) {
    && (forall g :: g in s.groups ==> GroupOk(s.groups[g], s.clock))
    && (forall a :: ActorOk(s, s.ActorOf(a)))
    && SingleJob(s)
  }

  lemma ActorIsOk(s: State, a: nat)
    requires Inv(s)
    ensures ActorOk(s, s.ActorOf(a))
  {}

  lemma ClaimKeepsInv(s: State, a: nat)
    requires Inv(s)
    ensures Inv(ClaimStep(s, a))
  {
    assert ActorOk(s, s.ActorOf(a));
    var t := ClaimStep(s, a);
    forall b ensures ActorOk(t, t.ActorOf(b)) {
      assert ActorOk(s, s.ActorOf(b));
    }
    ClaimKeepsSingleJob(s, a);
  }

  lemma ClaimKeepsSingleJob(s: State, a: nat)
    requires Inv(s)
    ensures SingleJob(ClaimStep(s, a))
  {
    hide GroupOk;
    var t := ClaimStep(s, a);
    forall b, c | b != c && t.ActorOf(b).InFlight() && t.ActorOf(c).InFlight()
      ensures t.ActorOf(b).group != t.ActorOf(c).group
    {
      assert ActorOk(s, s.ActorOf(b)) && ActorOk(s, s.ActorOf(c));
    }
  }

  lemma FailKeepsInv(s: State, a: nat)
    requires Inv(s)
    ensures Inv(FailStep(s, a))
  {
    assert ActorOk(s, s.ActorOf(a));
    FailKeepsActors(s, a);
    FailKeepsSingleJob(s, a);
  }

  lemma FailKeepsActors(s: State, a: nat)
    requires Inv(s)
    ensures forall b :: ActorOk(FailStep(s, a), FailStep(s, a).ActorOf(b))
  {
    hide Spaced;
    var t := FailStep(s, a);
    assert ActorOk(s, s.ActorOf(a));
    forall b ensures ActorOk(t, t.ActorOf(b)) {
      assert ActorOk(s, s.ActorOf(b));
    }
  }

  lemma FailKeepsSingleJob(s: State, a: nat)
    requires Inv(s)
    ensures SingleJob(FailStep(s, a))
  {
    hide GroupOk, ActorOk;
    var t := FailStep(s, a);
    forall b, c | b != c && t.ActorOf(b).InFlight() && t.ActorOf(c).InFlight()
      ensures t.ActorOf(b).group != t.ActorOf(c).group
    {
      assert s.ActorOf(b).InFlight() && s.ActorOf(c).InFlight();
    }
  }

  lemma OtherStepKeepsGroups(s: State, e: Event)
    requires Inv(s) && !e.Claim? && !e.Fail?
    ensures var t := Next(s, e); forall g :: g in t.groups ==> GroupOk(t.groups[g], t.clock)
  {
    if e.Finish? || e.Persist? {
      assert ActorOk(s, s.ActorOf(e.actor));
    }
  }

  lemma OtherStepKeepsActor(s: State, e: Event, b: nat)
    requires Inv(s) && !e.Claim? && !e.Fail?
    ensures ActorOk(Next(s, e), Next(s, e).ActorOf(b))
  {
    hide Inv, GroupOk, Spaced, SingleJob;
    ActorIsOk(s, b);
    if !s.ActorOf(b).Idle? && s.ActorOf(b).group in s.groups {
      GroupIsOk(s, s.ActorOf(b).group);
    }
  }

  lemma GroupIsOk(s: State, g: nat)
    requires Inv(s) && g in s.groups
    ensures GroupOk(s.groups[g], s.clock)
  {}

  lemma OtherStepKeepsSingleJob(s: State, e: Event)
    requires Inv(s) && !e.Claim? && !e.Fail?
    ensures SingleJob(Next(s, e))
  {
    var t := Next(s, e);
    forall b, c | b != c && t.ActorOf(b).InFlight() && t.ActorOf(c).InFlight()
      ensures t.ActorOf(b).group != t.ActorOf(c).group
    {
      assert s.ActorOf(b).InFlight() && s.ActorOf(c).InFlight();
    }
  }

  lemma StepKeepsInv(s: State, e: Event)
    requires Inv(s)
    ensures Inv(Next(s, e))
  {
    match e
    case Claim(a) => ClaimKeepsInv(s, a);
    case Fail(a) => FailKeepsInv(s, a);
    case _ =>
      OtherStepKeepsGroups(s, e);
      forall b ensures ActorOk(Next(s, e), Next(s, e).ActorOf(b)) {
        OtherStepKeepsActor(s, e, b);
      }
      OtherStepKeepsSingleJob(s, e);
  }

  lemma {:induction false} RunKeepsInv(s: State, events: seq<Event>)
    requires Inv(s)
    ensures Inv(Run(s, events))
    decreases |events|
  {
    if events != [] {
      StepKeepsInv(s, events[0]);
      RunKeepsInv(Next(s, events[0]), events[1..]);
    }
  }

  // ---------------------------------------------------------------- results over every run

  lemma InitialInv()
    ensures Inv(INITIAL)
  {}

  /** A group is claimed at most three times, 30 s then 60 s apart, and an Agent-managed group never. */
  lemma ClaimsAreFewAndSpaced(events: seq<Event>, g: nat)
    requires g in Run(INITIAL, events).groups
    ensures var group := Run(INITIAL, events).groups[g];
            && |group.claims| == group.attempts <= 3
            && (|group.claims| > 1 ==> group.claims[1] >= group.claims[0] + 30_000)
            && (|group.claims| > 2 ==> group.claims[2] >= group.claims[1] + 60_000)
            && (group.agentManaged ==> group.claims == [])
  {
    RunKeepsInv(INITIAL, events);
    assert RetryDelayMs(1) == 30_000;
    assert Power2(1) == 2 && RetryDelayMs(2) == 60_000;
  }

  /** No group gives up early or waits too long: the failure of the first and of the second attempt puts it back with a retry
      time of exactly 30 s and 60 s, and it fails with the third. */
  lemma FailureIsDecidedByTheAttempt(events: seq<Event>, a: nat, g: nat)
    requires Run(INITIAL, events).ActorOf(a).HoldsJob(g)
    ensures var s := Run(INITIAL, events);
            && g in s.groups && 1 <= |s.groups[g].claims| <= 3
            && var before, after := s.groups[g], Next(s, Fail(a)).groups[g];
               && after.claims == before.claims && after.missing == before.missing
               && (|before.claims| == 1 ==> after.status == Pending && after.nextRetryAt == Some(s.clock + 30_000))
               && (|before.claims| == 2 ==> after.status == Pending && after.nextRetryAt == Some(s.clock + 60_000))
               && (|before.claims| == 3 ==> after.status == Failed && after.nextRetryAt == None)
  {
    RunKeepsInv(INITIAL, events);
    var s := Run(INITIAL, events);
    ActorIsOk(s, a);
    GroupIsOk(s, g);
    assert Power2(0) == 1 && Power2(1) == 2;
  }

  lemma FailedGroupsHadThreeClaims(events: seq<Event>, g: nat)
    requires g in Run(INITIAL, events).groups && Run(INITIAL, events).groups[g].status == Failed
    ensures |Run(INITIAL, events).groups[g].claims| == 3
  {
    RunKeepsInv(INITIAL, events);
    GroupIsOk(Run(INITIAL, events), g);
  }

  /** The state after a worker came `wait` later and tried to take the group. */
  function Claimed(s: State, a: nat, g: nat, wait: nat): State { Next(Next(Next(s, Tick(wait)), Pick(a, g)), Claim(a)) }

  /** A free worker that comes after `wait` gets a pending group exactly when the retry time has come by then. */
  lemma PendingGroupIsClaimedIffDue(s: State, a: nat, g: nat, wait: nat)
    requires g in s.groups && s.groups[g].status == Pending && s.ActorOf(a).Idle?
    ensures var due := s.groups[g].nextRetryAt == None || s.groups[g].nextRetryAt.value <= s.clock + wait;
            var t := Claimed(s, a, g, wait);
            && t.clock == s.clock + wait && g in t.groups
            && (due ==> t.groups[g] == s.groups[g].(status := Processing, attempts := s.groups[g].attempts + 1, nextRetryAt := None,
                                                    claims := s.groups[g].claims + [s.clock + wait])
                        && t.ActorOf(a) == Ensuring(g, Some(s.groups[g].attempts + 1)))
            && (!due ==> t.groups == s.groups && t.ActorOf(a).Idle?)
  {}

  /** One more attempt of worker 1 on group 0, which fails. */
  function FailedAttempt(s: State, wait: nat): State { Next(Claimed(s, 1, 0, wait), Fail(1)) }

  lemma FailedAttemptCounts(s: State, wait: nat)
    requires 0 in s.groups && s.groups[0].status == Pending && s.ActorOf(1).Idle? && s.groups[0].attempts <= 2
    requires s.groups[0].nextRetryAt == None || s.groups[0].nextRetryAt.value <= s.clock + wait
    ensures var t, n := FailedAttempt(s, wait), s.groups[0].attempts + 1;
            && t.clock == s.clock + wait && t.ActorOf(1).Idle? && 0 in t.groups
            && t.groups[0].attempts == n && t.groups[0].claims == s.groups[0].claims + [s.clock + wait]
            && (n < 3 ==> t.groups[0].status == Pending && t.groups[0].nextRetryAt == Some(t.clock + 30_000 * n))
            && (n == 3 ==> t.groups[0].status == Failed)
  {
    hide Next;
    PendingGroupIsClaimedIffDue(s, 1, 0, wait);
    FailingCounts(Claimed(s, 1, 0, wait), s.groups[0].attempts + 1);
  }

  lemma FailingCounts(s: State, n: nat)
    requires 0 in s.groups && s.ActorOf(1) == Ensuring(0, Some(n)) && 1 <= n <= 3
    ensures var t := Next(s, Fail(1));
            && t.clock == s.clock && t.ActorOf(1).Idle? && 0 in t.groups
            && t.groups[0].attempts == s.groups[0].attempts && t.groups[0].claims == s.groups[0].claims
            && (n < 3 ==> t.groups[0].status == Pending && t.groups[0].nextRetryAt == Some(t.clock + 30_000 * n))
            && (n == 3 ==> t.groups[0].status == Failed)
  {
    assert Power2(0) == 1 && Power2(1) == 2;
  }

  /** Three claims do happen, as early as the retry times allow, and only then does the group fail. */
  lemma ThreeClaimsAreReached()
    ensures var created := Next(INITIAL, Create(0, {7}, false));
            var once := FailedAttempt(created, 0);
            var twice := FailedAttempt(once, 30_000);
            var thrice := FailedAttempt(twice, 60_000);
            && 0 in once.groups && once.groups[0].status == Pending
            && 0 in twice.groups && twice.groups[0].status == Pending
            && 0 in thrice.groups && thrice.groups[0].status == Failed && thrice.groups[0].claims == [0, 30_000, 90_000]
  {
    hide FailedAttempt;
    var created := Next(INITIAL, Create(0, {7}, false));
    FailedAttemptCounts(created, 0);
    FailedAttemptCounts(FailedAttempt(created, 0), 30_000);
    FailedAttemptCounts(FailedAttempt(FailedAttempt(created, 0), 30_000), 60_000);
  }

  lemma AtMostOneJobInFlight(events: seq<Event>, g: nat, a: nat, b: nat)
    requires var s := Run(INITIAL, events); s.ActorOf(a).HoldsJob(g) && s.ActorOf(b).HoldsJob(g)
    ensures a == b
    ensures var s := Run(INITIAL, events);
            g in s.groups && s.groups[g].status != Pending && s.ActorOf(a).job == Some(s.groups[g].attempts)
  {
    RunKeepsInv(INITIAL, events);
    assert ActorOk(Run(INITIAL, events), Run(INITIAL, events).ActorOf(a));
  }

  /** When the guarded claim succeeds, the attempt count read before it is still the stored one, so the
      attempt number the worker computes from its stale read is the stored count after the claim. */
  lemma StaleReadIsHarmless(events: seq<Event>, a: nat)
    requires Run(INITIAL, events).ActorOf(a).Picked?
    ensures var s := Run(INITIAL, events); var t := Next(s, Claim(a)); var picked := s.ActorOf(a);
            && picked.group in s.groups
            && (t.ActorOf(a).HoldsJob(picked.group) <==> Ready(s.groups[picked.group], picked.now))
            && (t.ActorOf(a).HoldsJob(picked.group) ==>
                  && picked.attempts == s.groups[picked.group].attempts
                  && t.ActorOf(a).job == Some(t.groups[picked.group].attempts))
  {
    RunKeepsInv(INITIAL, events);
    assert ActorOk(Run(INITIAL, events), Run(INITIAL, events).ActorOf(a));
  }

  /** Whoever completed the group, by then each of its runs carries an interpretation. */
  lemma CompletedMeansInterpreted(events: seq<Event>, g: nat)
    requires g in Run(INITIAL, events).groups && Run(INITIAL, events).groups[g].status == Completed
    ensures Run(INITIAL, events).groups[g].missing == {}
  {
    RunKeepsInv(INITIAL, events);
  }

  ghost predicate NoJobOn(s: State, g: nat) {
    forall a :: !s.ActorOf(a).HoldsJob(g)
  }

  ghost predicate CompletedForGood(s: State, g: nat) {
    forall more :: g in Run(s, more).groups && Run(s, more).groups[g].status == Completed
  }

  lemma StepKeepsCompletedRow(s: State, g: nat, e: Event)
    requires Inv(s) && g in s.groups && s.groups[g].status == Completed && NoJobOn(s, g)
    ensures g in Next(s, e).groups && Next(s, e).groups[g].status == Completed
  {
    if e.Fail? {
      assert !s.ActorOf(e.actor).HoldsJob(g);
    }
  }

  lemma StepKeepsNoJob(s: State, g: nat, e: Event, a: nat)
    requires g in s.groups && s.groups[g].status != Pending && NoJobOn(s, g)
    ensures !Next(s, e).ActorOf(a).HoldsJob(g)
  {
    assert !s.ActorOf(a).HoldsJob(g);
  }

  lemma {:induction false} CompletedStays(s: State, g: nat, more: seq<Event>)
    requires Inv(s) && g in s.groups && s.groups[g].status == Completed && NoJobOn(s, g)
    ensures g in Run(s, more).groups && Run(s, more).groups[g].status == Completed
    decreases |more|
  {
    if more != [] {
      StepKeepsInv(s, more[0]);
      StepKeepsCompletedRow(s, g, more[0]);
      forall a ensures !Next(s, more[0]).ActorOf(a).HoldsJob(g) {
        StepKeepsNoJob(s, g, more[0], a);
      }
      CompletedStays(Next(s, more[0]), g, more[1..]);
    }
  }

  /** The unguarded failure write can undo a completion made by the hydrator or by the Agent; exactly when
      no queue worker is still in flight on the group is its completion final. */
  lemma CompletedIsFinalIffNoJobInFlight(events: seq<Event>, g: nat)
    requires g in Run(INITIAL, events).groups && Run(INITIAL, events).groups[g].status == Completed
    ensures var s := Run(INITIAL, events); CompletedForGood(s, g) <==> NoJobOn(s, g)
  {
    var s := Run(INITIAL, events);
    RunKeepsInv(INITIAL, events);
    if NoJobOn(s, g) {
      forall more ensures g in Run(s, more).groups && Run(s, more).groups[g].status == Completed {
        CompletedStays(s, g, more);
      }
    } else {
      var a :| s.ActorOf(a).HoldsJob(g);
      var more := [Fail(a)];
      assert Run(Next(s, more[0]), more[1..]) == Next(s, Fail(a));
      assert Run(s, more).groups[g].status != Completed;
    }
  }

  /** The revert does happen: a claimed group that the Agent completes goes back to pending. */
  lemma CompletedCanRevert()
    ensures var before := [Create(0, {7}, false), Pick(1, 0), Claim(1), WriteBack(0)];
            && Run(INITIAL, before).groups[0].status == Completed
            && Next(Run(INITIAL, before), Fail(1)).groups[0].status == Pending
  {}

  ghost predicate NobodyOn(s: State, g: nat) {
    forall a :: !s.ActorOf(a).Works(g)
  }

  lemma StepKeepsOrphan(s: State, g: nat, e: Event)
    requires g in s.groups && s.groups[g].status == Processing && NobodyOn(s, g) && e != WriteBack(g)
    ensures g in Next(s, e).groups && Next(s, e).groups[g] == s.groups[g]
  {}

  lemma StepKeepsNobody(s: State, g: nat, e: Event, a: nat)
    requires g in s.groups && s.groups[g].status == Processing && NobodyOn(s, g)
    ensures !Next(s, e).ActorOf(a).Works(g)
  {
    assert !s.ActorOf(a).Works(g);
  }

  /** Nothing recovers a job whose worker died: without a write-back the group stays in processing and is
      never claimed again. */
  lemma {:induction false} OrphanedGroupIsStuck(s: State, g: nat, more: seq<Event>)
    requires g in s.groups && s.groups[g].status == Processing && NobodyOn(s, g)
    requires WriteBack(g) !in more
    ensures g in Run(s, more).groups && Run(s, more).groups[g] == s.groups[g]
    decreases |more|
  {
    if more != [] {
      assert more[0] in more;
      StepKeepsOrphan(s, g, more[0]);
      forall a ensures !Next(s, more[0]).ActorOf(a).Works(g) {
        StepKeepsNobody(s, g, more[0], a);
      }
      OrphanedGroupIsStuck(Next(s, more[0]), g, more[1..]);
    }
  }

  /** Without a write-back, these events end the group. */
  ghost predicate Ends(s: State, events: seq<Event>, g: nat) {
    var end := Run(s, events);
    WriteBack(g) !in events && g in end.groups && (end.groups[g].status == Completed || end.groups[g].status == Failed)
  }

  /** The group's worker or hydrator died: it is in processing and nobody works on it. */
  ghost predicate Orphaned(s: State, g: nat) {
    g in s.groups && s.groups[g].status == Processing && NobodyOn(s, g)
  }

  /** A group can still end without a write-back exactly when it is not orphaned. */
  lemma CanStillEndIffNotOrphaned(s: State, g: nat)
    requires Inv(s) && g in s.groups
    ensures (exists events :: Ends(s, events, g)) <==> !Orphaned(s, g)
  {
    if Orphaned(s, g) {
      forall events ensures !Ends(s, events, g) {
        if WriteBack(g) !in events {
          OrphanedGroupIsStuck(s, g, events);
        }
      }
    } else {
      var events := WayToTheEnd(s, g);
      assert Ends(s, events, g);
    }
  }

  lemma WayToTheEnd(s: State, g: nat) returns (events: seq<Event>)
    requires g in s.groups && !Orphaned(s, g)
    ensures Ends(s, events, g)
  {
    hide Next;
    var group := s.groups[g];
    if group.status == Completed || group.status == Failed {
      events := [];
    } else if group.status == Processing {
      var a :| s.ActorOf(a).Works(g);
      events := HolderEnds(s, a, g);
    } else {
      var a := FreeActor(s);
      var wait := if group.nextRetryAt.Some? && group.nextRetryAt.value > s.clock then group.nextRetryAt.value - s.clock else 0;
      var claimed := Next(Next(Next(s, Tick(wait)), Pick(a, g)), Claim(a));
      ClaimSucceeds(s, a, g, wait);
      var rest := HolderEnds(claimed, a, g);
      EndsAfter(Next(Next(s, Tick(wait)), Pick(a, g)), Claim(a), rest, g);
      EndsAfter(Next(s, Tick(wait)), Pick(a, g), [Claim(a)] + rest, g);
      EndsAfter(s, Tick(wait), [Pick(a, g)] + ([Claim(a)] + rest), g);
      events := [Tick(wait)] + ([Pick(a, g)] + ([Claim(a)] + rest));
    }
  }

  lemma EndsAfter(s: State, e: Event, rest: seq<Event>, g: nat)
    requires e != WriteBack(g) && Ends(Next(s, e), rest, g)
    ensures Ends(s, [e] + rest, g)
  {
    assert ([e] + rest)[1..] == rest;
  }

  lemma ClaimSucceeds(s: State, a: nat, g: nat, wait: nat)
    requires g in s.groups && s.groups[g].status == Pending && s.ActorOf(a).Idle?
    requires s.groups[g].nextRetryAt.Some? ==> s.groups[g].nextRetryAt.value <= s.clock + wait
    ensures var claimed := Next(Next(Next(s, Tick(wait)), Pick(a, g)), Claim(a));
            g in claimed.groups && claimed.ActorOf(a).Ensuring? && claimed.ActorOf(a).group == g
  {}

  /** Whoever holds the group loads what is missing, persists it and finishes. */
  lemma HolderEnds(s: State, a: nat, g: nat) returns (events: seq<Event>)
    requires g in s.groups && s.ActorOf(a).Works(g)
    ensures Ends(s, events, g)
    decreases if s.ActorOf(a).Ensuring? then 2 else if s.ActorOf(a).Requested? then 1 else 0
  {
    if s.ActorOf(a).Ensured? {
      events := [Finish(a)];
      assert Run(s, events) == Next(s, Finish(a)) by { assert events[1..] == []; }
    } else {
      var e := if s.ActorOf(a).Ensuring? then LoadTargets(a) else Persist(a);
      HolderGoesOn(s, a, g, e);
      var rest := HolderEnds(Next(s, e), a, g);
      EndsAfter(s, e, rest, g);
      events := [e] + rest;
    }
  }

  lemma HolderGoesOn(s: State, a: nat, g: nat, e: Event)
    requires g in s.groups && s.ActorOf(a).Works(g) && !s.ActorOf(a).Ensured?
    requires e == if s.ActorOf(a).Ensuring? then LoadTargets(a) else Persist(a)
    ensures var next := Next(s, e);
            && g in next.groups && next.ActorOf(a).Works(g) && !next.ActorOf(a).Ensuring?
            && (e.Persist? ==> next.ActorOf(a).Ensured?)
  {}

  lemma FreeActor(s: State) returns (a: nat)
    ensures s.ActorOf(a).Idle?
  {
    a := NewId(s.actors.Keys);
  }

  /** A claimed group whose worker crashes is orphaned. */
  lemma CrashOrphansAGroup()
    ensures Orphaned(Run(INITIAL, [Create(0, {7}, false), Pick(1, 0), Claim(1), Crash(1)]), 0)
  {
    var claimed := Next(Next(Next(INITIAL, Create(0, {7}, false)), Pick(1, 0)), Claim(1));
    assert claimed.groups[0].status == Processing && claimed.actors == map[1 := Ensuring(0, Some(1))];
    assert Run(INITIAL, [Create(0, {7}, false), Pick(1, 0), Claim(1), Crash(1)]) == Next(claimed, Crash(1));
  }

  // ---------------------------------------------------------------- the service

  /** The tables and the local variables of the running requests, updated in place one statement at a time. */
  class InterpretationService {
    var clock: nat
    var groups: map<nat, Group>
    var actors: map<nat, Actor>

    ghost function View(): State
      reads this
    {
      State(clock, groups, actors)
    }

    ghost predicate Valid()
      reads this
    {
      Inv(View())
    }

    constructor ()
      ensures Valid() && View() == INITIAL
    {
      clock := 0;
      groups := map[];
      actors := map[];
      new;
      InitialInv();
    }

    function ActorOf(a: nat): Actor
      reads this
    {
      if a in actors then actors[a] else Idle
    }

    /** runStrategyRange: inserts the group in its first interpretation state. */
    method CreateGroup(g: nat, runs: set<nat>, agentManaged: bool)
      requires Valid()
      modifies this`groups
      ensures Valid() && View() == Next(old(View()), Create(g, runs, agentManaged))
      ensures g !in old(groups) ==>
                groups == old(groups)[g := Group(agentManaged, if agentManaged then Processing else Pending, 0, None, runs, [])]
      ensures g in old(groups) ==> groups == old(groups)
    {
      StepKeepsInv(View(), Create(g, runs, agentManaged));
      if g !in groups {
        var status := if agentManaged then Processing else Pending;
        groups := groups[g := Group(agentManaged, status, 0, None, runs, [])];
      }
    }

    /** First statement of processNextStrategyRunGroupJob: the candidate read. */
    method PickCandidate(a: nat, g: nat) returns (found: bool)
      requires Valid() && ActorOf(a).Idle?
      modifies this`actors
      ensures Valid() && View() == Next(old(View()), Pick(a, g))
      ensures found <==> g in groups && groups[g].status == Pending
                         && (groups[g].nextRetryAt == None || groups[g].nextRetryAt.value <= clock)
      ensures found ==> actors == old(actors)[a := Picked(g, groups[g].attempts, clock)]
      ensures !found ==> actors == old(actors)
    {
      StepKeepsInv(View(), Pick(a, g));
      found := g in groups && Ready(groups[g], clock);
      if found {
        actors := actors[a := Picked(g, groups[g].attempts, clock)];
      }
    }

    /** Second statement: the guarded update that takes the job, decided by the stale `now`. */
    method ClaimCandidate(a: nat) returns (locked: bool)
      requires Valid() && ActorOf(a).Picked?
      modifies this`groups, this`actors
      ensures Valid() && View() == Next(old(View()), Claim(a))
      ensures var g := old(ActorOf(a)).group;
              && g in old(groups)
              && (locked <==> old(groups)[g].status == Pending
                              && (old(groups)[g].nextRetryAt == None || old(groups)[g].nextRetryAt.value <= old(ActorOf(a)).now))
              && (locked ==> ActorOf(a) == Ensuring(g, Some(old(ActorOf(a)).attempts + 1)))
              && (locked ==> groups == old(groups)[g := old(groups)[g].(
                    status := Processing, attempts := old(groups)[g].attempts + 1, nextRetryAt := None,
                    claims := old(groups)[g].claims + [clock])])
      ensures !locked ==> groups == old(groups) && ActorOf(a).Idle?
    {
      ActorIsOk(View(), a);
      StepKeepsInv(View(), Claim(a));
      var picked := actors[a];
      locked := false;
      if picked.group in groups {
        var row := groups[picked.group];
        locked := Ready(row, picked.now);
        if locked {
          row := row.(status := Processing, attempts := row.attempts + 1);
          row := row.(nextRetryAt := None, claims := row.claims + [clock]);
          groups := groups[picked.group := row];
        }
      }
      actors := actors[a := if locked then Ensuring(picked.group, Some(picked.attempts + 1)) else Idle];
    }

    /** getStrategyRunGroupDetail decides to hydrate from the row it loaded. */
    method OpenDetail(a: nat, g: nat)
      requires Valid() && ActorOf(a).Idle?
      modifies this`actors
      ensures Valid() && View() == Next(old(View()), Open(a, g))
      ensures if g in groups && groups[g].status != Processing && groups[g].missing != {}
              then ActorOf(a) == Ensuring(g, None) else ActorOf(a) == Idle
    {
      StepKeepsInv(View(), Open(a, g));
      if g in groups && groups[g].status != Processing && groups[g].missing != {} {
        actors := actors[a := Ensuring(g, None)];
      }
    }

    /** ensureStrategyRunGroupInterpretations, first half: the runs that still lack an interpretation. */
    method LoadMissingRuns(a: nat)
      requires Valid() && ActorOf(a).Ensuring?
      modifies this`actors
      ensures Valid() && View() == Next(old(View()), LoadTargets(a))
      ensures var g, job := old(ActorOf(a)).group, old(ActorOf(a)).job;
              g in groups && ActorOf(a) == if groups[g].missing == {} then Ensured(g, job) else Requested(g, job, groups[g].missing)
    {
      StepKeepsInv(View(), LoadTargets(a));
      assert ActorOk(View(), View().ActorOf(a));
      var actor := actors[a];
      var targets := groups[actor.group].missing;
      actors := actors[a := if targets == {} then Ensured(actor.group, actor.job)
                            else Requested(actor.group, actor.job, targets)];
    }

    /** ensureStrategyRunGroupInterpretations, second half: one transaction writes a record for every target. */
    method PersistInterpretations(a: nat)
      requires Valid() && ActorOf(a).Requested?
      modifies this`groups, this`actors
      ensures Valid() && View() == Next(old(View()), Persist(a))
      ensures var g := old(ActorOf(a)).group;
              && g in old(groups) && groups == old(groups)[g := old(groups)[g].(missing := {})]
              && ActorOf(a) == Ensured(g, old(ActorOf(a)).job)
    {
      StepKeepsInv(View(), Persist(a));
      assert ActorOk(View(), View().ActorOf(a));
      var actor := actors[a];
      var row := groups[actor.group];
      assert row.missing - actor.targets == {};
      row := row.(missing := row.missing - actor.targets);
      groups := groups[actor.group := row];
      actors := actors[a := Ensured(actor.group, actor.job)];
    }

    /** The unguarded completion, shared by the queue worker and by the hydrating request. */
    method FinishJob(a: nat)
      requires Valid() && ActorOf(a).Ensured?
      modifies this`groups, this`actors
      ensures Valid() && View() == Next(old(View()), Finish(a))
      ensures var g := old(ActorOf(a)).group;
              && g in old(groups) && groups == old(groups)[g := old(groups)[g].(status := Completed, nextRetryAt := None)]
              && ActorOf(a) == Idle
    {
      StepKeepsInv(View(), Finish(a));
      assert ActorOk(View(), View().ActorOf(a));
      var g := actors[a].group;
      var row := groups[g];
      row := row.(status := Completed);
      row := row.(nextRetryAt := None);
      groups := groups[g := row];
      actors := actors[a := Idle];
    }

    /** The catch branch: a queue worker writes its failure, a hydrating request only gives up. */
    method FailJob(a: nat)
      requires Valid() && !ActorOf(a).Idle? && !ActorOf(a).Picked?
      modifies this`groups, this`actors
      ensures Valid() && View() == Next(old(View()), Fail(a)) && ActorOf(a) == Idle
      ensures old(ActorOf(a)).job == None ==> groups == old(groups)
      ensures old(ActorOf(a)).job.Some? ==>
                var g, attempt := old(ActorOf(a)).group, old(ActorOf(a)).job.value;
                && g in old(groups) && 1 <= attempt <= 3
                && groups == old(groups)[g := old(groups)[g].(
                     status := if attempt == 3 then Failed else Pending,
                     nextRetryAt := if attempt == 1 then Some(clock + 30_000) else if attempt == 2 then Some(clock + 60_000) else None)]
    {
      hide Inv;
      StepKeepsInv(View(), Fail(a));
      ActorIsOk(View(), a);
      GroupIsOk(View(), actors[a].group);
      hide GroupOk;
      assert Power2(0) == 1 && Power2(1) == 2;
      var actor := actors[a];
      if actor.job.Some? {
        var row := groups[actor.group];
        var attempt := actor.job.value;
        if attempt >= MAX_ATTEMPTS {
          row := row.(status := Failed, nextRetryAt := None);
        } else {
          row := row.(status := Pending, nextRetryAt := Some(clock + RetryDelayMs(attempt)));
        }
        groups := groups[actor.group := row];
      }
      actors := actors[a := Idle];
    }

    /** persistStrategyRunGroupInterpretationsFromAgent: one transaction over the runs and the group. */
    method WriteBackFromAgent(g: nat) returns (saved: bool)
      requires Valid()
      modifies this`groups
      ensures Valid() && View() == Next(old(View()), WriteBack(g))
      ensures saved <==> g in groups
      ensures groups == if g in old(groups)
                        then old(groups)[g := old(groups)[g].(missing := {}, status := Completed, nextRetryAt := None)] else old(groups)
    {
      StepKeepsInv(View(), WriteBack(g));
      saved := g in groups;
      if saved {
        var row := groups[g];
        row := row.(missing := {}, status := Completed, nextRetryAt := None);
        groups := groups[g := row];
      }
    }
  }
}
