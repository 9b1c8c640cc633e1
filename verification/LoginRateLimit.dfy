/**
 The login failure window: one row per (ip, username) counts the failures since the first one, and a
 login is refused while five of them are at most 300 seconds old.
 */
module LoginRateLimit {
  import opened Options
  import opened Basics

  const WINDOW_MS: nat := 300_000
  const MAX_FAILURES: nat := 5

  datatype Row = Row(failureCount: nat, firstFailedAt: nat)

  predicate Expired(row: Row, now: nat) { now - row.firstFailedAt > WINDOW_MS }

  predicate Allowed(row: Option<Row>, now: nat) {
    row.None? || Expired(row.value, now) || row.value.failureCount < MAX_FAILURES
  }

  /** The check itself drops an expired row. */
  function Checked(row: Option<Row>, now: nat): Option<Row> {
    if row.Some? && Expired(row.value, now) then None else row
  }

  function Recorded(row: Option<Row>, now: nat): Row {
    if row.None? || Expired(row.value, now) then Row(1, now) else row.value.(failureCount := row.value.failureCount + 1)
  }

  /** A login with a wrong password: checked at one instant and, if allowed, recorded at a later one. */
  datatype Attempt = Attempt(checkAt: nat, recordAt: nat)

  function After(row: Option<Row>, attempt: Attempt): Option<Row> {
    var checked := Checked(row, attempt.checkAt);
    if Allowed(row, attempt.checkAt) then Some(Recorded(checked, attempt.recordAt)) else checked
  }

  /** The instants of the recorded failures of a run without a successful login. */
  function Failures(row: Option<Row>, attempts: seq<Attempt>): seq<nat>
    decreases |attempts|
  {
    if attempts == [] then []
    else
      var rest := Failures(After(row, attempts[0]), attempts[1..]);
      if Allowed(row, attempts[0].checkAt) then [attempts[0].recordAt] + rest else rest
  }

  /** One attempt after the other, all at or after `from`. */
  ghost predicate Serialized(attempts: seq<Attempt>, from: nat) {
    attempts != [] ==>
      from <= attempts[0].checkAt <= attempts[0].recordAt && Serialized(attempts[1..], attempts[0].recordAt)
  }

  ghost predicate Ascending(times: seq<nat>, from: nat) {
    && (forall i :: 0 <= i < |times| ==> from <= times[i])
    && forall i, j :: 0 <= i < j < |times| ==> times[i] <= times[j]
  }

  ghost predicate RowOk(row: Row, now: nat) {
    1 <= row.failureCount <= MAX_FAILURES && row.firstFailedAt <= now
  }

  lemma {:induction false} FailuresAreAscending(row: Option<Row>, attempts: seq<Attempt>, from: nat)
    requires Serialized(attempts, from)
    ensures Ascending(Failures(row, attempts), from)
    decreases |attempts|
  {
    if attempts != [] {
      FailuresAreAscending(After(row, attempts[0]), attempts[1..], attempts[0].recordAt);
    }
  }

  /** With n failures in the window that began at f, the (5-n+1)-th next one lies beyond that window. */
  lemma {:induction false} WindowFillsUp(row: Row, attempts: seq<Attempt>, from: nat)
    requires RowOk(row, from) && Serialized(attempts, from)
    ensures var times, room := Failures(Some(row), attempts), 5 - row.failureCount;
            |times| > room ==> times[room] > row.firstFailedAt + 300_000
    decreases |attempts|
  {
    if attempts != [] {
      var attempt, rest := attempts[0], attempts[1..];
      var next := After(Some(row), attempt);
      FailuresAreAscending(next, rest, attempt.recordAt);
      if !Allowed(Some(row), attempt.checkAt) {
        WindowFillsUp(row, rest, attempt.recordAt);
      } else if !Expired(row, attempt.recordAt) {
        WindowFillsUp(next.value, rest, attempt.recordAt);
      }
    }
  }

  /** And the fifth after that is beyond the window which that one began, so more than 300 s after now. */
  lemma {:induction false} NextWindowFillsUp(row: Row, attempts: seq<Attempt>, from: nat)
    requires RowOk(row, from) && Serialized(attempts, from)
    ensures var times, room := Failures(Some(row), attempts), 2 * MAX_FAILURES - row.failureCount;
            |times| > room ==> times[room] > from + WINDOW_MS
    decreases |attempts|
  {
    if attempts != [] {
      var attempt, rest := attempts[0], attempts[1..];
      var next := After(Some(row), attempt);
      FailuresAreAscending(next, rest, attempt.recordAt);
      if !Allowed(Some(row), attempt.checkAt) || !Expired(row, attempt.recordAt) {
        NextWindowFillsUp(next.value, rest, attempt.recordAt);
      } else {
        WindowFillsUp(next.value, rest, attempt.recordAt);
      }
    }
  }

  /** Ten failures in a row always take more than 300 seconds. */
  lemma {:induction false} TenFailuresSpanMoreThanTheWindow(row: Option<Row>, attempts: seq<Attempt>, from: nat, i: nat)
    requires (row.Some? ==> RowOk(row.value, from)) && Serialized(attempts, from)
    ensures var times := Failures(row, attempts);
            i + 9 < |times| ==> times[i + 9] > times[i] + 300_000
    decreases |attempts|
  {
    if attempts != [] {
      var attempt, rest := attempts[0], attempts[1..];
      var next := After(row, attempt);
      FailuresAreAscending(next, rest, attempt.recordAt);
      if !Allowed(row, attempt.checkAt) {
        TenFailuresSpanMoreThanTheWindow(next, rest, attempt.recordAt, i);
      } else if i > 0 {
        TenFailuresSpanMoreThanTheWindow(next, rest, attempt.recordAt, i - 1);
      } else if next.value.failureCount == 1 {
        WindowFillsUp(next.value, rest, attempt.recordAt);
      } else {
        NextWindowFillsUp(next.value, rest, attempt.recordAt);
      }
    }
  }

  function InInterval(times: seq<nat>, lo: nat, hi: nat): set<int> {
    set i | 0 <= i < |times| && lo <= times[i] <= hi
  }

  /** At most 2 * 5 - 1 failures in any closed interval of 300 seconds. */
  lemma AtMostNineFailuresInAnyWindow(attempts: seq<Attempt>, lo: nat)
    requires Serialized(attempts, 0)
    ensures |InInterval(Failures(None, attempts), lo, lo + 300_000)| <= 9
  {
    var times := Failures(None, attempts);
    FailuresAreAscending(None, attempts, 0);
    var first := FirstFrom(times, lo);
    var inside := InInterval(times, lo, lo + WINDOW_MS);
    forall i | i in inside ensures first <= i < first + 2 * MAX_FAILURES - 1 {
      TenFailuresSpanMoreThanTheWindow(None, attempts, 0, first);
    }
    RangeBoundsCard(inside, first, first + 2 * MAX_FAILURES - 2);
  }

  lemma FirstFrom(times: seq<nat>, lo: nat) returns (first: nat)
    ensures first <= |times| && (forall i :: 0 <= i < first ==> times[i] < lo) && (first < |times| ==> times[first] >= lo)
  {
    first := 0;
    while first < |times| && times[first] < lo
      invariant first <= |times| && forall i :: 0 <= i < first ==> times[i] < lo
    {
      first := first + 1;
    }
  }

  function Repeat(t: nat, n: nat): seq<Attempt> {
    if n == 0 then [] else [Attempt(t, t)] + Repeat(t, n - 1)
  }

  function Copies(t: nat, n: nat): (times: seq<nat>)
    ensures |times| == n && forall i :: 0 <= i < n ==> times[i] == t
  {
    if n == 0 then [] else [t] + Copies(t, n - 1)
  }

  lemma OneIsRecorded(row: Row, t: nat, more: seq<Attempt>)
    requires !Expired(row, t) && row.failureCount < MAX_FAILURES
    ensures Failures(Some(row), [Attempt(t, t)] + more) == [t] + Failures(Some(row.(failureCount := row.failureCount + 1)), more)
  {}

  /** As many wrong passwords at one instant as the window still has room for are all recorded. */
  lemma {:induction false} BurstIsRecorded(row: Row, t: nat, n: nat, more: seq<Attempt>)
    requires !Expired(row, t) && row.failureCount + n <= MAX_FAILURES
    ensures Failures(Some(row), Repeat(t, n) + more)
         == Copies(t, n) + Failures(Some(row.(failureCount := row.failureCount + n)), more)
    decreases n
  {
    hide Failures;
    if n == 0 {
      assert Repeat(t, n) + more == more;
    } else {
      var next := row.(failureCount := row.failureCount + 1);
      BurstIsRecorded(next, t, n - 1, more);
      assert Repeat(t, n) + more == [Attempt(t, t)] + (Repeat(t, n - 1) + more);
      OneIsRecorded(row, t, Repeat(t, n - 1) + more);
    }
  }

  lemma {:induction false} BurstIsSerialized(t: nat, n: nat, more: seq<Attempt>, from: nat)
    requires from <= t && Serialized(more, t)
    ensures Serialized(Repeat(t, n) + more, from)
    decreases n
  {
    if n == 0 {
      assert Repeat(t, n) + more == more;
      assert more != [] ==> more[0].checkAt >= from;
    } else {
      BurstIsSerialized(t, n - 1, more, t);
      assert (Repeat(t, n) + more)[1..] == Repeat(t, n - 1) + more;
    }
  }

  function TwoBursts(): seq<Attempt> {
    [Attempt(0, 0)] + (Repeat(WINDOW_MS, 4) + ([Attempt(WINDOW_MS + 1, WINDOW_MS + 1)] + (Repeat(WINDOW_MS + 1, 4) + [])))
  }

  /** Nine is reached: four failures at the very end of one window, five at the start of the next. */
  lemma NineFailuresAreReached()
    ensures Serialized(TwoBursts(), 0)
    ensures |InInterval(Failures(None, TwoBursts()), 300_000, 600_000)| == 9
  {
    var last := Repeat(WINDOW_MS + 1, 4) + [];
    var second := [Attempt(WINDOW_MS + 1, WINDOW_MS + 1)] + last;
    var first := Repeat(WINDOW_MS, 4) + second;
    assert second[1..] == last && TwoBursts()[1..] == first;
    BurstIsSerialized(WINDOW_MS + 1, 4, [], WINDOW_MS + 1);
    BurstIsSerialized(WINDOW_MS, 4, second, 0);
    BurstIsRecorded(Row(1, 0), WINDOW_MS, 4, second);
    BurstIsRecorded(Row(1, WINDOW_MS + 1), WINDOW_MS + 1, 4, []);
    NineInside(Failures(None, TwoBursts()));
  }

  lemma NineInside(times: seq<nat>)
    requires |times| == 10 && times[0] == 0 && forall i :: 1 <= i < 10 ==> WINDOW_MS <= times[i] <= WINDOW_MS + 1
    ensures |InInterval(times, WINDOW_MS, 2 * WINDOW_MS)| == 9
  {
    assert InInterval(times, WINDOW_MS, 2 * WINDOW_MS) == {1, 2, 3, 4, 5, 6, 7, 8, 9};
  }

  // ---------------------------------------------------------------- the service

  type Key = (string, string)

  /** `rows` is the rate-limit table; usernames are already normalized. */
  class AuthService {
    var rows: map<Key, Row>

    constructor ()
      ensures rows == map[]
    {
      rows := map[];
    }

    function RowOf(key: Key): Option<Row>
      reads this
    {
      if key in rows then Some(rows[key]) else None
    }

    ghost predicate OthersUnchanged(before: map<Key, Row>, key: Key)
      reads this
    {
      forall other :: other != key ==> (other in rows <==> other in before) && (other in rows ==> rows[other] == before[other])
    }

    method CheckRateLimit(key: Key, now: nat) returns (allowed: bool)
      modifies this
      ensures allowed == Allowed(old(RowOf(key)), now)
      ensures allowed <==> key !in old(rows) || now - old(rows)[key].firstFailedAt > 300_000 || old(rows)[key].failureCount < 5
      ensures rows == if key in old(rows) && now - old(rows)[key].firstFailedAt > 300_000 then old(rows) - {key} else old(rows)
      ensures RowOf(key) == Checked(old(RowOf(key)), now) && OthersUnchanged(old(rows), key)
    {
      if key !in rows {
        return true;
      }
      var row := rows[key];
      if now - row.firstFailedAt > WINDOW_MS {
        rows := rows - {key};
        return true;
      }
      return row.failureCount < MAX_FAILURES;
    }

    method RecordFailure(key: Key, now: nat)
      modifies this
      ensures RowOf(key) == Some(Recorded(old(RowOf(key)), now)) && OthersUnchanged(old(rows), key)
      ensures rows == if key in old(rows) && now - old(rows)[key].firstFailedAt <= 300_000
                      then old(rows)[key := Row(old(rows)[key].failureCount + 1, old(rows)[key].firstFailedAt)]
                      else old(rows)[key := Row(1, now)]
    {
      if key !in rows {
        rows := rows[key := Row(1, now)];
        return;
      }
      var row := rows[key];
      if now - row.firstFailedAt > WINDOW_MS {
        rows := rows[key := Row(1, now)];
        return;
      }
      rows := rows[key := row.(failureCount := row.failureCount + 1)];
    }

    method ClearRateLimit(key: Key)
      modifies this
      ensures RowOf(key) == None && OthersUnchanged(old(rows), key)
    {
      rows := rows - {key};
    }

    /** The login route around the password check, whose outcome is given. */
    method Login(key: Key, attempt: Attempt, passwordOk: bool) returns (allowed: bool)
      requires attempt.checkAt <= attempt.recordAt
      modifies this
      ensures allowed == Allowed(old(RowOf(key)), attempt.checkAt)
      ensures allowed <==> key !in old(rows) || attempt.checkAt - old(rows)[key].firstFailedAt > 300_000 || old(rows)[key].failureCount < 5
      ensures allowed && passwordOk ==> key !in rows
      ensures allowed && !passwordOk ==>
                key in rows && rows[key] == if key in old(rows) && attempt.recordAt - old(rows)[key].firstFailedAt <= 300_000
                                            then Row(old(rows)[key].failureCount + 1, old(rows)[key].firstFailedAt) else Row(1, attempt.recordAt)
      ensures !allowed ==> rows == old(rows)
      ensures RowOf(key) == if allowed && passwordOk then None else After(old(RowOf(key)), attempt)
      ensures OthersUnchanged(old(rows), key)
    {
      allowed := CheckRateLimit(key, attempt.checkAt);
      if allowed {
        if passwordOk {
          ClearRateLimit(key);
        } else {
          RecordFailure(key, attempt.recordAt);
        }
      }
    }
  }
}
