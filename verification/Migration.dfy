/**
 Copying a legacy table in id order, in batches, with a checkpoint written after each batch. The process
 may die between any two writes; starting it again resumes from the checkpoint.
 */
module Migration {
  import opened Options

  datatype Table = AnalysisHistory | AnalysisTasks

  /** A legacy row; the texts are already trimmed, and a task's status is in lower case. For the history, which has no
      status, that column stands for the ones copied as they are. */
  datatype SourceRow = SourceRow(id: nat, taskId: string, stockCode: string, status: string)

  /** A row of the new table; `key` is its unique column besides the id, if the table has one. */
  datatype TargetRow = TargetRow(key: Option<string>, stockCode: string, status: string)

  const BATCH_SIZE: nat := 500

  function ToTaskStatus(status: string): string {
    if status == "processing" || status == "completed" || status == "failed" then status else "pending"
  }

  /** The row to insert; a task without an id or a stock is dropped. */
  function Convert(table: Table, row: SourceRow): Option<TargetRow> {
    match table
    case AnalysisHistory => Some(TargetRow(None, row.stockCode, row.status))
    case AnalysisTasks =>
      if row.taskId == "" || row.stockCode == "" then None
      else Some(TargetRow(Some(row.taskId), row.stockCode, ToTaskStatus(row.status)))
  }

  type Target = map<nat, TargetRow>

  ghost predicate Ascending(source: seq<SourceRow>) {
    && (forall i :: 0 <= i < |source| ==> source[i].id >= 1)
    && forall i, j :: 0 <= i < j < |source| ==> source[i].id < source[j].id
  }

  predicate KeyTaken(target: Target, key: Option<string>) {
    key.Some? && exists id :: id in target && target[id].key == key
  }

  /** The insert would leave the table as it is: nothing to insert, or a duplicate that is skipped. */
  predicate Blocked(table: Table, target: Target, row: SourceRow) {
    var image := Convert(table, row);
    image.None? || row.id in target || KeyTaken(target, image.value.key)
  }

  function InsertRow(table: Table, target: Target, row: SourceRow): Target {
    if Blocked(table, target, row) then target else target[row.id := Convert(table, row).value]
  }

  /** One insert statement over several rows, skipping duplicates. */
  function InsertAll(table: Table, target: Target, rows: seq<SourceRow>): Target {
    if rows == [] then target
    else InsertRow(table, InsertAll(table, target, rows[..|rows| - 1]), rows[|rows| - 1])
  }

  // ---------------------------------------------------------------- inserting again changes nothing

  lemma {:induction false} BlockedStays(table: Table, target: Target, rows: seq<SourceRow>, row: SourceRow)
    requires Blocked(table, target, row)
    ensures Blocked(table, InsertAll(table, target, rows), row)
  {
    if rows != [] {
      BlockedStays(table, target, rows[..|rows| - 1], row);
      BlockedAfterInsert(table, InsertAll(table, target, rows[..|rows| - 1]), rows[|rows| - 1], row);
    }
  }

  lemma BlockedAfterInsert(table: Table, target: Target, inserted: SourceRow, row: SourceRow)
    requires Blocked(table, target, row) || row == inserted
    ensures Blocked(table, InsertRow(table, target, inserted), row)
  {
    var image, after := Convert(table, row), InsertRow(table, target, inserted);
    if image.Some? && row.id !in after {
      var id :| id in target && target[id].key == image.value.key;
      assert id in after && after[id].key == image.value.key;
    }
  }

  lemma InsertAllConcat(table: Table, target: Target, a: seq<SourceRow>, b: seq<SourceRow>)
    ensures InsertAll(table, target, a + b) == InsertAll(table, InsertAll(table, target, a), b)
    decreases |b|
  {
    if b == [] {
      assert a + b == a;
    } else {
      var most := b[..|b| - 1];
      InsertAllConcat(table, target, a, most);
      assert (a + b)[..|a + b| - 1] == a + most;
    }
  }

  /** After an insert statement every one of its rows is blocked. */
  lemma {:induction false} InsertedRowsAreBlocked(table: Table, target: Target, rows: seq<SourceRow>, k: nat)
    requires k < |rows|
    ensures Blocked(table, InsertAll(table, target, rows), rows[k])
  {
    var most, last := rows[..|rows| - 1], rows[|rows| - 1];
    if k < |most| {
      InsertedRowsAreBlocked(table, target, most, k);
    }
    BlockedAfterInsert(table, InsertAll(table, target, most), last, rows[k]);
  }

  lemma {:induction false} BlockedRowsDoNothing(table: Table, target: Target, rows: seq<SourceRow>)
    requires forall i :: 0 <= i < |rows| ==> Blocked(table, target, rows[i])
    ensures InsertAll(table, target, rows) == target
  {
    if rows != [] {
      BlockedRowsDoNothing(table, target, rows[..|rows| - 1]);
    }
  }

  /** Inserting rows lo..hi again, on top of the first `done` rows, leaves the first max(done, hi) rows inserted. */
  lemma Redo(table: Table, initial: Target, source: seq<SourceRow>, done: nat, lo: nat, hi: nat)
    requires lo <= done <= |source| && lo <= hi <= |source|
    ensures InsertAll(table, InsertAll(table, initial, source[..done]), source[lo..hi])
         == InsertAll(table, initial, source[..if done < hi then hi else done])
  {
    hide InsertAll;
    var target := InsertAll(table, initial, source[..done]);
    if done < hi {
      var again, more := source[lo..done], source[done..hi];
      assert source[lo..hi] == again + more && source[..done] + more == source[..hi];
      RedoNothing(table, initial, source, done, lo, done);
      InsertAllConcat(table, target, again, more);
      InsertAllConcat(table, initial, source[..done], more);
    } else {
      RedoNothing(table, initial, source, done, lo, hi);
    }
  }

  lemma RedoNothing(table: Table, initial: Target, source: seq<SourceRow>, done: nat, lo: nat, hi: nat)
    requires lo <= hi <= done <= |source|
    ensures InsertAll(table, InsertAll(table, initial, source[..done]), source[lo..hi]) == InsertAll(table, initial, source[..done])
  {
    hide InsertAll, Blocked;
    var target, again := InsertAll(table, initial, source[..done]), source[lo..hi];
    forall i | 0 <= i < |again| ensures Blocked(table, target, again[i]) {
      InsertedRowsAreBlocked(table, initial, source[..done], lo + i);
    }
    BlockedRowsDoNothing(table, target, again);
  }

  // ---------------------------------------------------------------- reading a batch

  /** How many rows of the id-ordered source have an id up to the checkpoint. */
  function Reached(source: seq<SourceRow>, checkpoint: nat): (n: nat)
    ensures n <= |source|
  {
    if source == [] || source[0].id > checkpoint then 0 else 1 + Reached(source[1..], checkpoint)
  }

  lemma {:induction false} ReachedSplits(source: seq<SourceRow>, checkpoint: nat)
    requires Ascending(source)
    ensures forall i :: 0 <= i < |source| ==> (source[i].id <= checkpoint <==> i < Reached(source, checkpoint))
  {
    if source != [] && source[0].id <= checkpoint {
      ReachedSplits(source[1..], checkpoint);
      forall i | 1 <= i < |source|
        ensures source[i].id <= checkpoint <==> i < Reached(source, checkpoint)
      {
        assert source[i] == source[1..][i - 1];
      }
    }
  }

  /** Rows with a larger id, in id order, at most BATCH_SIZE. */
  function ReadBatch(source: seq<SourceRow>, lastId: nat): seq<SourceRow> {
    var above := Above(source, lastId);
    if |above| <= BATCH_SIZE then above else above[..BATCH_SIZE]
  }

  function Above(source: seq<SourceRow>, lastId: nat): seq<SourceRow> {
    if source == [] then [] else (if source[0].id > lastId then [source[0]] else []) + Above(source[1..], lastId)
  }

  lemma {:induction false} AboveIsASuffix(source: seq<SourceRow>, lastId: nat)
    requires Ascending(source)
    ensures Above(source, lastId) == source[Reached(source, lastId)..]
  {
    if source != [] {
      AboveIsASuffix(source[1..], lastId);
      if source[0].id > lastId {
        assert source[1..] != [] ==> source[1..][0] == source[1];
        assert Reached(source[1..], lastId) == 0;
        assert source == [source[0]] + source[1..];
      }
    }
  }

  /** A batch is the next stretch of the source, and its last id is a checkpoint right behind it. */
  lemma BatchIsTheNextStretch(source: seq<SourceRow>, checkpoint: nat)
    requires Ascending(source)
    ensures var done, batch := Reached(source, checkpoint), ReadBatch(source, checkpoint);
            && done + |batch| <= |source|
            && batch == source[done..done + |batch|]
            && |batch| == (if |source| - done <= 500 then |source| - done else 500)
            && (batch == [] <==> done == |source|)
            && (batch != [] ==> Reached(source, batch[|batch| - 1].id) == done + |batch|)
  {
    var done, batch := Reached(source, checkpoint), ReadBatch(source, checkpoint);
    AboveIsASuffix(source, checkpoint);
    if batch != [] {
      var last := done + |batch| - 1;
      assert batch[|batch| - 1] == source[last];
      ReachedSplits(source, source[last].id);
      assert last < Reached(source, source[last].id);
      assert !(last + 1 < |source| && source[last + 1].id <= source[last].id);
    }
  }

  // ---------------------------------------------------------------- what a run leaves behind

  ghost predicate InsertedUpTo(table: Table, initial: Target, source: seq<SourceRow>, target: Target, n: nat) {
    n <= |source| && target == InsertAll(table, initial, source[..n])
  }

  /** The rows up to the checkpoint, and possibly some more, have been inserted: exactly a prefix of the source. */
  ghost predicate Resumable(table: Table, initial: Target, source: seq<SourceRow>, target: Target, checkpoint: nat) {
    exists n :: Reached(source, checkpoint) <= n && InsertedUpTo(table, initial, source, target, n)
  }

  lemma InsertingTheNextBatch(table: Table, initial: Target, source: seq<SourceRow>, target: Target, checkpoint: nat)
    requires Ascending(source) && Resumable(table, initial, source, target, checkpoint)
    requires ReadBatch(source, checkpoint) != []
    ensures var batch := ReadBatch(source, checkpoint);
            var after := InsertAll(table, target, batch);
            && Resumable(table, initial, source, after, checkpoint)
            && Resumable(table, initial, source, after, batch[|batch| - 1].id)
            && Reached(source, batch[|batch| - 1].id) > Reached(source, checkpoint)
  {
    hide ReadBatch, Reached, InsertAll, Ascending;
    var done, batch := Reached(source, checkpoint), ReadBatch(source, checkpoint);
    var n :| done <= n && InsertedUpTo(table, initial, source, target, n);
    BatchIsTheNextStretch(source, checkpoint);
    Redo(table, initial, source, n, done, done + |batch|);
    assert InsertedUpTo(table, initial, source, InsertAll(table, target, batch), if n < done + |batch| then done + |batch| else n);
  }

  lemma NothingLeftToRead(table: Table, initial: Target, source: seq<SourceRow>, target: Target, checkpoint: nat)
    requires Ascending(source) && Resumable(table, initial, source, target, checkpoint)
    requires ReadBatch(source, checkpoint) == []
    ensures target == InsertAll(table, initial, source)
  {
    BatchIsTheNextStretch(source, checkpoint);
    assert source[..|source|] == source;
  }

  lemma FreshStartIsResumable(table: Table, initial: Target, source: seq<SourceRow>)
    requires Ascending(source)
    ensures Resumable(table, initial, source, initial, 0)
  {
    ReachedSplits(source, 0);
    assert source[..0] == [];
    assert InsertedUpTo(table, initial, source, initial, 0);
  }

  /** The target database: the copied table and its row of the checkpoint table. */
  class MigrationScript {
    const table: Table
    var target: Target
    var stored: Option<nat>

    constructor (table: Table, target: Target)
      ensures this.table == table && this.target == target && stored == None
    {
      this.table := table;
      this.target := target;
      stored := None;
    }

    function GetCheckpoint(): nat
      reads this
    {
      stored.GetOr(0)
    }

    ghost predicate CanResume(initial: Target, source: seq<SourceRow>)
      reads this
    {
      Resumable(table, initial, source, target, GetCheckpoint())
    }

    /**
     One start of the script, killed after `writes` database writes (an insert and a checkpoint each count).
     However it dies, it leaves a state the next start can resume from; it finishes if it is left alone
     long enough, and then the table is what one uninterrupted insert of the whole source would give.
     */
    method Migrate(source: seq<SourceRow>, writes: nat, ghost initial: Target) returns (finished: bool)
      requires Ascending(source) && CanResume(initial, source)
      modifies this
      ensures CanResume(initial, source)
      ensures finished ==> target == InsertAll(table, initial, source)
      ensures writes >= 2 * (|source| - Reached(source, old(GetCheckpoint()))) ==> finished
      ensures Reached(source, GetCheckpoint()) >= Reached(source, old(GetCheckpoint()))
    {
      var checkpoint := GetCheckpoint();
      var left := writes;
      ghost var start := Reached(source, checkpoint);
      while true
        invariant checkpoint == GetCheckpoint()
        invariant CanResume(initial, source)
        invariant left <= writes && start <= Reached(source, checkpoint) && writes - left <= 2 * (Reached(source, checkpoint) - start)
        decreases |source| - Reached(source, checkpoint)
      {
        var rows := ReadBatch(source, checkpoint);
        if rows == [] {
          NothingLeftToRead(table, initial, source, target, checkpoint);
          return true;
        }
        InsertingTheNextBatch(table, initial, source, target, checkpoint);
        if left == 0 {
          return false;
        }
        target := InsertAll(table, target, rows);
        left := left - 1;
        if left == 0 {
          return false;
        }
        checkpoint := rows[|rows| - 1].id;
        stored := Some(checkpoint);
        left := left - 1;
      }
    }

    /** Starting the script again and again: each element says when that start is killed. */
    method MigrateWithRestarts(source: seq<SourceRow>, kills: seq<nat>) returns (finished: bool)
      requires Ascending(source) && stored == None
      modifies this
      ensures CanResume(old(target), source)
      ensures finished ==> target == InsertAll(table, old(target), source)
      ensures finished ==> OnlyMigrated(table, old(target), target, source)
      ensures finished && UniqueKeys(old(target)) && NoneCollide(table, old(target), source) ==>
                AllDelivered(table, old(target), target, source)
      ensures (exists i :: 0 <= i < |kills| && kills[i] >= 2 * |source|) ==> finished
    {
      ghost var initial := target;
      finished := false;
      WholeInsertMeans(table, initial, source);
      hide OnlyMigrated, UniqueKeys, InsertAll, AllDelivered, Ascending;
      FreshStartIsResumable(table, initial, source);
      var i := 0;
      while i < |kills| && !finished
        invariant 0 <= i <= |kills|
        invariant CanResume(initial, source)
        invariant finished ==> target == InsertAll(table, initial, source)
        invariant !finished ==> forall j :: 0 <= j < i ==> kills[j] < 2 * |source|
      {
        finished := Migrate(source, kills[i], initial);
        i := i + 1;
      }
    }
  }

  // ---------------------------------------------------------------- what the whole insert contains

  /** The target's own unique index. */
  ghost predicate UniqueKeys(target: Target) {
    forall a, b :: a in target && b in target && a != b && target[a].key.Some? ==> target[a].key != target[b].key
  }

  ghost predicate HasImage(table: Table, rows: seq<SourceRow>, id: nat, row: TargetRow) {
    exists i :: 0 <= i < |rows| && rows[i].id == id && Convert(table, rows[i]) == Some(row)
  }

  /** The migrated row is in the table, and was not there before. */
  ghost predicate Arrived(table: Table, initial: Target, target: Target, row: SourceRow) {
    row.id !in initial && row.id in target && Convert(table, row) == Some(target[row.id])
  }

  /** No valid row's id or key was taken before, and no two valid rows share a key. */
  ghost predicate NoConflicts(table: Table, initial: Target, rows: seq<SourceRow>) {
    && (forall i :: 0 <= i < |rows| ==> Convert(table, rows[i]).None? || !Blocked(table, initial, rows[i]))
    && forall i, j :: 0 <= i < j < |rows| ==> !SameKey(Convert(table, rows[i]), Convert(table, rows[j]))
  }

  predicate SameKey(a: Option<TargetRow>, b: Option<TargetRow>) {
    a.Some? && b.Some? && a.value.key.Some? && a.value.key == b.value.key
  }

  lemma InsertKeepsKeysUnique(table: Table, target: Target, row: SourceRow)
    ensures UniqueKeys(target) ==> UniqueKeys(InsertRow(table, target, row))
  {}

  /** Nothing is lost or changed, nothing is invented, and the unique index holds. */
  lemma {:induction false} OnlyImagesAreAdded(table: Table, initial: Target, rows: seq<SourceRow>)
    ensures var target := InsertAll(table, initial, rows);
            && (forall id :: id in initial ==> id in target && target[id] == initial[id])
            && (forall id :: id in target && id !in initial ==> HasImage(table, rows, id, target[id]))
            && (UniqueKeys(initial) ==> UniqueKeys(target))
  {
    if rows != [] {
      hide Convert, KeyTaken, UniqueKeys;
      InsertKeepsKeysUnique(table, InsertAll(table, initial, rows[..|rows| - 1]), rows[|rows| - 1]);
      var most, last := rows[..|rows| - 1], rows[|rows| - 1];
      OnlyImagesAreAdded(table, initial, most);
      var before, after := InsertAll(table, initial, most), InsertAll(table, initial, rows);
      forall id | id in after && id !in initial ensures HasImage(table, rows, id, after[id]) {
        if id in before && after[id] == before[id] {
          var i :| 0 <= i < |most| && most[i].id == id && Convert(table, most[i]) == Some(after[id]);
          assert rows[i] == most[i];
        } else {
          assert rows[|rows| - 1].id == id && Convert(table, rows[|rows| - 1]) == Some(after[id]);
        }
      }
    }
  }

  lemma {:induction false} WithoutConflictsAllArrive(table: Table, initial: Target, rows: seq<SourceRow>, k: nat)
    requires Ascending(rows) && NoConflicts(table, initial, rows)
    requires k < |rows| && Convert(table, rows[k]).Some?
    ensures Arrived(table, initial, InsertAll(table, initial, rows), rows[k])
  {
    var most := rows[..|rows| - 1];
    if k < |most| {
      assert most[k] == rows[k] && Ascending(most) && NoConflicts(table, initial, most);
      WithoutConflictsAllArrive(table, initial, most, k);
    } else {
      assert !Blocked(table, initial, rows[k]);
      NewRowIsFree(table, initial, rows);
    }
  }

  lemma NewRowIsFree(table: Table, initial: Target, rows: seq<SourceRow>)
    requires Ascending(rows) && NoConflicts(table, initial, rows) && rows != []
    requires Convert(table, rows[|rows| - 1]).Some?
    ensures !Blocked(table, InsertAll(table, initial, rows[..|rows| - 1]), rows[|rows| - 1])
  {
    var most, last := rows[..|rows| - 1], rows[|rows| - 1];
    var before, image := InsertAll(table, initial, most), Convert(table, last).value;
    OnlyImagesAreAdded(table, initial, most);
    assert !Blocked(table, initial, last);
    forall id | id in before ensures id != last.id && !(image.key.Some? && before[id].key == image.key) {
      if id !in initial {
        var i :| 0 <= i < |most| && most[i].id == id && Convert(table, most[i]) == Some(before[id]);
        assert rows[i] == most[i] && !SameKey(Convert(table, rows[i]), Convert(table, last));
      }
    }
  }

  lemma ArrivalsDoNotConflict(table: Table, initial: Target, target: Target, source: seq<SourceRow>)
    requires Ascending(source) && UniqueKeys(target)
    requires forall id :: id in initial ==> id in target && target[id] == initial[id]
    requires forall k :: 0 <= k < |source| && Convert(table, source[k]).Some? ==> Arrived(table, initial, target, source[k])
    ensures NoConflicts(table, initial, source)
  {}

  /** Every valid legacy row arrives exactly when no two of them, and none of the rows already there, collide. */
  lemma EveryValidRowArrivesIffNoConflicts(table: Table, initial: Target, source: seq<SourceRow>)
    requires Ascending(source) && UniqueKeys(initial)
    ensures NoConflicts(table, initial, source) <==>
            forall k :: 0 <= k < |source| && Convert(table, source[k]).Some?
                    ==> Arrived(table, initial, InsertAll(table, initial, source), source[k])
  {
    var target := InsertAll(table, initial, source);
    if NoConflicts(table, initial, source) {
      forall k | 0 <= k < |source| && Convert(table, source[k]).Some? ensures Arrived(table, initial, target, source[k]) {
        WithoutConflictsAllArrive(table, initial, source, k);
      }
    } else if forall k :: 0 <= k < |source| && Convert(table, source[k]).Some? ==> Arrived(table, initial, target, source[k]) {
      OnlyImagesAreAdded(table, initial, source);
      ArrivalsDoNotConflict(table, initial, target, source);
    }
  }

  // ---------------------------------------------------------------- what a migrated row holds

  /** The row is migrated at all: of the tasks only those with an id and a stock. */
  predicate IsValid(table: Table, row: SourceRow) {
    table == AnalysisTasks ==> row.taskId != "" && row.stockCode != ""
  }

  /** The new row holds the legacy row's values. A task carries its id as a unique key, and a status other than the four
      known ones becomes pending. */
  ghost predicate HoldsValues(table: Table, row: SourceRow, copied: TargetRow) {
    && copied.stockCode == row.stockCode
    && match table
       case AnalysisHistory => copied.key == None && copied.status == row.status
       case AnalysisTasks =>
         && copied.key == Some(row.taskId)
         && if row.status in ["pending", "processing", "completed", "failed"] then copied.status == row.status else copied.status == "pending"
  }

  lemma ConvertMeans(table: Table, row: SourceRow)
    ensures Convert(table, row).Some? <==> IsValid(table, row)
    ensures forall copied :: Convert(table, row) == Some(copied) <==> IsValid(table, row) && HoldsValues(table, row, copied)
  {}

  /** Rows that were there stay, and every other row holds the values of the valid legacy row with its id. */
  ghost predicate OnlyMigrated(table: Table, before: Target, after: Target, source: seq<SourceRow>) {
    && (forall id :: id in before ==> id in after && after[id] == before[id])
    && forall id :: id in after && id !in before ==>
         exists i :: 0 <= i < |source| && source[i].id == id && IsValid(table, source[i]) && HoldsValues(table, source[i], after[id])
  }

  lemma InsertAllMigratesOnly(table: Table, initial: Target, source: seq<SourceRow>)
    ensures OnlyMigrated(table, initial, InsertAll(table, initial, source), source)
  {
    OnlyImagesAreAdded(table, initial, source);
    var target := InsertAll(table, initial, source);
    hide Convert, IsValid, HoldsValues, InsertAll;
    forall id | id in target && id !in initial
      ensures exists i :: 0 <= i < |source| && source[i].id == id && IsValid(table, source[i]) && HoldsValues(table, source[i], target[id])
    {
      var i :| 0 <= i < |source| && source[i].id == id && Convert(table, source[i]) == Some(target[id]);
      ConvertMeans(table, source[i]);
    }
  }

  /** No valid row meets a row already there, by id or by task id, and no two valid tasks share a task id. */
  ghost predicate NoneCollide(table: Table, initial: Target, source: seq<SourceRow>) {
    && (forall i :: 0 <= i < |source| && IsValid(table, source[i]) ==> source[i].id !in initial)
    && (table == AnalysisTasks ==>
          && (forall i, id :: 0 <= i < |source| && IsValid(table, source[i]) && id in initial ==> initial[id].key != Some(source[i].taskId))
          && forall i, j :: 0 <= i < j < |source| && IsValid(table, source[i]) && IsValid(table, source[j]) ==> source[i].taskId != source[j].taskId)
  }

  lemma NoConflictsMeans(table: Table, initial: Target, source: seq<SourceRow>)
    ensures NoConflicts(table, initial, source) <==> NoneCollide(table, initial, source)
  {}

  ghost predicate Delivered(table: Table, initial: Target, target: Target, row: SourceRow) {
    row.id !in initial && row.id in target && HoldsValues(table, row, target[row.id])
  }

  ghost predicate AllDelivered(table: Table, initial: Target, target: Target, source: seq<SourceRow>) {
    forall k :: 0 <= k < |source| && IsValid(table, source[k]) ==> Delivered(table, initial, target, source[k])
  }

  /** Every valid legacy row arrives with its values exactly when none collide. */
  lemma EveryValidRowIsDeliveredIff(table: Table, initial: Target, source: seq<SourceRow>)
    requires Ascending(source) && UniqueKeys(initial)
    ensures NoneCollide(table, initial, source) <==> AllDelivered(table, initial, InsertAll(table, initial, source), source)
  {
    NoConflictsMeans(table, initial, source);
    EveryValidRowArrivesIffNoConflicts(table, initial, source);
    hide Convert, IsValid, HoldsValues, InsertAll, NoConflicts, NoneCollide;
    forall k | 0 <= k < |source|
      ensures Convert(table, source[k]).Some? <==> IsValid(table, source[k])
      ensures IsValid(table, source[k]) ==>
                (Arrived(table, initial, InsertAll(table, initial, source), source[k])
                 <==> Delivered(table, initial, InsertAll(table, initial, source), source[k]))
    {
      ConvertMeans(table, source[k]);
    }
  }

  lemma WholeInsertMeans(table: Table, initial: Target, source: seq<SourceRow>)
    requires Ascending(source)
    ensures OnlyMigrated(table, initial, InsertAll(table, initial, source), source)
    ensures UniqueKeys(initial) && NoneCollide(table, initial, source) ==>
              AllDelivered(table, initial, InsertAll(table, initial, source), source)
  {
    InsertAllMigratesOnly(table, initial, source);
    if UniqueKeys(initial) {
      EveryValidRowIsDeliveredIff(table, initial, source);
    }
  }
}
