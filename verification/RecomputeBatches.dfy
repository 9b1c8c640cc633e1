/** A full recomputation reads the eligible history rows in batches behind an id cursor. */
module RecomputeBatches {
  import opened Options
  import opened Basics
  import opened BacktestItems

  type RunAgent = seq<HistoryRow> -> RunReply

  predicate InScope(owner: Owner, scope: Owner) {
    scope.Some? ==> owner == scope
  }

  predicate IsEligible(row: HistoryRow, cutoff: int, scope: Owner) {
    row.createdAt <= cutoff && InScope(row.owner, scope)
  }

  function Eligible(history: seq<HistoryRow>, cutoff: int, scope: Owner): (rows: seq<HistoryRow>)
    ensures forall r :: r in rows <==> r in history && r.createdAt <= cutoff && (scope == None || r.owner == scope)
  {
    if history == [] then []
    else if IsEligible(history[0], cutoff, scope) then [history[0]] + Eligible(history[1..], cutoff, scope)
    else Eligible(history[1..], cutoff, scope)
  }

  function Above(rows: seq<HistoryRow>, cursor: nat): seq<HistoryRow> {
    if rows == [] then [] else (if rows[0].id > cursor then [rows[0]] else []) + Above(rows[1..], cursor)
  }

  /** The batch query: eligible rows above the cursor, in id order, at most `size` of them. */
  function QueryBatch(history: seq<HistoryRow>, cutoff: int, scope: Owner, cursor: nat, size: nat): seq<HistoryRow> {
    Take(Above(Eligible(history, cutoff, scope), cursor), size)
  }

  lemma {:induction false} EligibleAscends(history: seq<HistoryRow>, cutoff: int, scope: Owner)
    requires Ascending(history)
    ensures Ascending(Eligible(history, cutoff, scope))
  {
    if history != [] {
      EligibleAscends(history[1..], cutoff, scope);
      assert forall r :: r in history[1..] ==> history[0].id < r.id;
    }
  }

  lemma {:induction false} AboveAll(rows: seq<HistoryRow>, cursor: nat)
    requires forall r :: r in rows ==> r.id > cursor
    ensures Above(rows, cursor) == rows
  {
    if rows != [] {
      AboveAll(rows[1..], cursor);
    }
  }

  /** The cursor left after `done` rows selects exactly the remaining ones. */
  lemma {:induction false} AboveCursor(rows: seq<HistoryRow>, done: nat, cursor: nat)
    requires Ascending(rows) && done <= |rows|
    requires done > 0 ==> cursor == rows[done - 1].id
    requires done == 0 ==> forall r :: r in rows ==> r.id > cursor
    ensures Above(rows, cursor) == rows[done..]
    decreases done
  {
    if done == 0 {
      AboveAll(rows, cursor);
    } else {
      assert rows[0].id <= rows[done - 1].id;
      if done > 1 {
        assert rows[1..][done - 2] == rows[done - 1];
        AboveCursor(rows[1..], done - 1, cursor);
      } else {
        assert forall r :: r in rows[1..] ==> r.id > cursor;
        AboveAll(rows[1..], cursor);
      }
      assert rows[1..][done - 1..] == rows[done..];
    }
  }

  lemma {:induction false} AboveAbove(rows: seq<HistoryRow>, cursor: nat, later: nat)
    requires cursor <= later
    ensures Above(Above(rows, cursor), later) == Above(rows, later)
  {
    if rows != [] {
      AboveAbove(rows[1..], cursor, later);
      if rows[0].id > cursor {
        assert Above(rows, cursor) == [rows[0]] + Above(rows[1..], cursor);
        assert Above(rows, cursor)[1..] == Above(rows[1..], cursor);
      } else {
        assert Above(rows, cursor) == Above(rows[1..], cursor);
      }
    }
  }

  lemma {:induction false} AboveIsAbove(rows: seq<HistoryRow>, cursor: nat)
    ensures forall r :: r in Above(rows, cursor) ==> r in rows && r.id > cursor
  {
    if rows != [] {
      AboveIsAbove(rows[1..], cursor);
    }
  }

  lemma {:induction false} AboveAscends(rows: seq<HistoryRow>, cursor: nat)
    requires Ascending(rows)
    ensures Ascending(Above(rows, cursor))
  {
    if rows != [] {
      AboveAscends(rows[1..], cursor);
      AboveIsAbove(rows[1..], cursor);
      assert forall r :: r in rows[1..] ==> rows[0].id < r.id;
    }
  }

  /** Moving the cursor to the last row of a batch leaves exactly the rows after the batch. */
  lemma NextAbove(rows: seq<HistoryRow>, cursor: nat, count: nat)
    requires Ascending(rows) && 0 < count <= |Above(rows, cursor)|
    ensures Above(rows, Above(rows, cursor)[count - 1].id) == Above(rows, cursor)[count..]
  {
    var todo := Above(rows, cursor);
    AboveAscends(rows, cursor);
    AboveIsAbove(rows, cursor);
    assert todo[count - 1] in todo;
    AboveAbove(rows, cursor, todo[count - 1].id);
    AboveCursor(todo, count, todo[count - 1].id);
  }

  // ---------------------------------------------------------------- batches

  /** The Agent is not asked about an empty batch. */
  function ReplyTo(agent: RunAgent, candidates: seq<HistoryRow>): RunReply {
    if candidates == [] then RunReply(0, []) else agent(candidates)
  }

  function ExecuteBatch(batch: Batch, agent: RunAgent, candidates: seq<HistoryRow>, config: Config): Batch {
    var reply := ReplyTo(agent, candidates);
    var start := WithErrors(Batch(batch.results, NOTHING, map[]), reply.errors);
    var done := FoldItems(start, candidates, config, reply.items);
    Batch(done.results, batch.counters.Plus(done.counters), Merge(batch.touched, done.touched))
  }

  function Batches(batch: Batch, agent: RunAgent, rows: seq<HistoryRow>, size: nat, config: Config): Batch
    requires size >= 1
    decreases |rows|
  {
    if rows == [] then batch
    else
      var now := Take(rows, size);
      Batches(ExecuteBatch(batch, agent, now, config), agent, rows[|now|..], size, config)
  }

  lemma BatchesUnfold(batch: Batch, agent: RunAgent, rows: seq<HistoryRow>, size: nat, config: Config)
    requires size >= 1
    ensures Batches(batch, agent, rows, size, config)
              == if rows == [] then batch
                 else Batches(ExecuteBatch(batch, agent, Take(rows, size), config), agent, rows[|Take(rows, size)|..], size, config)
  {}

  ghost predicate EchoesRows(agent: RunAgent, history: seq<HistoryRow>) {
    forall candidates, i :: Subset(candidates, history) && 0 <= i < |ReplyTo(agent, candidates).items| ==>
      Echoes(candidates, ReplyTo(agent, candidates).items[i])
  }

  lemma CoveredTransitively(
      before: Results, mid: Results, after: Results, config: Config, first: Touched, second: Touched)
    requires Covered(before, mid, config, first) && Covered(mid, after, config, second)
    ensures Covered(before, after, config, Merge(first, second))
  {}

  lemma BatchIsCovered(
      before: Results, batch: Batch, agent: RunAgent, history: seq<HistoryRow>, rows: seq<HistoryRow>, config: Config)
    requires Ascending(history) && Subset(rows, history) && EchoesRows(agent, history)
    requires Coherent(history, batch.results, config) && Covered(before, batch.results, config, batch.touched)
    ensures var after := ExecuteBatch(batch, agent, rows, config);
            Coherent(history, after.results, config) && Covered(before, after.results, config, after.touched)
  {
    var reply := ReplyTo(agent, rows);
    var start := WithErrors(Batch(batch.results, NOTHING, map[]), reply.errors);
    EchoedFoldIsCovered(batch.results, start.counters, history, rows, config, reply.items);
    var done := FoldItems(start, rows, config, reply.items);
    CoveredTransitively(before, batch.results, done.results, config, batch.touched, done.touched);
  }

  /** All batches together change only rows under touched keys, and keep the rows coherent with the history. */
  lemma {:induction false} BatchesAreCovered(
      before: Results, batch: Batch, agent: RunAgent, history: seq<HistoryRow>, rows: seq<HistoryRow>, size: nat,
      config: Config)
    requires size >= 1 && Ascending(history) && Subset(rows, history) && EchoesRows(agent, history)
    requires Coherent(history, batch.results, config) && Covered(before, batch.results, config, batch.touched)
    ensures var after := Batches(batch, agent, rows, size, config);
            Coherent(history, after.results, config) && Covered(before, after.results, config, after.touched)
    decreases |rows|
  {
    if rows != [] {
      var now := Take(rows, size);
      BatchIsCovered(before, batch, agent, history, now, config);
      BatchesAreCovered(before, ExecuteBatch(batch, agent, now, config), agent, history, rows[|now|..], size, config);
    }
  }

  /** Nothing saved means nothing changed. */
  lemma {:induction false} NothingSavedNothingChanged(
      batch: Batch, candidates: seq<HistoryRow>, config: Config, items: seq<Item>)
    ensures var after := FoldItems(batch, candidates, config, items);
            && after.counters.saved >= batch.counters.saved
            && (after.counters.saved == batch.counters.saved ==> after.results == batch.results)
  {
    if items != [] {
      NothingSavedNothingChanged(batch, candidates, config, items[..|items| - 1]);
    }
  }

  lemma {:induction false} NothingSavedInAnyBatch(
      batch: Batch, agent: RunAgent, rows: seq<HistoryRow>, size: nat, config: Config)
    requires size >= 1
    ensures var after := Batches(batch, agent, rows, size, config);
            && after.counters.saved >= batch.counters.saved
            && (after.counters.saved == batch.counters.saved ==> after.results == batch.results)
    decreases |rows|
  {
    if rows != [] {
      var now := Take(rows, size);
      var start := WithErrors(Batch(batch.results, NOTHING, map[]), ReplyTo(agent, now).errors);
      NothingSavedNothingChanged(start, now, config, ReplyTo(agent, now).items);
      NothingSavedInAnyBatch(ExecuteBatch(batch, agent, now, config), agent, rows[|now|..], size, config);
    }
  }

  // ---------------------------------------------------------------- what the batches leave behind

  /** The b-th batch of the rows. */
  function BatchOf(rows: seq<HistoryRow>, size: nat, b: nat): seq<HistoryRow> {
    rows[Min(b * size, |rows|)..Min(b * size + size, |rows|)]
  }

  lemma FirstBatch(rows: seq<HistoryRow>, size: nat)
    requires size >= 1
    ensures BatchOf(rows, size, 0) == Take(rows, size)
  {}

  lemma LaterBatch(rows: seq<HistoryRow>, size: nat, b: nat)
    requires size >= 1
    ensures BatchOf(rows, size, b + 1) == BatchOf(rows[|Take(rows, size)|..], size, b)
  {
    assert (b + 1) * size == b * size + size;
  }

  /** Each result holds the last item saved on it in the reply to this batch. */
  ghost predicate BatchStands(after: Results, agent: RunAgent, batch: seq<HistoryRow>, config: Config) {
    forall i, id: nat :: IsLastSave(batch, ReplyTo(agent, batch).items, i, id) ==>
      ResultKey(id, config) in after && Holds(batch, ReplyTo(agent, batch).items[i], after[ResultKey(id, config)])
  }

  ghost predicate NoBatchSavesOn(agent: RunAgent, rows: seq<HistoryRow>, size: nat, id: nat) {
    forall b: nat :: NothingSavedOn(BatchOf(rows, size, b), ReplyTo(agent, BatchOf(rows, size, b)).items, id)
  }

  /** The last writer wins in every batch, and a result that no batch saved on is as before. */
  ghost predicate BatchesStand(before: Results, after: Results, agent: RunAgent, rows: seq<HistoryRow>, size: nat, config: Config) {
    && (forall b: nat :: BatchStands(after, agent, BatchOf(rows, size, b), config))
    && forall key: ResultKey :: key.config != config || NoBatchSavesOn(agent, rows, size, key.history) ==> SameAt(before, after, key)
  }

  lemma {:induction false} BatchesLeaveLastSaves(batch: Batch, agent: RunAgent, rows: seq<HistoryRow>, size: nat, config: Config)
    requires size >= 1 && Ascending(rows)
    ensures BatchesStand(batch.results, Batches(batch, agent, rows, size, config).results, agent, rows, size, config)
    decreases |rows|
  {
    hide LastSavesStand, BatchStands, NoBatchSavesOn, IsLastSave, BatchOf, SameAt;
    if rows == [] {
      NothingInNoBatch(batch.results, agent, size, config);
    } else {
      var now := Take(rows, size);
      var later := rows[|now|..];
      assert rows == now + later;
      var items := ReplyTo(agent, now).items;
      var mid := ExecuteBatch(batch, agent, now, config);
      var after := Batches(mid, agent, later, size, config).results;
      LastSavesStandInAFold(WithErrors(Batch(batch.results, NOTHING, map[]), ReplyTo(agent, now).errors), now, config, items);
      BatchesLeaveLastSaves(mid, agent, later, size, config);
      FirstBatch(rows, size);
      FirstBatchStands(batch.results, mid.results, after, agent, now, later, size, config);
      forall b: nat ensures BatchStands(after, agent, BatchOf(rows, size, b), config) {
        if b > 0 {
          LaterBatch(rows, size, b - 1);
        }
      }
      forall key: ResultKey | key.config != config || NoBatchSavesOn(agent, rows, size, key.history) ensures SameAt(batch.results, after, key) {
        UnsavedInTwoParts(batch.results, mid.results, after, agent, rows, now, later, size, config, key);
      }
    }
  }

  lemma NothingInNoBatch(results: Results, agent: RunAgent, size: nat, config: Config)
    ensures BatchesStand(results, results, agent, [], size, config)
  {}

  /** No later batch saves on a row of the first one. */
  lemma FirstBatchStands(before: Results, mid: Results, after: Results, agent: RunAgent, now: seq<HistoryRow>, later: seq<HistoryRow>,
                         size: nat, config: Config)
    requires Ascending(now + later)
    requires LastSavesStand(before, mid, now, config, ReplyTo(agent, now).items)
    requires BatchesStand(mid, after, agent, later, size, config)
    ensures BatchStands(after, agent, now, config)
  {
    hide BatchOf;
    var items := ReplyTo(agent, now).items;
    forall i, id: nat | IsLastSave(now, items, i, id)
      ensures ResultKey(id, config) in after && Holds(now, items[i], after[ResultKey(id, config)])
    {
      NamedNowIsNotLater(now, later, items[i], id);
      forall b: nat ensures NothingSavedOn(BatchOf(later, size, b), ReplyTo(agent, BatchOf(later, size, b)).items, id) {
        BatchIsOfRows(later, size, b);
      }
      assert SameAt(mid, after, ResultKey(id, config));
    }
  }

  lemma BatchIsOfRows(rows: seq<HistoryRow>, size: nat, b: nat)
    ensures forall c :: c in BatchOf(rows, size, b) ==> c in rows
  {}

  lemma NamedNowIsNotLater(now: seq<HistoryRow>, later: seq<HistoryRow>, item: Item, id: nat)
    requires Ascending(now + later) && Names(now, item, id)
    ensures forall c :: c in later ==> c.id != id
  {
    var c :| c in now && c.id == id;
    var i :| 0 <= i < |now| && now[i] == c;
    forall d | d in later ensures d.id != id {
      var j :| 0 <= j < |later| && later[j] == d;
      assert (now + later)[i] == c && (now + later)[|now| + j] == d;
    }
  }

  lemma UnsavedInTwoParts(before: Results, mid: Results, after: Results, agent: RunAgent, rows: seq<HistoryRow>, now: seq<HistoryRow>,
                          later: seq<HistoryRow>, size: nat, config: Config, key: ResultKey)
    requires size >= 1 && now == Take(rows, size) && later == rows[|now|..]
    requires LastSavesStand(before, mid, now, config, ReplyTo(agent, now).items)
    requires BatchesStand(mid, after, agent, later, size, config)
    requires key.config != config || NoBatchSavesOn(agent, rows, size, key.history)
    ensures SameAt(before, after, key)
  {
    hide BatchOf, Take;
    if key.config == config {
      FirstBatch(rows, size);
      assert NothingSavedOn(BatchOf(rows, size, 0), ReplyTo(agent, BatchOf(rows, size, 0)).items, key.history);
      forall b: nat ensures NothingSavedOn(BatchOf(later, size, b), ReplyTo(agent, BatchOf(later, size, b)).items, key.history) {
        LaterBatch(rows, size, b);
        assert NothingSavedOn(BatchOf(rows, size, b + 1), ReplyTo(agent, BatchOf(rows, size, b + 1)).items, key.history);
      }
    }
  }

  // ---------------------------------------------------------------- independence of the batch size

  /** What an Agent that answers row by row says about one row. */
  type RowAgent = HistoryRow -> RunReply

  function Concat(agent: RowAgent, rows: seq<HistoryRow>): RunReply {
    if rows == [] then RunReply(0, [])
    else
      var first := agent(rows[0]);
      var rest := Concat(agent, rows[1..]);
      RunReply(first.errors + rest.errors, first.items + rest.items)
  }

  /** The reply to any batch is the concatenation of its rows' replies, and each item names its own row. */
  ghost predicate AnswersRowByRow(agent: RunAgent, rowAgent: RowAgent) {
    && (forall rows :: agent(rows) == Concat(rowAgent, rows))
    && (forall row, i :: 0 <= i < |rowAgent(row).items| ==> rowAgent(row).items[i].historyId == row.id)
  }

  lemma {:induction false} ConcatAppend(agent: RowAgent, first: seq<HistoryRow>, second: seq<HistoryRow>)
    ensures var a := Concat(agent, first); var b := Concat(agent, second);
            Concat(agent, first + second) == RunReply(a.errors + b.errors, a.items + b.items)
  {
    if first == [] {
      assert first + second == second;
    } else {
      assert (first + second)[0] == first[0] && (first + second)[1..] == first[1..] + second;
      ConcatAppend(agent, first[1..], second);
    }
  }

  lemma {:induction false} ItemsNameTheirRows(agent: RowAgent, rows: seq<HistoryRow>, i: nat)
    requires forall row, j :: 0 <= j < |agent(row).items| ==> agent(row).items[j].historyId == row.id
    requires i < |Concat(agent, rows).items|
    ensures exists row :: row in rows && row.id == Concat(agent, rows).items[i].historyId
  {
    var first := agent(rows[0]).items;
    if i < |first| {
      assert rows[0] in rows && rows[0].id == Concat(agent, rows).items[i].historyId;
    } else {
      ItemsNameTheirRows(agent, rows[1..], i - |first|);
      var row :| row in rows[1..] && row.id == Concat(agent, rows[1..]).items[i - |first|].historyId;
      assert row in rows;
    }
  }

  lemma SameRowFound(some: seq<HistoryRow>, all: seq<HistoryRow>, id: nat)
    requires Ascending(all) && Subset(some, all)
    requires exists row :: row in some && row.id == id
    ensures Find(some, id) == Find(all, id)
  {}

  /** One batch of a row-by-row Agent adds exactly its rows' items, resolved against all rows, and errors. */
  lemma BatchIsItsRows(batch: Batch, agent: RunAgent, rowAgent: RowAgent, some: seq<HistoryRow>, all: seq<HistoryRow>, config: Config)
    requires AnswersRowByRow(agent, rowAgent) && Ascending(all) && Subset(some, all)
    ensures var reply := Concat(rowAgent, some);
            ExecuteBatch(batch, agent, some, config)
              == FoldItems(WithErrors(batch, reply.errors), all, config, reply.items)
  {
    var reply := Concat(rowAgent, some);
    assert ReplyTo(agent, some) == reply;
    var start := WithErrors(Batch(batch.results, NOTHING, map[]), reply.errors);
    forall i | 0 <= i < |reply.items|
      ensures CandidateOf(some, reply.items[i]) == CandidateOf(all, reply.items[i])
    {
      ItemsNameTheirRows(rowAgent, some, i);
      var row :| row in some && row.id == reply.items[i].historyId;
      SameRowFound(some, all, row.id);
    }
    FoldSameCandidates(start, some, all, config, reply.items);
    var alone := FoldItems(Batch(batch.results, NOTHING, map[]), all, config, reply.items);
    FoldFromTotals(start, all, config, reply.items);
    FoldFromTotals(WithErrors(batch, reply.errors), all, config, reply.items);
    EmptyMerge(alone.touched);
  }

  lemma EmptyMerge(touched: Touched)
    ensures Merge(map[], touched) == touched
  {
    forall owner ensures CodesOf(Merge(map[], touched), owner) == CodesOf(touched, owner) {
      MergeCodes(map[], touched, owner);
    }
    SameTouched(Merge(map[], touched), touched);
  }

  lemma FoldTwoParts(batch: Batch, first: RunReply, second: RunReply, all: seq<HistoryRow>, config: Config)
    ensures FoldItems(WithErrors(FoldItems(WithErrors(batch, first.errors), all, config, first.items), second.errors),
                      all, config, second.items)
              == FoldItems(WithErrors(batch, first.errors + second.errors), all, config, first.items + second.items)
  {
    FoldWithErrors(WithErrors(batch, first.errors), second.errors, all, config, first.items);
    assert WithErrors(WithErrors(batch, first.errors), second.errors) == WithErrors(batch, first.errors + second.errors);
    FoldConcat(WithErrors(batch, first.errors + second.errors), all, config, first.items, second.items);
  }

  ghost predicate IsOneFold(
      batch: Batch, rowAgent: RowAgent, rows: seq<HistoryRow>, all: seq<HistoryRow>, config: Config, result: Batch)
  {
    var reply := Concat(rowAgent, rows);
    result == FoldItems(WithErrors(batch, reply.errors), all, config, reply.items)
  }

  lemma FoldsChain(
      batch: Batch, rowAgent: RowAgent, now: seq<HistoryRow>, later: seq<HistoryRow>, all: seq<HistoryRow>, config: Config,
      mid: Batch, result: Batch)
    requires IsOneFold(batch, rowAgent, now, all, config, mid)
    requires IsOneFold(mid, rowAgent, later, all, config, result)
    ensures IsOneFold(batch, rowAgent, now + later, all, config, result)
  {
    ConcatAppend(rowAgent, now, later);
    FoldTwoParts(batch, Concat(rowAgent, now), Concat(rowAgent, later), all, config);
  }

  /** Whatever the batch size, a row-by-row Agent leaves the results, totals and touched keys of one single fold
      over all eligible rows. */
  lemma {:induction false} BatchSizeDoesNotMatter(
      batch: Batch, agent: RunAgent, rowAgent: RowAgent, rows: seq<HistoryRow>, all: seq<HistoryRow>, size: nat, config: Config)
    requires size >= 1 && AnswersRowByRow(agent, rowAgent) && Ascending(all) && Subset(rows, all)
    ensures IsOneFold(batch, rowAgent, rows, all, config, Batches(batch, agent, rows, size, config))
    decreases |rows|
  {
    if rows != [] {
      var now := Take(rows, size);
      var later := rows[|now|..];
      assert rows == now + later;
      var mid := ExecuteBatch(batch, agent, now, config);
      BatchIsItsRows(batch, agent, rowAgent, now, all, config);
      BatchSizeDoesNotMatter(mid, agent, rowAgent, later, all, size, config);
      FoldsChain(batch, rowAgent, now, later, all, config, mid, Batches(mid, agent, later, size, config));
    }
  }
}
