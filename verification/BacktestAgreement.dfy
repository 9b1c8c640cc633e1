/**
 When an incremental run, or a recomputation for one owner, keeps the summaries right. Both rewrite the owner
 and code of a result row from its history row but refresh only the summaries of the new owner and code.
 */
module BacktestAgreement {
  import opened Options
  import opened Basics
  import opened BacktestItems
  import opened RecomputeBatches
  import opened BacktestSummaries

  function Outcome(agent: RunAgent, results: Results, candidates: seq<HistoryRow>, config: Config): Batch {
    var reply := ReplyTo(agent, candidates);
    FoldItems(WithErrors(Batch(results, NOTHING, map[]), reply.errors), candidates, config, reply.items)
  }

  /** The result table and the summaries after a run. */
  ghost predicate RunEnds(summaryAgent: SummaryAgent, runAgent: RunAgent, results: Results, summaries: Summaries,
                          candidates: seq<HistoryRow>, config: Config, after: Results, resummarised: Summaries)
  {
    var outcome := Outcome(runAgent, results, candidates, config);
    && after == outcome.results
    && if outcome.counters.saved > 0
       then Resummarised(summaryAgent, after, summaries, resummarised, outcome.touched, config)
       else resummarised == summaries
  }

  /** Whatever honest Agents answer, a run of these candidates keeps agreement. */
  ghost predicate RunsKeepAgreement(history: seq<HistoryRow>, candidates: seq<HistoryRow>, results: Results, config: Config) {
    forall summaryAgent, runAgent, summaries, after, resummarised ::
      && EchoesKeys(summaryAgent) && EchoesRows(runAgent, history)
      && Agrees(summaryAgent, results, summaries, config)
      && RunEnds(summaryAgent, runAgent, results, summaries, candidates, config, after, resummarised)
      ==> Agrees(summaryAgent, after, resummarised, config)
  }

  /** What the candidate query guarantees without `force`: no candidate has a result of this configuration yet. */
  ghost predicate Unforced(results: Results, config: Config, candidates: seq<HistoryRow>) {
    forall c :: c in candidates ==> ResultKey(c.id, config) !in results
  }

  /** The stored row would move away from the summary of another stored row: its history row has another
      owner, or another code, and the other row shares what it leaves. */
  ghost predicate Strands(results: Results, config: Config, key: ResultKey, h: HistoryRow, other: ResultKey) {
    && key in results && other in results && other != key && key.config == other.config == config && h.id == key.history
    && results[other].owner == results[key].owner
    && (h.owner != results[key].owner || (h.code != results[key].code && results[other].code == results[key].code))
  }

  ghost predicate NothingStrands(rows: seq<HistoryRow>, results: Results, config: Config) {
    forall key, h, other :: h in rows ==> !Strands(results, config, key, h, other)
  }

  // ---------------------------------------------------------------- kept

  ghost predicate WrittenFrom(candidates: seq<HistoryRow>, config: Config, touched: Touched, key: ResultKey, row: ResultRow) {
    && key.config == config && IsTouched(touched, row)
    && exists c :: c in candidates && c.id == key.history && c.owner == row.owner && c.code == row.code
  }

  /** Rows are only added or rewritten from candidates, and what they are then is touched. */
  ghost predicate Marked(before: Results, after: Results, candidates: seq<HistoryRow>, config: Config, touched: Touched) {
    && (forall key :: key in before ==> key in after)
    && forall key :: key in after ==>
         (key in before && before[key] == after[key]) || WrittenFrom(candidates, config, touched, key, after[key])
  }

  lemma {:induction false} EchoedFoldIsMarked(
      results: Results, counters: Counters, candidates: seq<HistoryRow>, config: Config, items: seq<BacktestItems.Item>)
    requires forall i :: 0 <= i < |items| ==> Echoes(candidates, items[i])
    ensures var after := FoldItems(Batch(results, counters, map[]), candidates, config, items);
            Marked(results, after.results, candidates, config, after.touched)
  {
    if items != [] {
      var last := |items| - 1;
      EchoedFoldIsMarked(results, counters, candidates, config, items[..last]);
      StepIsMarked(results, FoldItems(Batch(results, counters, map[]), candidates, config, items[..last]), candidates, config, items[last]);
    }
  }

  lemma StepIsMarked(results: Results, mid: Batch, candidates: seq<HistoryRow>, config: Config, item: BacktestItems.Item)
    requires Echoes(candidates, item) && Marked(results, mid.results, candidates, config, mid.touched)
    ensures var after := ItemStep(mid, candidates, config, item);
            Marked(results, after.results, candidates, config, after.touched)
  {}

  lemma LeavingStrands(
      before: Results, after: Results, candidates: seq<HistoryRow>, config: Config, touched: Touched,
      k: ResultKey, needed: ResultKey, key: SummaryKey)
    requires k in after && k in before && k in RowsFor(before, key) && WrittenFrom(candidates, config, touched, k, after[k])
    requires needed in before && needed.config == config && needed != k && !IsTouchedKey(touched, config, key)
    requires key == OverallKey(before[needed], config) || key == StockKey(before[needed], config)
    ensures exists c :: c in candidates && Strands(before, config, k, c, needed)
  {}

  /** The rows of an untouched summary that a stored row still needs are the same before and after. */
  lemma NeededRowsStay(
      before: Results, after: Results, candidates: seq<HistoryRow>, config: Config, touched: Touched,
      needed: ResultKey, key: SummaryKey)
    requires NothingStrands(candidates, before, config) && Marked(before, after, candidates, config, touched)
    requires needed in after && needed.config == config && !IsTouchedKey(touched, config, key)
    requires key == OverallKey(after[needed], config) || key == StockKey(after[needed], config)
    ensures needed in before && before[needed] == after[needed]
    ensures RowsFor(after, key) == RowsFor(before, key)
  {
    assert !IsTouched(touched, after[needed]);
    forall k ensures k in RowsFor(after, key) <==> k in RowsFor(before, key) {
      if k in after && WrittenFrom(candidates, config, touched, k, after[k]) {
        assert k !in RowsFor(after, key);
        if k in RowsFor(before, key) {
          LeavingStrands(before, after, candidates, config, touched, k, needed, key);
        }
      }
    }
    forall k | k in RowsFor(after, key) ensures RowsFor(after, key)[k] == RowsFor(before, key)[k] {
      assert !WrittenFrom(candidates, config, touched, k, after[k]);
    }
  }

  lemma NothingStrandedIsEnough(
      agent: SummaryAgent, before: Results, after: Results, summaries: Summaries, resummarised: Summaries,
      candidates: seq<HistoryRow>, config: Config, touched: Touched)
    requires NothingStrands(candidates, before, config) && Marked(before, after, candidates, config, touched)
    requires Agrees(agent, before, summaries, config) && Resummarised(agent, after, summaries, resummarised, touched, config)
    ensures Agrees(agent, after, resummarised, config)
  {
    hide Marked, NothingStrands, IsTouchedKey;
    forall k, key | k in after && k.config == config && (key == OverallKey(after[k], config) || key == StockKey(after[k], config))
      ensures UpToDate(agent, after, resummarised, key)
    {
      if !IsTouchedKey(touched, config, key) {
        NeededRowsStay(before, after, candidates, config, touched, k, key);
        assert UpToDate(agent, before, summaries, key);
      }
    }
  }

  // ---------------------------------------------------------------- recomputation

  function KeepResults(results: Results, config: Config, scope: Owner): (kept: Results)
    ensures forall k :: if k in results && (k.config != config || (scope != None && results[k].owner != scope))
                        then k in kept && kept[k] == results[k] else k !in kept
  {
    map k | k in results && !(k.config == config && InScope(results[k].owner, scope)) :: results[k]
  }

  function KeepSummaries(summaries: Summaries, config: Config, scope: Owner): (kept: Summaries)
    ensures forall k :: if k in summaries && (k.config != config || (scope != None && k.owner != scope))
                        then k in kept && kept[k] == summaries[k] else k !in kept
  {
    map k | k in summaries && !(k.config == config && InScope(k.owner, scope)) :: summaries[k]
  }

  /** Rows outside the scope keep all their summaries, and those still count the same rows. */
  lemma DeletionKeepsAgreement(
      agent: SummaryAgent, results: Results, summaries: Summaries, config: Config, scope: Owner, observed: Config)
    requires Agrees(agent, results, summaries, observed)
    ensures Agrees(agent, KeepResults(results, config, scope), KeepSummaries(summaries, config, scope), observed)
  {
    var left := KeepResults(results, config, scope);
    forall k | k in left && k.config == observed
      ensures UpToDate(agent, left, KeepSummaries(summaries, config, scope), OverallKey(left[k], observed))
      ensures UpToDate(agent, left, KeepSummaries(summaries, config, scope), StockKey(left[k], observed))
    {
      assert RowsFor(left, OverallKey(left[k], observed)) == RowsFor(results, OverallKey(left[k], observed));
      assert RowsFor(left, StockKey(left[k], observed)) == RowsFor(results, StockKey(left[k], observed));
      assert UpToDate(agent, results, summaries, OverallKey(left[k], observed));
      assert UpToDate(agent, results, summaries, StockKey(left[k], observed));
    }
  }

  /** What a recomputation of these rows, in batches, leaves behind after the deletion. */
  ghost predicate RecomputeEnds(summaryAgent: SummaryAgent, runAgent: RunAgent, results: Results, summaries: Summaries,
                                rows: seq<HistoryRow>, size: nat, config: Config, scope: Owner,
                                after: Results, resummarised: Summaries)
    requires size >= 1
  {
    var outcome := Batches(Batch(KeepResults(results, config, scope), NOTHING, map[]), runAgent, rows, size, config);
    && after == outcome.results
    && if outcome.counters.saved > 0
       then Resummarised(summaryAgent, after, KeepSummaries(summaries, config, scope), resummarised, outcome.touched, config)
       else resummarised == KeepSummaries(summaries, config, scope)
  }

  /** For all honest Agents and batch sizes the recomputation ends in agreement: from agreement, or over all owners from anything. */
  ghost predicate RecomputationsEndInAgreement(history: seq<HistoryRow>, results: Results, config: Config, cutoff: int, scope: Owner) {
    forall summaryAgent, runAgent, summaries, size: nat, after, resummarised ::
      && size >= 1 && EchoesKeys(summaryAgent) && EchoesRows(runAgent, history)
      && (scope.None? || Agrees(summaryAgent, results, summaries, config))
      && RecomputeEnds(summaryAgent, runAgent, results, summaries, Eligible(history, cutoff, scope), size, config, scope, after, resummarised)
      ==> Agrees(summaryAgent, after, resummarised, config)
  }

  lemma MarkedTransitively(before: Results, mid: Results, after: Results, all: seq<HistoryRow>, now: seq<HistoryRow>,
                           config: Config, first: Touched, second: Touched)
    requires Marked(before, mid, all, config, first) && Marked(mid, after, now, config, second) && Subset(now, all)
    ensures Marked(before, after, all, config, Merge(first, second))
  {
    forall row ensures IsTouched(first, row) || IsTouched(second, row) ==> IsTouched(Merge(first, second), row) {
      MergeCodes(first, second, row.owner);
    }
    forall key | key in after
      ensures (key in before && before[key] == after[key]) || WrittenFrom(all, config, Merge(first, second), key, after[key])
    {
      if key in mid && mid[key] == after[key] {
        assert (key in before && before[key] == mid[key]) || WrittenFrom(all, config, first, key, mid[key]);
      } else {
        assert WrittenFrom(now, config, second, key, after[key]);
      }
    }
  }

  lemma {:induction false} BatchesAreMarked(
      before: Results, batch: Batch, agent: RunAgent, history: seq<HistoryRow>, all: seq<HistoryRow>, rows: seq<HistoryRow>, size: nat,
      config: Config)
    requires size >= 1 && EchoesRows(agent, history) && Subset(all, history) && Subset(rows, all)
    requires Marked(before, batch.results, all, config, batch.touched)
    ensures var after := Batches(batch, agent, rows, size, config);
            Marked(before, after.results, all, config, after.touched)
    decreases |rows|
  {
    hide Marked, FoldItems, Merge;
    if rows != [] {
      var now := Take(rows, size);
      var reply := ReplyTo(agent, now);
      var start := WithErrors(Batch(batch.results, NOTHING, map[]), reply.errors);
      EchoedFoldIsMarked(batch.results, start.counters, now, config, reply.items);
      var done := FoldItems(start, now, config, reply.items);
      MarkedTransitively(before, batch.results, done.results, all, now, config, batch.touched, done.touched);
      BatchesAreMarked(before, ExecuteBatch(batch, agent, now, config), agent, history, all, rows[|now|..], size, config);
    }
  }

  lemma UnstrandedRecomputation(
      history: seq<HistoryRow>, summaryAgent: SummaryAgent, runAgent: RunAgent, results: Results, summaries: Summaries,
      rows: seq<HistoryRow>, size: nat, config: Config, scope: Owner, after: Results, resummarised: Summaries)
    requires size >= 1 && EchoesRows(runAgent, history) && Subset(rows, history)
    requires NothingStrands(rows, KeepResults(results, config, scope), config)
    requires scope.None? || Agrees(summaryAgent, results, summaries, config)
    requires RecomputeEnds(summaryAgent, runAgent, results, summaries, rows, size, config, scope, after, resummarised)
    ensures Agrees(summaryAgent, after, resummarised, config)
  {
    var kept, keptSummaries := KeepResults(results, config, scope), KeepSummaries(summaries, config, scope);
    if scope.Some? {
      DeletionKeepsAgreement(summaryAgent, results, summaries, config, scope, config);
    }
    assert Agrees(summaryAgent, kept, keptSummaries, config);
    hide NothingStrands, Agrees, Batches, Marked, Resummarised, KeepResults, KeepSummaries;
    var start := Batch(kept, NOTHING, map[]);
    NothingIsMarked(kept, rows, config);
    BatchesAreMarked(kept, start, runAgent, history, rows, rows, size, config);
    NothingSavedInAnyBatch(start, runAgent, rows, size, config);
    var outcome := Batches(start, runAgent, rows, size, config);
    if outcome.counters.saved > 0 {
      NothingStrandedIsEnough(summaryAgent, kept, after, keptSummaries, resummarised, rows, config, outcome.touched);
    }
  }

  lemma NothingIsMarked(results: Results, rows: seq<HistoryRow>, config: Config)
    ensures Marked(results, results, rows, config, map[])
  {}

  lemma OtherRowsStay(before: Results, after: Results, candidates: seq<HistoryRow>, config: Config, touched: Touched, key: SummaryKey)
    requires Marked(before, after, candidates, config, touched) && key.config != config
    ensures forall k: ResultKey :: k.config != config && k in after ==> k in before && before[k] == after[k]
    ensures RowsFor(after, key) == RowsFor(before, key)
  {}

  /** The summaries of another configuration are not concerned. */
  lemma OtherConfigsKeepAgreement(
      agent: SummaryAgent, before: Results, after: Results, summaries: Summaries, resummarised: Summaries,
      candidates: seq<HistoryRow>, config: Config, touched: Touched, observed: Config)
    requires Marked(before, after, candidates, config, touched) && observed != config
    requires Agrees(agent, before, summaries, observed) && Resummarised(agent, after, summaries, resummarised, touched, config)
    ensures Agrees(agent, after, resummarised, observed)
  {
    hide Marked, RowsFor;
    forall k, key | k in after && k.config == observed && (key == OverallKey(after[k], observed) || key == StockKey(after[k], observed))
      ensures UpToDate(agent, after, resummarised, key)
    {
      OtherRowsStay(before, after, candidates, config, touched, key);
      assert UpToDate(agent, before, summaries, key);
    }
  }

  lemma RunKeepsOtherConfigs(
      history: seq<HistoryRow>, summaryAgent: SummaryAgent, runAgent: RunAgent, results: Results, summaries: Summaries,
      candidates: seq<HistoryRow>, config: Config, after: Results, resummarised: Summaries, observed: Config)
    requires EchoesRows(runAgent, history) && Subset(candidates, history) && observed != config
    requires Agrees(summaryAgent, results, summaries, observed)
    requires RunEnds(summaryAgent, runAgent, results, summaries, candidates, config, after, resummarised)
    ensures Agrees(summaryAgent, after, resummarised, observed)
  {
    hide Agrees, FoldItems, Marked, Resummarised;
    var reply := ReplyTo(runAgent, candidates);
    var start := WithErrors(Batch(results, NOTHING, map[]), reply.errors);
    EchoedFoldIsMarked(results, start.counters, candidates, config, reply.items);
    NothingSavedNothingChanged(start, candidates, config, reply.items);
    var outcome := Outcome(runAgent, results, candidates, config);
    if outcome.counters.saved > 0 {
      OtherConfigsKeepAgreement(summaryAgent, results, after, summaries, resummarised, candidates, config, outcome.touched, observed);
    }
  }

  lemma RecomputationKeepsOtherConfigs(
      history: seq<HistoryRow>, summaryAgent: SummaryAgent, runAgent: RunAgent, results: Results, summaries: Summaries,
      rows: seq<HistoryRow>, size: nat, config: Config, scope: Owner, after: Results, resummarised: Summaries, observed: Config)
    requires size >= 1 && EchoesRows(runAgent, history) && Subset(rows, history) && observed != config
    requires Agrees(summaryAgent, results, summaries, observed)
    requires RecomputeEnds(summaryAgent, runAgent, results, summaries, rows, size, config, scope, after, resummarised)
    ensures Agrees(summaryAgent, after, resummarised, observed)
  {
    hide Agrees, Batches, Marked, Resummarised, KeepResults, KeepSummaries;
    var kept, keptSummaries := KeepResults(results, config, scope), KeepSummaries(summaries, config, scope);
    DeletionKeepsAgreement(summaryAgent, results, summaries, config, scope, observed);
    var start := Batch(kept, NOTHING, map[]);
    NothingIsMarked(kept, rows, config);
    BatchesAreMarked(kept, start, runAgent, history, rows, rows, size, config);
    NothingSavedInAnyBatch(start, runAgent, rows, size, config);
    var outcome := Batches(start, runAgent, rows, size, config);
    if outcome.counters.saved > 0 {
      OtherConfigsKeepAgreement(summaryAgent, kept, after, keptSummaries, resummarised, rows, config, outcome.touched, observed);
    }
  }

  // ---------------------------------------------------------------- broken

  function Unary(n: nat): (text: string)
    ensures |text| == n
  {
    seq(n, i => 'x')
  }

  /** Summarises by how many rows there are, as the total of evaluations does. */
  function CountingAgent(): SummaryAgent {
    (scope, code, config, rows: Rows) => SummaryReply(None, None, Unary(|rows|))
  }

  lemma CountingAgentEchoes()
    ensures EchoesKeys(CountingAgent())
  {}

  function ItemOf(h: HistoryRow): BacktestItems.Item { Item(h.id, h.owner, Some(h.code), CompletedEval, "", true) }

  /** Has an item for one given row, and nothing on any other. */
  function OneRow(h: HistoryRow): RowAgent {
    (row: HistoryRow) => RunReply(0, if row == h then [ItemOf(h)] else [])
  }

  function OnlyFor(h: HistoryRow): RunAgent {
    (candidates: seq<HistoryRow>) => Concat(OneRow(h), candidates)
  }

  /** Its reply to any rows: nothing but that item, and at least once if the row is among them. */
  lemma {:induction false} OneRowSaysOneThing(h: HistoryRow, rows: seq<HistoryRow>)
    ensures var reply := Concat(OneRow(h), rows);
            && reply.errors == 0 && (h in rows ==> reply.items != [])
            && forall i :: 0 <= i < |reply.items| ==> reply.items[i] == ItemOf(h)
  {
    if rows != [] {
      OneRowSaysOneThing(h, rows[1..]);
      assert rows == [rows[0]] + rows[1..];
    }
  }

  lemma SameIdSameRow(history: seq<HistoryRow>, a: HistoryRow, b: HistoryRow)
    requires Ascending(history) && a in history && b in history && a.id == b.id
    ensures a == b
  {
    var i :| 0 <= i < |history| && history[i] == a;
    var j :| 0 <= j < |history| && history[j] == b;
    assert i == j;
  }

  lemma OnlyForIsHonest(h: HistoryRow, history: seq<HistoryRow>)
    requires Ascending(history) && h in history
    ensures EchoesRows(OnlyFor(h), history)
  {
    forall candidates, i | Subset(candidates, history) && 0 <= i < |ReplyTo(OnlyFor(h), candidates).items|
      ensures Echoes(candidates, ReplyTo(OnlyFor(h), candidates).items[i])
    {
      OneRowSaysOneThing(h, candidates);
      var candidate := CandidateOf(candidates, ItemOf(h));
      if candidate.Some? {
        SameIdSameRow(history, candidate.value, h);
      }
    }
  }

  /** The table and the touched keys when one row has been rewritten from its history row. */
  ghost predicate Rewrote(outcome: Batch, results: Results, h: HistoryRow, config: Config) {
    && outcome.results == results[ResultKey(h.id, config) := ResultRow(h.owner, h.code, "")]
    && outcome.touched == map[h.owner := {h.code}] && outcome.counters.saved > 0
  }

  lemma OneItemRewrites(h: HistoryRow, results: Results, history: seq<HistoryRow>, candidates: seq<HistoryRow>, config: Config, start: Batch)
    requires h.id > 0 && Ascending(history) && Subset(candidates, history) && h in candidates && h in history
    requires (start.results == results && start.touched == map[]) || Rewrote(start, results, h, config)
    ensures Rewrote(ItemStep(start, candidates, config, ItemOf(h)), results, h, config)
  {
    var found := CandidateOf(candidates, ItemOf(h));
    SameIdSameRow(history, found.value, h);
    assert CodesOf(start.touched, h.owner) + {h.code} == {h.code};
  }

  /** Folding the item into a table, however often, rewrites that row and touches its owner and code. */
  lemma {:induction false} CopiesRewrite(h: HistoryRow, results: Results, history: seq<HistoryRow>, candidates: seq<HistoryRow>,
                                         config: Config, items: seq<BacktestItems.Item>)
    requires h.id > 0 && Ascending(history) && Subset(candidates, history) && h in candidates && h in history
    requires items != [] && forall i :: 0 <= i < |items| ==> items[i] == ItemOf(h)
    ensures Rewrote(FoldItems(WithErrors(Batch(results, NOTHING, map[]), 0), candidates, config, items), results, h, config)
  {
    hide ItemStep, Rewrote;
    var start, last := WithErrors(Batch(results, NOTHING, map[]), 0), |items| - 1;
    if last > 0 {
      CopiesRewrite(h, results, history, candidates, config, items[..last]);
    }
    OneItemRewrites(h, results, history, candidates, config, FoldItems(start, candidates, config, items[..last]));
  }

  lemma OnlyForRewrites(h: HistoryRow, results: Results, history: seq<HistoryRow>, candidates: seq<HistoryRow>, config: Config)
    requires h.id > 0 && Ascending(history) && Subset(candidates, history) && h in candidates
    ensures Rewrote(Outcome(OnlyFor(h), results, candidates, config), results, h, config)
  {
    OneRowSaysOneThing(h, candidates);
    CopiesRewrite(h, results, history, candidates, config, Concat(OneRow(h), candidates).items);
  }

  lemma OnlyForRewritesInBatches(h: HistoryRow, results: Results, rows: seq<HistoryRow>, config: Config)
    requires h.id > 0 && Ascending(rows) && h in rows
    ensures Rewrote(Batches(Batch(results, NOTHING, map[]), OnlyFor(h), rows, 1, config), results, h, config)
  {
    BatchSizeDoesNotMatter(Batch(results, NOTHING, map[]), OnlyFor(h), OneRow(h), rows, rows, 1, config);
    OneRowSaysOneThing(h, rows);
    CopiesRewrite(h, results, rows, rows, config, Concat(OneRow(h), rows).items);
  }

  function AllKeys(results: Results, config: Config): set<SummaryKey> {
    (set k | k in results && k.config == config :: OverallKey(results[k], config))
    + (set k | k in results && k.config == config :: StockKey(results[k], config))
  }

  function Summarised(agent: SummaryAgent, results: Results, config: Config): Summaries {
    map key | key in AllKeys(results, config) :: Expected(agent, results, key)
  }

  function Refreshed(agent: SummaryAgent, after: Results, summaries: Summaries, row: ResultRow, config: Config): Summaries {
    map key | key in summaries.Keys + {OverallKey(row, config), StockKey(row, config)} ::
      if key == OverallKey(row, config) || key == StockKey(row, config) then Expected(agent, after, key) else summaries[key]
  }

  lemma RefreshedIsResummarised(agent: SummaryAgent, after: Results, summaries: Summaries, row: ResultRow, config: Config)
    ensures Resummarised(agent, after, summaries, Refreshed(agent, after, summaries, row, config), map[row.owner := {row.code}], config)
  {}

  lemma SummarisedAgrees(agent: SummaryAgent, results: Results, config: Config)
    ensures Agrees(agent, results, Summarised(agent, results, config), config)
  {}

  /** The summary that the rewritten row leaves, still needed by the other one. */
  function StaleKey(results: Results, config: Config, key: ResultKey, h: HistoryRow, other: ResultKey): SummaryKey
    requires key in results && other in results
  {
    if h.owner != results[key].owner then OverallKey(results[other], config) else StockKey(results[other], config)
  }

  lemma StaleSummaryCountsOneTooMany(results: Results, config: Config, key: ResultKey, h: HistoryRow, other: ResultKey)
    requires Strands(results, config, key, h, other)
    ensures var stale, after := StaleKey(results, config, key, h, other), results[key := ResultRow(h.owner, h.code, "")];
            |RowsFor(after, stale)| == |RowsFor(results, stale)| - 1
  {
    var stale, after := StaleKey(results, config, key, h, other), results[key := ResultRow(h.owner, h.code, "")];
    assert RowsFor(after, stale) == RowsFor(results, stale) - {key};
    assert key in RowsFor(results, stale);
    assert |RowsFor(results, stale).Keys| == |RowsFor(results, stale)| && |RowsFor(after, stale).Keys| == |RowsFor(after, stale)|;
    assert RowsFor(after, stale).Keys == RowsFor(results, stale).Keys - {key};
  }

  /** If the summary that is left was right before, it is wrong afterwards, and the other row still needs it. */
  lemma LeftSummaryIsWrong(results: Results, summaries: Summaries, config: Config, key: ResultKey, h: HistoryRow, other: ResultKey)
    requires Strands(results, config, key, h, other)
    requires UpToDate(CountingAgent(), results, summaries, StaleKey(results, config, key, h, other))
    ensures var row := ResultRow(h.owner, h.code, "");
            var after := results[key := row];
            !Agrees(CountingAgent(), after, Refreshed(CountingAgent(), after, summaries, row, config), config)
  {
    hide RowsFor;
    var stale, after := StaleKey(results, config, key, h, other), results[key := ResultRow(h.owner, h.code, "")];
    StaleSummaryCountsOneTooMany(results, config, key, h, other);
    assert |Expected(CountingAgent(), after, stale)| != |Expected(CountingAgent(), results, stale)|;
    assert other in after && after[other] == results[other];
  }

  /** If one of the candidates strands, an honest run that saves just that one leaves the other row with a summary
      that counts a row too many. */
  lemma StrandingBreaksAgreement(
      history: seq<HistoryRow>, candidates: seq<HistoryRow>, results: Results, config: Config, key: ResultKey, h: HistoryRow, other: ResultKey)
    requires Ascending(history) && Subset(candidates, history) && h in candidates && h.id > 0 && Strands(results, config, key, h, other)
    ensures !RunsKeepAgreement(history, candidates, results, config)
  {
    hide Resummarised, Expected, Outcome, EchoesRows, CountingAgent, Agrees;
    var agent, row := CountingAgent(), ResultRow(h.owner, h.code, "");
    var summaries, after := Summarised(agent, results, config), results[key := row];
    var resummarised := Refreshed(agent, after, summaries, row, config);
    CountingAgentEchoes();
    OnlyForIsHonest(h, history);
    OnlyForRewrites(h, results, history, candidates, config);
    assert ResultKey(h.id, config) == key;
    RefreshedIsResummarised(agent, after, summaries, row, config);
    assert RunEnds(agent, OnlyFor(h), results, summaries, candidates, config, after, resummarised);
    SummarisedAgrees(agent, results, config);
    LeftSummaryIsWrong(results, summaries, config, key, h, other);
  }

  lemma StrandingBreaksRecomputation(
      history: seq<HistoryRow>, results: Results, config: Config, cutoff: int, scope: Owner, key: ResultKey, h: HistoryRow, other: ResultKey)
    requires Ascending(history) && h in Eligible(history, cutoff, scope) && h.id > 0
    requires Strands(KeepResults(results, config, scope), config, key, h, other)
    ensures !RecomputationsEndInAgreement(history, results, config, cutoff, scope)
  {
    hide Resummarised, Expected, Batches, EchoesRows, CountingAgent, Agrees, Eligible, Ascending;
    var agent, row, rows := CountingAgent(), ResultRow(h.owner, h.code, ""), Eligible(history, cutoff, scope);
    var kept := KeepResults(results, config, scope);
    var summaries, after := Summarised(agent, results, config), kept[key := row];
    var keptSummaries := KeepSummaries(summaries, config, scope);
    var resummarised := Refreshed(agent, after, keptSummaries, row, config);
    CountingAgentEchoes();
    EligibleAscends(history, cutoff, scope);
    OnlyForIsHonest(h, history);
    OnlyForRewritesInBatches(h, kept, rows, config);
    assert ResultKey(h.id, config) == key;
    RefreshedIsResummarised(agent, after, keptSummaries, row, config);
    assert RecomputeEnds(agent, OnlyFor(h), results, summaries, rows, 1, config, scope, after, resummarised);
    SummarisedAgrees(agent, results, config);
    StaleSummaryIsKept(agent, results, config, scope, key, h, other);
    LeftSummaryIsWrong(kept, keptSummaries, config, key, h, other);
  }

  lemma StaleSummaryIsKept(agent: SummaryAgent, results: Results, config: Config, scope: Owner, key: ResultKey, h: HistoryRow, other: ResultKey)
    requires Strands(KeepResults(results, config, scope), config, key, h, other)
    ensures var kept := KeepResults(results, config, scope);
            UpToDate(agent, kept, KeepSummaries(Summarised(agent, results, config), config, scope), StaleKey(kept, config, key, h, other))
  {
    var kept := KeepResults(results, config, scope);
    DeletionKeepsAgreement(agent, results, Summarised(agent, results, config), config, scope, config);
    assert other in kept;
  }

  /** A run of these candidates keeps every needed summary right, for all honest Agents, exactly when none of their
      stored rows would leave another one behind. */
  lemma RunsKeepAgreementIffNothingStrands(history: seq<HistoryRow>, candidates: seq<HistoryRow>, results: Results, config: Config)
    requires Ascending(history) && (forall h :: h in history ==> h.id > 0) && Subset(candidates, history)
    ensures RunsKeepAgreement(history, candidates, results, config) <==> NothingStrands(candidates, results, config)
  {
    if NothingStrands(candidates, results, config) {
      forall summaryAgent, runAgent, summaries, after, resummarised |
        && EchoesKeys(summaryAgent) && EchoesRows(runAgent, history)
        && Agrees(summaryAgent, results, summaries, config)
        && RunEnds(summaryAgent, runAgent, results, summaries, candidates, config, after, resummarised)
        ensures Agrees(summaryAgent, after, resummarised, config)
      {
        UnstrandedRun(history, summaryAgent, runAgent, results, summaries, candidates, config, after, resummarised);
      }
    } else {
      var key, h, other :| h in candidates && Strands(results, config, key, h, other);
      StrandingBreaksAgreement(history, candidates, results, config, key, h, other);
    }
  }

  /** Without `force` no candidate has a stored row, so such a run always keeps agreement, whatever strands elsewhere. */
  lemma UnforcedRunsKeepAgreement(history: seq<HistoryRow>, candidates: seq<HistoryRow>, results: Results, config: Config)
    requires Ascending(history) && (forall h :: h in history ==> h.id > 0) && Subset(candidates, history)
    requires Unforced(results, config, candidates)
    ensures NothingStrands(candidates, results, config) && RunsKeepAgreement(history, candidates, results, config)
  {
    UnforcedStrandsNothing(results, config, candidates);
    RunsKeepAgreementIffNothingStrands(history, candidates, results, config);
  }

  lemma UnforcedStrandsNothing(results: Results, config: Config, candidates: seq<HistoryRow>)
    requires Unforced(results, config, candidates)
    ensures NothingStrands(candidates, results, config)
  {
    forall key, h, other | h in candidates ensures !Strands(results, config, key, h, other) {
      assert ResultKey(h.id, config) !in results;
    }
  }

  lemma FewerRowsStrandNothing(history: seq<HistoryRow>, rows: seq<HistoryRow>, results: Results, config: Config)
    requires Subset(rows, history) && NothingStrands(history, results, config)
    ensures NothingStrands(rows, results, config)
  {}

  /**
   A recomputation ends in agreement exactly when no row outside its scope would leave another one behind.
   Over all owners no row is outside, so it always does.
   */
  lemma RecomputationsAgreeIffNothingStrands(history: seq<HistoryRow>, results: Results, config: Config, cutoff: int, scope: Owner)
    requires Ascending(history) && forall h :: h in history ==> h.id > 0
    ensures RecomputationsEndInAgreement(history, results, config, cutoff, scope)
            <==> NothingStrands(Eligible(history, cutoff, scope), KeepResults(results, config, scope), config)
    ensures scope.None? ==> RecomputationsEndInAgreement(history, results, config, cutoff, scope)
  {
    var rows, kept := Eligible(history, cutoff, scope), KeepResults(results, config, scope);
    EligibleAscends(history, cutoff, scope);
    if NothingStrands(rows, kept, config) {
      forall summaryAgent, runAgent, summaries, size: nat, after, resummarised |
        && size >= 1 && EchoesKeys(summaryAgent) && EchoesRows(runAgent, history)
        && (scope.None? || Agrees(summaryAgent, results, summaries, config))
        && RecomputeEnds(summaryAgent, runAgent, results, summaries, rows, size, config, scope, after, resummarised)
        ensures Agrees(summaryAgent, after, resummarised, config)
      {
        UnstrandedRecomputation(history, summaryAgent, runAgent, results, summaries, rows, size, config, scope, after, resummarised);
      }
    } else {
      var key, h, other :| h in rows && Strands(kept, config, key, h, other);
      StrandingBreaksRecomputation(history, results, config, cutoff, scope, key, h, other);
    }
  }

  lemma UnstrandedRun(
      history: seq<HistoryRow>, summaryAgent: SummaryAgent, runAgent: RunAgent, results: Results, summaries: Summaries,
      candidates: seq<HistoryRow>, config: Config, after: Results, resummarised: Summaries)
    requires NothingStrands(candidates, results, config) && EchoesRows(runAgent, history) && Subset(candidates, history)
    requires Agrees(summaryAgent, results, summaries, config)
    requires RunEnds(summaryAgent, runAgent, results, summaries, candidates, config, after, resummarised)
    ensures Agrees(summaryAgent, after, resummarised, config)
  {
    hide NothingStrands, Agrees, FoldItems, Marked, Resummarised;
    var reply := ReplyTo(runAgent, candidates);
    var start := WithErrors(Batch(results, NOTHING, map[]), reply.errors);
    EchoedFoldIsMarked(results, start.counters, candidates, config, reply.items);
    NothingSavedNothingChanged(start, candidates, config, reply.items);
    var outcome := Outcome(runAgent, results, candidates, config);
    if outcome.counters.saved > 0 {
      NothingStrandedIsEnough(summaryAgent, results, after, summaries, resummarised, candidates, config, outcome.touched);
    }
  }

  /** Rows that carry their history row's owner and code strand nothing. */
  lemma CoherentRowsStrandNothing(history: seq<HistoryRow>, results: Results, config: Config)
    requires Ascending(history) && Coherent(history, results, config)
    ensures NothingStrands(history, results, config)
  {}

  // ---------------------------------------------------------------- how such a table comes about

  const FIRST: HistoryRow := HistoryRow(1, Some(1), "600519", 0)
  const SECOND: HistoryRow := HistoryRow(2, Some(2), "600519", 0)

  /** Names owner 2 for both rows, though the first belongs to owner 1. */
  function MisnamingAgent(): RunAgent {
    (candidates: seq<HistoryRow>) => RunReply(0, [ItemOf(FIRST).(owner := Some(2)), ItemOf(SECOND)])
  }

  function Misnamed(config: Config): Results {
    map[ResultKey(1, config) := ResultRow(Some(2), "600519", ""), ResultKey(2, config) := ResultRow(Some(2), "600519", "")]
  }

  lemma MisnamingOutcome(config: Config)
    ensures var outcome := Outcome(MisnamingAgent(), map[], [FIRST, SECOND], config);
            && outcome.results == Misnamed(config) && outcome.touched == map[Some(2) := {"600519"}] && outcome.counters.saved == 2
  {
    var candidates, items := [FIRST, SECOND], [ItemOf(FIRST).(owner := Some(2)), ItemOf(SECOND)];
    var start := WithErrors(Batch(map[], NOTHING, map[]), 0);
    assert ReplyTo(MisnamingAgent(), candidates) == RunReply(0, items);
    assert CandidateOf(candidates, items[0]) == Some(FIRST) && CandidateOf(candidates, items[1]) == Some(SECOND);
    var one := ItemStep(start, candidates, config, items[0]);
    var row := ResultRow(Some(2), "600519", "");
    var none: Touched := map[];
    assert CodesOf(none, Some(2)) + {"600519"} == {"600519"};
    assert one.results == map[ResultKey(1, config) := row] && one.touched == map[Some(2) := {"600519"}] && one.counters.saved == 1;
    var two := ItemStep(one, candidates, config, items[1]);
    assert CodesOf(one.touched, Some(2)) + {"600519"} == {"600519"};
    assert two.results == Misnamed(config) && two.touched == map[Some(2) := {"600519"}];
    assert items[..1] == [items[0]] && items[..1][..0] == [];
    assert FoldItems(start, candidates, config, items[..1]) == one;
  }

  /**
   From empty tables: a first run whose Agent names the wrong owner ends in agreement with a stranding table, and
   an honest run that sends that history row again, which needs `force`, then breaks the agreement.
   */
  lemma StrandingTableIsReached(config: Config)
    ensures var agent, row := CountingAgent(), ResultRow(Some(2), "600519", "");
            var results, summaries := Misnamed(config), Refreshed(CountingAgent(), Misnamed(config), map[], row, config);
            var rewritten := ResultRow(Some(1), "600519", "");
            var after := results[ResultKey(1, config) := rewritten];
            var resummarised := Refreshed(agent, after, summaries, rewritten, config);
            && RunEnds(agent, MisnamingAgent(), map[], map[], [FIRST, SECOND], config, results, summaries)
            && Agrees(agent, results, summaries, config)
            && Strands(results, config, ResultKey(1, config), FIRST, ResultKey(2, config))
            && EchoesRows(OnlyFor(FIRST), [FIRST, SECOND]) && !Unforced(results, config, [FIRST])
            && RunEnds(agent, OnlyFor(FIRST), results, summaries, [FIRST], config, after, resummarised)
            && !Agrees(agent, after, resummarised, config)
  {
    hide Resummarised, Expected, Outcome, EchoesRows, CountingAgent;
    var agent, row := CountingAgent(), ResultRow(Some(2), "600519", "");
    var results, summaries := Misnamed(config), Refreshed(CountingAgent(), Misnamed(config), map[], row, config);
    var rewritten := ResultRow(Some(1), "600519", "");
    MisnamingOutcome(config);
    RefreshedIsResummarised(agent, results, map[], row, config);
    OnlyForIsHonest(FIRST, [FIRST, SECOND]);
    OnlyForRewrites(FIRST, results, [FIRST, SECOND], [FIRST], config);
    RefreshedIsResummarised(agent, results[ResultKey(1, config) := rewritten], summaries, rewritten, config);
    LeftSummaryIsWrong(results, summaries, config, ResultKey(1, config), FIRST, ResultKey(2, config));
  }
}
