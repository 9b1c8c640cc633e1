/** One batch of an event backtest: the Agent's items folded into the result table, counters and touched keys. */
module BacktestItems {
  import opened Options

  type Owner = Option<nat>

  datatype Config = Config(windowDays: nat, engine: string)

  datatype HistoryRow = HistoryRow(id: nat, owner: Owner, code: string, createdAt: nat)

  datatype EvalStatus = CompletedEval | InsufficientData | OtherStatus

  /** One item of the Agent's reply; `saves` is false when the database refuses its upsert. */
  datatype Item = Item(
    historyId: int, owner: Owner, code: Option<string>, status: EvalStatus, payload: string, saves: bool)

  datatype RunReply = RunReply(errors: nat, items: seq<Item>)

  datatype ResultKey = ResultKey(history: nat, config: Config)

  datatype ResultRow = ResultRow(owner: Owner, code: string, payload: string)

  type Results = map<ResultKey, ResultRow>
  type Touched = map<Owner, set<string>>

  datatype Counters = Counters(saved: nat, completed: nat, insufficient: nat, errors: nat) {
    function Plus(other: Counters): Counters {
      Counters(saved + other.saved, completed + other.completed, insufficient + other.insufficient, errors + other.errors)
    }
  }

  const NOTHING := Counters(0, 0, 0, 0)

  datatype Batch = Batch(results: Results, counters: Counters, touched: Touched)

  /** Errors the Agent itself reports for a batch. */
  function WithErrors(batch: Batch, errors: nat): Batch {
    batch.(counters := batch.counters.(errors := batch.counters.errors + errors))
  }

  function Find(candidates: seq<HistoryRow>, id: int): (r: Option<HistoryRow>)
    ensures r.Some? ==> r.value in candidates && r.value.id == id
    ensures r.None? ==> forall c :: c in candidates ==> c.id != id
  {
    if candidates == [] then None
    else if candidates[0].id == id then Some(candidates[0])
    else Find(candidates[1..], id)
  }

  function CandidateOf(candidates: seq<HistoryRow>, item: Item): Option<HistoryRow> {
    if item.historyId <= 0 then None else Find(candidates, item.historyId)
  }

  function OwnerOf(item: Item, candidate: HistoryRow): Owner {
    if item.owner.Some? then item.owner else candidate.owner
  }

  function CodesOf(touched: Touched, owner: Owner): set<string> {
    if owner in touched then touched[owner] else {}
  }

  function Touch(touched: Touched, owner: Owner, code: string): Touched {
    touched[owner := CodesOf(touched, owner) + {code}]
  }

  function Merge(target: Touched, incoming: Touched): Touched {
    map owner | owner in target.Keys + incoming.Keys :: CodesOf(target, owner) + CodesOf(incoming, owner)
  }

  function CountItem(counters: Counters, item: Item): Counters {
    var counted := match item.status
      case CompletedEval => counters.(completed := counters.completed + 1)
      case InsufficientData => counters.(insufficient := counters.insufficient + 1)
      case OtherStatus => counters.(errors := counters.errors + 1);
    if item.saves then counted.(saved := counted.saved + 1) else counted.(errors := counted.errors + 1)
  }

  function ItemStep(batch: Batch, candidates: seq<HistoryRow>, config: Config, item: Item): Batch {
    match CandidateOf(candidates, item)
    case None => batch.(counters := batch.counters.(errors := batch.counters.errors + 1))
    case Some(candidate) =>
      var owner := OwnerOf(item, candidate);
      var code := item.code.GetOr(candidate.code);
      Batch(
        if item.saves
          then batch.results[ResultKey(candidate.id, config) := ResultRow(owner, code, item.payload)]
          else batch.results,
        CountItem(batch.counters, item),
        Touch(batch.touched, owner, code))
  }

  function FoldItems(batch: Batch, candidates: seq<HistoryRow>, config: Config, items: seq<Item>): Batch {
    if items == [] then batch
    else
      var last := |items| - 1;
      ItemStep(FoldItems(batch, candidates, config, items[..last]), candidates, config, items[last])
  }

  // ---------------------------------------------------------------- accounting

  function Rejected(candidates: seq<HistoryRow>, items: seq<Item>): nat {
    if items == [] then 0
    else Rejected(candidates, items[..|items| - 1]) + if CandidateOf(candidates, items[|items| - 1]).None? then 1 else 0
  }

  function FailedSaves(candidates: seq<HistoryRow>, items: seq<Item>): nat {
    if items == [] then 0
    else
      var last := items[|items| - 1];
      FailedSaves(candidates, items[..|items| - 1]) + if CandidateOf(candidates, last).Some? && !last.saves then 1 else 0
  }

  /** Every item is counted once and a failed save once more; what is saved is what was neither rejected nor refused. */
  lemma {:induction false} BatchAccounts(batch: Batch, candidates: seq<HistoryRow>, config: Config, items: seq<Item>)
    ensures var before := batch.counters; var after := FoldItems(batch, candidates, config, items).counters;
            && after.completed + after.insufficient + after.errors
                 == before.completed + before.insufficient + before.errors + |items| + FailedSaves(candidates, items)
            && after.saved == before.saved + |items| - Rejected(candidates, items) - FailedSaves(candidates, items)
  {
    if items != [] {
      BatchAccounts(batch, candidates, config, items[..|items| - 1]);
    }
  }

  // ---------------------------------------------------------------- folding in parts

  /** Accumulating into running totals is the same as folding from nothing and merging afterwards. */
  lemma {:induction false} FoldFromTotals(batch: Batch, candidates: seq<HistoryRow>, config: Config, items: seq<Item>)
    ensures var alone := FoldItems(Batch(batch.results, NOTHING, map[]), candidates, config, items);
            FoldItems(batch, candidates, config, items)
              == Batch(alone.results, batch.counters.Plus(alone.counters), Merge(batch.touched, alone.touched))
  {
    hide Merge, Touch;
    if items == [] {
      MergeNothing(batch.touched);
    } else {
      var last := |items| - 1;
      FoldFromTotals(batch, candidates, config, items[..last]);
      var alone := FoldItems(Batch(batch.results, NOTHING, map[]), candidates, config, items[..last]);
      if candidate :| CandidateOf(candidates, items[last]) == Some(candidate) {
        MergeTouch(batch.touched, alone.touched, OwnerOf(items[last], candidate), items[last].code.GetOr(candidate.code));
      }
    }
  }

  lemma MergeNothing(touched: Touched)
    ensures Merge(touched, map[]) == touched
  {
    assert forall owner :: owner in touched ==> touched[owner] + {} == touched[owner];
  }

  lemma MergeTouch(target: Touched, incoming: Touched, owner: Owner, code: string)
    ensures Touch(Merge(target, incoming), owner, code) == Merge(target, Touch(incoming, owner, code))
  {
    var left := Touch(Merge(target, incoming), owner, code);
    var right := Merge(target, Touch(incoming, owner, code));
    assert left.Keys == right.Keys;
    hide Merge, Touch, CodesOf;
    forall o ensures CodesOf(left, o) == CodesOf(right, o) {
      TouchCodes(Merge(target, incoming), owner, code, o);
      TouchCodes(incoming, owner, code, o);
      MergeCodes(target, incoming, o);
      MergeCodes(target, Touch(incoming, owner, code), o);
    }
    SameTouched(left, right);
  }

  lemma TouchCodes(touched: Touched, owner: Owner, code: string, o: Owner)
    ensures CodesOf(Touch(touched, owner, code), o) == CodesOf(touched, o) + if o == owner then {code} else {}
  {}

  lemma MergeCodes(target: Touched, incoming: Touched, owner: Owner)
    ensures CodesOf(Merge(target, incoming), owner) == CodesOf(target, owner) + CodesOf(incoming, owner)
  {}

  lemma SameTouched(left: Touched, right: Touched)
    requires left.Keys == right.Keys && forall o :: CodesOf(left, o) == CodesOf(right, o)
    ensures left == right
  {
    forall o | o in left ensures left[o] == right[o] {
      assert CodesOf(left, o) == CodesOf(right, o);
    }
  }

  lemma {:induction false} FoldConcat(
      batch: Batch, candidates: seq<HistoryRow>, config: Config, first: seq<Item>, second: seq<Item>)
    ensures FoldItems(batch, candidates, config, first + second)
              == FoldItems(FoldItems(batch, candidates, config, first), candidates, config, second)
  {
    if second == [] {
      assert first + second == first;
    } else {
      var last := |second| - 1;
      assert (first + second)[..|first + second| - 1] == first + second[..last];
      FoldConcat(batch, candidates, config, first, second[..last]);
    }
  }

  /** Items see the same candidates through two lists that resolve each of them alike. */
  lemma {:induction false} FoldSameCandidates(
      batch: Batch, some: seq<HistoryRow>, all: seq<HistoryRow>, config: Config, items: seq<Item>)
    requires forall i :: 0 <= i < |items| ==> CandidateOf(some, items[i]) == CandidateOf(all, items[i])
    ensures FoldItems(batch, some, config, items) == FoldItems(batch, all, config, items)
  {
    if items != [] {
      FoldSameCandidates(batch, some, all, config, items[..|items| - 1]);
    }
  }

  /** Errors reported up front can be added before or after the items are folded. */
  lemma {:induction false} FoldWithErrors(
      batch: Batch, errors: nat, candidates: seq<HistoryRow>, config: Config, items: seq<Item>)
    ensures FoldItems(WithErrors(batch, errors), candidates, config, items)
              == WithErrors(FoldItems(batch, candidates, config, items), errors)
  {
    if items != [] {
      FoldWithErrors(batch, errors, candidates, config, items[..|items| - 1]);
    }
  }

  // ---------------------------------------------------------------- what a reply leaves behind

  /** The item names a candidate by its id. */
  predicate Names(candidates: seq<HistoryRow>, item: Item, id: nat) {
    item.historyId == id > 0 && exists c :: c in candidates && c.id == id
  }

  ghost predicate IsLastSave(candidates: seq<HistoryRow>, items: seq<Item>, i: int, id: nat) {
    && 0 <= i < |items| && items[i].saves && Names(candidates, items[i], id)
    && forall j :: i < j < |items| ==> !(items[j].saves && Names(candidates, items[j], id))
  }

  /** The item's evaluation, under its own owner and code or those of its candidate. */
  ghost predicate Holds(candidates: seq<HistoryRow>, item: Item, row: ResultRow) {
    && row.payload == item.payload
    && exists c :: c in candidates && c.id == item.historyId && IsKeyedBy(item, c, row.owner, row.code)
  }

  predicate IsKeyedBy(item: Item, candidate: HistoryRow, owner: Owner, code: string) {
    && owner == (if item.owner == None then candidate.owner else item.owner)
    && if item.code == None then code == candidate.code else item.code == Some(code)
  }

  ghost predicate NothingSavedOn(candidates: seq<HistoryRow>, items: seq<Item>, id: nat) {
    forall i :: 0 <= i < |items| ==> !(items[i].saves && Names(candidates, items[i], id))
  }

  ghost predicate SameAt(before: Results, after: Results, key: ResultKey) {
    (key in after <==> key in before) && (key in before ==> after[key] == before[key])
  }

  /** The last writer wins: each result holds the last item saved on it, and a result nothing was saved on is as before. */
  ghost predicate LastSavesStand(
      before: Results, after: Results, candidates: seq<HistoryRow>, config: Config, items: seq<Item>)
  {
    && (forall i, id: nat :: IsLastSave(candidates, items, i, id) ==>
          ResultKey(id, config) in after && Holds(candidates, items[i], after[ResultKey(id, config)]))
    && forall key: ResultKey :: key.config != config || NothingSavedOn(candidates, items, key.history) ==> SameAt(before, after, key)
  }

  lemma {:induction false} LastSavesStandInAFold(batch: Batch, candidates: seq<HistoryRow>, config: Config, items: seq<Item>)
    ensures LastSavesStand(batch.results, FoldItems(batch, candidates, config, items).results, candidates, config, items)
  {
    if items != [] {
      var most := items[..|items| - 1];
      var mid := FoldItems(batch, candidates, config, most);
      LastSavesStandInAFold(batch, candidates, config, most);
      OneMoreItem(batch.results, mid, candidates, config, most, items[|items| - 1]);
      assert most + [items[|items| - 1]] == items;
    }
  }

  lemma OneMoreItem(before: Results, mid: Batch, candidates: seq<HistoryRow>, config: Config, most: seq<Item>, item: Item)
    requires LastSavesStand(before, mid.results, candidates, config, most)
    ensures LastSavesStand(before, ItemStep(mid, candidates, config, item).results, candidates, config, most + [item])
  {
    var items, after := most + [item], ItemStep(mid, candidates, config, item).results;
    StepSaves(mid, candidates, config, item);
    assert items[|most|] == item;
    forall i, id: nat | IsLastSave(candidates, items, i, id)
      ensures ResultKey(id, config) in after && Holds(candidates, items[i], after[ResultKey(id, config)])
    {
      if i < |most| {
        assert items[i] == most[i] && !(items[|most|].saves && Names(candidates, items[|most|], id));
        assert forall j :: i < j < |most| ==> most[j] == items[j];
        assert IsLastSave(candidates, most, i, id);
        assert SameAt(mid.results, after, ResultKey(id, config));
      }
    }
    forall key: ResultKey | key.config != config || NothingSavedOn(candidates, items, key.history) ensures SameAt(before, after, key) {
      if key.config == config {
        assert forall i :: 0 <= i < |most| ==> items[i] == most[i];
      }
    }
  }

  lemma StepSaves(mid: Batch, candidates: seq<HistoryRow>, config: Config, item: Item)
    ensures var after := ItemStep(mid, candidates, config, item).results;
            && (forall id: nat :: item.saves && Names(candidates, item, id) ==>
                  ResultKey(id, config) in after && Holds(candidates, item, after[ResultKey(id, config)]))
            && forall key: ResultKey :: !(item.saves && key.config == config && Names(candidates, item, key.history)) ==> SameAt(mid.results, after, key)
  {}

  /** What is counted. */
  datatype Mark = Unknown | Saved | NotSaved | Evaluated(status: EvalStatus)

  predicate Carries(candidates: seq<HistoryRow>, item: Item, mark: Mark) {
    var known := item.historyId > 0 && exists c :: c in candidates && c.id == item.historyId;
    match mark
    case Unknown => !known
    case Saved => known && item.saves
    case NotSaved => known && !item.saves
    case Evaluated(status) => known && item.status == status
  }

  ghost function Counted(candidates: seq<HistoryRow>, items: seq<Item>, mark: Mark): set<int> {
    set i | 0 <= i < |items| && Carries(candidates, items[i], mark)
  }

  lemma OneMoreMark(candidates: seq<HistoryRow>, items: seq<Item>, mark: Mark)
    requires items != []
    ensures |Counted(candidates, items, mark)|
         == |Counted(candidates, items[..|items| - 1], mark)| + if Carries(candidates, items[|items| - 1], mark) then 1 else 0
  {
    var last := |items| - 1;
    var most := Counted(candidates, items[..last], mark);
    assert Counted(candidates, items, mark) == if Carries(candidates, items[last], mark) then most + {last} else most;
  }

  /** The four totals. An item that names no candidate is only an error; the others count by their status, and one that
      cannot be saved counts as an error as well. */
  ghost predicate Tallied(before: Counters, after: Counters, candidates: seq<HistoryRow>, items: seq<Item>) {
    && after.saved == before.saved + |Counted(candidates, items, Saved)|
    && after.completed == before.completed + |Counted(candidates, items, Evaluated(CompletedEval))|
    && after.insufficient == before.insufficient + |Counted(candidates, items, Evaluated(InsufficientData))|
    && after.errors == before.errors + |Counted(candidates, items, Unknown)| + |Counted(candidates, items, NotSaved)|
                                     + |Counted(candidates, items, Evaluated(OtherStatus))|
  }

  lemma {:induction false} FoldTallies(batch: Batch, candidates: seq<HistoryRow>, config: Config, items: seq<Item>)
    ensures Tallied(batch.counters, FoldItems(batch, candidates, config, items).counters, candidates, items)
  {
    hide Counted;
    if items == [] {
      NothingToCount(candidates);
    } else {
      FoldTallies(batch, candidates, config, items[..|items| - 1]);
      OneMoreMark(candidates, items, Unknown);
      OneMoreMark(candidates, items, Saved);
      OneMoreMark(candidates, items, NotSaved);
      OneMoreMark(candidates, items, Evaluated(CompletedEval));
      OneMoreMark(candidates, items, Evaluated(InsufficientData));
      OneMoreMark(candidates, items, Evaluated(OtherStatus));
    }
  }

  lemma NothingToCount(candidates: seq<HistoryRow>)
    ensures forall mark :: Counted(candidates, [], mark) == {}
  {}

  ghost predicate DistinctIds(candidates: seq<HistoryRow>) {
    forall c, d :: c in candidates && d in candidates && c.id == d.id ==> c == d
  }

  ghost predicate KeyedBySome(candidates: seq<HistoryRow>, items: seq<Item>, owner: Owner, code: string) {
    exists i, c :: 0 <= i < |items| && c in candidates && items[i].historyId == c.id > 0 && IsKeyedBy(items[i], c, owner, code)
  }

  /** Touched are exactly the owner and code of every item that names a candidate, saved or not. */
  ghost predicate TouchesExactly(touched: Touched, candidates: seq<HistoryRow>, items: seq<Item>) {
    forall owner, code :: owner in touched && code in touched[owner] <==> KeyedBySome(candidates, items, owner, code)
  }

  lemma {:induction false} FoldTouchesExactly(results: Results, counters: Counters, candidates: seq<HistoryRow>, config: Config, items: seq<Item>)
    requires DistinctIds(candidates)
    ensures TouchesExactly(FoldItems(Batch(results, counters, map[]), candidates, config, items).touched, candidates, items)
  {
    if items != [] {
      var most, item := items[..|items| - 1], items[|items| - 1];
      FoldTouchesExactly(results, counters, candidates, config, most);
      var mid := FoldItems(Batch(results, counters, map[]), candidates, config, most);
      forall owner, code
        ensures owner in ItemStep(mid, candidates, config, item).touched && code in ItemStep(mid, candidates, config, item).touched[owner]
           <==> KeyedBySome(candidates, items, owner, code)
      {
        StepTouches(mid, candidates, config, item, owner, code);
        OneMoreName(candidates, most, item, owner, code);
        assert most + [item] == items;
      }
    }
  }

  lemma StepTouches(mid: Batch, candidates: seq<HistoryRow>, config: Config, item: Item, owner: Owner, code: string)
    requires DistinctIds(candidates)
    ensures var touched := ItemStep(mid, candidates, config, item).touched;
            owner in touched && code in touched[owner]
            <==> (owner in mid.touched && code in mid.touched[owner]) || KeyedBySome(candidates, [item], owner, code)
  {
    if candidate :| CandidateOf(candidates, item) == Some(candidate) {
      assert [item][0] == item;
    }
  }

  lemma OneMoreName(candidates: seq<HistoryRow>, most: seq<Item>, item: Item, owner: Owner, code: string)
    ensures KeyedBySome(candidates, most + [item], owner, code)
       <==> KeyedBySome(candidates, most, owner, code) || KeyedBySome(candidates, [item], owner, code)
  {
    var items := most + [item];
    assert items[|most|] == item == [item][0];
    assert forall i :: 0 <= i < |most| ==> items[i] == most[i];
    if i, c :| 0 <= i < |items| && c in candidates && items[i].historyId == c.id > 0 && IsKeyedBy(items[i], c, owner, code) {
      if i < |most| {
        assert most[i] == items[i];
      } else {
        assert [item][0] == items[i];
      }
    }
  }

  // ---------------------------------------------------------------- what a batch may change

  predicate Echoes(candidates: seq<HistoryRow>, item: Item) {
    var candidate := CandidateOf(candidates, item);
    candidate.Some? ==>
      && OwnerOf(item, candidate.value) == candidate.value.owner
      && item.code.GetOr(candidate.value.code) == candidate.value.code
  }

  ghost predicate IsTouched(touched: Touched, row: ResultRow) {
    row.owner in touched && row.code in touched[row.owner]
  }

  /** Whatever differs between two result tables belongs to `config` and to a touched (owner, code), before and after. */
  ghost predicate Covered(before: Results, after: Results, config: Config, touched: Touched) {
    forall key :: key in before || key in after ==>
      || (key in before && key in after && before[key] == after[key])
      || (&& key.config == config
          && (key in before ==> IsTouched(touched, before[key]))
          && (key in after ==> IsTouched(touched, after[key])))
  }

  ghost predicate RowCoherent(history: seq<HistoryRow>, key: ResultKey, row: ResultRow) {
    exists h :: h in history && h.id == key.history && h.owner == row.owner && h.code == row.code
  }

  /** Each stored result of this configuration carries the owner and the code of its history row. */
  ghost predicate Coherent(history: seq<HistoryRow>, results: Results, config: Config) {
    forall key :: key in results && key.config == config ==> RowCoherent(history, key, results[key])
  }

  ghost predicate Ascending(history: seq<HistoryRow>) {
    forall i, j :: 0 <= i < j < |history| ==> history[i].id < history[j].id
  }

  ghost predicate Subset(candidates: seq<HistoryRow>, history: seq<HistoryRow>) {
    forall c :: c in candidates ==> c in history
  }

  lemma {:induction false} EchoedFoldIsCovered(
      results: Results, counters: Counters, history: seq<HistoryRow>, candidates: seq<HistoryRow>, config: Config,
      items: seq<Item>)
    requires Ascending(history) && Subset(candidates, history) && Coherent(history, results, config)
    requires forall i :: 0 <= i < |items| ==> Echoes(candidates, items[i])
    ensures var after := FoldItems(Batch(results, counters, map[]), candidates, config, items);
            Coherent(history, after.results, config) && Covered(results, after.results, config, after.touched)
  {
    if items != [] {
      var last := |items| - 1;
      EchoedFoldIsCovered(results, counters, history, candidates, config, items[..last]);
      var mid := FoldItems(Batch(results, counters, map[]), candidates, config, items[..last]);
      var after := ItemStep(mid, candidates, config, items[last]);
      if candidate :| CandidateOf(candidates, items[last]) == Some(candidate) {
        assert Echoes(candidates, items[last]);
        var key := ResultKey(candidate.id, config);
        var row := ResultRow(candidate.owner, candidate.code, items[last].payload);
        assert candidate in history;
        assert RowCoherent(history, key, row);
        assert IsTouched(after.touched, row);
        if key in results {
          CoherentRowsAgree(history, key, results[key], row);
        }
        assert forall r :: IsTouched(mid.touched, r) ==> IsTouched(after.touched, r);
      }
    }
  }

  lemma CoherentRowsAgree(history: seq<HistoryRow>, key: ResultKey, a: ResultRow, b: ResultRow)
    requires Ascending(history) && RowCoherent(history, key, a) && RowCoherent(history, key, b)
    ensures a.owner == b.owner && a.code == b.code
  {}
}
