/**
 Two lists put together from two queries: the history (completed rows and failed tasks, paged) and the
 task list (running and terminal tasks, cut at a limit). Both read only a window of each source, so what
 matters is when the window is enough.
 */
module MergedHistory {
  import opened Options
  import opened Basics
  import opened StableSort
  import Queue = AnalysisTaskQueue

  // ---------------------------------------------------------------- the history list

  datatype CompletedRow = CompletedRow(createdAt: int, queryId: string)
  datatype FailedRow = FailedRow(completedAt: Option<int>, createdAt: int, taskId: string)
  datatype ListStatus = OnlyCompleted | OnlyFailed | All
  datatype Listing = Listing(total: nat, items: seq<Item>)

  function CompletedItems(rows: seq<CompletedRow>): (items: seq<Item>)
    ensures |items| == |rows|
  {
    seq(|rows|, i requires 0 <= i < |rows| => Item(rows[i].createdAt, "completed", rows[i].queryId))
  }

  /** A failed task is shown with the time it ended, or was created if that is missing. */
  function FailedItems(rows: seq<FailedRow>): (items: seq<Item>)
    ensures |items| == |rows|
  {
    seq(|rows|, i requires 0 <= i < |rows| => Item(rows[i].completedAt.GetOr(rows[i].createdAt), "failed", rows[i].taskId))
  }

  ghost predicate CompletedOrder(rows: seq<CompletedRow>) {
    forall i, j :: 0 <= i < j < |rows| ==> rows[i].createdAt >= rows[j].createdAt
  }

  /** completedAt descending, then createdAt descending; the database puts NULL first in a descending order. */
  predicate FailedNotAfter(a: FailedRow, b: FailedRow) {
    match (a.completedAt, b.completedAt)
    case (None, Some(_)) => true
    case (Some(_), None) => false
    case (None, None) => a.createdAt >= b.createdAt
    case (Some(x), Some(y)) => x > y || (x == y && a.createdAt >= b.createdAt)
  }

  ghost predicate FailedOrder(rows: seq<FailedRow>) {
    forall i, j :: 0 <= i < j < |rows| ==> FailedNotAfter(rows[i], rows[j])
  }

  /** `skip: offset, take: limit` and `slice(offset, offset + limit)` alike. */
  function Slice(items: seq<Item>, offset: nat, limit: nat): seq<Item> {
    items[Min(offset, |items|)..Min(offset + limit, |items|)]
  }

  function Offset(page: nat, limit: nat): nat
    requires page >= 1
  {
    (page - 1) * limit
  }

  /** One page; `completed` and `failed` are the rows matching the filters, in the database's order. */
  function List(status: ListStatus, completed: seq<CompletedRow>, failed: seq<FailedRow>, page: nat, limit: nat): Listing
    requires page >= 1
  {
    match status
    case OnlyCompleted => Listing(|completed|, Slice(CompletedItems(completed), Offset(page, limit), limit))
    case OnlyFailed => Listing(|failed|, Slice(FailedItems(failed), Offset(page, limit), limit))
    case All =>
      var window := page * limit;
      var merged := Sort(Take(CompletedItems(completed), window) + Take(FailedItems(failed), window));
      Listing(|completed| + |failed|, Slice(merged, Offset(page, limit), limit))
  }

  /** The list a reader means: both sources in full, sorted stably by time, newest first. */
  function WholeList(status: ListStatus, completed: seq<CompletedRow>, failed: seq<FailedRow>): seq<Item> {
    match status
    case OnlyCompleted => CompletedItems(completed)
    case OnlyFailed => FailedItems(failed)
    case All => Sort(CompletedItems(completed) + FailedItems(failed))
  }

  lemma PageEndsAtItsWindow(page: nat, limit: nat)
    requires page >= 1
    ensures Offset(page, limit) + limit == page * limit
  {}

  lemma SliceOfTake(items: seq<Item>, offset: nat, limit: nat)
    ensures Slice(Take(items, offset + limit), offset, limit) == Slice(items, offset, limit)
  {}

  lemma FirstPageIsATake(items: seq<Item>, limit: nat)
    ensures Slice(items, 0, limit) == Take(items, limit)
  {}

  /** A page built from windows is the same page of the sort of both sources in full. */
  lemma PageIsThePageOfTheWholeList(status: ListStatus, completed: seq<CompletedRow>, failed: seq<FailedRow>, page: nat, limit: nat)
    requires page >= 1 && Sorted(CompletedItems(completed)) && Sorted(FailedItems(failed))
    ensures List(status, completed, failed, page, limit).items
         == Slice(WholeList(status, completed, failed), Offset(page, limit), limit)
  {
    if status == All {
      var left, right, window := CompletedItems(completed), FailedItems(failed), page * limit;
      var offset := Offset(page, limit);
      PageEndsAtItsWindow(page, limit);
      SortedSplit(left, window);
      SortedSplit(right, window);
      WindowOfTwoLists(left, right, window);
      SliceOfTake(Sort(Take(left, window) + Take(right, window)), offset, limit);
      SliceOfTake(Sort(left + right), offset, limit);
    }
  }

  lemma SortedSplit(items: seq<Item>, n: nat)
    requires Sorted(items)
    ensures CutByTime(items, n)
  {}

  /**
   The exact condition, on the failed rows alone: their displayed times come out of the database in
   descending order. Then every page is right beside every completed history; otherwise some first page is wrong.
   */
  lemma PagesAreExactIffFailedTimesDescend(failed: seq<FailedRow>)
    ensures Sorted(FailedItems(failed)) <==>
            forall completed, page: nat, limit: nat | CompletedOrder(completed) && page >= 1 ::
              List(All, completed, failed, page, limit).items
              == Slice(WholeList(All, completed, failed), Offset(page, limit), limit)
  {
    if Sorted(FailedItems(failed)) {
      forall completed, page: nat, limit: nat | CompletedOrder(completed) && page >= 1
        ensures List(All, completed, failed, page, limit).items
             == Slice(WholeList(All, completed, failed), Offset(page, limit), limit)
      {
        PageIsThePageOfTheWholeList(All, completed, failed, page, limit);
      }
    } else {
      var items := FailedItems(failed);
      var i, j :| 0 <= i < j < |items| && items[i].at < items[j].at;
      FirstPageMisses(failed, i, j);
      assert List(All, [], failed, 1, i + 1).items != Slice(WholeList(All, [], failed), Offset(1, i + 1), i + 1);
    }
  }

  lemma FirstPageMisses(failed: seq<FailedRow>, i: nat, j: nat)
    requires i < j < |failed| && FailedItems(failed)[i].at < FailedItems(failed)[j].at
    ensures List(All, [], failed, 1, i + 1).items != Slice(WholeList(All, [], failed), 0, i + 1)
  {
    hide Sort, FailedItems, Slice, Take;
    var items, n := FailedItems(failed), i + 1;
    ShortWindowMisses(items, i, j);
    WithoutCompletedRows(items, n);
    SortMultiset(items[..n]);
    FirstPageIsATake(Sort(items), n);
    FirstPageIsATake(Sort(items[..n]), n);
    WholeIsTaken(Sort(items[..n]), n);
  }

  lemma WithoutCompletedRows(items: seq<Item>, n: nat)
    requires n <= |items|
    ensures CompletedItems([]) + items == items && Take(CompletedItems([]), n) + Take(items, n) == items[..n]
  {}

  lemma WholeIsTaken(items: seq<Item>, n: nat)
    requires |items| == n
    ensures Take(items, n) == items
  {}

  lemma ShortWindowMisses(items: seq<Item>, i: nat, j: nat)
    requires i < j < |items| && items[i].at < items[j].at
    ensures Sort(items[..i + 1]) != Take(Sort(items), i + 1)
  {
    hide Sort, Take;
    var n := i + 1;
    assert items[..n][i] == items[i] && items[n..][j - n] == items[j];
    WindowOfOneList(items, n);
  }

  /** Without missing end times the database's order is the displayed order. */
  lemma EndTimesMakeTheOrderRight(failed: seq<FailedRow>)
    requires FailedOrder(failed) && forall i :: 0 <= i < |failed| ==> failed[i].completedAt.Some?
    ensures Sorted(FailedItems(failed))
  {}

  /** The row shows a failed task of the queue. */
  ghost predicate ShowsFailedTask(row: FailedRow, s: Queue.State) {
    exists t :: t in s.tasks && s.tasks[t].status == Queue.Failed
             && row.completedAt == s.tasks[t].completedAt
  }

  /** Rows the queue itself wrote always page exactly: in every run, whatever the workers and sweeps did. */
  lemma HistoryOfTheQueuePagesExactly(staleTimeoutMs: nat, indexed: bool, events: seq<Queue.Event>, failed: seq<FailedRow>,
                                      completed: seq<CompletedRow>, page: nat, limit: nat)
    requires FailedOrder(failed) && CompletedOrder(completed) && page >= 1
    requires forall i :: 0 <= i < |failed| ==> ShowsFailedTask(failed[i], Queue.Run(Queue.Initial(staleTimeoutMs, indexed), events))
    ensures List(All, completed, failed, page, limit).items
         == Slice(WholeList(All, completed, failed), Offset(page, limit), limit)
  {
    var s := Queue.Run(Queue.Initial(staleTimeoutMs, indexed), events);
    forall i | 0 <= i < |failed| ensures failed[i].completedAt.Some? {
      assert ShowsFailedTask(failed[i], s);
      var t :| t in s.tasks && s.tasks[t].status == Queue.Failed && failed[i].completedAt == s.tasks[t].completedAt;
      Queue.EveryTaskRowIsWellFormed(staleTimeoutMs, indexed, events, t);
    }
    EndTimesMakeTheOrderRight(failed);
    PageIsThePageOfTheWholeList(All, completed, failed, page, limit);
  }

  /** A row without an end time is read first but shown by its creation time: it can push a newer one off page 1. */
  lemma MissingEndTimeBreaksAPage()
    ensures var failed := [FailedRow(None, 10, "old"), FailedRow(Some(20), 5, "new")];
            FailedOrder(failed)
            && List(All, [], failed, 1, 1).items == [Item(10, "failed", "old")]
            && Slice(WholeList(All, [], failed), 0, 1) == [Item(20, "failed", "new")]
  {
    var failed := [FailedRow(None, 10, "old"), FailedRow(Some(20), 5, "new")];
    var earlier, later := Item(10, "failed", "old"), Item(20, "failed", "new");
    assert CompletedItems([]) + FailedItems(failed) == [earlier, later];
    assert Take(CompletedItems([]), 1) + Take(FailedItems(failed), 1) == [earlier];
    SortOfOne(earlier);
    SortOfTwo(earlier, later);
  }

  // ---------------------------------------------------------------- what a page shows

  /** The time row p is shown with; the completed rows come first. */
  function RowTime(completed: seq<CompletedRow>, failed: seq<FailedRow>, p: nat): int
    requires p < |completed| + |failed|
  {
    if p < |completed| then completed[p].createdAt
    else
      var row := failed[p - |completed|];
      if row.completedAt == None then row.createdAt else row.completedAt.value
  }

  /** The item is row p, with its kind, its time and its id. */
  ghost predicate ShowsRow(item: Item, completed: seq<CompletedRow>, failed: seq<FailedRow>, p: nat) {
    && p < |completed| + |failed| && item.at == RowTime(completed, failed, p)
    && if p < |completed| then item.status == "completed" && item.id == completed[p].queryId
       else item.status == "failed" && item.id == failed[p - |completed|].taskId
  }

  /** Different rows, the later time first, and at equal times completed rows first and each kind in its query's order. */
  ghost predicate NewestFirst(completed: seq<CompletedRow>, failed: seq<FailedRow>, places: seq<nat>) {
    && (forall k :: 0 <= k < |places| ==> places[k] < |completed| + |failed|)
    && forall j, k :: 0 <= j < k < |places| ==>
         var earlier, later := RowTime(completed, failed, places[j]), RowTime(completed, failed, places[k]);
         earlier > later || (earlier == later && places[j] < places[k])
  }

  /** The items are these rows, in this order. */
  ghost predicate ShowsRows(items: seq<Item>, completed: seq<CompletedRow>, failed: seq<FailedRow>, places: seq<nat>) {
    |items| == |places| && forall k :: 0 <= k < |items| ==> ShowsRow(items[k], completed, failed, places[k])
  }

  /** Row p in a window of both sources, by its place in the sources in full. */
  function FullPlace(completed: nat, window: nat, p: nat): nat {
    if p < Min(completed, window) then p else p - Min(completed, window) + completed
  }

  function FullPlaces(completed: nat, window: nat, order: seq<nat>): (places: seq<nat>)
    ensures |places| == |order|
  {
    seq(|order|, k requires 0 <= k < |order| => FullPlace(completed, window, order[k]))
  }

  lemma WindowRows(completed: seq<CompletedRow>, failed: seq<FailedRow>, window: nat, p: nat)
    requires p < |Take(CompletedItems(completed), window) + Take(FailedItems(failed), window)|
    ensures ShowsRow((Take(CompletedItems(completed), window) + Take(FailedItems(failed), window))[p], completed, failed,
                     FullPlace(|completed|, window, p))
  {}

  /** Each page of the merged list shows rows, each under its own time and id, the newest first: ties in source order. */
  lemma PageShowsRowsNewestFirst(completed: seq<CompletedRow>, failed: seq<FailedRow>, page: nat, limit: nat)
    requires page >= 1
    ensures exists places :: NewestFirst(completed, failed, places)
                          && ShowsRows(List(All, completed, failed, page, limit).items, completed, failed, places)
  {
    var window, offset := page * limit, Offset(page, limit);
    var items := Take(CompletedItems(completed), window) + Take(FailedItems(failed), window);
    var order := SortListsThePlaces(items);
    var lo, hi := Min(offset, |items|), Min(offset + limit, |items|);
    var shown := List(All, completed, failed, page, limit).items;
    assert shown == Sort(items)[lo..hi];
    hide Sort, Take, FullPlace, CompletedItems, FailedItems, List, ShowsRow, NewestFirst, ShowsRows;
    forall p | 0 <= p < |items| ensures ShowsRow(items[p], completed, failed, FullPlace(|completed|, window, p)) {
      WindowRows(completed, failed, window, p);
    }
    PlacesShowRows(items, order[lo..hi], shown, completed, failed, window);
  }

  lemma PlacesShowRows(items: seq<Item>, order: seq<nat>, shown: seq<Item>, completed: seq<CompletedRow>, failed: seq<FailedRow>, window: nat)
    requires IsNewestFirst(items, order) && |shown| == |order| && forall k :: 0 <= k < |order| ==> shown[k] == items[order[k]]
    requires forall p :: 0 <= p < |items| ==> ShowsRow(items[p], completed, failed, FullPlace(|completed|, window, p))
    ensures var places := FullPlaces(|completed|, window, order);
            NewestFirst(completed, failed, places) && ShowsRows(shown, completed, failed, places)
  {
    hide FullPlace, ShowsRow, RowTime;
    var places := FullPlaces(|completed|, window, order);
    forall k | 0 <= k < |order|
      ensures ShowsRow(shown[k], completed, failed, places[k]) && places[k] < |completed| + |failed|
      ensures items[order[k]].at == RowTime(completed, failed, places[k])
    {
      ShownAtItsTime(items[order[k]], completed, failed, places[k]);
    }
    forall j, k | 0 <= j < k < |order|
      ensures var earlier, later := RowTime(completed, failed, places[j]), RowTime(completed, failed, places[k]);
              earlier > later || (earlier == later && places[j] < places[k])
    {
      assert StandsBefore(items, order[j], order[k]);
      PlacesKeepTheirOrder(|completed|, window, order[j], order[k]);
    }
  }

  lemma ShownAtItsTime(item: Item, completed: seq<CompletedRow>, failed: seq<FailedRow>, p: nat)
    requires ShowsRow(item, completed, failed, p)
    ensures p < |completed| + |failed| && item.at == RowTime(completed, failed, p)
  {}

  lemma PlacesKeepTheirOrder(completed: nat, window: nat, p: nat, q: nat)
    ensures p < q ==> FullPlace(completed, window, p) < FullPlace(completed, window, q)
  {}

  /** All rows in the order they are displayed in. */
  ghost predicate IsDisplayOrder(completed: seq<CompletedRow>, failed: seq<FailedRow>, order: seq<nat>) {
    |order| == |completed| + |failed| && NewestFirst(completed, failed, order)
  }

  /** The displayed times of the failed rows descend. */
  ghost predicate FailedTimesDescend(failed: seq<FailedRow>) {
    forall i, j :: 0 <= i < j < |failed| ==> RowTime([], failed, i) >= RowTime([], failed, j)
  }

  /** If moreover the sources come in displayed order, page after page is the next stretch of all rows in that order. */
  lemma PagesShowAllRowsInOrder(completed: seq<CompletedRow>, failed: seq<FailedRow>)
    requires CompletedOrder(completed) && FailedTimesDescend(failed)
    ensures exists order :: IsDisplayOrder(completed, failed, order) && PagesFollow(completed, failed, order)
  {
    var order := WholeListShowsAllRows(completed, failed);
    FailedItemsDescend(failed);
    hide Sort, CompletedItems, FailedItems, NewestFirst, ShowsRow, WholeList, List, Slice;
    CompletedItemsDescend(completed);
    forall page: nat, limit: nat, k: nat ensures FollowsAt(completed, failed, order, page, limit, k) {
      if page >= 1 && k < limit && (page - 1) * limit + k < |order| {
        PageIsThePageOfTheWholeList(All, completed, failed, page, limit);
        SliceAt(WholeList(All, completed, failed), Offset(page, limit), limit, k);
      }
    }
  }

  lemma CompletedItemsDescend(completed: seq<CompletedRow>)
    requires CompletedOrder(completed)
    ensures Sorted(CompletedItems(completed))
  {}

  /** The whole list shows all rows in displayed order. */
  lemma WholeListShowsAllRows(completed: seq<CompletedRow>, failed: seq<FailedRow>) returns (order: seq<nat>)
    ensures IsDisplayOrder(completed, failed, order) && |WholeList(All, completed, failed)| == |order|
    ensures forall k :: 0 <= k < |order| ==> ShowsRow(WholeList(All, completed, failed)[k], completed, failed, order[k])
  {
    var items := CompletedItems(completed) + FailedItems(failed);
    forall p | 0 <= p < |items| ensures ShowsRow(items[p], completed, failed, p) {}
    order := SortListsThePlaces(items);
    hide Sort, CompletedItems, FailedItems, ShowsRow, RowTime;
    forall k | 0 <= k < |order| ensures ShowsRow(Sort(items)[k], completed, failed, order[k]) {}
    forall j, k | 0 <= j < k < |order|
      ensures var earlier, later := RowTime(completed, failed, order[j]), RowTime(completed, failed, order[k]);
              earlier > later || (earlier == later && order[j] < order[k])
    {
      assert StandsBefore(items, order[j], order[k]);
      ShownAtItsTime(items[order[j]], completed, failed, order[j]);
      ShownAtItsTime(items[order[k]], completed, failed, order[k]);
    }
  }

  lemma FailedItemsDescend(failed: seq<FailedRow>)
    requires FailedTimesDescend(failed)
    ensures Sorted(FailedItems(failed))
  {
    forall i, j | 0 <= i < j < |failed| ensures FailedItems(failed)[i].at >= FailedItems(failed)[j].at {
      assert RowTime([], failed, i) >= RowTime([], failed, j);
    }
  }

  ghost predicate FollowsAt(completed: seq<CompletedRow>, failed: seq<FailedRow>, order: seq<nat>, page: nat, limit: nat, k: nat) {
    page >= 1 && k < limit && (page - 1) * limit + k < |order| ==>
      var shown := List(All, completed, failed, page, limit).items;
      k < |shown| && ShowsRow(shown[k], completed, failed, order[(page - 1) * limit + k])
  }

  /** The k-th item of each page is the k-th row behind the pages before it. */
  ghost predicate PagesFollow(completed: seq<CompletedRow>, failed: seq<FailedRow>, order: seq<nat>) {
    forall page: nat, limit: nat, k: nat :: FollowsAt(completed, failed, order, page, limit, k)
  }

  /** With one status the page is the stretch of that source, and the total counts the rows of the chosen kinds. */
  lemma SinglePagesShowTheirSource(completed: seq<CompletedRow>, failed: seq<FailedRow>, page: nat, limit: nat, k: nat)
    requires page >= 1 && k < limit
    ensures var offset := (page - 1) * limit;
            var done, bad := List(OnlyCompleted, completed, failed, page, limit), List(OnlyFailed, completed, failed, page, limit);
            && (k < |done.items| <==> offset + k < |completed|)
            && (k < |done.items| ==> ShowsRow(done.items[k], completed, [], offset + k))
            && (k < |bad.items| <==> offset + k < |failed|)
            && (k < |bad.items| ==> ShowsRow(bad.items[k], [], failed, offset + k))
            && done.total == |completed| && bad.total == |failed|
            && List(All, completed, failed, page, limit).total == |completed| + |failed|
  {
    hide CompletedItems, FailedItems, Sort, Slice;
    var offset := Offset(page, limit);
    SliceAt(CompletedItems(completed), offset, limit, k);
    SliceAt(FailedItems(failed), offset, limit, k);
    if offset + k < |completed| {
      CompletedItemShowsItsRow(completed, offset + k);
    }
    if offset + k < |failed| {
      FailedItemShowsItsRow(failed, offset + k);
    }
  }

  lemma SliceAt(items: seq<Item>, offset: nat, limit: nat, k: nat)
    requires k < limit
    ensures k < |Slice(items, offset, limit)| <==> offset + k < |items|
    ensures offset + k < |items| ==> Slice(items, offset, limit)[k] == items[offset + k]
  {}

  lemma CompletedItemShowsItsRow(completed: seq<CompletedRow>, p: nat)
    requires p < |completed|
    ensures ShowsRow(CompletedItems(completed)[p], completed, [], p)
  {}

  lemma FailedItemShowsItsRow(failed: seq<FailedRow>, p: nat)
    requires p < |failed|
    ensures ShowsRow(FailedItems(failed)[p], [], failed, p)
  {}

  /** A completed row of time 20 stands before a failed one that ended at 10. */
  lemma NewerCompletedRowIsFirst()
    ensures List(All, [CompletedRow(20, "c")], [FailedRow(Some(10), 5, "f")], 1, 1) == Listing(2, [Item(20, "completed", "c")])
    ensures List(All, [CompletedRow(20, "c")], [FailedRow(Some(10), 5, "f")], 2, 1) == Listing(2, [Item(10, "failed", "f")])
  {
    var c, f := Item(20, "completed", "c"), Item(10, "failed", "f");
    assert CompletedItems([CompletedRow(20, "c")]) == [c] && FailedItems([FailedRow(Some(10), 5, "f")]) == [f];
    assert Take([c], 1) + Take([f], 1) == [c, f] && Take([c], 2) + Take([f], 2) == [c, f];
    assert [c, f][1..] == [f] && [f][1..] == [];
    assert Sort([f]) == [f] && Sort([c, f]) == [c, f];
  }

  /** The first n pages, one after the other. */
  function Pages(status: ListStatus, completed: seq<CompletedRow>, failed: seq<FailedRow>, limit: nat, n: nat): seq<Item> {
    if n == 0 then [] else Pages(status, completed, failed, limit, n - 1) + List(status, completed, failed, n, limit).items
  }

  lemma {:induction false} PagesAreAPrefix(status: ListStatus, completed: seq<CompletedRow>, failed: seq<FailedRow>, limit: nat, n: nat)
    requires Sorted(CompletedItems(completed)) && Sorted(FailedItems(failed))
    ensures Pages(status, completed, failed, limit, n) == Take(WholeList(status, completed, failed), n * limit)
  {
    var whole := WholeList(status, completed, failed);
    if n > 0 {
      PagesAreAPrefix(status, completed, failed, limit, n - 1);
      PageIsThePageOfTheWholeList(status, completed, failed, n, limit);
      PageEndsAtItsWindow(n, limit);
      TakeMore(whole, (n - 1) * limit, limit);
    }
  }

  lemma TakeMore(items: seq<Item>, count: nat, more: nat)
    ensures Take(items, count + more) == Take(items, count) + Slice(items, count, more)
  {}

  /** No gap and no duplicate: once the pages reach `total`, they are the whole list, which holds every row once. */
  lemma PagesTileTheWholeList(status: ListStatus, completed: seq<CompletedRow>, failed: seq<FailedRow>, limit: nat, n: nat)
    requires Sorted(CompletedItems(completed)) && Sorted(FailedItems(failed))
    requires n * limit >= List(status, completed, failed, 1, limit).total
    ensures Pages(status, completed, failed, limit, n) == WholeList(status, completed, failed)
    ensures |WholeList(status, completed, failed)| == List(status, completed, failed, 1, limit).total
    ensures status == All ==> multiset(Pages(status, completed, failed, limit, n))
                              == multiset(CompletedItems(completed)) + multiset(FailedItems(failed))
  {
    PagesAreAPrefix(status, completed, failed, limit, n);
    SortMultiset(CompletedItems(completed) + FailedItems(failed));
  }

  // ---------------------------------------------------------------- the task list

  datatype TaskRow = TaskRow(taskId: string, status: string, createdAt: int, startedAt: Option<int>, completedAt: Option<int>)
  {
    function SortTime(): int { completedAt.GetOr(startedAt.GetOr(createdAt)) }
  }

  function TaskItems(rows: seq<TaskRow>): (items: seq<Item>)
    ensures |items| == |rows|
  {
    seq(|rows|, i requires 0 <= i < |rows| => Item(rows[i].SortTime(), rows[i].status, rows[i].taskId))
  }

  /** Running and terminal rows, each cut at the limit in its own database order, then sorted together and cut. */
  function TaskList(running: seq<TaskRow>, terminal: seq<TaskRow>, limit: nat): seq<Item> {
    Take(Sort(Take(TaskItems(running), limit) + Take(TaskItems(terminal), limit)), limit)
  }

  /** The newest `limit` of all the rows. */
  function NewestTasks(running: seq<TaskRow>, terminal: seq<TaskRow>, limit: nat): seq<Item> {
    Take(Sort(TaskItems(running) + TaskItems(terminal)), limit)
  }

  /** The time a task is shown with: when it ended, else when it started, else when it was created. */
  function ShownTime(row: TaskRow): int {
    if row.completedAt != None then row.completedAt.value else if row.startedAt != None then row.startedAt.value else row.createdAt
  }

  /** The items are these rows, each under its own time, status and id; the later time first, ties in the order of the rows. */
  ghost predicate ShowsTasks(items: seq<Item>, rows: seq<TaskRow>, places: seq<nat>) {
    && |places| >= |items|
    && (forall k :: 0 <= k < |places| ==> places[k] < |rows|)
    && (forall k :: 0 <= k < |items| ==>
          var row := rows[places[k]]; items[k] == Item(ShownTime(row), row.status, row.taskId))
    && forall j, k :: 0 <= j < k < |places| ==>
         var earlier, later := ShownTime(rows[places[j]]), ShownTime(rows[places[k]]);
         earlier > later || (earlier == later && places[j] < places[k])
  }

  lemma ShownTasks(items: seq<Item>, rows: seq<TaskRow>, shown: seq<Item>, order: seq<nat>, places: seq<nat>)
    requires IsNewestFirst(items, order) && |places| == |order| >= |shown|
    requires forall k :: 0 <= k < |shown| ==> shown[k] == items[order[k]]
    requires forall k :: 0 <= k < |order| ==>
               places[k] < |rows| && items[order[k]] == TaskItems(rows)[places[k]]
    requires forall j, k :: 0 <= j < |order| && 0 <= k < |order| && order[j] < order[k] ==> places[j] < places[k]
    ensures ShowsTasks(shown, rows, places)
  {
    forall j, k | 0 <= j < k < |places|
      ensures var earlier, later := ShownTime(rows[places[j]]), ShownTime(rows[places[k]]);
              earlier > later || (earlier == later && places[j] < places[k])
    {
      assert StandsBefore(items, order[j], order[k]);
    }
  }

  /** The list shows as many tasks as fit, newest first. */
  lemma TaskListShowsTasksNewestFirst(running: seq<TaskRow>, terminal: seq<TaskRow>, limit: nat)
    ensures |TaskList(running, terminal, limit)| == Min(limit, |running| + |terminal|)
    ensures exists places :: ShowsTasks(TaskList(running, terminal, limit), running + terminal, places)
  {
    var items := Take(TaskItems(running), limit) + Take(TaskItems(terminal), limit);
    var order := SortListsThePlaces(items);
    var places := FullPlaces(|running|, limit, order);
    var shown := TaskList(running, terminal, limit);
    assert |shown| == Min(limit, |running| + |terminal|) && shown == Sort(items)[..|shown|];
    hide Sort, TaskItems, Take, TaskList, ShowsTasks, FullPlace;
    forall k | 0 <= k < |order|
      ensures places[k] < |running + terminal| && items[order[k]] == TaskItems(running + terminal)[places[k]]
    {
      WindowTasks(running, terminal, limit, order[k]);
    }
    forall j, k | 0 <= j < |order| && 0 <= k < |order| && order[j] < order[k] ensures places[j] < places[k] {
      PlacesKeepTheirOrder(|running|, limit, order[j], order[k]);
    }
    ShownTasks(items, running + terminal, shown, order, places);
  }

  lemma WindowTasks(running: seq<TaskRow>, terminal: seq<TaskRow>, limit: nat, p: nat)
    requires p < |Take(TaskItems(running), limit) + Take(TaskItems(terminal), limit)|
    ensures var place := FullPlace(|running|, limit, p);
            && place < |running + terminal|
            && (Take(TaskItems(running), limit) + Take(TaskItems(terminal), limit))[p] == TaskItems(running + terminal)[place]
  {
    var place, kept := FullPlace(|running|, limit, p), |Take(TaskItems(running), limit)|;
    if p < kept {
      assert (running + terminal)[place] == running[p];
    } else {
      assert (running + terminal)[place] == terminal[p - kept];
    }
  }

  /** When it is exact, these are the first of all tasks in displayed order. */
  lemma ExactTaskListIsTheFirstOfAll(running: seq<TaskRow>, terminal: seq<TaskRow>, limit: nat)
    requires Exact(running, terminal, limit)
    ensures exists order :: |order| == |running| + |terminal| && ShowsTasks(TaskList(running, terminal, limit), running + terminal, order)
  {
    var items := TaskItems(running) + TaskItems(terminal);
    assert items == TaskItems(running + terminal);
    var order := SortListsThePlaces(items);
    ShownTasks(items, running + terminal, TaskList(running, terminal, limit), order, order);
  }

  /** Running rows come with createdAt descending. */
  ghost predicate RunningOrder(rows: seq<TaskRow>) {
    forall i, j :: 0 <= i < j < |rows| ==> rows[i].createdAt >= rows[j].createdAt
  }

  /** completedAt descending with NULL last, then createdAt descending. */
  predicate TerminalNotAfter(a: TaskRow, b: TaskRow) {
    match (a.completedAt, b.completedAt)
    case (Some(_), None) => true
    case (None, Some(_)) => false
    case (None, None) => a.createdAt >= b.createdAt
    case (Some(x), Some(y)) => x > y || (x == y && a.createdAt >= b.createdAt)
  }

  ghost predicate TerminalOrder(rows: seq<TaskRow>) {
    forall i, j :: 0 <= i < j < |rows| ==> TerminalNotAfter(rows[i], rows[j])
  }

  ghost predicate HasEndTimes(rows: seq<TaskRow>) {
    forall i :: 0 <= i < |rows| ==> rows[i].completedAt.Some?
  }

  /** No row cut off by the limit is displayed with a later time than one that was kept. */
  ghost predicate CutIsByTime(rows: seq<TaskRow>, limit: nat) {
    CutByTime(TaskItems(rows), limit)
  }

  ghost predicate Exact(running: seq<TaskRow>, terminal: seq<TaskRow>, limit: nat) {
    TaskList(running, terminal, limit) == NewestTasks(running, terminal, limit)
  }

  /** With end times present the terminal rows come in the order they are displayed in, so any cut is by time. */
  lemma EndTimesMakeTheCutRight(terminal: seq<TaskRow>, limit: nat)
    requires TerminalOrder(terminal) && HasEndTimes(terminal)
    ensures Sorted(TaskItems(terminal)) && CutIsByTime(terminal, limit)
  {
    forall i, j | 0 <= i < j < |terminal| ensures TaskItems(terminal)[i].at >= TaskItems(terminal)[j].at {
      assert TerminalNotAfter(terminal[i], terminal[j]);
    }
    SortedSplit(TaskItems(terminal), limit);
  }

  lemma AloneIsExactIff(rows: seq<TaskRow>, limit: nat)
    ensures CutIsByTime(rows, limit) <==> Exact(rows, [], limit)
    ensures CutIsByTime(rows, limit) <==> Exact([], rows, limit)
  {
    hide Sort, CutByTime;
    var items := TaskItems(rows);
    assert items + TaskItems([]) == items && TaskItems([]) + items == items;
    assert Take(items, limit) + Take(TaskItems([]), limit) == Take(items, limit);
    assert Take(TaskItems([]), limit) + Take(items, limit) == Take(items, limit);
    CutKeepsTheSort(items, limit);
    SortMultiset(Take(items, limit));
  }

  /** Task ids are unique. */
  ghost predicate UniqueIds(running: seq<TaskRow>, terminal: seq<TaskRow>) {
    forall i, j :: 0 <= i < j < |running + terminal| ==> (running + terminal)[i].taskId != (running + terminal)[j].taskId
  }

  /** Every row cut off by the limit is displayed behind at least `limit` of the rows kept: behind those not older that
      stand before it in the joined list, and behind the newer ones that stand after it. */
  ghost predicate CutOffRowsRankBehind(running: seq<TaskRow>, terminal: seq<TaskRow>, limit: nat) {
    CutRanksBehind(TaskItems(running), TaskItems(terminal), limit)
  }

  /** The exact condition on the rows the two queries return: the list is the newest `limit` rows exactly when every
      row a query cuts off is displayed behind at least `limit` rows that the queries keep. */
  lemma TaskListIsExactIff(running: seq<TaskRow>, terminal: seq<TaskRow>, limit: nat)
    requires UniqueIds(running, terminal)
    ensures Exact(running, terminal, limit) <==> CutOffRowsRankBehind(running, terminal, limit)
  {
    hide Sort, CutRanksBehind, CutIsApart;
    CutOffIsNotKept(running, terminal, limit);
    if CutOffRowsRankBehind(running, terminal, limit) {
      RankedCutIsExact(TaskItems(running), TaskItems(terminal), limit);
    }
    if Exact(running, terminal, limit) {
      ExactCutRanks(TaskItems(running), TaskItems(terminal), limit);
    }
  }

  lemma CutOffIsNotKept(running: seq<TaskRow>, terminal: seq<TaskRow>, limit: nat)
    requires UniqueIds(running, terminal)
    ensures CutIsApart(TaskItems(running), TaskItems(terminal), limit)
  {
    hide UniqueIds, Take, Rest, TaskItems;
    var first, tail := TaskItems(running), TaskItems(terminal);
    forall x, y | (x in Rest(first, limit) || x in Rest(tail, limit)) && (y in Take(first, limit) || y in Take(tail, limit)) ensures x != y {
      var i := PlaceOfCutOff(running, terminal, limit, x);
      var j := PlaceOfKept(running, terminal, limit, y);
      PlacesDiffer(running, terminal, x, i, y, j);
    }
  }

  lemma PlacesDiffer(running: seq<TaskRow>, terminal: seq<TaskRow>, x: Item, i: nat, y: Item, j: nat)
    requires UniqueIds(running, terminal) && ComesFrom(running, terminal, x, i) && ComesFrom(running, terminal, y, j) && i != j
    ensures x != y
  {}

  /** Where in the joined list an item comes from. */
  ghost predicate ComesFrom(running: seq<TaskRow>, terminal: seq<TaskRow>, x: Item, i: nat) {
    i < |running + terminal| && x.id == (running + terminal)[i].taskId
  }

  lemma TaskItemsShow(rows: seq<TaskRow>)
    ensures |TaskItems(rows)| == |rows| && forall i :: 0 <= i < |rows| ==> TaskItems(rows)[i].id == rows[i].taskId
  {}

  lemma PlaceOfCutOff(running: seq<TaskRow>, terminal: seq<TaskRow>, limit: nat, x: Item) returns (i: nat)
    requires x in Rest(TaskItems(running), limit) || x in Rest(TaskItems(terminal), limit)
    ensures ComesFrom(running, terminal, x, i) && if i < |running| then i >= limit else i - |running| >= limit
  {
    hide Take, Rest, TaskItems;
    TaskItemsShow(running);
    TaskItemsShow(terminal);
    if x in Rest(TaskItems(running), limit) {
      TakeAndRest(TaskItems(running), limit);
      i :| limit <= i < |running| && TaskItems(running)[i] == x;
    } else {
      TakeAndRest(TaskItems(terminal), limit);
      var k :| limit <= k < |terminal| && TaskItems(terminal)[k] == x;
      i := |running| + k;
    }
  }

  lemma PlaceOfKept(running: seq<TaskRow>, terminal: seq<TaskRow>, limit: nat, y: Item) returns (j: nat)
    requires y in Take(TaskItems(running), limit) || y in Take(TaskItems(terminal), limit)
    ensures ComesFrom(running, terminal, y, j) && if j < |running| then j < limit else j - |running| < limit
  {
    if y in Take(TaskItems(running), limit) {
      var k :| 0 <= k < |Take(TaskItems(running), limit)| && Take(TaskItems(running), limit)[k] == y;
      j := k;
    } else {
      var k :| 0 <= k < |Take(TaskItems(terminal), limit)| && Take(TaskItems(terminal), limit)[k] == y;
      j := |running| + k;
    }
  }

  /**
   A condition on each query alone: the list is the newest `limit` rows with both kinds present and with either
   kind alone exactly when both cuts are by time.
   */
  lemma CutsByTimeIff(running: seq<TaskRow>, terminal: seq<TaskRow>, limit: nat)
    ensures CutIsByTime(running, limit) && CutIsByTime(terminal, limit) <==>
            Exact(running, terminal, limit) && Exact(running, [], limit) && Exact([], terminal, limit)
  {
    hide Sort, CutByTime, Exact;
    AloneIsExactIff(running, limit);
    AloneIsExactIff(terminal, limit);
    if CutIsByTime(running, limit) && CutIsByTime(terminal, limit) {
      BothCutsByTimeAreExact(running, terminal, limit);
    }
  }

  lemma BothCutsByTimeAreExact(running: seq<TaskRow>, terminal: seq<TaskRow>, limit: nat)
    requires CutIsByTime(running, limit) && CutIsByTime(terminal, limit)
    ensures Exact(running, terminal, limit)
  {
    WindowOfTwoLists(TaskItems(running), TaskItems(terminal), limit);
  }

  /** On the running rows alone: the list is exact beside every list of terminal rows that is itself cut by time. */
  lemma RunningCutDecides(running: seq<TaskRow>, limit: nat)
    ensures CutIsByTime(running, limit) <==>
            forall terminal | TerminalOrder(terminal) && CutIsByTime(terminal, limit) :: Exact(running, terminal, limit)
    ensures |running| <= limit ==> CutIsByTime(running, limit)
  {
    hide Exact;
    AloneIsExactIff(running, limit);
    if CutIsByTime(running, limit) {
      forall terminal | TerminalOrder(terminal) && CutIsByTime(terminal, limit) ensures Exact(running, terminal, limit) {
        BothCutsByTimeAreExact(running, terminal, limit);
      }
    } else {
      assert TerminalOrder([]) && CutIsByTime([], limit) && !Exact(running, [], limit);
    }
  }

  /** On the terminal rows alone: the list is exact beside every list of running rows that is itself cut by time. */
  lemma TerminalCutDecides(terminal: seq<TaskRow>, limit: nat)
    ensures CutIsByTime(terminal, limit) <==>
            forall running | RunningOrder(running) && CutIsByTime(running, limit) :: Exact(running, terminal, limit)
  {
    hide Exact;
    AloneIsExactIff(terminal, limit);
    if CutIsByTime(terminal, limit) {
      forall running | RunningOrder(running) && CutIsByTime(running, limit) ensures Exact(running, terminal, limit) {
        BothCutsByTimeAreExact(running, terminal, limit);
      }
    } else {
      assert RunningOrder([]) && CutIsByTime([], limit) && !Exact([], terminal, limit);
    }
  }

  /** The row shows an ended task of the queue. */
  ghost predicate ShowsEndedTask(row: TaskRow, s: Queue.State) {
    exists t :: t in s.tasks && (s.tasks[t].status == Queue.Completed || s.tasks[t].status == Queue.Failed)
             && row.completedAt == s.tasks[t].completedAt
  }

  /** With at most `limit` tasks running, and terminal rows the queue itself wrote, the list is always exact. */
  lemma TaskListOfTheQueueIsExact(staleTimeoutMs: nat, indexed: bool, events: seq<Queue.Event>, running: seq<TaskRow>,
                                  terminal: seq<TaskRow>, limit: nat)
    requires |running| <= limit && TerminalOrder(terminal)
    requires forall i :: 0 <= i < |terminal| ==> ShowsEndedTask(terminal[i], Queue.Run(Queue.Initial(staleTimeoutMs, indexed), events))
    ensures Exact(running, terminal, limit)
  {
    var s := Queue.Run(Queue.Initial(staleTimeoutMs, indexed), events);
    forall i | 0 <= i < |terminal| ensures terminal[i].completedAt.Some? {
      assert ShowsEndedTask(terminal[i], s);
      var t :| t in s.tasks && (s.tasks[t].status == Queue.Completed || s.tasks[t].status == Queue.Failed)
            && terminal[i].completedAt == s.tasks[t].completedAt;
      Queue.EveryTaskRowIsWellFormed(staleTimeoutMs, indexed, events, t);
    }
    EndTimesMakeTheCutRight(terminal, limit);
    BothCutsByTimeAreExact(running, terminal, limit);
  }

  lemma OlderRowKept(first: TaskRow, second: TaskRow)
    requires first.SortTime() < second.SortTime()
    ensures !CutIsByTime([first, second], 1)
  {
    var items := TaskItems([first, second]);
    assert items[..1][0] == items[0] && items[1..][0] == items[1];
  }

  /** With two tasks running and a limit of one, a task created first but started last is missing. */
  lemma ManyRunningTasksCanHideTheNewest()
    ensures var running := [TaskRow("b", "pending", 2, None, None), TaskRow("a", "processing", 1, Some(3), None)];
            RunningOrder(running) && !CutIsByTime(running, 1) && !Exact(running, [], 1)
  {
    var running := [TaskRow("b", "pending", 2, None, None), TaskRow("a", "processing", 1, Some(3), None)];
    OlderRowKept(running[0], running[1]);
    AloneIsExactIff(running, 1);
  }

  /** A terminal row without an end time is listed last but displayed by its creation time: it can be missing too. */
  lemma MissingEndTimeCanHideTheNewest()
    ensures var terminal := [TaskRow("a", "failed", 1, None, Some(10)), TaskRow("b", "failed", 20, None, None)];
            TerminalOrder(terminal) && !CutIsByTime(terminal, 1) && !Exact([], terminal, 1)
  {
    var terminal := [TaskRow("a", "failed", 1, None, Some(10)), TaskRow("b", "failed", 20, None, None)];
    OlderRowKept(terminal[0], terminal[1]);
    AloneIsExactIff(terminal, 1);
  }
}
