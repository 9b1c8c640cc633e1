/** A stable sort by descending time, and which prefix of the sorted list a window of the input decides. */
module StableSort {
  import opened Basics

  /** A list item: the time it is shown with, its status, and what it is. */
  datatype Item = Item(at: int, status: string, id: string)

  function Insert(x: Item, sorted: seq<Item>): seq<Item> {
    if sorted == [] || x.at >= sorted[0].at then [x] + sorted else [sorted[0]] + Insert(x, sorted[1..])
  }

  /** Each item goes in front of the first one that is not newer: equal times keep their order. */
  function Sort(items: seq<Item>): seq<Item> {
    if items == [] then [] else Insert(items[0], Sort(items[1..]))
  }

  /** No item of the first list is older than one of the second. */
  ghost predicate AllNotOlder(newer: seq<Item>, older: seq<Item>) {
    forall x, y :: x in newer && y in older ==> x.at >= y.at
  }

  ghost predicate Sorted(items: seq<Item>) {
    forall i, j :: 0 <= i < j < |items| ==> items[i].at >= items[j].at
  }

  function AtKey(items: seq<Item>, at: int): seq<Item> {
    if items == [] then [] else (if items[0].at == at then [items[0]] else []) + AtKey(items[1..], at)
  }

  /** A stable sort by its specification: descending, and the items of each time in their original order. */
  ghost predicate IsStableSortOf(sorted: seq<Item>, items: seq<Item>) {
    Sorted(sorted) && forall at :: AtKey(sorted, at) == AtKey(items, at)
  }

  lemma SortedCons(x: Item, rest: seq<Item>)
    ensures Sorted([x] + rest) <==> Sorted(rest) && AllNotOlder([x], rest)
  {
    if Sorted([x] + rest) {
      forall i, j | 0 <= i < j < |rest| ensures rest[i].at >= rest[j].at {
        assert ([x] + rest)[i + 1] == rest[i] && ([x] + rest)[j + 1] == rest[j];
      }
      forall y | y in rest ensures x.at >= y.at {
        var j :| 0 <= j < |rest| && rest[j] == y;
        assert ([x] + rest)[0] == x && ([x] + rest)[j + 1] == y;
      }
    }
  }

  lemma {:induction false} InsertMultiset(x: Item, sorted: seq<Item>)
    ensures multiset(Insert(x, sorted)) == multiset(sorted) + multiset{x}
  {
    if sorted != [] && x.at < sorted[0].at {
      InsertMultiset(x, sorted[1..]);
      assert sorted == [sorted[0]] + sorted[1..];
    }
  }

  lemma {:induction false} SortMultiset(items: seq<Item>)
    ensures multiset(Sort(items)) == multiset(items) && |Sort(items)| == |items|
  {
    if items != [] {
      SortMultiset(items[1..]);
      InsertMultiset(items[0], Sort(items[1..]));
      assert items == [items[0]] + items[1..];
      assert |multiset(Sort(items))| == |multiset(items)|;
    }
  }

  lemma {:induction false} InsertSorted(x: Item, sorted: seq<Item>)
    requires Sorted(sorted)
    ensures Sorted(Insert(x, sorted))
  {
    if sorted != [] {
      assert sorted == [sorted[0]] + sorted[1..];
      SortedCons(sorted[0], sorted[1..]);
      if x.at < sorted[0].at {
        InsertSorted(x, sorted[1..]);
        InsertMultiset(x, sorted[1..]);
        forall y | y in Insert(x, sorted[1..]) ensures sorted[0].at >= y.at {
          assert y in multiset(Insert(x, sorted[1..]));
        }
        SortedCons(sorted[0], Insert(x, sorted[1..]));
      } else {
        SortedCons(x, sorted);
      }
    }
  }

  lemma AtKeyCons(x: Item, rest: seq<Item>, at: int)
    ensures AtKey([x] + rest, at) == (if x.at == at then [x] else []) + AtKey(rest, at)
  {}

  lemma {:induction false} InsertAtKey(x: Item, sorted: seq<Item>, at: int)
    requires Sorted(sorted)
    ensures AtKey(Insert(x, sorted), at) == (if x.at == at then [x] else []) + AtKey(sorted, at)
    decreases |sorted|
  {
    hide AtKey, Sorted;
    if sorted != [] && x.at < sorted[0].at {
      var y, rest := sorted[0], sorted[1..];
      assert sorted == [y] + rest;
      AtKeyCons(y, rest, at);
      AtKeyCons(y, Insert(x, rest), at);
      SortedCons(y, rest);
      InsertAtKey(x, rest, at);
    } else {
      AtKeyCons(x, sorted, at);
    }
  }

  /** The insertion sort meets the specification. */
  lemma {:induction false} SortIsStable(items: seq<Item>)
    ensures IsStableSortOf(Sort(items), items)
  {
    if items != [] {
      SortIsStable(items[1..]);
      InsertSorted(items[0], Sort(items[1..]));
      forall at ensures AtKey(Sort(items), at) == AtKey(items, at) {
        InsertAtKey(items[0], Sort(items[1..]), at);
      }
    }
  }

  lemma {:induction false} AtKeyMembers(items: seq<Item>, at: int)
    ensures forall x :: x in AtKey(items, at) <==> x in items && x.at == at
  {
    if items != [] {
      AtKeyMembers(items[1..], at);
    }
  }

  /** Under equal classes, the head of one list is a member of the other. */
  lemma HeadIsShared(a: seq<Item>, b: seq<Item>)
    requires a != [] && AtKey(a, a[0].at) == AtKey(b, a[0].at)
    ensures a[0] in b
  {
    AtKeyMembers(a, a[0].at);
    AtKeyMembers(b, a[0].at);
    assert a[0] in AtKey(a, a[0].at);
  }

  /** The specification leaves no choice: two stable sorts of the same list are the same list. */
  lemma {:induction false} StableSortIsUnique(a: seq<Item>, b: seq<Item>, items: seq<Item>)
    requires IsStableSortOf(a, items) && IsStableSortOf(b, items)
    ensures a == b
  {
    SameClassesSameList(a, b);
  }

  lemma {:induction false} SameClassesSameList(a: seq<Item>, b: seq<Item>)
    requires Sorted(a) && Sorted(b) && forall at :: AtKey(a, at) == AtKey(b, at)
    ensures a == b
    decreases |a|
  {
    if a != [] {
      HeadIsShared(a, b);
      HeadIsShared(b, a);
      var key := a[0].at;
      assert b[0].at == key;
      assert AtKey(a, key) == [a[0]] + AtKey(a[1..], key) && AtKey(b, key) == [b[0]] + AtKey(b[1..], key);
      assert a[0] == AtKey(a, key)[0] == b[0];
      forall at ensures AtKey(a[1..], at) == AtKey(b[1..], at) {
        assert AtKey(a, at) == AtKey(b, at);
        if at == key {
          assert AtKey(a, key)[1..] == AtKey(a[1..], key) && AtKey(b, key)[1..] == AtKey(b[1..], key);
        } else {
          assert AtKey(a, at) == AtKey(a[1..], at) && AtKey(b, at) == AtKey(b[1..], at);
        }
      }
      SameClassesSameList(a[1..], b[1..]);
      assert a == [a[0]] + a[1..] && b == [b[0]] + b[1..];
    } else if b != [] {
      HeadIsShared(b, a);
    }
  }

  // ---------------------------------------------------------------- merging

  function Merge(left: seq<Item>, right: seq<Item>): seq<Item>
    decreases |left| + |right|
  {
    if left == [] then right
    else if right == [] || left[0].at >= right[0].at then [left[0]] + Merge(left[1..], right)
    else [right[0]] + Merge(left, right[1..])
  }

  /** A tie is won by the left list, so inserting in front of a merge is inserting into its left list. */
  lemma {:induction false} InsertIntoMerge(x: Item, left: seq<Item>, right: seq<Item>)
    ensures Insert(x, Merge(left, right)) == Merge(Insert(x, left), right)
    decreases |left| + |right|
  {
    assert ([x] + left)[1..] == left;
    if left == [] {
      assert [x] + left == [x];
      InsertIntoSecond(x, right);
    } else if right == [] || left[0].at >= right[0].at {
      if x.at < left[0].at {
        InsertIntoMerge(x, left[1..], right);
        assert ([left[0]] + Merge(left[1..], right))[1..] == Merge(left[1..], right);
        assert ([left[0]] + Insert(x, left[1..]))[1..] == Insert(x, left[1..]);
      }
    } else {
      assert ([right[0]] + Merge(left, right[1..]))[1..] == Merge(left, right[1..]);
      if x.at < right[0].at {
        InsertIntoMerge(x, left, right[1..]);
      }
    }
  }

  lemma {:induction false} InsertIntoSecond(x: Item, right: seq<Item>)
    ensures Insert(x, right) == Merge([x], right)
  {
    assert [x][1..] == [];
    if right != [] && x.at < right[0].at {
      InsertIntoSecond(x, right[1..]);
    }
  }

  lemma {:induction false} SortSorted(items: seq<Item>)
    requires Sorted(items)
    ensures Sort(items) == items
  {
    if items != [] {
      SortSorted(items[1..]);
    }
  }

  lemma SortOfOne(x: Item)
    ensures Sort([x]) == [x]
  {
    assert [x][1..] == [];
  }

  lemma SortOfTwo(x: Item, y: Item)
    ensures Sort([x, y]) == if x.at >= y.at then [x, y] else [y, x]
  {
    SortOfOne(y);
    assert [x, y][1..] == [y];
    assert [y][1..] == [];
    assert Sort([x, y]) == Insert(x, [y]);
  }

  /** Sorting two lists joined is merging their sorts, ties going to the first. */
  lemma {:induction false} SortConcatIsMerge(first: seq<Item>, tail: seq<Item>)
    ensures Sort(first + tail) == Merge(Sort(first), Sort(tail))
    decreases |first|
  {
    if first == [] {
      assert first + tail == tail;
    } else {
      assert (first + tail)[1..] == first[1..] + tail;
      SortConcatIsMerge(first[1..], tail);
      InsertIntoMerge(first[0], Sort(first[1..]), Sort(tail));
    }
  }

  // ---------------------------------------------------------------- windows

  lemma TakeCons(x: Item, rest: seq<Item>, n: nat)
    requires n > 0
    ensures Take([x] + rest, n) == [x] + Take(rest, n - 1)
  {}

  lemma TakeTake(items: seq<Item>, a: nat, n: nat)
    requires n <= a
    ensures Take(Take(items, a), n) == Take(items, n) && (n == 0 ==> Take(items, n) == [])
  {}

  /** The first n items of a merge need no more than the first n of each list. */
  lemma {:induction false} MergePrefix(left: seq<Item>, right: seq<Item>, a: nat, b: nat, n: nat)
    requires n <= a && n <= b
    ensures Take(Merge(left, right), n) == Take(Merge(Take(left, a), Take(right, b)), n)
    decreases n
  {
    hide Take;
    TakeTake(Merge(left, right), n, n);
    TakeTake(Merge(Take(left, a), Take(right, b)), n, n);
    TakeNothing(a);
    TakeNothing(b);
    if left == [] {
      TakeTake(right, b, n);
    } else if n > 0 {
      assert left == [left[0]] + left[1..];
      TakeCons(left[0], left[1..], a);
      if right != [] && left[0].at < right[0].at {
        assert right == [right[0]] + right[1..];
        TakeCons(right[0], right[1..], b);
        MergePrefix(left, right[1..], a, b - 1, n - 1);
        TakeCons(right[0], Merge(left, right[1..]), n);
        TakeCons(right[0], Merge(Take(left, a), Take(right[1..], b - 1)), n);
      } else {
        MergeTakesLeft(left[0], Take(left[1..], a - 1), right, b);
        MergePrefix(left[1..], right, a - 1, b, n - 1);
        TakeCons(left[0], Merge(left[1..], right), n);
        TakeCons(left[0], Merge(Take(left[1..], a - 1), Take(right, b)), n);
      }
    }
  }

  lemma TakeNothing(n: nat)
    ensures Take<Item>([], n) == []
  {}

  lemma MergeTakesLeft(x: Item, rest: seq<Item>, right: seq<Item>, b: nat)
    requires b > 0 && (right == [] || x.at >= right[0].at)
    ensures Merge([x] + rest, Take(right, b)) == [x] + Merge(rest, Take(right, b))
  {
    assert ([x] + rest)[1..] == rest;
  }

  lemma {:induction false} AtKeyConcat(a: seq<Item>, b: seq<Item>, at: int)
    ensures AtKey(a + b, at) == AtKey(a, at) + AtKey(b, at)
  {
    if a == [] {
      assert a + b == b;
    } else {
      var rest := a[1..];
      AtKeyConcat(rest, b, at);
      AtKeyCons(a[0], rest, at);
      AtKeyCons(a[0], rest + b, at);
      assert a == [a[0]] + rest && a + b == [a[0]] + (rest + b);
    }
  }

  lemma SortMembers(items: seq<Item>)
    ensures forall x :: x in Sort(items) <==> x in items
  {
    SortMultiset(items);
    forall x ensures x in Sort(items) <==> x in items {
      assert x in Sort(items) <==> x in multiset(Sort(items));
      assert x in items <==> x in multiset(items);
    }
  }

  /** When nothing in the first list is older than the second, each is sorted on its own. */
  lemma SortOfSplit(newer: seq<Item>, older: seq<Item>)
    requires AllNotOlder(newer, older)
    ensures Sort(newer + older) == Sort(newer) + Sort(older)
  {
    SortIsStable(newer);
    SortIsStable(older);
    SortIsStable(newer + older);
    SortMembers(newer);
    SortMembers(older);
    forall i, j | 0 <= i < |Sort(newer)| && 0 <= j < |Sort(older)|
      ensures Sort(newer)[i].at >= Sort(older)[j].at
    {
      assert Sort(newer)[i] in newer && Sort(older)[j] in older;
    }
    forall at ensures AtKey(Sort(newer) + Sort(older), at) == AtKey(newer + older, at) {
      AtKeyConcat(Sort(newer), Sort(older), at);
      AtKeyConcat(newer, older, at);
    }
    StableSortIsUnique(Sort(newer + older), Sort(newer) + Sort(older), newer + older);
  }

  lemma SortedConcat(a: seq<Item>, b: seq<Item>)
    requires Sorted(a + b)
    ensures AllNotOlder(a, b)
  {
    forall x, y | x in a && y in b ensures x.at >= y.at {
      var i :| 0 <= i < |a| && a[i] == x;
      var j :| 0 <= j < |b| && b[j] == y;
      assert (a + b)[i] == x && (a + b)[|a| + j] == y;
    }
  }

  lemma SortIsSorted(items: seq<Item>)
    ensures Sorted(Sort(items))
  {
    SortIsStable(items);
  }

  lemma OrderDoesNotMatter(a: seq<Item>, b: seq<Item>, a': seq<Item>, b': seq<Item>)
    requires AllNotOlder(a, b) && multiset(a) == multiset(a') && multiset(b) == multiset(b')
    ensures AllNotOlder(a', b')
  {
    forall x, y | x in a' && y in b' ensures x.at >= y.at {
      assert x in multiset(a') && y in multiset(b');
      assert x in a && y in b;
    }
  }

  lemma Cancel(a: multiset<Item>, b: multiset<Item>, c: multiset<Item>)
    requires a + b == a + c
    ensures b == c
  {
    forall x ensures b[x] == c[x] {
      assert (a + b)[x] == (a + c)[x];
    }
  }

  /** A prefix of the sort that holds exactly the items of `head` leaves only older ones behind. */
  lemma PrefixOfSort(head: seq<Item>, rest: seq<Item>, others: seq<Item>)
    requires Sort(head + rest) == Sort(head) + others
    ensures AllNotOlder(head, rest)
  {
    hide Sort, Sorted, AllNotOlder;
    SortMultiset(head);
    SortMultiset(head + rest);
    SortIsSorted(head + rest);
    SortedConcat(Sort(head), others);
    assert multiset(Sort(head) + others) == multiset(Sort(head)) + multiset(others);
    Cancel(multiset(head), multiset(others), multiset(rest));
    OrderDoesNotMatter(Sort(head), others, head, rest);
  }

  lemma SplitIsExact(head: seq<Item>, rest: seq<Item>)
    ensures Sort(head) == Take(Sort(head + rest), |head|) <==> AllNotOlder(head, rest)
  {
    hide Sort, AllNotOlder;
    SortMultiset(head);
    SortMultiset(head + rest);
    var sorted := Sort(head + rest);
    if AllNotOlder(head, rest) {
      SortOfSplit(head, rest);
    } else if Sort(head) == Take(sorted, |head|) {
      assert sorted == Sort(head) + sorted[|head|..];
      PrefixOfSort(head, rest, sorted[|head|..]);
    }
  }

  /** Sorting only the first n items gives the first n of the sort exactly when none of them is older than the rest. */
  lemma WindowOfOneList(items: seq<Item>, n: nat)
    requires n <= |items|
    ensures Sort(items[..n]) == Take(Sort(items), n) <==> AllNotOlder(items[..n], items[n..])
  {
    assert items == items[..n] + items[n..];
    SplitIsExact(items[..n], items[n..]);
  }

  /** The first n of the list agree with its displayed times: none of them is older than the rest. */
  ghost predicate CutByTime(items: seq<Item>, n: nat) {
    n >= |items| || AllNotOlder(items[..n], items[n..])
  }

  lemma CutKeepsTheSort(items: seq<Item>, n: nat)
    ensures CutByTime(items, n) <==> Sort(Take(items, n)) == Take(Sort(items), n)
  {
    SortMultiset(items);
    if n < |items| {
      WindowOfOneList(items, n);
    }
  }

  /** With both cuts by time, the first n of two lists sorted together need only the first n of each. */
  lemma WindowOfTwoLists(first: seq<Item>, tail: seq<Item>, n: nat)
    requires CutByTime(first, n) && CutByTime(tail, n)
    ensures Take(Sort(Take(first, n) + Take(tail, n)), n) == Take(Sort(first + tail), n)
  {
    hide Sort, CutByTime, Take;
    SortConcatIsMerge(first, tail);
    SortConcatIsMerge(Take(first, n), Take(tail, n));
    CutKeepsTheSort(first, n);
    CutKeepsTheSort(tail, n);
    MergePrefix(Sort(first), Sort(tail), n, n, n);
  }

  // ---------------------------------------------------------------- where each item comes from

  /** `order` lists places of `items`, the newest first, and the earlier place first at equal times. */
  ghost predicate IsNewestFirst(items: seq<Item>, order: seq<nat>) {
    && (forall k :: 0 <= k < |order| ==> order[k] < |items|)
    && forall j, k :: 0 <= j < k < |order| ==> StandsBefore(items, order[j], order[k])
  }

  predicate StandsBefore(items: seq<Item>, p: nat, q: nat)
    requires p < |items| && q < |items|
  {
    items[p].at > items[q].at || (items[p].at == items[q].at && p < q)
  }

  lemma {:induction false} InsertPlace(x: Item, sorted: seq<Item>) returns (r: nat)
    requires Sorted(sorted)
    ensures r <= |sorted| && Insert(x, sorted) == sorted[..r] + [x] + sorted[r..]
    ensures forall i :: 0 <= i < |sorted| ==> if i < r then sorted[i].at > x.at else sorted[i].at <= x.at
    decreases |sorted|
  {
    if sorted == [] || x.at >= sorted[0].at {
      r := 0;
    } else {
      r := InsertPlace(x, sorted[1..]);
      r := r + 1;
      assert sorted == [sorted[0]] + sorted[1..];
      assert sorted[..r] == [sorted[0]] + sorted[1..][..r - 1] && sorted[r..] == sorted[1..][r - 1..];
    }
  }

  function Shifted(order: seq<nat>): (shifted: seq<nat>)
    ensures |shifted| == |order|
  {
    seq(|order|, k requires 0 <= k < |order| => order[k] + 1)
  }

  /** The sort is a listing of all places, newest first. */
  lemma {:induction false} SortListsThePlaces(items: seq<Item>) returns (order: seq<nat>)
    ensures |order| == |items| == |Sort(items)| && IsNewestFirst(items, order)
    ensures forall k :: 0 <= k < |order| ==> Sort(items)[k] == items[order[k]]
  {
    if items == [] {
      order := [];
    } else {
      var rest := SortListsThePlaces(items[1..]);
      SortIsSorted(items[1..]);
      var r := InsertPlace(items[0], Sort(items[1..]));
      order := WithFirstAt(rest, r);
      PlacesWithFirst(items, Sort(items[1..]), rest, r);
    }
  }

  /** The order of the rest, with the first item put in at r. */
  function WithFirstAt(rest: seq<nat>, r: nat): (order: seq<nat>)
    requires r <= |rest|
    ensures |order| == |rest| + 1
    ensures forall k :: 0 <= k < |order| ==> order[k] == if k < r then rest[k] + 1 else if k == r then 0 else rest[k - 1] + 1
  {
    Shifted(rest[..r]) + [0] + Shifted(rest[r..])
  }

  lemma PlacesWithFirst(items: seq<Item>, sorted: seq<Item>, rest: seq<nat>, r: nat)
    requires items != [] && |rest| == |items| - 1 == |sorted| && IsNewestFirst(items[1..], rest) && r <= |rest|
    requires forall k :: 0 <= k < |rest| ==> sorted[k] == items[1..][rest[k]]
    requires forall k :: 0 <= k < |rest| ==> if k < r then sorted[k].at > items[0].at else sorted[k].at <= items[0].at
    ensures var order := WithFirstAt(rest, r);
            && IsNewestFirst(items, order)
            && forall k :: 0 <= k < |order| ==> (sorted[..r] + [items[0]] + sorted[r..])[k] == items[order[k]]
  {
    var order := WithFirstAt(rest, r);
    forall k | 0 <= k < |order| ensures order[k] < |items| && (sorted[..r] + [items[0]] + sorted[r..])[k] == items[order[k]] {
      if k != r {
        var j := if k < r then k else k - 1;
        assert items[1..][rest[j]] == items[rest[j] + 1];
      }
    }
    forall j, k | 0 <= j < k < |order| ensures StandsBefore(items, order[j], order[k]) {
      PlacedBefore(items, sorted, rest, r, j, k);
    }
  }

  lemma PlacedBefore(items: seq<Item>, sorted: seq<Item>, rest: seq<nat>, r: nat, j: nat, k: nat)
    requires items != [] && |rest| == |items| - 1 == |sorted| && IsNewestFirst(items[1..], rest) && r <= |rest| && j < k <= |rest|
    requires forall k :: 0 <= k < |rest| ==> sorted[k] == items[1..][rest[k]]
    requires forall k :: 0 <= k < |rest| ==> if k < r then sorted[k].at > items[0].at else sorted[k].at <= items[0].at
    ensures var order := WithFirstAt(rest, r);
            order[j] < |items| && order[k] < |items| && StandsBefore(items, order[j], order[k])
  {
    var before, behind := if j < r then j else j - 1, if k < r then k else k - 1;
    if j != r && k != r {
      assert StandsBefore(items[1..], rest[before], rest[behind]);
      assert items[1..][rest[before]] == items[rest[before] + 1] && items[1..][rest[behind]] == items[rest[behind] + 1];
    } else if j == r {
      assert items[rest[behind] + 1] == sorted[behind];
    } else {
      assert items[rest[before] + 1] == sorted[before];
    }
  }

  // ---------------------------------------------------------------- leaving items out

  /** How many items are displayed with this time or a later one, and how many with a later one. */
  function AtLeast(items: seq<Item>, at: int): nat {
    if items == [] then 0 else (if items[0].at >= at then 1 else 0) + AtLeast(items[1..], at)
  }

  function Later(items: seq<Item>, at: int): (count: nat)
    ensures count <= |items|
  {
    if items == [] then 0 else (if items[0].at > at then 1 else 0) + Later(items[1..], at)
  }

  lemma {:induction false} AtLeastConcat(a: seq<Item>, b: seq<Item>, at: int)
    ensures AtLeast(a + b, at) == AtLeast(a, at) + AtLeast(b, at)
  {
    if a == [] {
      assert a + b == b;
    } else {
      AtLeastConcat(a[1..], b, at);
      assert (a + b)[1..] == a[1..] + b;
    }
  }

  /** An item stands in the sort behind all earlier items that are not older and all later items that are newer. */
  function Rank(before: seq<Item>, x: Item, behind: seq<Item>): nat {
    AtLeast(before, x.at) + Later(behind, x.at)
  }

  /** The item splits the sorted list into those not older and those not newer. */
  ghost predicate SplitsAt(sorted: seq<Item>, x: Item, r: nat) {
    && r <= |sorted|
    && (forall i :: 0 <= i < r ==> sorted[i].at >= x.at)
    && (forall i :: r <= i < |sorted| ==> sorted[i].at <= x.at)
  }

  lemma {:induction false} InsertAtRank(x: Item, sorted: seq<Item>)
    requires Sorted(sorted)
    ensures var r := Later(sorted, x.at);
            SplitsAt(sorted, x, r) && Insert(x, sorted) == sorted[..r] + [x] + sorted[r..]
    decreases |sorted|
  {
    hide Sorted, SplitsAt;
    if sorted == [] {
      SplitsAtFront(sorted, x);
    } else {
      var y, rest := sorted[0], sorted[1..];
      assert sorted == [y] + rest;
      SortedCons(y, rest);
      if x.at < y.at {
        InsertAtRank(x, rest);
        SplitsAtCons(y, rest, x, Later(rest, x.at));
      } else {
        NothingLater(sorted, x.at);
        SplitsAtFront(sorted, x);
      }
    }
  }

  lemma SplitsAtFront(sorted: seq<Item>, x: Item)
    requires forall y :: y in sorted ==> y.at <= x.at
    ensures SplitsAt(sorted, x, 0) && [x] + sorted == sorted[..0] + [x] + sorted[0..]
  {}

  lemma SplitsAtCons(y: Item, rest: seq<Item>, x: Item, r: nat)
    requires SplitsAt(rest, x, r) && y.at >= x.at
    ensures var sorted := [y] + rest;
            SplitsAt(sorted, x, r + 1) && [y] + (rest[..r] + [x] + rest[r..]) == sorted[..r + 1] + [x] + sorted[r + 1..]
  {
    assert ([y] + rest)[..r + 1] == [y] + rest[..r] && ([y] + rest)[r + 1..] == rest[r..];
  }

  lemma {:induction false} NothingLater(items: seq<Item>, at: int)
    requires forall y :: y in items ==> y.at <= at
    ensures Later(items, at) == 0
  {
    if items != [] {
      assert items[0] in items;
      NothingLater(items[1..], at);
    }
  }

  lemma {:induction false} LaterInInsert(x: Item, sorted: seq<Item>, at: int)
    ensures Later(Insert(x, sorted), at) == Later([x], at) + Later(sorted, at)
  {
    if sorted == [] || x.at >= sorted[0].at {
      LaterConcat([x], sorted, at);
    } else {
      LaterInInsert(x, sorted[1..], at);
      assert Insert(x, sorted)[1..] == Insert(x, sorted[1..]);
    }
  }

  lemma {:induction false} LaterInSort(items: seq<Item>, at: int)
    ensures Later(Sort(items), at) == Later(items, at)
  {
    if items != [] {
      LaterInSort(items[1..], at);
      LaterInInsert(items[0], Sort(items[1..]), at);
      assert [items[0]][1..] == [];
    }
  }

  lemma {:induction false} LaterConcat(a: seq<Item>, b: seq<Item>, at: int)
    ensures Later(a + b, at) == Later(a, at) + Later(b, at)
  {
    if a == [] {
      assert a + b == b;
    } else {
      LaterConcat(a[1..], b, at);
      assert (a + b)[1..] == a[1..] + b;
    }
  }

  /** Inserting beside an item that splits the list: in front of it or behind it, and it still splits. */
  lemma InsertBeside(a: Item, sorted: seq<Item>, x: Item, r: nat)
    requires Sorted(sorted) && SplitsAt(sorted, x, r)
    ensures var r' := r + if a.at >= x.at then 1 else 0;
            var after := Insert(a, sorted);
            SplitsAt(after, x, r') && Insert(a, sorted[..r] + [x] + sorted[r..]) == after[..r'] + [x] + after[r'..]
  {
    var wide := sorted[..r] + [x] + sorted[r..];
    hide Insert, Sorted, SplitsAt, Later;
    SplitSorted(sorted, x, r);
    InsertAtRank(a, sorted);
    InsertAtRank(a, wide);
    LaterBeside(sorted, x, r, a.at);
    InsertBesideAt(a, sorted, x, r, Later(sorted, a.at), Later(wide, a.at));
  }

  lemma LaterBeside(sorted: seq<Item>, x: Item, r: nat, at: int)
    requires SplitsAt(sorted, x, r)
    ensures Later(sorted[..r] + [x] + sorted[r..], at) == Later(sorted, at) + if x.at > at then 1 else 0
    ensures if x.at > at then Later(sorted, at) >= r else Later(sorted, at) <= r
  {
    assert sorted == sorted[..r] + sorted[r..];
    LaterConcat(sorted[..r], sorted[r..], at);
    LaterConcat(sorted[..r] + [x], sorted[r..], at);
    LaterConcat(sorted[..r], [x], at);
    assert [x][1..] == [];
    if x.at > at {
      AllLater(sorted[..r], at);
    } else {
      NothingLater(sorted[r..], at);
    }
  }

  lemma {:induction false} AllLater(items: seq<Item>, at: int)
    requires forall i :: 0 <= i < |items| ==> items[i].at > at
    ensures Later(items, at) == |items|
  {
    if items != [] {
      AllLater(items[1..], at);
    }
  }

  lemma SplitSorted(sorted: seq<Item>, x: Item, r: nat)
    requires Sorted(sorted) && SplitsAt(sorted, x, r)
    ensures Sorted(sorted[..r] + [x] + sorted[r..])
  {}

  lemma InsertBesideAt(a: Item, sorted: seq<Item>, x: Item, r: nat, p: nat, q: nat)
    requires SplitsAt(sorted, x, r) && SplitsAt(sorted, a, p) && SplitsAt(sorted[..r] + [x] + sorted[r..], a, q)
    requires q == p + if x.at > a.at then 1 else 0
    requires x.at > a.at ==> p >= r
    requires x.at <= a.at ==> p <= r
    ensures var wide := sorted[..r] + [x] + sorted[r..];
            var after := sorted[..p] + [a] + sorted[p..];
            var r' := r + if a.at >= x.at then 1 else 0;
            SplitsAt(after, x, r') && wide[..q] + [a] + wide[q..] == after[..r'] + [x] + after[r'..]
  {}

  /** Sorting with an item and without it differ by that item, at its rank. */
  lemma {:induction false} SortWithItem(before: seq<Item>, x: Item, behind: seq<Item>)
    ensures var sorted, r := Sort(before + behind), Rank(before, x, behind);
            SplitsAt(sorted, x, r) && Sort(before + ([x] + behind)) == sorted[..r] + [x] + sorted[r..]
    decreases |before|
  {
    SortIsSorted(before + behind);
    if before == [] {
      assert before + behind == behind && before + ([x] + behind) == [x] + behind && ([x] + behind)[1..] == behind;
      LaterInSort(behind, x.at);
      InsertAtRank(x, Sort(behind));
    } else {
      var rest := before[1..];
      assert (before + behind)[1..] == rest + behind && (before + ([x] + behind))[1..] == rest + ([x] + behind);
      SortWithItem(rest, x, behind);
      SortIsSorted(rest + behind);
      InsertBeside(before[0], Sort(rest + behind), x, Rank(rest, x, behind));
    }
  }

  /** Leaving an item out does not change the first n items exactly if it ranks behind them. */
  lemma LeavingOut(before: seq<Item>, x: Item, behind: seq<Item>, n: nat)
    ensures Rank(before, x, behind) >= n ==> Take(Sort(before + ([x] + behind)), n) == Take(Sort(before + behind), n)
    ensures Rank(before, x, behind) < n ==> x in Take(Sort(before + ([x] + behind)), n)
  {
    hide Sort, Rank;
    SortWithItem(before, x, behind);
    var sorted, r := Sort(before + behind), Rank(before, x, behind);
    TakeAround(sorted, x, r, n);
  }

  lemma TakeAround(sorted: seq<Item>, x: Item, r: nat, n: nat)
    requires r <= |sorted|
    ensures r >= n ==> Take(sorted[..r] + [x] + sorted[r..], n) == Take(sorted, n)
    ensures r < n ==> x in Take(sorted[..r] + [x] + sorted[r..], n)
  {
    var wide := sorted[..r] + [x] + sorted[r..];
    if r < n {
      assert Take(wide, n)[r] == x;
    }
  }

  /** Leaving out a stretch of items that all rank behind the first n, even without each other, does not change those. */
  lemma {:induction false} LeavingOutMany(before: seq<Item>, out: seq<Item>, behind: seq<Item>, n: nat)
    requires forall x :: x in out ==> Rank(before, x, behind) >= n
    ensures Take(Sort(before + (out + behind)), n) == Take(Sort(before + behind), n)
    decreases |out|
  {
    hide Sort, Take;
    if out == [] {
      assert out + behind == behind;
    } else {
      var most, x := out[..|out| - 1], out[|out| - 1];
      assert before + (out + behind) == (before + most) + ([x] + behind) && (before + most) + behind == before + (most + behind);
      AtLeastConcat(before, most, x.at);
      assert x in out;
      LeavingOut(before + most, x, behind, n);
      LeavingOutMany(before, most, behind, n);
    }
  }

  /** Leaving out a stretch of items of which none is among the first n does not change those. */
  lemma {:induction false} LeavingOutUnseen(before: seq<Item>, out: seq<Item>, behind: seq<Item>, n: nat)
    requires forall x :: x in out ==> x !in Take(Sort(before + (out + behind)), n)
    ensures Take(Sort(before + (out + behind)), n) == Take(Sort(before + behind), n)
    decreases |out|
  {
    hide Sort, Take;
    if out == [] {
      assert out + behind == behind;
    } else {
      var most, x := out[..|out| - 1], out[|out| - 1];
      assert before + (out + behind) == (before + most) + ([x] + behind) && (before + most) + behind == before + (most + behind);
      assert x in out;
      LeavingOut(before + most, x, behind, n);
      LeavingOutUnseen(before, most, behind, n);
    }
  }

  /** Every item cut off either list ranks behind at least n of the items kept. */
  ghost predicate CutRanksBehind(first: seq<Item>, tail: seq<Item>, n: nat) {
    && (forall i :: n <= i < |first| ==> Rank(Take(first, n), first[i], Take(tail, n)) >= n)
    && (forall i :: n <= i < |tail| ==> Rank(Take(first, n) + Take(tail, n), tail[i], []) >= n)
  }

  function Rest(items: seq<Item>, n: nat): seq<Item> {
    if n >= |items| then [] else items[n..]
  }

  lemma TakeAndRest(items: seq<Item>, n: nat)
    ensures items == Take(items, n) + Rest(items, n)
    ensures forall x :: x in Rest(items, n) <==> exists i :: n <= i < |items| && items[i] == x
  {
    forall x | x in Rest(items, n) ensures exists i :: n <= i < |items| && items[i] == x {
      var k :| 0 <= k < |Rest(items, n)| && Rest(items, n)[k] == x;
      assert items[n + k] == x;
    }
    forall i | n <= i < |items| ensures items[i] in Rest(items, n) {
      assert Rest(items, n)[i - n] == items[i];
    }
  }

  /** No item that is cut off is also kept. */
  ghost predicate CutIsApart(first: seq<Item>, tail: seq<Item>, n: nat) {
    forall x :: x in Rest(first, n) || x in Rest(tail, n) ==> x !in Take(first, n) && x !in Take(tail, n)
  }

  lemma RankedCutIsExact(first: seq<Item>, tail: seq<Item>, n: nat)
    requires CutRanksBehind(first, tail, n)
    ensures Take(Sort(Take(first, n) + Take(tail, n)), n) == Take(Sort(first + tail), n)
  {
    hide Sort, Take, Rest;
    var a, b, c, d := Take(first, n), Rest(first, n), Take(tail, n), Rest(tail, n);
    TakeAndRest(first, n);
    TakeAndRest(tail, n);
    forall x | x in b ensures Rank(a, x, c) >= n {
      var i :| n <= i < |first| && first[i] == x;
    }
    forall x | x in d ensures Rank(a + b + c, x, []) >= n {
      var i :| n <= i < |tail| && tail[i] == x;
      AtLeastConcat(a + b, c, x.at);
      AtLeastConcat(a, b, x.at);
      AtLeastConcat(a, c, x.at);
    }
    LeavingOutMany(a + b + c, d, [], n);
    LeavingOutMany(a, b, c, n);
    assert first + tail == a + b + c + (d + []) && a + b + c + [] == a + (b + c);
  }

  lemma ShownAreKept(kept: seq<Item>, n: nat)
    ensures forall x :: x in Take(Sort(kept), n) ==> x in kept
  {
    SortMembers(kept);
  }

  /** The list with only one of the items cut off the first list still shows the same n items. */
  lemma OneCutOffFirst(a: seq<Item>, b1: seq<Item>, x: Item, b2: seq<Item>, c: seq<Item>, d: seq<Item>, n: nat)
    requires var shown := Take(Sort(a + (b1 + [x] + b2) + (c + d)), n);
             (forall y :: y in b1 || y in b2 || y in d ==> y !in shown) && x !in shown
    ensures Rank(a, x, c) >= n
  {
    hide Sort, Take, Rank;
    var b := b1 + [x] + b2;
    assert a + b + (c + d) == (a + b + c) + (d + []) && (a + b + c) + [] == (a + b1 + [x]) + (b2 + c);
    LeavingOutUnseen(a + b + c, d, [], n);
    LeavingOutUnseen(a + b1 + [x], b2, c, n);
    assert (a + b1 + [x]) + c == a + (b1 + ([x] + c));
    LeavingOutUnseen(a, b1, [x] + c, n);
    LeavingOut(a, x, c, n);
  }

  lemma OneCutOffTail(a: seq<Item>, b: seq<Item>, c: seq<Item>, d1: seq<Item>, x: Item, d2: seq<Item>, n: nat)
    requires var shown := Take(Sort(a + b + (c + (d1 + [x] + d2))), n);
             (forall y :: y in b || y in d1 || y in d2 ==> y !in shown) && x !in shown
    ensures Rank(a + c, x, []) >= n
  {
    hide Sort, Take, Rank;
    var d := d1 + [x] + d2;
    assert a + b + (c + d) == (a + b + c + d1 + [x]) + (d2 + []);
    LeavingOutUnseen(a + b + c + d1 + [x], d2, [], n);
    assert (a + b + c + d1 + [x]) + [] == (a + b + c) + (d1 + [x]);
    LeavingOutUnseen(a + b + c, d1, [x], n);
    assert (a + b + c) + [x] == a + (b + (c + [x]));
    LeavingOutUnseen(a, b, c + [x], n);
    assert a + (c + [x]) == (a + c) + ([x] + []);
    LeavingOut(a + c, x, [], n);
  }

  lemma SplitAtItem(items: seq<Item>, x: Item) returns (before: seq<Item>, behind: seq<Item>)
    requires x in items
    ensures items == before + [x] + behind
    ensures forall y :: y in before || y in behind ==> y in items
  {
    var i :| 0 <= i < |items| && items[i] == x;
    before, behind := items[..i], items[i + 1..];
  }

  lemma ExactCutRanks(first: seq<Item>, tail: seq<Item>, n: nat)
    requires CutIsApart(first, tail, n)
    requires Take(Sort(Take(first, n) + Take(tail, n)), n) == Take(Sort(first + tail), n)
    ensures CutRanksBehind(first, tail, n)
  {
    hide Sort, Take, Rest, Rank;
    var a, b, c, d := Take(first, n), Rest(first, n), Take(tail, n), Rest(tail, n);
    var shown := Take(Sort(first + tail), n);
    TakeAndRest(first, n);
    TakeAndRest(tail, n);
    ShownAreKept(a + c, n);
    assert forall x :: x in b || x in d ==> x !in shown;
    assert first + tail == a + b + (c + d);
    forall i | n <= i < |first| ensures Rank(a, first[i], c) >= n {
      assert first[i] in b;
      var b1, b2 := SplitAtItem(b, first[i]);
      OneCutOffFirst(a, b1, first[i], b2, c, d, n);
    }
    forall i | n <= i < |tail| ensures Rank(a + c, tail[i], []) >= n {
      assert tail[i] in d;
      var d1, d2 := SplitAtItem(d, tail[i]);
      OneCutOffTail(a, b, c, d1, tail[i], d2, n);
    }
  }
}
