/** The dashboard's derived view (components/task-dashboard.tsx, the
    `filteredAndSortedTasks` expression): keep the fetched tasks that pass
    the load-type and status filters, then sort them with the comparator
    selected by `sortBy` and `sortOrder`. `Array.prototype.sort` is stable,
    so the sort is modelled as a stable insertion sort driven by that same
    comparator. */
module DashboardView {
  import opened TaskTypes
  import Seqs
  import Text

  // ---------------------------------------------------------------------
  // Filtering
  // ---------------------------------------------------------------------

  /** `loadTypeFilter === "all" || task.loadType === loadTypeFilter` */
  predicate MatchesLoadType(t: Task, loadTypeFilter: string) {
    loadTypeFilter == "all" || LoadTypeName(t.loadType) == loadTypeFilter
  }

  /** "all" keeps everything, "completed" and "pending" select on the flag,
      and any other value keeps nothing. */
  predicate MatchesStatus(t: Task, statusFilter: string) {
    || statusFilter == "all"
    || (statusFilter == "completed" && t.completed)
    || (statusFilter == "pending" && !t.completed)
  }

  predicate Keep(t: Task, loadTypeFilter: string, statusFilter: string) {
    MatchesLoadType(t, loadTypeFilter) && MatchesStatus(t, statusFilter)
  }

  /** The `.filter(...)` step. */
  function FilterTasks(tasks: seq<Task>, loadTypeFilter: string, statusFilter: string): (r: seq<Task>)
    ensures |r| <= |tasks|
    ensures forall t :: t in r ==> t in tasks && Keep(t, loadTypeFilter, statusFilter)
  {
    Seqs.Filter(t => Keep(t, loadTypeFilter, statusFilter), tasks)
  }

  /** The filtered list is a subsequence of the fetched list holding exactly
      the tasks that pass both filters, each with its original multiplicity. */
  lemma FilterTasksSpec(tasks: seq<Task>, loadTypeFilter: string, statusFilter: string)
    ensures Seqs.IsSubsequence(FilterTasks(tasks, loadTypeFilter, statusFilter), tasks)
    ensures forall t :: t in FilterTasks(tasks, loadTypeFilter, statusFilter) <==>
                        t in tasks && Keep(t, loadTypeFilter, statusFilter)
    ensures forall t :: multiset(FilterTasks(tasks, loadTypeFilter, statusFilter))[t] ==
                        if Keep(t, loadTypeFilter, statusFilter) then multiset(tasks)[t] else 0
  {
    var p := t => Keep(t, loadTypeFilter, statusFilter);
    Seqs.FilterIsSubsequence(p, tasks);
    forall t ensures t in Seqs.Filter(p, tasks) <==> t in tasks && p(t) {
      Seqs.FilterMembership(p, tasks, t);
    }
    forall t ensures multiset(Seqs.Filter(p, tasks))[t] == if p(t) then multiset(tasks)[t] else 0 {
      Seqs.FilterCount(p, tasks, t);
    }
  }

  /** The status filter: "completed" keeps exactly the completed tasks,
      "pending" exactly the others, "all" all of them. */
  lemma StatusFilterSelects(tasks: seq<Task>, loadTypeFilter: string)
    ensures forall t :: t in FilterTasks(tasks, loadTypeFilter, "all") <==>
                        t in tasks && MatchesLoadType(t, loadTypeFilter)
    ensures forall t :: t in FilterTasks(tasks, loadTypeFilter, "completed") <==>
                        t in tasks && MatchesLoadType(t, loadTypeFilter) && t.completed
    ensures forall t :: t in FilterTasks(tasks, loadTypeFilter, "pending") <==>
                        t in tasks && MatchesLoadType(t, loadTypeFilter) && !t.completed
  {
    FilterTasksSpec(tasks, loadTypeFilter, "all");
    FilterTasksSpec(tasks, loadTypeFilter, "completed");
    FilterTasksSpec(tasks, loadTypeFilter, "pending");
  }

  /** A status filter value other than the three options keeps no task. */
  lemma UnknownStatusKeepsNothing(tasks: seq<Task>, loadTypeFilter: string, statusFilter: string)
    requires statusFilter != "all" && statusFilter != "completed" && statusFilter != "pending"
    ensures FilterTasks(tasks, loadTypeFilter, statusFilter) == []
  {
    Seqs.FilterKeepsNone(t => Keep(t, loadTypeFilter, statusFilter), tasks);
  }

  /** Filtering on a load type's name keeps exactly the tasks of that load
      type; a value that is neither "all" nor a load type name (such as a
      different capitalisation) keeps nothing. */
  lemma LoadTypeFilterSelects(tasks: seq<Task>, l: LoadType, loadTypeFilter: string, statusFilter: string)
    ensures forall t :: t in FilterTasks(tasks, LoadTypeName(l), statusFilter) <==>
                        t in tasks && t.loadType == l && MatchesStatus(t, statusFilter)
    ensures loadTypeFilter != "all" && loadTypeFilter != LoadTypeName(DirectLoad) &&
            loadTypeFilter != LoadTypeName(IndirectLoad) ==>
            FilterTasks(tasks, loadTypeFilter, statusFilter) == []
  {
    FilterTasksSpec(tasks, LoadTypeName(l), statusFilter);
    forall t | t in tasks ensures MatchesLoadType(t, LoadTypeName(l)) <==> t.loadType == l {
      assert LoadTypeName(l) != "all";
      if LoadTypeName(t.loadType) == LoadTypeName(l) {
        assert t.loadType == l by {
          if t.loadType == DirectLoad { assert l == DirectLoad; } else { assert l == IndirectLoad; }
        }
      }
    }
    if loadTypeFilter != "all" && loadTypeFilter != LoadTypeName(DirectLoad) &&
       loadTypeFilter != LoadTypeName(IndirectLoad) {
      Seqs.FilterKeepsNone(t => Keep(t, loadTypeFilter, statusFilter), tasks);
    }
  }

  /** With both filters at "all" the fetched list passes through unchanged. */
  lemma NoFilterKeepsAll(tasks: seq<Task>)
    ensures FilterTasks(tasks, "all", "all") == tasks
  {
    Seqs.FilterKeepsAll(t => Keep(t, "all", "all"), tasks);
  }

  // ---------------------------------------------------------------------
  // Sorting
  // ---------------------------------------------------------------------

  datatype SortKey = ByRetailer | ByDay | ByFileCount | ByUpdatedAt

  datatype SortOrder = Asc | Desc

  /** The `switch (sortBy)`: an unrecognised value sorts by retailer. */
  function ParseSortKey(sortBy: string): (k: SortKey)
    ensures k == ByDay <==> sortBy == "day"
    ensures k == ByFileCount <==> sortBy == "fileCount"
    ensures k == ByUpdatedAt <==> sortBy == "updatedAt"
    ensures k == ByRetailer <==> sortBy != "day" && sortBy != "fileCount" && sortBy != "updatedAt"
  {
    if sortBy == "day" then ByDay
    else if sortBy == "fileCount" then ByFileCount
    else if sortBy == "updatedAt" then ByUpdatedAt
    else ByRetailer
  }

  /** The value a task is sorted on: a string or a number. */
  datatype KeyValue = Str(s: string) | Num(n: int)

  function SortValue(t: Task, k: SortKey): KeyValue {
    match k
    case ByRetailer => Str(t.retailer)
    case ByDay => Str(t.day)
    case ByFileCount => Num(t.fileCount)
    case ByUpdatedAt => Num(t.updatedAt)
  }

  /** Ascending order on sort values: ordinal for strings, numeric for numbers. */
  predicate ValueLe(v: KeyValue, w: KeyValue) {
    match (v, w)
    case (Str(x), Str(y)) => Text.Compare(x, y) <= 0
    case (Num(x), Num(y)) => x <= y
    case _ => false
  }

  /** The comparison callback passed to `.sort`: `localeCompare` on strings
      and subtraction on numbers (dates become their timestamps), with the
      operands swapped when the order is descending. */
  function Comparator(a: Task, b: Task, k: SortKey, order: SortOrder): int {
    match k
    case ByRetailer =>
      if order == Asc then Text.Compare(a.retailer, b.retailer) else Text.Compare(b.retailer, a.retailer)
    case ByDay =>
      if order == Asc then Text.Compare(a.day, b.day) else Text.Compare(b.day, a.day)
    case ByFileCount =>
      if order == Asc then a.fileCount - b.fileCount else b.fileCount - a.fileCount
    case ByUpdatedAt =>
      if order == Asc then a.updatedAt - b.updatedAt else b.updatedAt - a.updatedAt
  }

  /** What the comparator means: "a may precede b" is ascending order on
      sort values for "asc" and descending order for "desc"; it reports a
      tie exactly when the sort values are equal; and it is antisymmetric. */
  lemma ComparatorMeaning(a: Task, b: Task, k: SortKey, order: SortOrder)
    ensures Comparator(a, b, k, order) <= 0 <==>
            if order == Asc then ValueLe(SortValue(a, k), SortValue(b, k))
            else ValueLe(SortValue(b, k), SortValue(a, k))
    ensures Comparator(a, b, k, order) == 0 <==> SortValue(a, k) == SortValue(b, k)
    ensures Comparator(b, a, k, order) == -Comparator(a, b, k, order)
  {
    match k
    case ByRetailer =>
      Text.CompareZeroIffEqual(a.retailer, b.retailer);
      Text.CompareZeroIffEqual(b.retailer, a.retailer);
      Text.CompareAntisymmetric(a.retailer, b.retailer);
    case ByDay =>
      Text.CompareZeroIffEqual(a.day, b.day);
      Text.CompareZeroIffEqual(b.day, a.day);
      Text.CompareAntisymmetric(a.day, b.day);
    case ByFileCount =>
    case ByUpdatedAt =>
  }

  lemma ComparatorTransitive(a: Task, b: Task, c: Task, k: SortKey, order: SortOrder)
    requires Comparator(a, b, k, order) <= 0 && Comparator(b, c, k, order) <= 0
    ensures Comparator(a, c, k, order) <= 0
  {
    match k
    case ByRetailer =>
      if order == Asc {
        Text.CompareTransitive(a.retailer, b.retailer, c.retailer);
      } else {
        Text.CompareTransitive(c.retailer, b.retailer, a.retailer);
      }
    case ByDay =>
      if order == Asc {
        Text.CompareTransitive(a.day, b.day, c.day);
      } else {
        Text.CompareTransitive(c.day, b.day, a.day);
      }
    case ByFileCount =>
    case ByUpdatedAt =>
  }

  /** Adjacent elements are in comparator order. */
  predicate Sorted(s: seq<Task>, k: SortKey, order: SortOrder) {
    forall i :: 0 <= i < |s| - 1 ==> Comparator(s[i], s[i + 1], k, order) <= 0
  }

  /** The tasks of `s` whose sort value is `v`, in their order in `s`. */
  function Ties(s: seq<Task>, k: SortKey, v: KeyValue): seq<Task> {
    Seqs.Filter(t => SortValue(t, k) == v, s)
  }

  /** Insert `x` in front of the first element it may precede. */
  function Insert(x: Task, r: seq<Task>, k: SortKey, order: SortOrder): (r': seq<Task>)
    ensures multiset(r') == multiset(r) + multiset{x}
    ensures |r'| == |r| + 1
    ensures r'[0] == x || (r != [] && r'[0] == r[0])
  {
    if r == [] then [x]
    else if Comparator(x, r[0], k, order) <= 0 then [x] + r
    else
      assert r == [r[0]] + r[1..];
      [r[0]] + Insert(x, r[1..], k, order)
  }

  /** Stable insertion sort by the comparator. */
  function SortTasks(s: seq<Task>, k: SortKey, order: SortOrder): (r: seq<Task>)
    ensures multiset(r) == multiset(s)
    ensures |r| == |s|
  {
    if s == [] then []
    else
      assert s == [s[0]] + s[1..];
      Insert(s[0], SortTasks(s[1..], k, order), k, order)
  }

  lemma {:induction false} InsertSorted(x: Task, r: seq<Task>, k: SortKey, order: SortOrder)
    requires Sorted(r, k, order)
    ensures Sorted(Insert(x, r, k, order), k, order)
  {
    if r != [] && Comparator(x, r[0], k, order) > 0 {
      var rest := r[1..];
      assert Sorted(rest, k, order) by {
        forall i | 0 <= i < |rest| - 1 ensures Comparator(rest[i], rest[i + 1], k, order) <= 0 {
          assert rest[i] == r[i + 1] && rest[i + 1] == r[i + 2];
        }
      }
      InsertSorted(x, rest, k, order);
      var tail := Insert(x, rest, k, order);
      ComparatorMeaning(x, r[0], k, order);
      assert Comparator(r[0], tail[0], k, order) <= 0;
      var res := [r[0]] + tail;
      forall i | 0 <= i < |res| - 1 ensures Comparator(res[i], res[i + 1], k, order) <= 0 {
        if i > 0 {
          assert res[i] == tail[i - 1] && res[i + 1] == tail[i];
        }
      }
    }
  }

  /** The sort's output is in comparator order. */
  lemma {:induction false} SortSorted(s: seq<Task>, k: SortKey, order: SortOrder)
    ensures Sorted(SortTasks(s, k, order), k, order)
  {
    if s != [] {
      SortSorted(s[1..], k, order);
      InsertSorted(s[0], SortTasks(s[1..], k, order), k, order);
    }
  }

  /** Inserting `x` puts it before every task it ties with. */
  lemma {:induction false} InsertTies(x: Task, r: seq<Task>, k: SortKey, order: SortOrder, v: KeyValue)
    ensures Ties(Insert(x, r, k, order), k, v) ==
            if SortValue(x, k) == v then [x] + Ties(r, k, v) else Ties(r, k, v)
  {
    var p := t => SortValue(t, k) == v;
    if r == [] {
      assert Ties([x], k, v) == Seqs.Filter(p, [x]);
    } else if Comparator(x, r[0], k, order) <= 0 {
      Seqs.FilterAppend(p, [x], r);
    } else {
      InsertTies(x, r[1..], k, order, v);
      ComparatorMeaning(x, r[0], k, order);
      Seqs.FilterAppend(p, [r[0]], Insert(x, r[1..], k, order));
      Seqs.FilterAppend(p, [r[0]], r[1..]);
      assert [r[0]] + r[1..] == r;
      if SortValue(x, k) == v {
        assert Seqs.Filter(p, [r[0]]) == [];
      }
    }
  }

  /** Stability: the tasks sharing any one sort value come out in the
      order they went in. */
  lemma {:induction false} SortStable(s: seq<Task>, k: SortKey, order: SortOrder, v: KeyValue)
    ensures Ties(SortTasks(s, k, order), k, v) == Ties(s, k, v)
  {
    if s != [] {
      var p := t => SortValue(t, k) == v;
      SortStable(s[1..], k, order, v);
      InsertTies(s[0], SortTasks(s[1..], k, order), k, order, v);
      Seqs.FilterAppend(p, [s[0]], s[1..]);
      assert [s[0]] + s[1..] == s;
    }
  }

  /** Sorting file counts [9, 3, 9] ascending gives [3, 9, 9], the two
      nines keeping their order. */
  lemma FileCountAscendingExample(a: Task, b: Task, c: Task)
    requires a.fileCount == 9 && b.fileCount == 3 && c.fileCount == 9
    ensures SortTasks([a, b, c], ByFileCount, Asc) == [b, a, c]
  {
    var k, o := ByFileCount, Asc;
    assert [a, b, c][0] == a && [a, b, c][1..] == [b, c];
    assert [b, c][0] == b && [b, c][1..] == [c];
    assert SortTasks([b, c], k, o) == Insert(b, SortTasks([c], k, o), k, o);
    assert SortTasks([c], k, o) == [c];
    assert Insert(b, [c], k, o) == [b, c];
    assert Insert(a, [b, c], k, o) == [b] + Insert(a, [c], k, o);
    assert Insert(a, [c], k, o) == [a, c];
  }

  /** Sorting file counts [9, 3, 9] descending gives [9, 9, 3], the two
      nines keeping their order. */
  lemma FileCountDescendingExample(a: Task, b: Task, c: Task)
    requires a.fileCount == 9 && b.fileCount == 3 && c.fileCount == 9
    ensures SortTasks([a, b, c], ByFileCount, Desc) == [a, c, b]
  {
    var k, o := ByFileCount, Desc;
    assert [a, b, c][0] == a && [a, b, c][1..] == [b, c];
    assert [b, c][0] == b && [b, c][1..] == [c];
    assert SortTasks([b, c], k, o) == Insert(b, SortTasks([c], k, o), k, o);
    assert SortTasks([c], k, o) == [c];
    assert Comparator(b, c, k, o) > 0;
    assert Insert(b, [c], k, o) == [c] + Insert(b, [], k, o) == [c, b];
    assert Comparator(a, c, k, o) == 0 && [c, b][0] == c;
    assert Insert(a, [c, b], k, o) == [a] + [c, b];
  }

  // ---------------------------------------------------------------------
  // The derived view
  // ---------------------------------------------------------------------

  /** `filteredAndSortedTasks` */
  function DeriveView(tasks: seq<Task>, loadTypeFilter: string, statusFilter: string,
                      sortBy: string, order: SortOrder): (view: seq<Task>)
    ensures |view| <= |tasks|
    ensures forall t :: t in view ==> t in tasks && Keep(t, loadTypeFilter, statusFilter)
  {
    var filtered := FilterTasks(tasks, loadTypeFilter, statusFilter);
    var view := SortTasks(filtered, ParseSortKey(sortBy), order);
    assert forall t :: t in view ==> t in filtered by {
      forall t | t in view ensures t in filtered {
        assert t in multiset(view);
      }
    }
    view
  }

  /** The view is a permutation of a subsequence of the fetched tasks: it
      holds exactly the tasks passing both filters, none invented and none
      duplicated. */
  lemma ViewContents(tasks: seq<Task>, loadTypeFilter: string, statusFilter: string,
                     sortBy: string, order: SortOrder)
    ensures var view := DeriveView(tasks, loadTypeFilter, statusFilter, sortBy, order);
            && Seqs.IsSubsequence(FilterTasks(tasks, loadTypeFilter, statusFilter), tasks)
            && multiset(view) == multiset(FilterTasks(tasks, loadTypeFilter, statusFilter))
            && (forall t :: t in view <==> t in tasks && Keep(t, loadTypeFilter, statusFilter))
            && (forall t :: multiset(view)[t] ==
                            if Keep(t, loadTypeFilter, statusFilter) then multiset(tasks)[t] else 0)
  {
    FilterTasksSpec(tasks, loadTypeFilter, statusFilter);
  }

  /** Adjacent view elements are non-decreasing in the chosen key for "asc"
      and non-increasing for "desc". */
  lemma ViewOrdered(tasks: seq<Task>, loadTypeFilter: string, statusFilter: string,
                    sortBy: string, order: SortOrder)
    ensures var view := DeriveView(tasks, loadTypeFilter, statusFilter, sortBy, order);
            var k := ParseSortKey(sortBy);
            forall i :: 0 <= i < |view| - 1 ==>
              if order == Asc then ValueLe(SortValue(view[i], k), SortValue(view[i + 1], k))
              else ValueLe(SortValue(view[i + 1], k), SortValue(view[i], k))
  {
    var view := DeriveView(tasks, loadTypeFilter, statusFilter, sortBy, order);
    var k := ParseSortKey(sortBy);
    SortSorted(FilterTasks(tasks, loadTypeFilter, statusFilter), k, order);
    forall i | 0 <= i < |view| - 1
      ensures if order == Asc then ValueLe(SortValue(view[i], k), SortValue(view[i + 1], k))
              else ValueLe(SortValue(view[i + 1], k), SortValue(view[i], k))
    {
      ComparatorMeaning(view[i], view[i + 1], k, order);
    }
  }

  /** Tasks with equal sort keys keep their relative order from the filtered list. */
  lemma ViewStable(tasks: seq<Task>, loadTypeFilter: string, statusFilter: string,
                   sortBy: string, order: SortOrder, v: KeyValue)
    ensures Ties(DeriveView(tasks, loadTypeFilter, statusFilter, sortBy, order), ParseSortKey(sortBy), v) ==
            Ties(FilterTasks(tasks, loadTypeFilter, statusFilter), ParseSortKey(sortBy), v)
  {
    SortStable(FilterTasks(tasks, loadTypeFilter, statusFilter), ParseSortKey(sortBy), order, v);
  }
}
