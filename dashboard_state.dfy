/** The dashboard's mutable state (components/task-dashboard.tsx): the
    fetched list, the filter and sort choices, and the set of selected task
    ids. The handlers `handleTaskSelect`, `handleSelectAll` and `toggleSort`
    replace the selection or the sort order; the select-all checkbox is
    checked by comparing the selection's size with the view's length. */
module DashboardState {
  import opened TaskTypes
  import opened DashboardView

  /** `handleTaskSelect`: a copy of the selection with one id added
      (`checked`) or removed (otherwise). */
  function Toggle(selected: set<string>, id: string, checked: bool): (r: set<string>)
    ensures id in r <==> checked
    ensures forall x :: x != id ==> (x in r <==> x in selected)
  {
    if checked then selected + {id} else selected - {id}
  }

  /** `toggleSort`: `Asc` becomes `Desc` and `Desc` becomes `Asc`. */
  function Flip(order: SortOrder): (r: SortOrder)
    ensures r != order
  {
    if order == Asc then Desc else Asc
  }

  lemma FlipTwice(order: SortOrder)
    ensures Flip(Flip(order)) == order
  {
  }

  /** The `checked` expression of the select-all checkbox. */
  predicate SelectAllChecked(selected: set<string>, view: seq<Task>) {
    |selected| == |view| && |view| > 0
  }

  /** When the fetched list has distinct ids, so does every view derived from it. */
  lemma ViewDistinctIds(tasks: seq<Task>, loadTypeFilter: string, statusFilter: string,
                        sortBy: string, order: SortOrder)
    requires HasIds(tasks) && DistinctIds(tasks)
    ensures var view := DeriveView(tasks, loadTypeFilter, statusFilter, sortBy, order);
            HasIds(view) && DistinctIds(view)
  {
    var view := DeriveView(tasks, loadTypeFilter, statusFilter, sortBy, order);
    ViewContents(tasks, loadTypeFilter, statusFilter, sortBy, order);
    assert multiset(view) <= multiset(tasks);
    DistinctIdsOfSubMultiset(tasks, view);
  }

  /** Selecting all over a view with distinct ids checks the box exactly
      when the view is non-empty; clearing never leaves it checked. */
  lemma CheckedAfterSelectAll(view: seq<Task>)
    requires HasIds(view) && DistinctIds(view)
    ensures SelectAllChecked(IdSet(view), view) <==> |view| > 0
    ensures !SelectAllChecked({}, view)
  {
    IdSetSize(view);
  }

  /** While the selection only holds ids of the view, the box is checked
      exactly when every task of a non-empty view is selected. */
  lemma CheckedIffWholeViewSelected(selected: set<string>, view: seq<Task>)
    requires HasIds(view) && DistinctIds(view)
    requires selected <= IdSet(view)
    ensures SelectAllChecked(selected, view) <==> |view| > 0 && selected == IdSet(view)
  {
    IdSetSize(view);
    if |selected| == |view| && selected != IdSet(view) {
      assert !(IdSet(view) <= selected);
      var missing :| missing in IdSet(view) && missing !in selected;
      assert selected <= IdSet(view) - {missing};
      assert |IdSet(view) - {missing}| == |view| - 1;
      SubsetSize(selected, IdSet(view) - {missing});
    }
  }

  lemma {:induction false} SubsetSize(a: set<string>, b: set<string>)
    requires a <= b
    ensures |a| <= |b|
    decreases b
  {
    if a != {} {
      var x :| x in a;
      SubsetSize(a - {x}, b - {x});
    }
  }

  /** The box only compares sizes: a selection left over from another
      filter can check it although no task of the view is selected. */
  lemma StaleSelectionChecksBox(t: Task)
    requires t.id == Some("b")
    ensures SelectAllChecked({"a"}, [t]) && t.id.value !in {"a"}
  {
  }

  class Dashboard {
    var tasks: seq<Task>
    var searchQuery: string
    var dayFilter: string
    var loadTypeFilter: string
    var statusFilter: string
    var sortBy: string
    var sortOrder: SortOrder
    var selected: set<string>

    /** Every fetched task has a distinct id (the store guarantees it). */
    ghost predicate Valid()
      reads this
    {
      HasIds(tasks) && DistinctIds(tasks)
    }

    /** The initial `useState` values; the task list defaults to empty. */
    constructor ()
      ensures Valid()
      ensures tasks == [] && selected == {}
      ensures searchQuery == "" && dayFilter == "all"
      ensures loadTypeFilter == "all" && statusFilter == "all"
      ensures sortBy == "retailer" && sortOrder == Asc
    {
      tasks := [];
      searchQuery := "";
      dayFilter := "all";
      loadTypeFilter := "all";
      statusFilter := "all";
      sortBy := "retailer";
      sortOrder := Asc;
      selected := {};
    }

    /** `filteredAndSortedTasks`, recomputed from the current state. */
    function View(): seq<Task>
      reads this
    {
      DeriveView(tasks, loadTypeFilter, statusFilter, sortBy, sortOrder)
    }

    /** A fetched list arrives; the selection is kept as it is. */
    method ShowFetched(fetched: seq<Task>)
      requires HasIds(fetched) && DistinctIds(fetched)
      modifies this`tasks
      ensures Valid()
      ensures tasks == fetched
    {
      tasks := fetched;
    }

    /** `handleTaskSelect(taskId, checked)` */
    method TaskSelect(id: string, checked: bool)
      modifies this`selected
      ensures selected == Toggle(old(selected), id, checked)
      ensures id in selected <==> checked
      ensures forall x :: x != id ==> (x in selected <==> x in old(selected))
    {
      var next := selected;
      if checked {
        next := next + {id};
      } else {
        next := next - {id};
      }
      selected := next;
    }

    /** `handleSelectAll(checked)`: the ids of the current view, or nothing. */
    method SelectAll(checked: bool)
      requires Valid()
      modifies this`selected
      ensures selected == if checked then IdSet(View()) else {}
      ensures SelectAllChecked(selected, View()) <==> checked && |View()| > 0
    {
      var view := DeriveView(tasks, loadTypeFilter, statusFilter, sortBy, sortOrder);
      ViewDistinctIds(tasks, loadTypeFilter, statusFilter, sortBy, sortOrder);
      CheckedAfterSelectAll(view);
      if checked {
        selected := IdSet(view);
      } else {
        selected := {};
      }
    }

    /** `toggleSort` */
    method ToggleSort()
      modifies this`sortOrder
      ensures sortOrder == Flip(old(sortOrder))
    {
      sortOrder := if sortOrder == Asc then Desc else Asc;
    }
  }
}
