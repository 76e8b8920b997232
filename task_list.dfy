/** The task list page: the fetched tasks, the search box and the status
    select, the list the table shows, and deleting a task. */
module TaskList {
  import opened TaskTypes
  import opened Seqs
  import opened Text
  import opened Toasts

  /** The search filter: the name contains the term, ignoring case. */
  function NameMatches(term: string): Task -> bool {
    (t: Task) => ContainsIgnoringCase(t.name, term)
  }

  /** The status filter: `task.status === statusFilter`. */
  function StatusMatches(statusFilter: string): Task -> bool {
    (t: Task) => TaskStatusText(t.status) == statusFilter
  }

  /** The specification of the visible list, in one test: an empty search
      term and the `'all'` status each let every task through. */
  function Shown(term: string, statusFilter: string): Task -> bool {
    (t: Task) => (term == "" || ContainsIgnoringCase(t.name, term))
                 && (statusFilter == "all" || TaskStatusText(t.status) == statusFilter)
  }

  /** The tasks the table shows. */
  function Visible(tasks: seq<Task>, term: string, statusFilter: string): seq<Task> {
    Filter(Shown(term, statusFilter), tasks)
  }

  /** The visible tasks are tasks of the list, in the list's order. */
  lemma VisibleIsSubsequence(tasks: seq<Task>, term: string, statusFilter: string)
    ensures IsSubsequence(Visible(tasks, term, statusFilter), tasks)
  {
    FilterIsSubsequence(Shown(term, statusFilter), tasks);
  }

  /** A task is visible exactly when it is in the list and passes both
      filters. */
  lemma VisibleMembership(tasks: seq<Task>, term: string, statusFilter: string, t: Task)
    ensures t in Visible(tasks, term, statusFilter) <==>
      t in tasks && (term == "" || ContainsIgnoringCase(t.name, term))
      && (statusFilter == "all" || TaskStatusText(t.status) == statusFilter)
  {
    var v := Visible(tasks, term, statusFilter);
    if t in v {
      var k :| 0 <= k < |v| && v[k] == t;
    }
    if t in tasks && Shown(term, statusFilter)(t) {
      var k :| 0 <= k < |tasks| && tasks[k] == t;
    }
  }

  /** With no search term and the `'all'` status the table shows every task. */
  lemma NoFiltersShowAll(tasks: seq<Task>)
    ensures Visible(tasks, "", "all") == tasks
  {
    FilterKeepsAll(Shown("", "all"), tasks);
  }

  /** A status choice other than `'all'` shows only tasks with that status,
      and one that spells no status shows nothing. */
  lemma StatusFilterExact(tasks: seq<Task>, term: string, statusFilter: string)
    requires statusFilter != "all"
    ensures forall k :: 0 <= k < |Visible(tasks, term, statusFilter)| ==>
      ParseTaskStatus(statusFilter) == Some(Visible(tasks, term, statusFilter)[k].status)
    ensures ParseTaskStatus(statusFilter).None? ==> Visible(tasks, term, statusFilter) == []
  {
    var v := Visible(tasks, term, statusFilter);
    forall k | 0 <= k < |v| ensures ParseTaskStatus(statusFilter) == Some(v[k].status) {
      TaskStatusRoundTrip(v[k].status);
    }
    if ParseTaskStatus(statusFilter).None? && v != [] {
      TaskStatusRoundTrip(v[0].status);
    }
  }

  /** The search ignores case: a term and its lower-case form show the same
      tasks. */
  lemma SearchIgnoresCase(tasks: seq<Task>, term: string, statusFilter: string)
    ensures Visible(tasks, Lower(term), statusFilter) == Visible(tasks, term, statusFilter)
  {
    LowerIdempotent(term);
    assert Lower(term) == "" <==> term == "";
    FilterSamePredicate(Shown(Lower(term), statusFilter), Shown(term, statusFilter), tasks);
  }

  /** Filtering the visible list again changes nothing. */
  lemma VisibleIdempotent(tasks: seq<Task>, term: string, statusFilter: string)
    ensures Visible(Visible(tasks, term, statusFilter), term, statusFilter) == Visible(tasks, term, statusFilter)
  {
    FilterIdempotent(Shown(term, statusFilter), tasks);
  }

  /** `tasks.filter(task => task.id !== taskId)`. */
  function OtherId(taskId: string): Task -> bool {
    (t: Task) => t.id != taskId
  }

  /** The list after a delete: no task with that id is left, every other
      task stays, in order and with all its copies, and an id no task has
      leaves the list as it was. */
  lemma RemoveByIdSpec(tasks: seq<Task>, taskId: string)
    ensures forall k :: 0 <= k < |Filter(OtherId(taskId), tasks)| ==> Filter(OtherId(taskId), tasks)[k].id != taskId
    ensures forall k :: 0 <= k < |tasks| && tasks[k].id != taskId ==> tasks[k] in Filter(OtherId(taskId), tasks)
    ensures IsSubsequence(Filter(OtherId(taskId), tasks), tasks)
    ensures (forall k :: 0 <= k < |tasks| ==> tasks[k].id != taskId) ==> Filter(OtherId(taskId), tasks) == tasks
    ensures forall t :: multiset(Filter(OtherId(taskId), tasks))[t] == if t.id != taskId then multiset(tasks)[t] else 0
  {
    FilterIsSubsequence(OtherId(taskId), tasks);
    FilterMultiset(OtherId(taskId), tasks);
    if forall k :: 0 <= k < |tasks| ==> tasks[k].id != taskId {
      FilterKeepsAll(OtherId(taskId), tasks);
    }
  }

  const DeleteFailedMessage := "Failed to delete task. Please try again later."

  /** The success toast's text, `Task "<name>" deleted successfully`. */
  function DeletedMessage(taskName: string): (m: string)
    ensures |m| == |taskName| + 28 && StartsWith(m, "Task \"") && m[6..6 + |taskName|] == taskName
    ensures m[6 + |taskName|..] == "\" deleted successfully"
  {
    "Task \"" + taskName + "\" deleted successfully"
  }

  /** The page's state. `filteredTasks` is what the filter effect last
      computed; every change below re-runs that effect, as the page's
      dependency list does. */
  class TaskListView {
    var tasks: seq<Task>
    var searchTerm: string
    var statusFilter: string
    var filteredTasks: seq<Task>

    /** The table shows the visible part of the list. */
    ghost predicate Valid()
      reads this
    {
      filteredTasks == Visible(tasks, searchTerm, statusFilter)
    }

    /** The page before the fetch: no tasks, no search, status `'all'`. */
    constructor ()
      ensures Valid()
      ensures tasks == [] && searchTerm == "" && statusFilter == "all" && filteredTasks == []
    {
      tasks := [];
      searchTerm := "";
      statusFilter := "all";
      filteredTasks := [];
    }

    /** The filter effect: the search filter when the term is non-empty,
        then the status filter when the status is not `'all'`. */
    method ApplyFilters()
      modifies this
      ensures Valid()
      ensures tasks == old(tasks) && searchTerm == old(searchTerm) && statusFilter == old(statusFilter)
    {
      var result := tasks;
      if searchTerm != "" {
        result := Filter(NameMatches(searchTerm), result);
      }
      if statusFilter != "all" {
        result := Filter(StatusMatches(statusFilter), result);
      }
      filteredTasks := result;
      FiltersAgree(tasks, searchTerm, statusFilter);
    }

    /** The fetch on mount. `response` is the task array the request
        returned, or `None` when the request failed or the body held no
        array. `listTasks` answers `[]` in that case instead of throwing, so
        the page's own error toast is never raised and a failed request
        empties the list. */
    method Load(response: Option<seq<Task>>)
      modifies this
      ensures Valid()
      ensures response.Some? ==> tasks == response.value
      ensures response.None? ==> tasks == [] && filteredTasks == []
      ensures searchTerm == old(searchTerm) && statusFilter == old(statusFilter)
    {
      tasks := if response.Some? then response.value else [];
      ApplyFilters();
    }

    method SetSearchTerm(term: string)
      modifies this
      ensures Valid()
      ensures searchTerm == term && tasks == old(tasks) && statusFilter == old(statusFilter)
    {
      searchTerm := term;
      ApplyFilters();
    }

    method SetStatusFilter(value: string)
      modifies this
      ensures Valid()
      ensures statusFilter == value && tasks == old(tasks) && searchTerm == old(searchTerm)
    {
      statusFilter := value;
      ApplyFilters();
    }

    /** `handleDeleteTask`. `rendered` is the task list the handler closed
        over when the page was rendered, which the filter reads instead of
        the current list; `deleted` is whether the service call succeeded.
        On success the list becomes `rendered` without the task, and a
        success toast names it; on failure the list is left as it was and an
        error toast is raised. */
    method HandleDeleteTask(rendered: seq<Task>, taskId: string, taskName: string, deleted: bool) returns (notice: ToastAction)
      modifies this
      ensures Valid()
      ensures deleted ==> tasks == Filter(OtherId(taskId), rendered)
      ensures deleted ==> notice == AddToast(DeletedMessage(taskName), SuccessToast)
      ensures !deleted ==> tasks == old(tasks) && notice == AddToast(DeleteFailedMessage, ErrorToast)
      ensures searchTerm == old(searchTerm) && statusFilter == old(statusFilter)
    {
      if deleted {
        tasks := Filter(OtherId(taskId), rendered);
        notice := AddToast(DeletedMessage(taskName), SuccessToast);
      } else {
        notice := AddToast(DeleteFailedMessage, ErrorToast);
      }
      ApplyFilters();
    }
  }

  /** Two deletes started from the same render: the second filters the
      rendered list, so the task the first one removed comes back. */
  lemma {:induction false} OverlappingDeletesRestore(a: Task, b: Task)
    requires a.id != b.id
    ensures Filter(OtherId(a.id), [a, b]) == [b]
    ensures Filter(OtherId(b.id), [a, b]) == [a]
    ensures a in Filter(OtherId(b.id), [a, b])
  {
    assert [a, b][1..] == [b];
    assert [b][1..] == [];
  }

  /** The page's two filters applied one after the other are the single
      test `Shown`. */
  lemma FiltersAgree(tasks: seq<Task>, term: string, statusFilter: string)
    ensures (var afterSearch := if term != "" then Filter(NameMatches(term), tasks) else tasks;
             if statusFilter != "all" then Filter(StatusMatches(statusFilter), afterSearch) else afterSearch)
            == Visible(tasks, term, statusFilter)
  {
    var shown := Shown(term, statusFilter);
    if term != "" && statusFilter != "all" {
      FilterChain(NameMatches(term), StatusMatches(statusFilter), shown, tasks);
    } else if term != "" {
      FilterSamePredicate(NameMatches(term), shown, tasks);
    } else if statusFilter != "all" {
      FilterSamePredicate(StatusMatches(statusFilter), shown, tasks);
    } else {
      FilterKeepsAll(shown, tasks);
    }
  }
}
