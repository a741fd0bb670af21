/**
 * The list view: the filter/sort projection of the store, the overdue test,
 * the filter state with "clear filters", and the status-change handler.
 */
module TaskList {
  import opened Options
  import opened Seqs
  import opened Text
  import opened Tasks
  import Api

  datatype StatusFilter = AllStatuses | OnlyStatus(status: Status)
  datatype PriorityFilter = AllPriorities | OnlyPriority(priority: Priority)
  datatype SortKey = NoSort | ByTitle | ByPriority | ByDueDate
  datatype SortOrder = Asc | Desc

  /** The ordinal used by the priority sort. */
  function Rank(p: Priority): nat {
    match p
    case Low => 0
    case Medium => 1
    case High => 2
  }

  /** The ranks order the priorities Low < Medium < High. */
  lemma RankOrder(p: Priority, q: Priority)
    ensures Rank(p) < Rank(q) <==> (p == Low && q != Low) || (p == Medium && q == High)
    ensures Rank(p) == Rank(q) <==> p == q
  {
  }

  /** The filter condition: both selectors must match, "all" matches anything. */
  predicate Passes(t: Task, sf: StatusFilter, pf: PriorityFilter) {
    (sf.AllStatuses? || t.status == sf.status) && (pf.AllPriorities? || t.priority == pf.priority)
  }

  /** `tasks.filter(...)`: the passing tasks, in store order. */
  function Filtered(tasks: seq<Task>, sf: StatusFilter, pf: PriorityFilter): (r: seq<Task>)
    ensures |r| <= |tasks|
    ensures forall t :: t in r <==> t in tasks && Passes(t, sf, pf)
  {
    if tasks == [] then []
    else if Passes(tasks[0], sf, pf) then [tasks[0]] + Filtered(tasks[1..], sf, pf)
    else Filtered(tasks[1..], sf, pf)
  }

  /** The filtered list keeps the relative store order. */
  lemma {:induction false} FilteredInStoreOrder(tasks: seq<Task>, sf: StatusFilter, pf: PriorityFilter)
    ensures IsSubsequence(Filtered(tasks, sf, pf), tasks)
  {
    if tasks != [] {
      var rest := Filtered(tasks[1..], sf, pf);
      FilteredInStoreOrder(tasks[1..], sf, pf);
      if Passes(tasks[0], sf, pf) {
        assert ([tasks[0]] + rest)[1..] == rest;
      } else {
        SubsequenceCons(rest, tasks[1..], tasks[0]);
        assert [tasks[0]] + tasks[1..] == tasks;
      }
    }
  }

  /** With both selectors on "all" the filter lets everything through unchanged. */
  lemma {:induction false} FilteredAllIsIdentity(tasks: seq<Task>)
    ensures Filtered(tasks, AllStatuses, AllPriorities) == tasks
  {
    if tasks != [] {
      FilteredAllIsIdentity(tasks[1..]);
      assert [tasks[0]] + tasks[1..] == tasks;
    }
  }

  /** The sort comparator: negative when `a` goes first. Two tasks tie exactly
      when they agree on the key, and two undated tasks never tie. */
  function Compare(key: SortKey, order: SortOrder, a: Task, b: Task): (r: int)
    ensures key == ByTitle ==> (r == 0 <==> a.title == b.title)
    ensures key == ByPriority ==> (r == 0 <==> a.priority == b.priority)
    ensures key == ByDueDate ==> (r == 0 <==> a.dueDate.Some? && a.dueDate == b.dueDate)
    ensures key == NoSort ==> r == 0
  {
    match key
    case ByTitle =>
      if order == Asc then CompareStrings(a.title, b.title) else CompareStrings(b.title, a.title)
    case ByPriority =>
      if order == Asc then Rank(a.priority) - Rank(b.priority) else Rank(b.priority) - Rank(a.priority)
    case ByDueDate =>
      if a.dueDate.None? then (if order == Asc then 1 else -1)
      else if b.dueDate.None? then (if order == Asc then -1 else 1)
      else if order == Asc then a.dueDate.value - b.dueDate.value
      else b.dueDate.value - a.dueDate.value
    case NoSort => 0
  }

  /** An undated task compares greater than a dated one ascending, smaller descending. */
  lemma UndatedComparedToDated(a: Task, b: Task)
    requires a.dueDate.None? && b.dueDate.Some?
    ensures Compare(ByDueDate, Asc, a, b) > 0 && Compare(ByDueDate, Asc, b, a) < 0
    ensures Compare(ByDueDate, Desc, a, b) < 0 && Compare(ByDueDate, Desc, b, a) > 0
  {
  }

  /** Two dated tasks compare by timestamp difference. */
  lemma DatedCompareByTimestamp(a: Task, b: Task)
    requires a.dueDate.Some? && b.dueDate.Some?
    ensures Compare(ByDueDate, Asc, a, b) == a.dueDate.value - b.dueDate.value
    ensures Compare(ByDueDate, Desc, a, b) == b.dueDate.value - a.dueDate.value
  {
  }

  /** The comparator is antisymmetric except on a pair of undated tasks. */
  lemma CompareAntisymmetric(key: SortKey, order: SortOrder, a: Task, b: Task)
    requires !(key == ByDueDate && a.dueDate.None? && b.dueDate.None?)
    ensures Compare(key, order, a, b) == -Compare(key, order, b, a)
  {
    if key == ByTitle {
      CompareStringsAntisymmetric(a.title, b.title);
    }
  }

  /** ... and on a pair of undated tasks each one claims to be the greater (ascending)
      or the smaller (descending). */
  lemma UndatedPairInconsistent(order: SortOrder, a: Task, b: Task)
    requires a.dueDate.None? && b.dueDate.None?
    ensures Compare(ByDueDate, order, a, b) == Compare(ByDueDate, order, b, a) != 0
  {
  }

  /** `a` must come before `b`: both comparisons agree that `a` is smaller. */
  predicate StrictlyBefore(key: SortKey, order: SortOrder, a: Task, b: Task) {
    Compare(key, order, a, b) < 0 && Compare(key, order, b, a) > 0
  }

  /** No task is placed after one that must come after it. */
  predicate Ordered(key: SortKey, order: SortOrder, s: seq<Task>) {
    forall i, j :: 0 <= i < j < |s| ==> !StrictlyBefore(key, order, s[j], s[i])
  }

  /** The transitivity the insertion step needs: if `x` may go before `y` and `z`
      need not go before `y`, then `z` need not go before `x`. */
  lemma CompareChain(key: SortKey, order: SortOrder, x: Task, y: Task, z: Task)
    requires Compare(key, order, x, y) <= 0
    requires !StrictlyBefore(key, order, z, y)
    ensures !StrictlyBefore(key, order, z, x)
  {
    if key == ByTitle {
      CompareStringsAntisymmetric(z.title, y.title);
      if order == Asc {
        CompareStringsTransitive(x.title, y.title, z.title);
      } else {
        CompareStringsTransitive(z.title, y.title, x.title);
      }
    }
  }

  /** Inserts `x` in front of the first element it may precede. */
  function Insert(key: SortKey, order: SortOrder, x: Task, s: seq<Task>): (r: seq<Task>)
    ensures |r| == |s| + 1 && multiset(r) == multiset(s) + multiset{x}
  {
    if s == [] then [x]
    else if Compare(key, order, x, s[0]) <= 0 then [x] + s
    else
      assert s == [s[0]] + s[1..];
      [s[0]] + Insert(key, order, x, s[1..])
  }

  /** Putting `y` in front of an ordered sequence keeps it ordered when no element
      must come before `y`. */
  lemma OrderedCons(key: SortKey, order: SortOrder, y: Task, s: seq<Task>)
    requires Ordered(key, order, s)
    requires forall m :: 0 <= m < |s| ==> !StrictlyBefore(key, order, s[m], y)
    ensures Ordered(key, order, [y] + s)
  {
    var r := [y] + s;
    forall i, j | 0 <= i < j < |r| ensures !StrictlyBefore(key, order, r[j], r[i]) {
      assert r[j] == s[j - 1];
      if i > 0 {
        assert r[i] == s[i - 1];
      }
    }
  }

  lemma {:induction false} InsertOrdered(key: SortKey, order: SortOrder, x: Task, s: seq<Task>)
    requires Ordered(key, order, s)
    ensures Ordered(key, order, Insert(key, order, x, s))
  {
    if s == [] {
    } else if Compare(key, order, x, s[0]) <= 0 {
      forall m | 0 <= m < |s| ensures !StrictlyBefore(key, order, s[m], x) {
        if m > 0 {
          CompareChain(key, order, x, s[0], s[m]);
        }
      }
      OrderedCons(key, order, x, s);
    } else {
      var rest := Insert(key, order, x, s[1..]);
      InsertOrdered(key, order, x, s[1..]);
      forall m | 0 <= m < |rest| ensures !StrictlyBefore(key, order, rest[m], s[0]) {
        var y := rest[m];
        assert y in multiset(rest);
        if y != x {
          assert y in multiset(s[1..]);
          var n :| 0 <= n < |s[1..]| && s[1..][n] == y;
          assert s[n + 1] == y;
        }
      }
      OrderedCons(key, order, s[0], rest);
    }
  }

  /**
   * An insertion sort standing in for `Array.prototype.sort`: it returns a
   * permutation of its input in which no task follows one that it must precede.
   * Where the comparator is inconsistent (two undated tasks under the due-date
   * key) the language fixes only the permutation, and that order is the
   * stand-in's.
   */
  function Sort(key: SortKey, order: SortOrder, s: seq<Task>): (r: seq<Task>)
    ensures |r| == |s| && multiset(r) == multiset(s)
    ensures Ordered(key, order, r)
  {
    if s == [] then []
    else
      var rest := Sort(key, order, s[1..]);
      SortStep(key, order, s, rest);
      Insert(key, order, s[0], rest)
  }

  /** One step of `Sort`: inserting the head into the sorted tail. */
  lemma SortStep(key: SortKey, order: SortOrder, s: seq<Task>, rest: seq<Task>)
    requires s != [] && |rest| == |s| - 1 && multiset(rest) == multiset(s[1..])
    requires Ordered(key, order, rest)
    ensures var r := Insert(key, order, s[0], rest);
      |r| == |s| && multiset(r) == multiset(s) && Ordered(key, order, r)
  {
    InsertOrdered(key, order, s[0], rest);
    assert s == [s[0]] + s[1..];
  }


  /** `processedTasks`: filter, then sort unless the key is "none". */
  function Processed(tasks: seq<Task>, sf: StatusFilter, pf: PriorityFilter, key: SortKey, order: SortOrder): (r: seq<Task>)
    ensures |r| <= |tasks|
    ensures forall t :: t in r <==> t in tasks && Passes(t, sf, pf)
    ensures multiset(r) == multiset(Filtered(tasks, sf, pf))
    ensures key == NoSort ==> IsSubsequence(r, tasks)
    ensures key != NoSort ==> Ordered(key, order, r)
  {
    var filtered := Filtered(tasks, sf, pf);
    FilteredInStoreOrder(tasks, sf, pf);
    if key == NoSort then filtered
    else
      var r := Sort(key, order, filtered);
      assert forall t :: t in r <==> t in multiset(r);
      assert forall t :: t in filtered <==> t in multiset(filtered);
      r
  }

  /** Priority sort: ranks Low < Medium < High ascending, reversed descending. */
  lemma PrioritySortOrder(tasks: seq<Task>, sf: StatusFilter, pf: PriorityFilter, order: SortOrder, i: nat, j: nat)
    requires i < j < |Processed(tasks, sf, pf, ByPriority, order)|
    ensures var r := Processed(tasks, sf, pf, ByPriority, order);
      if order == Asc then Rank(r[i].priority) <= Rank(r[j].priority)
      else Rank(r[i].priority) >= Rank(r[j].priority)
  {
    var r := Processed(tasks, sf, pf, ByPriority, order);
    assert !StrictlyBefore(ByPriority, order, r[j], r[i]);
  }

  /** Title sort: code-point lexicographic ascending, reversed descending. */
  lemma TitleSortOrder(tasks: seq<Task>, sf: StatusFilter, pf: PriorityFilter, order: SortOrder, i: nat, j: nat)
    requires i < j < |Processed(tasks, sf, pf, ByTitle, order)|
    ensures var r := Processed(tasks, sf, pf, ByTitle, order);
      if order == Asc then CompareStrings(r[i].title, r[j].title) <= 0
      else CompareStrings(r[i].title, r[j].title) >= 0
  {
    var r := Processed(tasks, sf, pf, ByTitle, order);
    assert !StrictlyBefore(ByTitle, order, r[j], r[i]);
    CompareStringsAntisymmetric(r[i].title, r[j].title);
  }

  /** Due-date sort: undated tasks last ascending and first descending; dated
      tasks chronological ascending, reverse-chronological descending. */
  lemma DueDateSortOrder(tasks: seq<Task>, sf: StatusFilter, pf: PriorityFilter, order: SortOrder, i: nat, j: nat)
    requires i < j < |Processed(tasks, sf, pf, ByDueDate, order)|
    ensures var r := Processed(tasks, sf, pf, ByDueDate, order);
      if order == Asc then
        (r[i].dueDate.None? ==> r[j].dueDate.None?)
        && (r[i].dueDate.Some? && r[j].dueDate.Some? ==> r[i].dueDate.value <= r[j].dueDate.value)
      else
        (r[j].dueDate.None? ==> r[i].dueDate.None?)
        && (r[i].dueDate.Some? && r[j].dueDate.Some? ==> r[i].dueDate.value >= r[j].dueDate.value)
  {
    var r := Processed(tasks, sf, pf, ByDueDate, order);
    assert !StrictlyBefore(ByDueDate, order, r[j], r[i]);
  }

  /** `isOverdue`: a missing due date is never overdue, otherwise it is before "now". */
  function IsOverdue(dueDate: Option<int>, now: int): bool {
    dueDate.Some? && dueDate.value < now
  }

  /** In an ascending due-date sort the overdue tasks come first. */
  lemma OverdueFirstAscending(tasks: seq<Task>, sf: StatusFilter, pf: PriorityFilter, now: int, i: nat, j: nat)
    requires i < j < |Processed(tasks, sf, pf, ByDueDate, Asc)|
    ensures var r := Processed(tasks, sf, pf, ByDueDate, Asc);
      IsOverdue(r[j].dueDate, now) ==> IsOverdue(r[i].dueDate, now)
  {
    DueDateSortOrder(tasks, sf, pf, Asc, i, j);
  }

  /** In a descending due-date sort the overdue tasks come last: no task that is
      not overdue follows an overdue one. */
  lemma OverdueLastDescending(tasks: seq<Task>, sf: StatusFilter, pf: PriorityFilter, now: int, i: nat, j: nat)
    requires i < j < |Processed(tasks, sf, pf, ByDueDate, Desc)|
    ensures var r := Processed(tasks, sf, pf, ByDueDate, Desc);
      IsOverdue(r[i].dueDate, now) ==> IsOverdue(r[j].dueDate, now)
  {
    DueDateSortOrder(tasks, sf, pf, Desc, i, j);
  }

  /** The list view's selector state. */
  class ListState {
    var statusFilter: StatusFilter
    var priorityFilter: PriorityFilter
    var sortBy: SortKey
    var sortOrder: SortOrder

    constructor ()
      ensures statusFilter == AllStatuses && priorityFilter == AllPriorities
      ensures sortBy == NoSort && sortOrder == Asc
    {
      statusFilter, priorityFilter, sortBy, sortOrder := AllStatuses, AllPriorities, NoSort, Asc;
    }

    predicate HasActiveFilters()
      reads this
    {
      statusFilter != AllStatuses || priorityFilter != AllPriorities || sortBy != NoSort
    }

    /** What the list shows; with no active filter, the whole store in its order. */
    function View(tasks: seq<Task>): (r: seq<Task>)
      reads this
      ensures |r| <= |tasks|
      ensures !HasActiveFilters() ==> r == tasks
    {
      FilteredAllIsIdentity(tasks);
      Processed(tasks, statusFilter, priorityFilter, sortBy, sortOrder)
    }

    method ClearFilters()
      modifies this
      ensures !HasActiveFilters()
      ensures statusFilter == AllStatuses && priorityFilter == AllPriorities && sortBy == NoSort
      ensures sortOrder == old(sortOrder)
    {
      statusFilter := AllStatuses;
      priorityFilter := AllPriorities;
      sortBy := NoSort;
    }

    /** The direction button flips the order and touches nothing else. */
    method ToggleSortOrder()
      modifies this
      ensures sortOrder == (if old(sortOrder) == Asc then Desc else Asc)
      ensures statusFilter == old(statusFilter) && priorityFilter == old(priorityFilter)
      ensures sortBy == old(sortBy)
    {
      sortOrder := if sortOrder == Asc then Desc else Asc;
    }
  }

  /** `${v}` for an environment value: an unset one prints as "undefined". */
  function EnvText(v: Option<string>): string {
    if v.None? then "undefined" else v.value
  }

  /** The status update posts to the raw configured base, which is not normalised
      the way the dialog's URL builder normalises it. */
  lemma StatusUpdateUrlIgnoresNormalisation()
    ensures EnvText(None) + "/api/updatetask" == "undefined/api/updatetask"
    ensures Api.ApiUrl(None, "/api/updatetask") == "/api/updatetask"
    ensures EnvText(Some("https://h/")) + "/api/updatetask" == "https://h//api/updatetask"
  {
    assert Api.StartsWithSlash("/api/updatetask");
  }

  /**
   * `handleStatusUpdate`: posts the task with its new status to the raw base's
   * update endpoint. `ok` is whether the request came back with an ok status
   * (a non-ok status and a thrown fetch both end in the catch). The store is
   * written only after the server accepted the change.
   */
  method HandleStatusUpdate(store: TaskStore, rawBase: Option<string>, task: Task, newStatus: Status, ok: bool)
      returns (url: string, body: Task)
    modifies store
    ensures url == EnvText(rawBase) + "/api/updatetask" && body == task.(status := newStatus)
    ensures ok ==> store.tasks == ReplaceById(old(store.tasks), body)
    ensures !ok ==> store.tasks == old(store.tasks)
    ensures store.newTask == old(store.newTask)
  {
    url := EnvText(rawBase) + "/api/updatetask";
    body := task.(status := newStatus);
    if ok {
      store.UpdateTask(body);
    }
  }
}
