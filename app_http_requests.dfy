/**
 * The local state of the AppHttpRequests component and the rules by which each
 * user action, once its server call has settled, replaces that state.
 *
 * The component holds two values: `todolists`, the ordered todolists, and
 * `tasks`, a record from todolist id to that list's ordered tasks. Every
 * handler writes a new value built from the old one; the pure functions below
 * are those values, and the class at the end holds the two fields and applies
 * them. Server calls are parameters: a `success` flag says whether the awaited
 * call resolved, and values the server returns are passed in.
 */
module App {
  import opened Wrappers
  import opened SeqOps
  import opened TodolistsApiTypes
  import opened TasksApiTypes

  /** `Record<string, DomainTask[]>`: tasks by todolist id. */
  type TaskMap = map<string, seq<DomainTask>>

  // ---------------------------------------------------------------------------
  // Todolists
  // ---------------------------------------------------------------------------

  /** `[newTodolist, ...todolists]`: the created todolist goes in front. */
  function PrependTodolist(todolists: seq<Todolist>, created: Todolist): (r: seq<Todolist>)
    ensures |r| == |todolists| + 1
    ensures r[0] == created && r[1..] == todolists
  {
    [created] + todolists
  }

  /**
   * `todolists.filter(t => t.id !== id)`: exactly the entries whose id differs,
   * each as often as before, in their original order.
   */
  function RemoveTodolist(todolists: seq<Todolist>, id: string): (r: seq<Todolist>)
    ensures IsSubsequence(r, todolists)
    ensures forall t :: multiset(r)[t] == if t.id != id then multiset(todolists)[t] else 0
    ensures forall t :: t in r <==> t in todolists && t.id != id
  {
    FilterCounts(todolists, (t: Todolist) => t.id != id);
    Filter(todolists, (t: Todolist) => t.id != id)
  }

  /**
   * `todolists.map(t => t.id === id ? { ...t, title } : t)`: same length and
   * positions; only the title of a matching entry changes.
   */
  function RenameTodolist(todolists: seq<Todolist>, id: string, title: string): (r: seq<Todolist>)
    ensures |r| == |todolists|
    ensures forall i :: 0 <= i < |todolists| ==> r[i] == todolists[i].(title := r[i].title)
    ensures forall i :: 0 <= i < |todolists| ==> r[i].title == if todolists[i].id == id then title else todolists[i].title
  {
    UpdateWhere(todolists, (t: Todolist) => t.id == id, (t: Todolist) => t.(title := title))
  }

  /** Deleting a just-created todolist whose id is new gives the old sequence back. */
  lemma CreateThenDeleteTodolist(todolists: seq<Todolist>, created: Todolist)
    requires forall i :: 0 <= i < |todolists| ==> todolists[i].id != created.id
    ensures RemoveTodolist(PrependTodolist(todolists, created), created.id) == todolists
  {
    var keep := (t: Todolist) => t.id != created.id;
    FilterKeepsAll(todolists, keep);
    assert Filter([created] + todolists, keep) == Filter(todolists, keep);
  }

  /** Deleting an id no entry carries changes nothing. */
  lemma DeleteAbsentTodolist(todolists: seq<Todolist>, id: string)
    requires forall i :: 0 <= i < |todolists| ==> todolists[i].id != id
    ensures RemoveTodolist(todolists, id) == todolists
  {
    FilterKeepsAll(todolists, (t: Todolist) => t.id != id);
  }

  /** When exactly one entry carries the id, deleting it removes exactly that one position. */
  lemma DeleteUniqueTodolist(todolists: seq<Todolist>, i: int)
    requires 0 <= i < |todolists|
    requires forall j :: 0 <= j < |todolists| && j != i ==> todolists[j].id != todolists[i].id
    ensures RemoveTodolist(todolists, todolists[i].id) == todolists[..i] + todolists[i + 1..]
    ensures |RemoveTodolist(todolists, todolists[i].id)| == |todolists| - 1
  {
    FilterDropsOne(todolists, (t: Todolist) => t.id != todolists[i].id, i);
  }

  /** A second rename of the same id overrides the first. */
  lemma RenameTodolistTwice(todolists: seq<Todolist>, id: string, first: string, second: string)
    ensures RenameTodolist(RenameTodolist(todolists, id, first), id, second) == RenameTodolist(todolists, id, second)
  {
  }

  /** Every key of `tasks` names a todolist that is shown. */
  ghost predicate TasksKeyedByTodolists(todolists: seq<Todolist>, tasks: TaskMap)
  {
    forall k :: k in tasks ==> exists t :: t in todolists && t.id == k
  }

  /**
   * Deleting a todolist leaves its task entry behind: once the deleted id has
   * tasks, the task record is no longer keyed by the shown todolists.
   */
  lemma DeleteTodolistOrphansTasks(todolists: seq<Todolist>, tasks: TaskMap, id: string)
    requires id in tasks
    ensures !TasksKeyedByTodolists(RemoveTodolist(todolists, id), tasks)
  {
  }

  // ---------------------------------------------------------------------------
  // Initial load
  // ---------------------------------------------------------------------------

  /** One joined result of the per-todolist task fetches: the list's id and the fetched items. */
  datatype LoadedTasks = LoadedTasks(todolistId: string, tasks: seq<DomainTask>)

  /** The results of the task fetches, one per fetched todolist and in its order. */
  function LoadResults(fetched: seq<Todolist>, responses: seq<GetTasksResponse>): seq<LoadedTasks>
    requires |responses| == |fetched|
  {
    seq(|fetched|, i requires 0 <= i < |fetched| => LoadedTasks(fetched[i].id, responses[i].items))
  }

  /** The ids the results are for. */
  function FetchedIds(results: seq<LoadedTasks>): set<string>
  {
    set i | 0 <= i < |results| :: results[i].todolistId
  }

  /** No later result is for the same todolist as the one at `i`. */
  ghost predicate IsLastFor(results: seq<LoadedTasks>, i: int)
    requires 0 <= i < |results|
  {
    forall j :: i < j < |results| ==> results[j].todolistId != results[i].todolistId
  }

  /** No two results are for the same todolist. */
  ghost predicate DistinctIds(results: seq<LoadedTasks>)
  {
    forall i, j :: 0 <= i < j < |results| ==> results[i].todolistId != results[j].todolistId
  }

  /**
   * The record the load loop fills, starting from `{}` and writing
   * `updatedTasks[todolistId] = tasks` for each result in turn. It has exactly
   * the fetched ids as keys, and each id holds the tasks of its last result.
   */
  function Collected(results: seq<LoadedTasks>): (r: TaskMap)
    ensures r.Keys == FetchedIds(results)
    ensures forall i :: 0 <= i < |results| && IsLastFor(results, i) ==> r[results[i].todolistId] == results[i].tasks
    decreases |results|
  {
    if |results| == 0 then map[]
    else
      var init := results[..|results| - 1];
      var last := results[|results| - 1];
      assert forall i :: 0 <= i < |init| ==> init[i] == results[i];
      assert FetchedIds(results) == FetchedIds(init) + {last.todolistId};
      Collected(init)[last.todolistId := last.tasks]
  }

  /**
   * `{ ...prevTasks, ...updatedTasks }`: every fetched id maps to the tasks of
   * its last result, and every other key keeps its old value.
   */
  function LoadMerge(prev: TaskMap, results: seq<LoadedTasks>): (r: TaskMap)
    ensures r.Keys == prev.Keys + FetchedIds(results)
    ensures forall i :: 0 <= i < |results| && IsLastFor(results, i) ==> r[results[i].todolistId] == results[i].tasks
    ensures forall k :: k in prev && k !in FetchedIds(results) ==> r[k] == prev[k]
  {
    prev + Collected(results)
  }

  /** The loop over the joined results that builds `updatedTasks`. */
  method BuildUpdatedTasks(results: seq<LoadedTasks>) returns (updatedTasks: TaskMap)
    ensures updatedTasks == Collected(results)
  {
    updatedTasks := map[];
    var i := 0;
    while i < |results|
      invariant 0 <= i <= |results|
      invariant updatedTasks == Collected(results[..i])
    {
      assert results[..i + 1][..i] == results[..i];
      updatedTasks := updatedTasks[results[i].todolistId := results[i].tasks];
      i := i + 1;
    }
    assert results[..i] == results;
  }

  /**
   * With distinct todolist ids, each fetched todolist's id maps to exactly its
   * own fetched items, and the keys are the old keys plus the fetched ids.
   */
  lemma LoadDistinct(prev: TaskMap, fetched: seq<Todolist>, responses: seq<GetTasksResponse>)
    requires |responses| == |fetched|
    requires forall i, j :: 0 <= i < j < |fetched| ==> fetched[i].id != fetched[j].id
    ensures var r := LoadMerge(prev, LoadResults(fetched, responses));
            && r.Keys == prev.Keys + (set i | 0 <= i < |fetched| :: fetched[i].id)
            && forall i :: 0 <= i < |fetched| ==> r[fetched[i].id] == responses[i].items
  {
    var results := LoadResults(fetched, responses);
    assert forall i :: 0 <= i < |fetched| ==> results[i] == LoadedTasks(fetched[i].id, responses[i].items);
    forall i | 0 <= i < |fetched|
      ensures IsLastFor(results, i)
    {
    }
  }

  /** Results that are a permutation of each other are for the same ids. */
  lemma SameFetchedIds(a: seq<LoadedTasks>, b: seq<LoadedTasks>)
    requires multiset(a) == multiset(b)
    ensures FetchedIds(a) == FetchedIds(b)
  {
    forall k | k in FetchedIds(a)
      ensures k in FetchedIds(b)
    {
      var i :| 0 <= i < |a| && a[i].todolistId == k;
      assert a[i] in multiset(b);
    }
    forall k | k in FetchedIds(b)
      ensures k in FetchedIds(a)
    {
      var j :| 0 <= j < |b| && b[j].todolistId == k;
      assert b[j] in multiset(a);
    }
  }

  /** With distinct ids, every result's id holds exactly that result's tasks. */
  lemma CollectedDistinct(results: seq<LoadedTasks>, i: int)
    requires DistinctIds(results) && 0 <= i < |results|
    ensures Collected(results)[results[i].todolistId] == results[i].tasks
  {
  }

  /**
   * With distinct ids, the order of the joined results does not matter: any
   * permutation of them collects into the same record.
   */
  lemma CollectedOrderIrrelevant(a: seq<LoadedTasks>, b: seq<LoadedTasks>)
    requires multiset(a) == multiset(b)
    requires DistinctIds(a) && DistinctIds(b)
    ensures Collected(a) == Collected(b)
  {
    var ca, cb := Collected(a), Collected(b);
    SameFetchedIds(a, b);
    forall k | k in ca
      ensures ca[k] == cb[k]
    {
      var i :| 0 <= i < |a| && a[i].todolistId == k;
      assert a[i] in multiset(b);
      var j :| 0 <= j < |b| && b[j] == a[i];
      CollectedDistinct(a, i);
      CollectedDistinct(b, j);
    }
  }

  // ---------------------------------------------------------------------------
  // Tasks
  // ---------------------------------------------------------------------------

  /** `tasks[todolistId] || []`: a missing key reads as the empty list. */
  function TasksOf(tasks: TaskMap, todolistId: string): seq<DomainTask>
  {
    if todolistId in tasks then tasks[todolistId] else []
  }

  /**
   * `{ ...tasks, [todolistId]: [newTask, ...(tasks[todolistId] || [])] }`: the
   * created task goes in front of its list; every other key is unchanged.
   */
  function AddTask(tasks: TaskMap, todolistId: string, created: DomainTask): (r: TaskMap)
    ensures r.Keys == tasks.Keys + {todolistId}
    ensures |r[todolistId]| == |TasksOf(tasks, todolistId)| + 1
    ensures r[todolistId][0] == created && r[todolistId][1..] == TasksOf(tasks, todolistId)
    ensures forall k :: k in tasks && k != todolistId ==> r[k] == tasks[k]
  {
    tasks[todolistId := [created] + TasksOf(tasks, todolistId)]
  }

  /**
   * `{ ...tasks, [todolistId]: tasks[todolistId].filter(t => t.id !== taskId) }`.
   * None when `todolistId` is not a key: reading `.filter` of undefined throws.
   * Otherwise the list keeps exactly its tasks with another id, in order, and
   * every other key is unchanged.
   */
  function RemoveTask(tasks: TaskMap, todolistId: string, taskId: string): (r: Option<TaskMap>)
    ensures r.None? <==> todolistId !in tasks
    ensures r.Some? ==> r.value.Keys == tasks.Keys
    ensures r.Some? ==> forall k :: k in tasks && k != todolistId ==> r.value[k] == tasks[k]
    ensures r.Some? ==> IsSubsequence(r.value[todolistId], tasks[todolistId])
    ensures r.Some? ==> forall t :: multiset(r.value[todolistId])[t] == if t.id != taskId then multiset(tasks[todolistId])[t] else 0
  {
    if todolistId in tasks then
      FilterCounts(tasks[todolistId], (t: DomainTask) => t.id != taskId);
      Some(tasks[todolistId := Filter(tasks[todolistId], (t: DomainTask) => t.id != taskId)])
    else None
  }

  /**
   * `{ ...tasks, [todolistId]: tasks[todolistId].map(t => t.id === taskId ? { ...t, status } : t) }`.
   * None when `todolistId` is not a key. Otherwise the list keeps its length
   * and positions, only the status of matching tasks changes, and every other
   * key is unchanged.
   */
  function SetTaskStatus(tasks: TaskMap, todolistId: string, taskId: string, status: TaskStatus): (r: Option<TaskMap>)
    ensures r.None? <==> todolistId !in tasks
    ensures r.Some? ==> r.value.Keys == tasks.Keys
    ensures r.Some? ==> forall k :: k in tasks && k != todolistId ==> r.value[k] == tasks[k]
    ensures r.Some? ==> |r.value[todolistId]| == |tasks[todolistId]|
    ensures r.Some? ==> forall i :: 0 <= i < |tasks[todolistId]| ==>
      && r.value[todolistId][i] == tasks[todolistId][i].(status := r.value[todolistId][i].status)
      && r.value[todolistId][i].status == if tasks[todolistId][i].id == taskId then status else tasks[todolistId][i].status
  {
    if todolistId in tasks then
      Some(tasks[todolistId := UpdateWhere(tasks[todolistId], (t: DomainTask) => t.id == taskId, (t: DomainTask) => t.(status := status))])
    else None
  }

  /**
   * `{ ...tasks, [todolistId]: tasks[todolistId].map(t => t.id == taskId ? { ...t, title } : t) }`.
   * None when `todolistId` is not a key. Otherwise only the title of matching
   * tasks changes, and every other key is unchanged.
   */
  function SetTaskTitle(tasks: TaskMap, todolistId: string, taskId: string, title: string): (r: Option<TaskMap>)
    ensures r.None? <==> todolistId !in tasks
    ensures r.Some? ==> r.value.Keys == tasks.Keys
    ensures r.Some? ==> forall k :: k in tasks && k != todolistId ==> r.value[k] == tasks[k]
    ensures r.Some? ==> |r.value[todolistId]| == |tasks[todolistId]|
    ensures r.Some? ==> forall i :: 0 <= i < |tasks[todolistId]| ==>
      && r.value[todolistId][i] == tasks[todolistId][i].(title := r.value[todolistId][i].title)
      && r.value[todolistId][i].title == if tasks[todolistId][i].id == taskId then title else tasks[todolistId][i].title
  {
    if todolistId in tasks then
      Some(tasks[todolistId := UpdateWhere(tasks[todolistId], (t: DomainTask) => t.id == taskId, (t: DomainTask) => t.(title := title))])
    else None
  }

  /**
   * The update model the status checkbox sends: every mutable field copied
   * from the in-memory task, and the status Completed when checked, New otherwise.
   */
  function BuildUpdateModel(task: DomainTask, checked: bool): (m: UpdateTaskModel)
    ensures m.description == task.description && m.title == task.title && m.priority == task.priority
    ensures m.startDate == task.startDate && m.deadline == task.deadline
    ensures m.status == if checked then Completed else New
  {
    UpdateTaskModel(task.description, task.title, if checked then Completed else New,
                    task.priority, task.startDate, task.deadline)
  }

  /**
   * Overwriting the task with the model it produced changes nothing but the
   * status, so the full-replace update loses no field.
   */
  lemma StatusModelKeepsFields(task: DomainTask, checked: bool)
    ensures ApplyModel(task, BuildUpdateModel(task, checked)) == task.(status := if checked then Completed else New)
  {
  }

  /** Deleting a just-created task whose id is new leaves the list as it was (missing reads as empty). */
  lemma CreateThenDeleteTask(tasks: TaskMap, todolistId: string, created: DomainTask)
    requires forall i :: 0 <= i < |TasksOf(tasks, todolistId)| ==> TasksOf(tasks, todolistId)[i].id != created.id
    ensures RemoveTask(AddTask(tasks, todolistId, created), todolistId, created.id) == Some(tasks[todolistId := TasksOf(tasks, todolistId)])
  {
    var keep := (t: DomainTask) => t.id != created.id;
    var before := TasksOf(tasks, todolistId);
    var added := AddTask(tasks, todolistId, created);
    FilterKeepsAll(before, keep);
    assert added[todolistId] == [created] + before;
    assert Filter([created] + before, keep) == before;
    assert RemoveTask(added, todolistId, created.id) == Some(added[todolistId := before]);
    assert added[todolistId := before] == tasks[todolistId := before];
  }

  /** When exactly one task in the list carries the id, deleting it removes exactly that one entry. */
  lemma DeleteUniqueTask(tasks: TaskMap, todolistId: string, i: int)
    requires todolistId in tasks && 0 <= i < |tasks[todolistId]|
    requires forall j :: 0 <= j < |tasks[todolistId]| && j != i ==> tasks[todolistId][j].id != tasks[todolistId][i].id
    ensures var r := RemoveTask(tasks, todolistId, tasks[todolistId][i].id);
            && r.Some?
            && r.value[todolistId] == tasks[todolistId][..i] + tasks[todolistId][i + 1..]
            && |r.value[todolistId]| == |tasks[todolistId]| - 1
  {
    var s := tasks[todolistId];
    FilterDropsOne(s, (t: DomainTask) => t.id != s[i].id, i);
  }

  /**
   * Checking a New task and then unchecking it restores the original record,
   * provided every task with that id in its list is New.
   */
  lemma {:induction false} ToggleRestores(tasks: TaskMap, task: DomainTask)
    requires task.todoListId in tasks
    requires forall i :: 0 <= i < |tasks[task.todoListId]| && tasks[task.todoListId][i].id == task.id ==>
      tasks[task.todoListId][i].status == New
    ensures var checked := SetTaskStatus(tasks, task.todoListId, task.id, BuildUpdateModel(task, true).status);
            && checked.Some?
            && SetTaskStatus(checked.value, task.todoListId, task.id, BuildUpdateModel(task.(status := Completed), false).status) == Some(tasks)
  {
    var tl := task.todoListId;
    var checked := SetTaskStatus(tasks, tl, task.id, Completed).value;
    var unchecked := SetTaskStatus(checked, tl, task.id, New).value;
    assert unchecked[tl] == tasks[tl] by {
      forall i | 0 <= i < |tasks[tl]|
        ensures unchecked[tl][i] == tasks[tl][i]
      {
        assert checked[tl][i].id == tasks[tl][i].id;
      }
    }
    assert unchecked == tasks;
  }

  /** A second title change of the same task overrides the first. */
  lemma {:induction false} SetTaskTitleTwice(tasks: TaskMap, todolistId: string, taskId: string, first: string, second: string)
    requires todolistId in tasks
    ensures var once := SetTaskTitle(tasks, todolistId, taskId, first);
            && once.Some?
            && SetTaskTitle(once.value, todolistId, taskId, second) == SetTaskTitle(tasks, todolistId, taskId, second)
  {
    var once := SetTaskTitle(tasks, todolistId, taskId, first).value;
    var twice := SetTaskTitle(once, todolistId, taskId, second).value;
    var direct := SetTaskTitle(tasks, todolistId, taskId, second).value;
    assert twice[todolistId] == direct[todolistId] by {
      forall i | 0 <= i < |tasks[todolistId]|
        ensures twice[todolistId][i] == direct[todolistId][i]
      {
        assert once[todolistId][i].id == tasks[todolistId][i].id;
      }
    }
    assert twice == direct;
  }

  /** A status change and a title change of a list touch different fields, so their order does not matter. */
  lemma {:induction false} StatusAndTitleCommute(tasks: TaskMap, todolistId: string, taskId: string, status: TaskStatus,
                                                 otherId: string, title: string)
    requires todolistId in tasks
    ensures var a := SetTaskStatus(tasks, todolistId, taskId, status).value;
            var b := SetTaskTitle(tasks, todolistId, otherId, title).value;
            SetTaskTitle(a, todolistId, otherId, title) == SetTaskStatus(b, todolistId, taskId, status)
  {
    var a := SetTaskStatus(tasks, todolistId, taskId, status).value;
    var b := SetTaskTitle(tasks, todolistId, otherId, title).value;
    var ab := SetTaskTitle(a, todolistId, otherId, title).value;
    var ba := SetTaskStatus(b, todolistId, taskId, status).value;
    assert ab[todolistId] == ba[todolistId] by {
      forall i | 0 <= i < |tasks[todolistId]|
        ensures ab[todolistId][i] == ba[todolistId][i]
      {
        assert a[todolistId][i].id == tasks[todolistId][i].id;
        assert b[todolistId][i].id == tasks[todolistId][i].id;
      }
    }
    assert ab == ba;
  }

  // ---------------------------------------------------------------------------
  // The component
  // ---------------------------------------------------------------------------

  /** How a handler ended. */
  datatype Outcome =
    | Applied    // the call resolved and the new state was written
    | Logged     // the handler's catch logged an error; the state is as before
    | Unhandled  // the error escaped the handler; the state is as before, except that Load keeps fetched todolists

  /** The component's two pieces of state and its handlers. */
  class AppHttpRequests {
    var todolists: seq<Todolist>
    var tasks: TaskMap

    constructor ()
      ensures todolists == [] && tasks == map[]
    {
      todolists := [];
      tasks := map[];
    }

    /** createTodolist: `created` is the todolist the server returns. No catch: a failure escapes. */
    method CreateTodolist(success: bool, created: Todolist) returns (outcome: Outcome)
      modifies this
      ensures outcome == if success then Applied else Unhandled
      ensures todolists == if success then PrependTodolist(old(todolists), created) else old(todolists)
      ensures tasks == old(tasks)
    {
      if success {
        todolists := PrependTodolist(todolists, created);
        outcome := Applied;
      } else {
        outcome := Unhandled;
      }
    }

    /** deleteTodolist: the task record is not touched, so the list's task entry stays. */
    method DeleteTodolist(success: bool, id: string) returns (outcome: Outcome)
      modifies this
      ensures outcome == if success then Applied else Unhandled
      ensures todolists == if success then RemoveTodolist(old(todolists), id) else old(todolists)
      ensures tasks == old(tasks)
    {
      if success {
        todolists := RemoveTodolist(todolists, id);
        outcome := Applied;
      } else {
        outcome := Unhandled;
      }
    }

    /** changeTodolistTitle. */
    method ChangeTodolistTitle(success: bool, id: string, title: string) returns (outcome: Outcome)
      modifies this
      ensures outcome == if success then Applied else Unhandled
      ensures todolists == if success then RenameTodolist(old(todolists), id, title) else old(todolists)
      ensures tasks == old(tasks)
    {
      if success {
        todolists := RenameTodolist(todolists, id, title);
        outcome := Applied;
      } else {
        outcome := Unhandled;
      }
    }

    /**
     * The loading effect: the fetched todolists replace the shown ones; when
     * every task fetch resolved, their results are merged into the record.
     * `responses` holds the task responses in the order of `fetched`.
     */
    method Load(listsOk: bool, fetched: seq<Todolist>, tasksOk: bool, responses: seq<GetTasksResponse>)
      returns (outcome: Outcome)
      requires |responses| == |fetched|
      modifies this
      ensures outcome == if listsOk && tasksOk then Applied else Unhandled
      ensures todolists == if listsOk then fetched else old(todolists)
      ensures tasks == if listsOk && tasksOk then LoadMerge(old(tasks), LoadResults(fetched, responses)) else old(tasks)
    {
      if !listsOk {
        return Unhandled;
      }
      todolists := fetched;
      if !tasksOk {
        return Unhandled;
      }
      var updatedTasks := BuildUpdatedTasks(LoadResults(fetched, responses));
      tasks := tasks + updatedTasks;
      outcome := Applied;
    }

    /** createTask: `created` is the task the server returns. */
    method CreateTask(success: bool, todolistId: string, created: DomainTask) returns (outcome: Outcome)
      modifies this
      ensures outcome == if success then Applied else Logged
      ensures tasks == if success then AddTask(old(tasks), todolistId, created) else old(tasks)
      ensures todolists == old(todolists)
    {
      if success {
        tasks := AddTask(tasks, todolistId, created);
        outcome := Applied;
      } else {
        outcome := Logged;
      }
    }

    /** deleteTask: a missing list throws inside the success callback and is logged by the catch. */
    method DeleteTask(success: bool, todolistId: string, taskId: string) returns (outcome: Outcome)
      modifies this
      ensures var r := RemoveTask(old(tasks), todolistId, taskId);
              && outcome == (if success && r.Some? then Applied else Logged)
              && tasks == (if success && r.Some? then r.value else old(tasks))
      ensures todolists == old(todolists)
    {
      outcome := Logged;
      if success {
        var r := RemoveTask(tasks, todolistId, taskId);
        if r.Some? {
          tasks := r.value;
          outcome := Applied;
        }
      }
    }

    /**
     * changeTaskStatus: builds the model from the in-memory `task` and sends it.
     * A missing list throws in the state updater, outside the catch.
     */
    method ChangeTaskStatus(success: bool, checked: bool, task: DomainTask) returns (sent: UpdateTaskModel, outcome: Outcome)
      modifies this
      ensures sent == BuildUpdateModel(task, checked)
      ensures var r := SetTaskStatus(old(tasks), task.todoListId, task.id, sent.status);
              && outcome == (if !success then Logged else if r.None? then Unhandled else Applied)
              && tasks == (if success && r.Some? then r.value else old(tasks))
      ensures todolists == old(todolists)
    {
      sent := BuildUpdateModel(task, checked);
      if !success {
        return sent, Logged;
      }
      var r := SetTaskStatus(tasks, task.todoListId, task.id, sent.status);
      if r.None? {
        return sent, Unhandled;
      }
      tasks := r.value;
      outcome := Applied;
    }

    /** changeTaskTitle: a missing list throws inside the success callback and is logged by the catch. */
    method ChangeTaskTitle(success: bool, task: DomainTask, title: string) returns (outcome: Outcome)
      modifies this
      ensures var r := SetTaskTitle(old(tasks), task.todoListId, task.id, title);
              && outcome == (if success && r.Some? then Applied else Logged)
              && tasks == (if success && r.Some? then r.value else old(tasks))
      ensures todolists == old(todolists)
    {
      outcome := Logged;
      if success {
        var r := SetTaskTitle(tasks, task.todoListId, task.id, title);
        if r.Some? {
          tasks := r.value;
          outcome := Applied;
        }
      }
    }
  }

  /**
   * A client of the component: load one todolist "Home" with one New task
   * "Milk", check it, then uncheck it.
   */
  method ToggleScenario()
  {
    var app := new AppHttpRequests();
    var home := Todolist("a", "Home", "", 0);
    var milk := DomainTask("", "Milk", New, TaskPriority(1), "", "", "t1", "a", 0, "");
    var response := GetTasksResponse(None, 1, [milk]);
    var outcome := app.Load(true, [home], true, [response]);
    LoadDistinct(map[], [home], [response]);
    assert app.tasks == map["a" := [milk]];

    var sent;
    sent, outcome := app.ChangeTaskStatus(true, true, milk);
    assert sent.status == Completed && sent.title == "Milk" && sent.description == "";
    assert outcome == Applied;
    assert app.tasks["a"][0].status == Completed && app.tasks["a"][0].title == "Milk";

    ToggleRestores(map["a" := [milk]], milk);
    sent, outcome := app.ChangeTaskStatus(true, false, app.tasks["a"][0]);
    assert app.tasks == map["a" := [milk]];
  }
}
