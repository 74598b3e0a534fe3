# AppHttpRequests state synchronisation, modelled in Dafny

This project models the local state of the `AppHttpRequests` component of a todolist client. The component keeps two values:

- `todolists`: the shown todolists, in order.
- `tasks`: a record from todolist id to that list's tasks, in order.

Each handler runs after the server call for a user action settles. It then replaces one of the two values with a new one built from the old value. The model has one pure function per rule and lemmas about those functions. A class `App.AppHttpRequests` holds the two fields and has one method per handler; each method's postcondition ties the new state to the function of the old state.

The server is not modelled. Each handler takes a `success` flag that says whether the awaited call resolved. Values the server returns (the created todolist or task, the fetched lists and task responses) are parameters. An `Outcome` says how a handler ended:

- `Applied`: the new state was written.
- `Logged`: the handler's `.catch` logged an error.
- `Unhandled`: the error escaped the handler.

In the last two cases the state is unchanged, with one exception: when the todolists load but a task fetch fails, the fetched todolists stay in place (`App.AppHttpRequests.Load`).

Error paths follow the code:

- Todolist handlers have no `.catch`, so a failed call is `Unhandled`.
- Task handlers log failures, so a failed call is `Logged`.
- `deleteTask` and `changeTaskTitle` read `tasks[todolistId]` inside the success callback. A missing key makes `.filter`/`.map` throw there, the chained `.catch` logs it, and the model gives `Logged` with the state unchanged.
- `changeTaskStatus` reads `prevTasks[todolistId]` inside a state-updater function. That function runs outside the promise chain, so a missing key is `Unhandled`.

Modules:

- `Wrappers`: `Option`.
- `SeqOps`: `filter` and the conditional `map` the component uses, and a subsequence predicate (the result keeps the order of the input).
- `TodolistsApiTypes`: the `Todolist` record (`id`, `title`, `addedDate`, `order`). Its declaring file is not part of this model.
- `TasksApiTypes`: `DomainTask`, `GetTasksResponse`, `UpdateTaskModel`, and an abstract `TaskStatus` (`New`, `Completed`, and `OtherStatus` standing for the rest).
- `App`: the state-update functions, the load loop, the lemmas, and the component class.

Three behaviours of the code are easy to misread:

- Deleting a task removes every task with the matching id. It removes exactly one entry when exactly one task in that list has that id (`App.DeleteUniqueTask`).
- After a load, the task record has the old keys plus the fetched ids, because the merge spreads over the previous record. Its keys are exactly the fetched ids only when every old key is among them (`App.LoadMerge`, `App.LoadDistinct`).
- Deleting a todolist does not purge its task entry. The model reproduces this (`App.DeleteTodolistOrphansTasks`).

## Model

| member | source | states |
|---|---|---|
| App.PrependTodolist | src/app/AppHttpRequests.tsx:19-23 | the created todolist is at index 0, the old sequence follows unchanged, and the length grows by exactly 1 |
| App.RemoveTodolist | src/app/AppHttpRequests.tsx:26-28 | the result is a subsequence of the old one (relative order kept) and holds each entry whose id differs exactly as often as before, and no entry with the deleted id |
| App.RenameTodolist | src/app/AppHttpRequests.tsx:30-34 | same length and positions; each entry differs at most in its title; matching entries get the new title and the others keep theirs |
| App.CreateThenDeleteTodolist | src/app/AppHttpRequests.tsx:19-28 | deleting a just-created todolist whose id is new gives back the sequence from before the create |
| App.DeleteAbsentTodolist | src/app/AppHttpRequests.tsx:27 | deleting an id that no entry carries leaves the sequence unchanged |
| App.DeleteUniqueTodolist | src/app/AppHttpRequests.tsx:26-28 | when exactly one entry carries the id, deleting it removes exactly that position and shortens the sequence by 1 |
| App.RenameTodolistTwice | src/app/AppHttpRequests.tsx:30-34 | a second rename of the same id overrides the first |
| App.DeleteTodolistOrphansTasks | src/app/AppHttpRequests.tsx:26-28 | the task record is untouched by a todolist delete, so a deleted id that had tasks remains a key with no shown todolist |
| App.Collected | src/app/AppHttpRequests.tsx:64-69 | the record the loop fills has exactly the fetched ids as keys, and each id holds the tasks of its last result (the later result wins) |
| App.LoadMerge | src/app/AppHttpRequests.tsx:72-75 | keys are the old keys plus the fetched ids; each fetched id maps to its last result's tasks; an old key that was not fetched keeps its old value |
| App.BuildUpdatedTasks | src/app/AppHttpRequests.tsx:64-69 | the `forEach` loop that writes `updatedTasks[todolistId] = tasks` computes the record `Collected` describes |
| App.LoadDistinct | src/app/AppHttpRequests.tsx:50-75 | with distinct todolist ids, each fetched todolist's id maps to exactly its own response's items, and the keys are the old keys plus the fetched ids |
| App.SameFetchedIds | src/app/AppHttpRequests.tsx:63-69 | results that are a permutation of each other are for the same set of ids |
| App.CollectedDistinct | src/app/AppHttpRequests.tsx:64-69 | with distinct ids, every result's id holds exactly that result's tasks |
| App.CollectedOrderIrrelevant | src/app/AppHttpRequests.tsx:63-69 | with distinct ids, any order of the joined results builds the same record |
| App.AddTask | src/app/AppHttpRequests.tsx:87-90 | the created task heads its list, followed by the old list (a missing key counts as empty); the key is added if absent; every other key and its list are unchanged |
| App.RemoveTask | src/app/AppHttpRequests.tsx:101-104 | no result when the list id is not a key (the `.filter` throws); otherwise the same keys, the list becomes a subsequence holding exactly its tasks with another id, each as often as before, and other lists are unchanged |
| App.SetTaskStatus | src/app/AppHttpRequests.tsx:130-133 | no result when the list id is not a key; otherwise the same keys, the list keeps its length, each task differs at most in its status, matching tasks get the new status, and other lists are unchanged |
| App.SetTaskTitle | src/app/AppHttpRequests.tsx:146-149 | no result when the list id is not a key; otherwise the same keys and length, each task differs at most in its title, matching tasks get the new title, and other lists are unchanged |
| App.BuildUpdateModel | src/app/AppHttpRequests.tsx:115-123 | the model copies description, title, priority, startDate and deadline from the in-memory task; its status is Completed when checked and New otherwise |
| App.StatusModelKeepsFields | src/app/AppHttpRequests.tsx:115-123 | overwriting a task with the model built from it changes only the status |
| App.CreateThenDeleteTask | src/app/AppHttpRequests.tsx:87-104 | deleting a just-created task whose id is new in its list leaves that list as before the create |
| App.DeleteUniqueTask | src/app/AppHttpRequests.tsx:101-104 | when exactly one task in the list carries the id, deleting it removes exactly that one entry |
| App.ToggleRestores | src/app/AppHttpRequests.tsx:111-137 | checking a New task and then unchecking it restores the original task record |
| App.SetTaskTitleTwice | src/app/AppHttpRequests.tsx:146-149 | a second title change of the same task overrides the first |
| App.StatusAndTitleCommute | src/app/AppHttpRequests.tsx:130-149 | a status change and a title change in one list give the same record in either order |
| SeqOps.Filter | src/app/AppHttpRequests.tsx:27 | `filter` returns a subsequence of its input |
| SeqOps.FilterCounts | src/app/AppHttpRequests.tsx:27 | `filter` keeps each kept value exactly as often as it occurs and drops every other value |
| SeqOps.FilterKeepsAll | src/app/AppHttpRequests.tsx:27 | filtering a sequence whose every element is kept returns it unchanged |
| SeqOps.FilterDropsOne | src/app/AppHttpRequests.tsx:103 | when exactly one position fails the test, filtering removes just that position |
| App.AppHttpRequests.constructor | src/app/AppHttpRequests.tsx:12-13 | the component starts with no todolists and an empty task record |
| App.AppHttpRequests.CreateTodolist | src/app/AppHttpRequests.tsx:19-24 | on success the todolists become `PrependTodolist` of the old ones; on failure nothing changes and the error is unhandled; tasks never change |
| App.AppHttpRequests.DeleteTodolist | src/app/AppHttpRequests.tsx:26-28 | on success the todolists become `RemoveTodolist` of the old ones; the task record is left as it was, orphaned entry included |
| App.AppHttpRequests.ChangeTodolistTitle | src/app/AppHttpRequests.tsx:30-34 | on success the todolists become `RenameTodolist` of the old ones; otherwise nothing changes |
| App.AppHttpRequests.Load | src/app/AppHttpRequests.tsx:48-78 | fetched todolists replace the shown ones; only when every task fetch resolved does the record become `LoadMerge` of the old record and the results |
| App.AppHttpRequests.CreateTask | src/app/AppHttpRequests.tsx:80-95 | on success the record becomes `AddTask`; on failure it is logged and nothing changes |
| App.AppHttpRequests.DeleteTask | src/app/AppHttpRequests.tsx:97-109 | on success with the list present the record becomes `RemoveTask`'s result; a failed call or a missing list is logged and nothing changes |
| App.AppHttpRequests.ChangeTaskStatus | src/app/AppHttpRequests.tsx:111-138 | the model sent is `BuildUpdateModel` of the in-memory task; on success the record becomes `SetTaskStatus` with that model's status; a missing list is unhandled and a failure is logged, with nothing changed |
| App.AppHttpRequests.ChangeTaskTitle | src/app/AppHttpRequests.tsx:140-154 | on success with the list present the record becomes `SetTaskTitle`'s result; a failed call or a missing list is logged and nothing changes |

## Left out

- The resource clients in `src/features/todolists/api/tasksApi.ts`, the duplicate `tasksApi` object in `tasksApi.types.ts`, and the todolist client and transport instance (not part of this model): they only build URLs and forward bodies. The server's answers are parameters.
- Asynchrony: `Promise.all` ordering, out-of-order completions, and stale `tasks`/`todolists` closures versus `prevTasks`. Each handler is one atomic transition on the current state. The joined results are in todolist order, as `Promise.all` gives them.
- The first effect (lines 15-17): it only repeats the todolist fetch done by the loading effect.
- Rendering, JSX, the style object, the commented-out loader, and `console.error` (reduced to the `Logged` outcome).
- The numeric codes of `TaskStatus` and `TaskPriority`: the enumeration file is not part of this model. `TaskStatus` is kept as `New | Completed | OtherStatus(code)`.
- `createTodolist` and `createTask` also send a title. The model's local state uses only the entity the server returns, so the title sent is not modelled.
- `App.AppHttpRequests.Load`: the tasks response's `error` and `totalCount` are carried in `GetTasksResponse` but ignored, as the component ignores them.
