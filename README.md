# todolist-compose: the data layer and view-model state machines, in Dafny

This project models the logic of the Android to-do app *todolist-compose* and proves
properties of it. The app lets a user keep tasks. Each task has a title, an optional
description, a priority (`BAIXA`, `MÉDIA`, `ALTA`), a category and a checklist. Tasks
are grouped on the list screen into "Ativas" (open) and "Concluídas" (done). A category
filter can narrow the list, and an add/edit form creates or changes tasks.

The model has four layers. Each of the seven core source files has a module of its own
(`Entities` stands for `TodoEntity.kt`). Four more modules hold shared values
(`Wrappers`, `Text`, `Domain`) and the database class (`Storage`):

- **Store** (`storage.dfy`, `todo_dao.dfy`, `category_dao.dfy`). `Storage.TodoDatabase`
  is a class holding the `todos` and `categories` tables. Each table is a map from
  primary key to row, with the AUTOINCREMENT counter SQLite keeps for it.
  - Inserts are REPLACE upserts. Id 0 asks for a fresh id one past the counter.
  - Deletes go by primary key.
  - The task query joins each row with the category row its `categoryId` names, by id
    descending. The category listing is sorted by name under SQLite's BINARY collation.
  - The join's category is declared non-null, so a task whose category row is missing
    makes the read fail (`StoreError.MissingCategory`).
- **Repositories** (`todo_repository.dfy`, `category_repository.dfy`). These convert
  field by field between rows and domain values.
  - A priority is stored as its enum name. Parsing back an unknown name is fatal
    (`StoreError.UnknownPriority`).
  - The checklist goes through a JSON codec kept abstract (`Entities.ChecklistCodec`).
    Its exactness is the hypothesis `RoundTrips`. An absent checklist reads as `[]`.
- **List screen** (`list_view_model.dfy`). `Grouped` is the `groupedTodos` derivation
  for one snapshot of the task list and one filter value. The class
  `ListViewModel.ListViewModel` holds the filter, the published grouped map and the
  one-shot event outbox. Its commands write through to the store.
- **Add/edit form** (`add_edit_view_model.dfy`). The class
  `AddEditViewModel.AddEditViewModel` holds the form fields. Events set the fields and
  edit the checklist by index. `LoadInitialData` fills the form from the store.
  `SaveTodo` validates, keeps the stored completion flag, upserts and emits `PopBack`.

Asynchronous code is read as plain calls on the current store snapshot:
- each coroutine body is one call;
- each `Flow` emission is one evaluation (`ListViewModel.Emit`);
- each `Channel` is an append-only sequence `uiEvents`.

A read that the app would crash on returns `Failure`. Fatal reads are an unknown
priority name and a missing category row.

Two points where the model reads the code closely:

- **Tasks whose category is deleted.** The `@Relation` category of `TodoWithCategory`
  (`TodoDao.kt:16-23`) is non-null. A task whose category row is missing therefore makes
  the whole task read fail. Deleting a category leaves its tasks in place, and the source
  leaves open what should happen to them (its comment at `ListViewModel.kt:94-97`).
  `ListViewModel.ListViewModel.DeleteCategory` states the consequence: while such a task
  remains, the task list can no longer be read.
- **Stale declarations.** Some declarations are older than their call sites:
  - `domain/Todo.kt` has four fields;
  - `ListEvent.kt` lacks `OnCategorySelected` and `OnDeleteCategoryConfirm`;
  - `CategoryRepository.kt` and `CategoryDao.kt` lack `delete`.

  The model uses the shapes the callers use.

## Model

| member | source | states |
|---|---|---|
| Text.IsWhitespace | app/src/main/java/com/seumelhorcaminho/todolist/ui/feature/addedit/AddEditViewModel.kt:93 | the JVM whitespace set behind `isBlank`: space, tab, CR and LF are whitespace; ASCII letters and digits are not |
| Text.IsBlank | app/src/main/java/com/seumelhorcaminho/todolist/ui/feature/list/ListViewModel.kt:85 | `isBlank` holds exactly when every character is whitespace (so the empty string is blank) |
| Text.NameLe | app/src/main/java/com/seumelhorcaminho/todolist/data/CategoryDao.kt:14 | the `ORDER BY name` collation: a prefix sorts no later than its extensions, and a proper extension never sorts before its prefix |
| Text.NameLeTotal | app/src/main/java/com/seumelhorcaminho/todolist/data/CategoryDao.kt:14 | the `ORDER BY name` collation compares any two names |
| Text.NameLeTransitive | app/src/main/java/com/seumelhorcaminho/todolist/data/CategoryDao.kt:14 | the `ORDER BY name` collation is transitive |
| Text.NameLeAntisymmetric | app/src/main/java/com/seumelhorcaminho/todolist/data/CategoryDao.kt:14 | names that collate both ways are equal, so the collation is a total order |
| Domain.PriorityName | app/src/main/java/com/seumelhorcaminho/todolist/data/TodoRepositoryImpl.kt:36 | a priority is stored as its non-empty enum name |
| Domain.PriorityValueOf | app/src/main/java/com/seumelhorcaminho/todolist/data/TodoRepositoryImpl.kt:65 | `valueOf` finds the constant whose name is exactly the string; it finds none exactly when no constant has that name |
| Domain.PriorityRoundTrip | app/src/main/java/com/seumelhorcaminho/todolist/data/TodoRepositoryImpl.kt:65 | `valueOf(p.name) == p` for every priority |
| Entities.NewTodoEntity | app/src/main/java/com/seumelhorcaminho/todolist/data/TodoEntity.kt:7-15 | a row built without an id has id 0; every other column holds what was given |
| Entities.ReadChecklist | app/src/main/java/com/seumelhorcaminho/todolist/data/TodoRepositoryImpl.kt:71-73 | an absent checklist column reads as the empty list; decodable text reads as the decoded list; text that decodes to null reads as the empty list |
| Entities.ChecklistRoundTrip | app/src/main/java/com/seumelhorcaminho/todolist/data/TodoRepositoryImpl.kt:71-73 | under an exact codec, the checklist written at insert reads back unchanged |
| Storage.AssignedId | app/src/main/java/com/seumelhorcaminho/todolist/data/TodoEntity.kt:8 | id 0 lands on a key above every id handed out so far; any other id lands on itself; never on 0 |
| Storage.Bump | app/src/main/java/com/seumelhorcaminho/todolist/data/TodoEntity.kt:8 | the AUTOINCREMENT counter becomes the larger of itself and the written key |
| Storage.UpsertTodo | app/src/main/java/com/seumelhorcaminho/todolist/data/TodoDao.kt:28-29 | REPLACE insert keeps one row per id: the row sits at its assigned key with that id, every other row is unchanged, the key set grows by that key only; id 0 takes a key no row held |
| Storage.UpsertCategory | app/src/main/java/com/seumelhorcaminho/todolist/data/CategoryDao.kt:11-12 | the same REPLACE-insert facts for the `categories` table |
| Storage.UpsertTodoIdempotent | app/src/main/java/com/seumelhorcaminho/todolist/data/TodoDao.kt:28-29 | writing a row with a non-zero id twice equals writing it once |
| Storage.UpsertTodoFreshTwice | app/src/main/java/com/seumelhorcaminho/todolist/data/TodoEntity.kt:8 | writing a row with id 0 twice adds two distinct rows |
| Storage.TodoDatabase.constructor | app/src/main/java/com/seumelhorcaminho/todolist/data/TodoDataBase.kt:9-17 | a new database has both tables empty and both counters at 0, and keeps the table invariant |
| TodoDao.Insert | app/src/main/java/com/seumelhorcaminho/todolist/data/TodoDao.kt:28-29 | the task table becomes `UpsertTodo` of the old one; categories untouched |
| TodoDao.Delete | app/src/main/java/com/seumelhorcaminho/todolist/data/TodoDao.kt:31-32 | removes the row keyed by the entity's id, nothing if absent; every other row and the categories untouched |
| TodoDao.JoinDescending | app/src/main/java/com/seumelhorcaminho/todolist/data/TodoDao.kt:16-23 | the join succeeds iff every task's category row exists; on success every row appears once with its own category row, ids strictly descending; a failure names a task whose category row is missing |
| TodoDao.GetAllWithCategory | app/src/main/java/com/seumelhorcaminho/todolist/data/TodoDao.kt:38-40 | every task row exactly once with the category row whose id is its `categoryId`, newest id first; fails iff some category row is missing |
| TodoDao.GetByIdWithCategory | app/src/main/java/com/seumelhorcaminho/todolist/data/TodoDao.kt:45-47 | None exactly when no row has that id; otherwise the row with that id joined with its category, failing iff that category row is missing |
| CategoryDao.Insert | app/src/main/java/com/seumelhorcaminho/todolist/data/CategoryDao.kt:11-12 | the category table becomes `UpsertCategory` of the old one; tasks untouched |
| CategoryDao.Delete | app/src/main/java/com/seumelhorcaminho/todolist/data/CategoryRepositoryImpl.kt:38 | removes the category keyed by the entity's id; the task rows, including those naming it, untouched |
| CategoryDao.GetAll | app/src/main/java/com/seumelhorcaminho/todolist/data/CategoryDao.kt:14-15 | every stored category exactly once and nothing else, sorted by name ascending |
| CategoryRepository.ToEntity | app/src/main/java/com/seumelhorcaminho/todolist/data/CategoryRepositoryImpl.kt:24-28 | the written row has the category's id, name and emoji |
| CategoryRepository.ToDomain | app/src/main/java/com/seumelhorcaminho/todolist/data/CategoryRepositoryImpl.kt:14-18 | the read category has the row's id, name and emoji |
| CategoryRepository.ConversionRoundTrip | app/src/main/java/com/seumelhorcaminho/todolist/data/CategoryRepositoryImpl.kt:11-29 | the two conversions are mutually inverse |
| CategoryRepository.ToDomainAll | app/src/main/java/com/seumelhorcaminho/todolist/data/CategoryRepositoryImpl.kt:12-20 | the listing keeps the rows' length and order, each converted independently |
| CategoryRepository.FirstIsLeast | app/src/main/java/com/seumelhorcaminho/todolist/data/CategoryDao.kt:14-15 | a listing is empty iff the table is; its head is a stored category whose name is least |
| CategoryRepository.GetAll | app/src/main/java/com/seumelhorcaminho/todolist/data/CategoryRepositoryImpl.kt:11-21 | every stored category once, sorted by name, distinct ids, each equal to its row |
| CategoryRepository.Insert | app/src/main/java/com/seumelhorcaminho/todolist/data/CategoryRepositoryImpl.kt:23-30 | writes exactly the category's id, name and emoji by REPLACE insert |
| CategoryRepository.Delete | app/src/main/java/com/seumelhorcaminho/todolist/data/CategoryRepositoryImpl.kt:32-39 | removes the row keyed by the category's id; nothing else changes |
| CategoryRepository.InsertThenList | app/src/main/java/com/seumelhorcaminho/todolist/data/CategoryRepositoryImpl.kt:11-30 | a category inserted with a non-zero id is listed afterwards exactly as inserted |
| TodoRepository.ToEntity | app/src/main/java/com/seumelhorcaminho/todolist/data/TodoRepositoryImpl.kt:31-39 | the written row keeps id, title, description and completion, stores the priority's name, only the category's id, and the encoded checklist |
| TodoRepository.MapToDomain | app/src/main/java/com/seumelhorcaminho/todolist/data/TodoRepositoryImpl.kt:59-75 | fails iff the stored priority names no constant; otherwise the task has the row's fields, the parsed priority, the category from the category row, and the read checklist |
| TodoRepository.MapAll | app/src/main/java/com/seumelhorcaminho/todolist/data/TodoRepositoryImpl.kt:17-21 | succeeds iff every row maps; then same length and order, each element mapped independently |
| TodoRepository.GetAll | app/src/main/java/com/seumelhorcaminho/todolist/data/TodoRepositoryImpl.kt:16-22 | the read succeeds exactly when the join succeeds and every joined row maps; a failed join's error is the read's error; success is the join result mapped element by element |
| TodoRepository.MapAllKeepsIds | app/src/main/java/com/seumelhorcaminho/todolist/data/TodoRepositoryImpl.kt:17-21 | the mapped list keeps each row's id at its position |
| TodoRepository.RowIdsListTable | app/src/main/java/com/seumelhorcaminho/todolist/data/TodoDao.kt:38-40 | the joined rows' ids are exactly the table's keys, strictly descending |
| TodoRepository.GetAllListsEveryTask | app/src/main/java/com/seumelhorcaminho/todolist/data/TodoRepositoryImpl.kt:16-22 | a successful read lists every stored task exactly once, ids strictly descending, and nothing else |
| TodoRepository.GetById | app/src/main/java/com/seumelhorcaminho/todolist/data/TodoRepositoryImpl.kt:24-28 | None exactly when no row has that id; a row whose category row is missing fails with `MissingCategory`; otherwise the mapped joined row, or its failure |
| TodoRepository.ReadBack | app/src/main/java/com/seumelhorcaminho/todolist/data/TodoRepositoryImpl.kt:59-75 | the row written for task `t` at key `k` reads back as `t` with id `k`, given an exact codec and `t`'s category stored as embedded |
| TodoRepository.Insert | app/src/main/java/com/seumelhorcaminho/todolist/data/TodoRepositoryImpl.kt:30-41 | upserts the task's row; categories untouched |
| TodoRepository.Delete | app/src/main/java/com/seumelhorcaminho/todolist/data/TodoRepositoryImpl.kt:43-54 | removes the row keyed by the task's id; nothing else changes |
| TodoRepository.InsertThenGetById | app/src/main/java/com/seumelhorcaminho/todolist/data/TodoRepositoryImpl.kt:30-41 | insert then get by the landed id returns the task itself (id ≠ 0), or the task with a fresh id no row held (id 0) |
| ListViewModel.Select | app/src/main/java/com/seumelhorcaminho/todolist/ui/feature/list/ListViewModel.kt:31 | `filter` keeps exactly the elements that satisfy the predicate |
| ListViewModel.SelectAppend | app/src/main/java/com/seumelhorcaminho/todolist/ui/feature/list/ListViewModel.kt:31 | filtering distributes over concatenation, so relative order is kept |
| ListViewModel.FilterByCategory | app/src/main/java/com/seumelhorcaminho/todolist/ui/feature/list/ListViewModel.kt:28-32 | no filter keeps the list as is; filter `c` keeps exactly the tasks whose category id is `c.id` |
| ListViewModel.Partition | app/src/main/java/com/seumelhorcaminho/todolist/ui/feature/list/ListViewModel.kt:33 | `partition { !it.isCompleted }`: the two lists together are as long as the input; the first holds only open tasks of the input, the second only done ones |
| ListViewModel.PartitionIsSplit | app/src/main/java/com/seumelhorcaminho/todolist/ui/feature/list/ListViewModel.kt:33 | `partition` yields the open tasks and the done tasks, each in input order |
| ListViewModel.PartitionKeepsAll | app/src/main/java/com/seumelhorcaminho/todolist/ui/feature/list/ListViewModel.kt:33 | the two groups together are the input as a multiset: nothing lost or repeated |
| ListViewModel.PartitionEmpty | app/src/main/java/com/seumelhorcaminho/todolist/ui/feature/list/ListViewModel.kt:33 | both groups are empty iff the input is |
| ListViewModel.NonEmptyGroups | app/src/main/java/com/seumelhorcaminho/todolist/ui/feature/list/ListViewModel.kt:35 | the map filter keeps exactly the entries with a non-empty list |
| ListViewModel.Grouped | app/src/main/java/com/seumelhorcaminho/todolist/ui/feature/list/ListViewModel.kt:26-35 | at most two groups, none empty, labelled "Ativas"/"Concluídas", "Ativas" first when both are present; empty iff no task is retained |
| ListViewModel.GroupedContents | app/src/main/java/com/seumelhorcaminho/todolist/ui/feature/list/ListViewModel.kt:33-35 | "Ativas" holds exactly the retained open tasks, "Concluídas" exactly the retained done ones, in input order, each present iff non-empty |
| ListViewModel.GroupedCoversRetained | app/src/main/java/com/seumelhorcaminho/todolist/ui/feature/list/ListViewModel.kt:33-35 | the groups together hold the retained tasks as a multiset |
| ListViewModel.CompleteChangeIdempotent | app/src/main/java/com/seumelhorcaminho/todolist/ui/feature/list/ListViewModel.kt:58-60 | toggling completion to `b` twice leaves the store as once, with the row equal to the task with only `isCompleted` replaced |
| ListViewModel.ListViewModel.constructor | app/src/main/java/com/seumelhorcaminho/todolist/ui/feature/list/ListViewModel.kt:24-40 | before the first emission: no filter, an empty grouped map, no events |
| ListViewModel.ListViewModel.Emit | app/src/main/java/com/seumelhorcaminho/todolist/ui/feature/list/ListViewModel.kt:26-35 | an emission publishes `Grouped` of the current tasks and filter; a failed read publishes nothing new |
| ListViewModel.ListViewModel.OnEvent | app/src/main/java/com/seumelhorcaminho/todolist/ui/feature/list/ListViewModel.kt:52-81 | per event: delete the task row; upsert the task with only `isCompleted` changed; emit `Navigate(AddEditRoute(id))` with the store untouched; add a category only for a non-blank name; change only the filter; delete only the category |
| ListViewModel.ListViewModel.AddCategory | app/src/main/java/com/seumelhorcaminho/todolist/ui/feature/list/ListViewModel.kt:83-90 | a blank name leaves the store unchanged; otherwise `Category(0, name, emoji)` is upserted and tasks stay |
| ListViewModel.ListViewModel.DeleteCategory | app/src/main/java/com/seumelhorcaminho/todolist/ui/feature/list/ListViewModel.kt:92-100 | only the category row goes; tasks naming it stay and then make the task read fail |
| ListViewModel.ListViewModel.Delete | app/src/main/java/com/seumelhorcaminho/todolist/ui/feature/list/ListViewModel.kt:102-106 | removes the task's row only |
| ListViewModel.ListViewModel.Update | app/src/main/java/com/seumelhorcaminho/todolist/ui/feature/list/ListViewModel.kt:108-112 | upserts the task's full row; categories untouched |
| AddEditViewModel.AppendItem | app/src/main/java/com/seumelhorcaminho/todolist/ui/feature/addedit/AddEditViewModel.kt:71 | one item longer, earlier items unchanged, the new last item is `("", false)` |
| AddEditViewModel.RemoveAt | app/src/main/java/com/seumelhorcaminho/todolist/ui/feature/addedit/AddEditViewModel.kt:72-73 | one item shorter, items before `i` in place, items after `i` shifted down by one, only item `i` gone (multiset) |
| AddEditViewModel.SetText | app/src/main/java/com/seumelhorcaminho/todolist/ui/feature/addedit/AddEditViewModel.kt:75-79 | same length; item `i` gets the text and keeps its flag; every other item unchanged |
| AddEditViewModel.SetChecked | app/src/main/java/com/seumelhorcaminho/todolist/ui/feature/addedit/AddEditViewModel.kt:81-85 | same length; item `i` gets the flag and keeps its text; every other item unchanged |
| AddEditViewModel.CanSave | app/src/main/java/com/seumelhorcaminho/todolist/ui/feature/addedit/AddEditViewModel.kt:93 | the save guard holds exactly when a category is selected and the title has a non-whitespace character |
| AddEditViewModel.StoredCompletion | app/src/main/java/com/seumelhorcaminho/todolist/ui/feature/addedit/AddEditViewModel.kt:98-102 | false for a new task or one no longer stored; the stored flag when editing a stored task; fails exactly when that read fails, with its error |
| AddEditViewModel.TodoToSave | app/src/main/java/com/seumelhorcaminho/todolist/ui/feature/addedit/AddEditViewModel.kt:104-112 | id `todoId ?: 0`; description absent iff blank, else the text; the form's other fields and the kept completion flag |
| AddEditViewModel.LoadSaveRoundTrip | app/src/main/java/com/seumelhorcaminho/todolist/ui/feature/addedit/AddEditViewModel.kt:104-112 | saving a loaded, unedited task (non-blank or absent description) writes back the same task |
| AddEditViewModel.AddEditViewModel.constructor | app/src/main/java/com/seumelhorcaminho/todolist/ui/feature/addedit/AddEditViewModel.kt:27-38 | the form starts with empty text, priority BAIXA, no items, no categories, none selected |
| AddEditViewModel.AddEditViewModel.LoadInitialData | app/src/main/java/com/seumelhorcaminho/todolist/ui/feature/addedit/AddEditViewModel.kt:47-63 | the form's categories are the listing; a new task selects `categories.firstOrNull()`, which is the stored category with the least name (none iff there are none); an edited task is filled as `FillFromStore` states |
| AddEditViewModel.AddEditViewModel.FillFromStore | app/src/main/java/com/seumelhorcaminho/todolist/ui/feature/addedit/AddEditViewModel.kt:52-58 | a found task sets title, description (absent as ""), priority, category and checklist; a missing task leaves the form as it was |
| AddEditViewModel.AddEditViewModel.SaveTodo | app/src/main/java/com/seumelhorcaminho/todolist/ui/feature/addedit/AddEditViewModel.kt:91-117 | blank title or no category: store untouched, exactly `ShowSnackbar("Título e Categoria são obrigatórios.")`; otherwise the `TodoToSave` row is upserted and `PopBack` emitted |
| AddEditViewModel.AddEditViewModel.OnEvent | app/src/main/java/com/seumelhorcaminho/todolist/ui/feature/addedit/AddEditViewModel.kt:65-89 | each field event sets exactly its field; each checklist event applies its index operation to the checklist only; only `Save` writes or emits |

## Left out

- The Compose UI (screens, drawer, sheets, item rows) and `MainActivity` are rendering
  only. The screens' own enable rules mirror the view-models' checks.
- Flows, coroutines and channels (`combine`, `stateIn(WhileSubscribed(5000))`,
  `receiveAsFlow`, `viewModelScope.launch`):
  - subscription lifetime, timing and interleaving are not modelled;
  - each coroutine body is one sequential call on the current store;
  - each emission is one `Emit` call.
- `ListViewModel.categories` is a straight pass-through of the category listing through
  `stateIn`. It is covered by `CategoryRepository.GetAll` and has no field of its own.
- The database singleton (`TodoDatabaseProvider`): its lock, `@Volatile` field and Room
  builder/migration setup are concurrency and I/O plumbing.
- JSON (Gson) for checklists is an abstract codec. Malformed JSON, which would throw, is
  not modelled. `RoundTrips` is a hypothesis on the lemmas that need it.
- Column width: ids are unbounded integers. SQLite's 64-bit row-id limit, and the
  `SQLITE_FULL` error when the AUTOINCREMENT counter reaches it, are not modelled.
- Tie order of `ORDER BY name`: SQLite leaves equal names in an unspecified order.
  `CategoryDao.GetAll` therefore picks any order among equal names, and its contract
  only promises sortedness and completeness.
- What happens to tasks whose category is deleted: the source leaves this open. No
  cascade or reassignment is modelled; the join simply fails, as the code does.
- The static drawer filters ("Hoje", "Próximos") have no behaviour in the source.
- The `Priority` enum's source is not part of this model. Its constants are taken from
  their uses.
- `CategoryEntity`'s declaration is not part of this model. Its shape (`id`, `name`,
  `emoji`, auto-generated key) is taken from its uses.
- `AddEditViewModel.AddEditViewModel.OnEvent`: requires checklist indices in range. An
  out-of-range index makes the source throw, and that crash is not modelled.
- `AddEditViewModel.AddEditViewModel.LoadInitialData`: the source runs it from `init`.
  Here it is a separate call made after the constructor.
