/**
 * The task repository: converts task rows (with their joined category row)
 * to domain tasks and back, and forwards writes to the task table.
 */
module TodoRepository {
  import opened Wrappers
  import opened Domain
  import opened Entities
  import opened Storage
  import opened TodoDao
  import CategoryRepository

  /**
   * The row written for a task: the same id, title, description and
   * completion, the priority's name, only the category's id, and the
   * encoded checklist.
   */
  function ToEntity(codec: ChecklistCodec, t: Todo): (e: TodoEntity)
    ensures e.id == t.id && e.title == t.title && e.description == t.description
    ensures e.isCompleted == t.isCompleted
    ensures e.priority == PriorityName(t.priority) && e.categoryId == t.category.id
    ensures e.checklistJson == Some(codec.encode(t.checklist))
  {
    TodoEntity(t.id, t.title, t.description, t.isCompleted, PriorityName(t.priority),
               t.category.id, Some(codec.encode(t.checklist)))
  }

  /**
   * `mapToDomain`: the task a joined row reads as. The category comes from
   * the category row; a priority name that names no constant is fatal.
   */
  function MapToDomain(codec: ChecklistCodec, row: TodoWithCategory): (r: Result<Todo, StoreError>)
    ensures r.Failure? <==> PriorityValueOf(row.todo.priority).None?
    ensures r.Failure? ==> r.error == UnknownPriority(row.todo.priority)
    ensures r.Success? ==>
      r.value.id == row.todo.id && r.value.title == row.todo.title &&
      r.value.description == row.todo.description && r.value.isCompleted == row.todo.isCompleted &&
      PriorityName(r.value.priority) == row.todo.priority &&
      r.value.category == CategoryRepository.ToDomain(row.category) &&
      r.value.checklist == ReadChecklist(codec, row.todo.checklistJson)
  {
    match PriorityValueOf(row.todo.priority)
    case None => Failure(UnknownPriority(row.todo.priority))
    case Some(p) =>
      Success(Todo(
        id := row.todo.id,
        title := row.todo.title,
        description := row.todo.description,
        isCompleted := row.todo.isCompleted,
        priority := p,
        category := CategoryRepository.ToDomain(row.category),
        checklist := ReadChecklist(codec, row.todo.checklistJson)))
  }

  /** Each joined row mapped independently, in order; the first unreadable row is fatal. */
  function MapAll(codec: ChecklistCodec, rows: seq<TodoWithCategory>): (r: Result<seq<Todo>, StoreError>)
    ensures r.Success? <==> forall i :: 0 <= i < |rows| ==> MapToDomain(codec, rows[i]).Success?
    ensures r.Success? ==>
      |r.value| == |rows| &&
      forall i :: 0 <= i < |rows| ==> r.value[i] == MapToDomain(codec, rows[i]).value
  {
    if rows == [] then Success([])
    else
      match MapToDomain(codec, rows[0])
      case Failure(err) => Failure(err)
      case Success(t) =>
        match MapAll(codec, rows[1..])
        case Failure(err) => Failure(err)
        case Success(ts) => Success([t] + ts)
  }

  /** `getAll`: the join result mapped element by element. */
  function GetAll(db: TodoDatabase, codec: ChecklistCodec): (r: Result<seq<Todo>, StoreError>)
    requires db.Valid()
    reads db
    ensures r.Success? <==>
      GetAllWithCategory(db).Success? && MapAll(codec, GetAllWithCategory(db).value).Success?
    ensures GetAllWithCategory(db).Failure? ==> r == Failure(GetAllWithCategory(db).error)
    ensures r.Success? ==>
      GetAllWithCategory(db).Success? &&
      r == MapAll(codec, GetAllWithCategory(db).value)
  {
    match GetAllWithCategory(db)
    case Failure(err) => Failure(err)
    case Success(rows) => MapAll(codec, rows)
  }

  /** Mapping keeps each row's id at its position. */
  lemma MapAllKeepsIds(codec: ChecklistCodec, rows: seq<TodoWithCategory>)
    requires MapAll(codec, rows).Success?
    ensures |MapAll(codec, rows).value| == |rows|
    ensures forall i :: 0 <= i < |rows| ==> MapAll(codec, rows).value[i].id == rows[i].todo.id
  {
    forall i | 0 <= i < |rows| ensures MapAll(codec, rows).value[i].id == rows[i].todo.id {
      assert MapToDomain(codec, rows[i]).Success?;
    }
  }

  /** A successful `getAll` lists every stored task exactly once, newest id first. */
  lemma GetAllListsEveryTask(db: TodoDatabase, codec: ChecklistCodec)
    requires db.Valid()
    requires GetAll(db, codec).Success?
    ensures var ts := GetAll(db, codec).value;
      (forall i, j :: 0 <= i < j < |ts| ==> ts[i].id > ts[j].id) &&
      (forall i :: 0 <= i < |ts| ==> ts[i].id in db.todos) &&
      (forall k :: k in db.todos ==> exists i :: 0 <= i < |ts| && ts[i].id == k)
  {
    var rows := GetAllWithCategory(db).value;
    MapAllKeepsIds(codec, rows);
    RowIdsListTable(db, rows);
    IdsCarryOver(rows, MapAll(codec, rows).value, db.todos.Keys);
  }

  /** Tasks that sit at the positions of rows with the same ids list the same keys in the same order. */
  lemma IdsCarryOver(rows: seq<TodoWithCategory>, ts: seq<Todo>, keys: set<int>)
    requires |ts| == |rows| && forall i :: 0 <= i < |rows| ==> ts[i].id == rows[i].todo.id
    requires forall i, j :: 0 <= i < j < |rows| ==> rows[i].todo.id > rows[j].todo.id
    requires forall i :: 0 <= i < |rows| ==> rows[i].todo.id in keys
    requires forall k :: k in keys ==> exists i :: 0 <= i < |rows| && rows[i].todo.id == k
    ensures forall i, j :: 0 <= i < j < |ts| ==> ts[i].id > ts[j].id
    ensures forall i :: 0 <= i < |ts| ==> ts[i].id in keys
    ensures forall k :: k in keys ==> exists i :: 0 <= i < |ts| && ts[i].id == k
  {
    forall k | k in keys ensures exists i :: 0 <= i < |ts| && ts[i].id == k {
      var i :| 0 <= i < |rows| && rows[i].todo.id == k;
      assert ts[i].id == k;
    }
  }

  /** The ids of the join rows are the table's keys, strictly descending. */
  lemma RowIdsListTable(db: TodoDatabase, rows: seq<TodoWithCategory>)
    requires db.Valid()
    requires GetAllWithCategory(db) == Success(rows)
    ensures forall i, j :: 0 <= i < j < |rows| ==> rows[i].todo.id > rows[j].todo.id
    ensures forall i :: 0 <= i < |rows| ==> rows[i].todo.id in db.todos
    ensures forall k :: k in db.todos ==> exists i :: 0 <= i < |rows| && rows[i].todo.id == k
  {
    forall i | 0 <= i < |rows| ensures rows[i].todo.id in db.todos {
      assert rows[i] in rows;
    }
    forall k | k in db.todos ensures exists i :: 0 <= i < |rows| && rows[i].todo.id == k {
      var w := TodoWithCategory(db.todos[k], db.categories[db.todos[k].categoryId]);
      var i :| 0 <= i < |rows| && rows[i] == w;
      assert rows[i].todo.id == k;
    }
  }

  /** `getById`: None exactly when no row has that id; otherwise that row, mapped. */
  function GetById(db: TodoDatabase, codec: ChecklistCodec, id: int): (r: Result<Option<Todo>, StoreError>)
    requires db.Valid()
    reads db
    ensures r == Success(None) <==> id !in db.todos
    ensures r.Success? && r.value.Some? ==> r.value.value.id == id
    ensures id in db.todos && db.todos[id].categoryId !in db.categories ==>
      r == Failure(MissingCategory(id, db.todos[id].categoryId))
    ensures id in db.todos && db.todos[id].categoryId in db.categories ==>
      var row := TodoWithCategory(db.todos[id], db.categories[db.todos[id].categoryId]);
      match MapToDomain(codec, row)
      case Success(t) => r == Success(Some(t))
      case Failure(err) => r == Failure(err)
  {
    match GetByIdWithCategory(db, id)
    case Failure(err) => Failure(err)
    case Success(None) => Success(None)
    case Success(Some(row)) =>
      match MapToDomain(codec, row)
      case Failure(err) => Failure(err)
      case Success(t) => Success(Some(t))
  }

  /**
   * Reading back what `insert` wrote: with an exact checklist codec and the
   * task's category stored as it is embedded in the task, the row written
   * for `t` at key `k` reads as `t` with id `k`.
   */
  lemma ReadBack(db: TodoDatabase, codec: ChecklistCodec, t: Todo, k: int)
    requires db.Valid() && RoundTrips(codec)
    requires k in db.todos && db.todos[k] == ToEntity(codec, t).(id := k)
    requires t.category.id in db.categories
    requires db.categories[t.category.id] == CategoryRepository.ToEntity(t.category)
    ensures GetById(db, codec, k) == Success(Some(t.(id := k)))
  {
    PriorityRoundTrip(t.priority);
    ChecklistRoundTrip(codec, t.checklist);
    CategoryRepository.ConversionRoundTrip(t.category, db.categories[t.category.id]);
  }

  /** `insert`: the task's row is written by REPLACE insert. */
  method Insert(db: TodoDatabase, codec: ChecklistCodec, t: Todo)
    requires db.Valid()
    modifies db
    ensures db.Valid()
    ensures (db.todos, db.todoCounter) == UpsertTodo(old(db.todos), old(db.todoCounter), ToEntity(codec, t))
    ensures db.categories == old(db.categories) && db.categoryCounter == old(db.categoryCounter)
  {
    TodoDao.Insert(db, ToEntity(codec, t));
  }

  /** `delete`: the row keyed by the task's id is removed; nothing else changes. */
  method Delete(db: TodoDatabase, codec: ChecklistCodec, t: Todo)
    requires db.Valid()
    modifies db
    ensures db.Valid()
    ensures db.todos == old(db.todos) - {t.id}
    ensures db.todoCounter == old(db.todoCounter)
    ensures db.categories == old(db.categories) && db.categoryCounter == old(db.categoryCounter)
  {
    TodoDao.Delete(db, ToEntity(codec, t));
  }

  /**
   * Insert, then read back by the id the row landed on: the task comes back
   * unchanged, apart from the id a new task (id 0) is given.
   */
  method InsertThenGetById(db: TodoDatabase, codec: ChecklistCodec, t: Todo) returns (r: Result<Option<Todo>, StoreError>)
    requires db.Valid() && RoundTrips(codec)
    requires t.category.id in db.categories
    requires db.categories[t.category.id] == CategoryRepository.ToEntity(t.category)
    modifies db
    ensures db.Valid()
    ensures t.id != 0 ==> r == Success(Some(t))
    ensures t.id == 0 ==> r.Success? && r.value.Some? && r.value.value == t.(id := r.value.value.id)
    ensures t.id == 0 ==> r.value.value.id !in old(db.todos)
  {
    var k := AssignedId(db.todoCounter, t.id);
    Insert(db, codec, t);
    r := GetById(db, codec, k);
    ReadBack(db, codec, t, k);
  }
}
