/**
 * The local database: the `todos` and `categories` tables, each a map from
 * primary key to row, and each with the AUTOINCREMENT counter SQLite keeps
 * for it (the largest id the table has ever held).
 */
module Storage {
  import opened Entities

  /**
   * The id a REPLACE insert of a row with key `id` lands on: a fresh key one
   * past the table's counter when `id` is 0, the given key otherwise.
   */
  function AssignedId(counter: int, id: int): (k: int)
    requires counter >= 0
    ensures k != 0
    ensures id == 0 ==> k > counter
    ensures id != 0 ==> k == id
  {
    if id == 0 then counter + 1 else id
  }

  /** The table counter after a row with key `k` has been written. */
  function Bump(counter: int, k: int): (c: int)
    ensures c >= counter && c >= k
    ensures c == counter || c == k
  {
    if k > counter then k else counter
  }

  /** Table invariant: each row sits under its own id, no row has id 0, none is past the counter. */
  ghost predicate KeyedTable<R>(rows: map<int, R>, idOf: R -> int, counter: int) {
    counter >= 0 &&
    forall k :: k in rows ==> idOf(rows[k]) == k && k != 0 && k <= counter
  }

  function TodoId(e: TodoEntity): int { e.id }
  function CategoryId(e: CategoryEntity): int { e.id }

  /** The `todos` table after the REPLACE insert of `e`, and its new counter. */
  function UpsertTodo(todos: map<int, TodoEntity>, counter: int, e: TodoEntity): (r: (map<int, TodoEntity>, int))
    requires KeyedTable(todos, TodoId, counter)
    ensures KeyedTable(r.0, TodoId, r.1)
    ensures var k := AssignedId(counter, e.id);
      k in r.0 && r.0[k] == e.(id := k) && r.0.Keys == todos.Keys + {k} &&
      (forall j :: j in todos && j != k ==> r.0[j] == todos[j])
    ensures e.id == 0 ==> AssignedId(counter, e.id) !in todos
  {
    var k := AssignedId(counter, e.id);
    (todos[k := e.(id := k)], Bump(counter, k))
  }

  /** The `categories` table after the REPLACE insert of `e`, and its new counter. */
  function UpsertCategory(categories: map<int, CategoryEntity>, counter: int, e: CategoryEntity): (r: (map<int, CategoryEntity>, int))
    requires KeyedTable(categories, CategoryId, counter)
    ensures KeyedTable(r.0, CategoryId, r.1)
    ensures var k := AssignedId(counter, e.id);
      k in r.0 && r.0[k] == e.(id := k) && r.0.Keys == categories.Keys + {k} &&
      (forall j :: j in categories && j != k ==> r.0[j] == categories[j])
    ensures e.id == 0 ==> AssignedId(counter, e.id) !in categories
  {
    var k := AssignedId(counter, e.id);
    (categories[k := e.(id := k)], Bump(counter, k))
  }

  /** Writing the same row with a non-zero id twice leaves the table as writing it once. */
  lemma UpsertTodoIdempotent(todos: map<int, TodoEntity>, counter: int, e: TodoEntity)
    requires KeyedTable(todos, TodoId, counter)
    requires e.id != 0
    ensures var once := UpsertTodo(todos, counter, e);
      UpsertTodo(once.0, once.1, e) == once
  {
    var once := UpsertTodo(todos, counter, e);
    var twice := UpsertTodo(once.0, once.1, e);
    assert twice.0 == once.0;
  }

  /** Writing a row with id 0 twice, by contrast, adds two distinct rows. */
  lemma UpsertTodoFreshTwice(todos: map<int, TodoEntity>, counter: int, e: TodoEntity)
    requires KeyedTable(todos, TodoId, counter)
    requires e.id == 0
    ensures var once := UpsertTodo(todos, counter, e);
      var twice := UpsertTodo(once.0, once.1, e);
      |twice.0.Keys| == |todos.Keys| + 2
  {
    var once := UpsertTodo(todos, counter, e);
    var twice := UpsertTodo(once.0, once.1, e);
    var k1 := AssignedId(counter, 0);
    var k2 := AssignedId(once.1, 0);
    assert once.0.Keys == todos.Keys + {k1} && k1 !in todos.Keys;
    assert twice.0.Keys == once.0.Keys + {k2} && k2 !in once.0.Keys;
  }

  class TodoDatabase {
    var todos: map<int, TodoEntity>
    var todoCounter: int
    var categories: map<int, CategoryEntity>
    var categoryCounter: int

    ghost predicate Valid()
      reads this
    {
      KeyedTable(todos, TodoId, todoCounter) && KeyedTable(categories, CategoryId, categoryCounter)
    }

    /** A freshly created database: both tables empty, no id handed out yet. */
    constructor ()
      ensures Valid()
      ensures todos == map[] && categories == map[]
      ensures todoCounter == 0 && categoryCounter == 0
    {
      todos, todoCounter := map[], 0;
      categories, categoryCounter := map[], 0;
    }
  }
}
