/**
 * The task table's access object: REPLACE insert, delete by key, and the two
 * task/category join queries.
 */
module TodoDao {
  import opened Wrappers
  import opened Entities
  import opened Storage

  /**
   * What makes a read fail: a task row whose category row is missing (the
   * join's category is non-null), or a stored priority no constant is named.
   */
  datatype StoreError = MissingCategory(todoId: int, categoryId: int) | UnknownPriority(name: string)

  /** REPLACE insert: the row lands on its key (a fresh one for id 0); every other row stays. */
  method Insert(db: TodoDatabase, e: TodoEntity)
    requires db.Valid()
    modifies db
    ensures db.Valid()
    ensures (db.todos, db.todoCounter) == UpsertTodo(old(db.todos), old(db.todoCounter), e)
    ensures db.categories == old(db.categories) && db.categoryCounter == old(db.categoryCounter)
  {
    var k := AssignedId(db.todoCounter, e.id);
    db.todos := db.todos[k := e.(id := k)];
    db.todoCounter := Bump(db.todoCounter, k);
  }

  /** Delete by primary key only; deleting an absent key does nothing. */
  method Delete(db: TodoDatabase, e: TodoEntity)
    requires db.Valid()
    modifies db
    ensures db.Valid()
    ensures db.todos == old(db.todos) - {e.id}
    ensures db.todoCounter == old(db.todoCounter)
    ensures db.categories == old(db.categories) && db.categoryCounter == old(db.categoryCounter)
  {
    db.todos := db.todos - {e.id};
  }

  /** A joined pair is a stored task row with the category row its `categoryId` names. */
  ghost predicate IsJoined(todos: map<int, TodoEntity>, categories: map<int, CategoryEntity>, w: TodoWithCategory) {
    w.todo.id in todos && todos[w.todo.id] == w.todo &&
    w.todo.categoryId in categories && w.category == categories[w.todo.categoryId] &&
    w.category.id == w.todo.categoryId
  }

  ghost predicate StrictlyDescending(rows: seq<TodoWithCategory>) {
    forall i, j :: 0 <= i < j < |rows| ==> rows[i].todo.id > rows[j].todo.id
  }

  lemma {:induction false} MaxExists(ids: set<int>)
    requires ids != {}
    ensures exists m :: m in ids && forall k :: k in ids ==> k <= m
    decreases |ids|
  {
    if forall k :: k !in ids { assert false; }
    var x :| x in ids;
    var rest := ids - {x};
    if rest == {} {
      assert ids == {x};
    } else {
      MaxExists(rest);
      var m :| m in rest && forall k :: k in rest ==> k <= m;
      var top := if x > m then x else m;
      assert forall k :: k in ids ==> k == x || k in rest;
      assert top in ids && forall k :: k in ids ==> k <= top;
    }
  }

  /** The largest id of a non-empty set of ids. */
  function MaxId(ids: set<int>): (m: int)
    requires ids != {}
    ensures m in ids && forall k :: k in ids ==> k <= m
  {
    MaxExists(ids);
    var m :| m in ids && forall k :: k in ids ==> k <= m;
    m
  }

  /**
   * `rows` is the join over the task rows keyed by `ids`: each such row once,
   * with its category row, in strictly descending id order.
   */
  ghost predicate JoinOf(todos: map<int, TodoEntity>, categories: map<int, CategoryEntity>,
                         ids: set<int>, rows: seq<TodoWithCategory>)
    requires ids <= todos.Keys
  {
    StrictlyDescending(rows) &&
    (forall w :: w in rows ==> w.todo.id in ids && IsJoined(todos, categories, w)) &&
    (forall k :: k in ids ==>
      todos[k].categoryId in categories &&
      TodoWithCategory(todos[k], categories[todos[k].categoryId]) in rows)
  }

  lemma JoinOfPrepend(todos: map<int, TodoEntity>, categories: map<int, CategoryEntity>,
                      ids: set<int>, m: int, rest: seq<TodoWithCategory>)
    requires ids <= todos.Keys && m in ids
    requires forall k :: k in todos ==> todos[k].id == k
    requires forall k :: k in categories ==> categories[k].id == k
    requires forall k :: k in ids ==> k <= m
    requires todos[m].categoryId in categories
    requires JoinOf(todos, categories, ids - {m}, rest)
    ensures JoinOf(todos, categories, ids, [TodoWithCategory(todos[m], categories[todos[m].categoryId])] + rest)
  {
    var w := TodoWithCategory(todos[m], categories[todos[m].categoryId]);
    var rows := [w] + rest;
    forall i, j | 0 <= i < j < |rows| ensures rows[i].todo.id > rows[j].todo.id {
      if i == 0 {
        assert rows[j] in rest;
      } else {
        assert rows[i] == rest[i - 1] && rows[j] == rest[j - 1];
      }
    }
  }

  /**
   * The join over the rows keyed by `ids`, newest (largest id) first; it
   * fails on the first row, in that order, whose category row is missing.
   */
  function JoinDescending(todos: map<int, TodoEntity>, categories: map<int, CategoryEntity>,
                          ids: set<int>): (r: Result<seq<TodoWithCategory>, StoreError>)
    requires ids <= todos.Keys
    requires forall k :: k in todos ==> todos[k].id == k
    requires forall k :: k in categories ==> categories[k].id == k
    ensures r.Success? <==> forall k :: k in ids ==> todos[k].categoryId in categories
    ensures r.Success? ==> JoinOf(todos, categories, ids, r.value)
    ensures r.Failure? ==>
      r.error.MissingCategory? && r.error.todoId in ids &&
      todos[r.error.todoId].categoryId == r.error.categoryId && r.error.categoryId !in categories
    decreases |ids|
  {
    if ids == {} then Success([])
    else
      var m := MaxId(ids);
      var row := todos[m];
      if row.categoryId !in categories then Failure(MissingCategory(m, row.categoryId))
      else
        match JoinDescending(todos, categories, ids - {m})
        case Failure(err) => Failure(err)
        case Success(rest) =>
          JoinOfPrepend(todos, categories, ids, m, rest);
          Success([TodoWithCategory(row, categories[row.categoryId])] + rest)
  }

  /** `getAllWithCategory`: every task row joined with its category, by id descending. */
  function GetAllWithCategory(db: TodoDatabase): (r: Result<seq<TodoWithCategory>, StoreError>)
    requires db.Valid()
    reads db
    ensures r.Success? <==> forall k :: k in db.todos ==> db.todos[k].categoryId in db.categories
    ensures r.Success? ==> JoinOf(db.todos, db.categories, db.todos.Keys, r.value)
  {
    JoinDescending(db.todos, db.categories, db.todos.Keys)
  }

  /** `getByIdWithCategory`: the joined row with that id, or None when there is no such row. */
  function GetByIdWithCategory(db: TodoDatabase, id: int): (r: Result<Option<TodoWithCategory>, StoreError>)
    requires db.Valid()
    reads db
    ensures r == Success(None) <==> id !in db.todos
    ensures r.Failure? <==> id in db.todos && db.todos[id].categoryId !in db.categories
    ensures r.Success? && r.value.Some? ==> r.value.value.todo.id == id && IsJoined(db.todos, db.categories, r.value.value)
  {
    if id !in db.todos then Success(None)
    else
      var row := db.todos[id];
      if row.categoryId !in db.categories then Failure(MissingCategory(id, row.categoryId))
      else Success(Some(TodoWithCategory(row, db.categories[row.categoryId])))
  }
}
