/**
 * The task list screen's state: the grouped, filtered task map derived from
 * the store, the selected category filter, and the commands the screen sends.
 */
module ListViewModel {
  import opened Wrappers
  import opened Domain
  import opened Entities
  import opened Storage
  import opened Text
  import opened TodoDao
  import TodoRepository
  import CategoryRepository

  const ActiveLabel: string := "Ativas"
  const CompletedLabel: string := "Concluídas"

  /** One entry of the grouped map: a key and its tasks. */
  datatype Group = Group(key: string, todos: seq<Todo>)

  /** Kotlin's `filter`: the elements that satisfy `keep`, in their original order. */
  function Select(s: seq<Todo>, keep: Todo -> bool): (r: seq<Todo>)
    ensures |r| <= |s|
    ensures forall t :: t in r <==> t in s && keep(t)
  {
    if s == [] then []
    else (if keep(s[0]) then [s[0]] else []) + Select(s[1..], keep)
  }

  /** Filtering distributes over concatenation, so relative order is kept. */
  lemma {:induction false} SelectAppend(s1: seq<Todo>, s2: seq<Todo>, keep: Todo -> bool)
    ensures Select(s1 + s2, keep) == Select(s1, keep) + Select(s2, keep)
  {
    if s1 != [] {
      assert (s1 + s2)[1..] == s1[1..] + s2;
      SelectAppend(s1[1..], s2, keep);
    } else {
      assert s1 + s2 == s2;
    }
  }

  predicate IsActive(t: Todo) { !t.isCompleted }
  predicate IsDone(t: Todo) { t.isCompleted }

  /** The retained tasks: all of them with no filter, else those whose category id is the selected one. */
  function FilterByCategory(todos: seq<Todo>, selected: Option<Category>): (r: seq<Todo>)
    ensures selected.None? ==> r == todos
    ensures forall t :: t in r <==> t in todos && (selected.None? || t.category.id == selected.value.id)
  {
    match selected
    case None => todos
    case Some(c) => Select(todos, (t: Todo) => t.category.id == c.id)
  }

  /** Kotlin's `partition { !it.isCompleted }`: one pass, each task to the first or the second list. */
  function Partition(s: seq<Todo>): (r: (seq<Todo>, seq<Todo>))
    ensures |r.0| + |r.1| == |s|
    ensures forall t :: t in r.0 ==> t in s && !t.isCompleted
    ensures forall t :: t in r.1 ==> t in s && t.isCompleted
  {
    if s == [] then ([], [])
    else
      var rest := Partition(s[1..]);
      if IsActive(s[0]) then ([s[0]] + rest.0, rest.1) else (rest.0, [s[0]] + rest.1)
  }

  /** The partition is the pair of filters by completion, so each group keeps the input order. */
  lemma {:induction false} PartitionIsSplit(s: seq<Todo>)
    ensures Partition(s).0 == Select(s, IsActive)
    ensures Partition(s).1 == Select(s, IsDone)
  {
    if s != [] {
      PartitionIsSplit(s[1..]);
    }
  }

  /** Together the two groups hold every task exactly once. */
  lemma {:induction false} PartitionKeepsAll(s: seq<Todo>)
    ensures multiset(Partition(s).0) + multiset(Partition(s).1) == multiset(s)
  {
    if s != [] {
      PartitionKeepsAll(s[1..]);
      assert s == [s[0]] + s[1..];
    }
  }

  /** Kotlin's `Map.filter { it.value.isNotEmpty() }` on the ordered map. */
  function NonEmptyGroups(gs: seq<Group>): (r: seq<Group>)
    ensures forall g :: g in r <==> g in gs && g.todos != []
  {
    if gs == [] then []
    else (if gs[0].todos != [] then [gs[0]] else []) + NonEmptyGroups(gs[1..])
  }

  lemma NonEmptyPair(a: Group, b: Group)
    ensures NonEmptyGroups([a, b]) ==
      (if a.todos != [] then [a] else []) + (if b.todos != [] then [b] else [])
  {
    assert [a, b][1..] == [b];
    assert [b][1..] == [];
    assert NonEmptyGroups([]) == [];
    assert NonEmptyGroups([b]) == (if b.todos != [] then [b] else []) + NonEmptyGroups([]);
    assert NonEmptyGroups([a, b]) == (if a.todos != [] then [a] else []) + NonEmptyGroups([b]);
  }

  /** Only the empty list partitions into two empty groups. */
  lemma PartitionEmpty(s: seq<Todo>)
    ensures s == [] <==> Partition(s).0 == [] && Partition(s).1 == []
  {
  }

  /** `groupedTodos` for one snapshot of the task list and one filter value. */
  function Grouped(todos: seq<Todo>, selected: Option<Category>): (r: seq<Group>)
    ensures forall g :: g in r ==> g.todos != []
    ensures |r| <= 2
    ensures forall i :: 0 <= i < |r| ==> r[i].key == ActiveLabel || r[i].key == CompletedLabel
    ensures |r| == 2 ==> r[0].key == ActiveLabel && r[1].key == CompletedLabel
    ensures r == [] <==> FilterByCategory(todos, selected) == []
  {
    var retained := FilterByCategory(todos, selected);
    var split := Partition(retained);
    var active, done := Group(ActiveLabel, split.0), Group(CompletedLabel, split.1);
    NonEmptyPair(active, done);
    PartitionEmpty(retained);
    NonEmptyGroups([active, done])
  }

  /**
   * What each group holds: "Ativas" the retained unfinished tasks,
   * "Concluídas" the retained finished ones, each in input order, each
   * present exactly when non-empty.
   */
  lemma GroupedContents(todos: seq<Todo>, selected: Option<Category>)
    ensures var retained := FilterByCategory(todos, selected);
      var active := Select(retained, IsActive);
      var done := Select(retained, IsDone);
      Grouped(todos, selected) ==
        (if active == [] then [] else [Group(ActiveLabel, active)]) +
        (if done == [] then [] else [Group(CompletedLabel, done)])
  {
    var retained := FilterByCategory(todos, selected);
    var split := Partition(retained);
    PartitionIsSplit(retained);
    NonEmptyPair(Group(ActiveLabel, split.0), Group(CompletedLabel, split.1));
  }

  /** Together the groups hold exactly the retained tasks, none lost or repeated. */
  lemma GroupedCoversRetained(todos: seq<Todo>, selected: Option<Category>)
    ensures var gs := Grouped(todos, selected);
      multiset(if |gs| == 0 then [] else if |gs| == 1 then gs[0].todos else gs[0].todos + gs[1].todos)
        == multiset(FilterByCategory(todos, selected))
  {
    var retained := FilterByCategory(todos, selected);
    PartitionIsSplit(retained);
    PartitionKeepsAll(retained);
    GroupedContents(todos, selected);
  }

  datatype ListEvent =
    | OnDeleteClick(todo: Todo)
    | OnCompleteChange(todo: Todo, isCompleted: bool)
    | OnItemClick(id: Option<int>)
    | OnAddCategory(name: string, emoji: string)
    | OnCategorySelected(selected: Option<Category>)
    | OnDeleteCategoryConfirm(category: Category)

  /** Toggling completion writes the same full row on every repeat: twice is the same as once. */
  lemma CompleteChangeIdempotent(todos: map<int, TodoEntity>, counter: int, codec: ChecklistCodec, t: Todo, b: bool)
    requires KeyedTable(todos, TodoId, counter)
    requires t.id != 0
    ensures var e := TodoRepository.ToEntity(codec, t.(isCompleted := b));
      var once := UpsertTodo(todos, counter, e);
      UpsertTodo(once.0, once.1, e) == once && once.0[t.id] == e
  {
    UpsertTodoIdempotent(todos, counter, TodoRepository.ToEntity(codec, t.(isCompleted := b)));
  }

  class ListViewModel {
    const db: TodoDatabase
    const codec: ChecklistCodec
    var selectedCategory: Option<Category>
    var groupedTodos: seq<Group>
    var uiEvents: seq<UiEvent>

    /** Before the first emission the grouped map is empty, and no filter is selected. */
    constructor (db: TodoDatabase, codec: ChecklistCodec)
      ensures this.db == db && this.codec == codec
      ensures selectedCategory == None && groupedTodos == [] && uiEvents == []
    {
      this.db := db;
      this.codec := codec;
      selectedCategory := None;
      groupedTodos := [];
      uiEvents := [];
    }

    /**
     * One emission of `groupedTodos`: the derivation applied to the current
     * task list and filter. A fatal read leaves the published state as it was.
     */
    method Emit() returns (err: Option<StoreError>)
      requires db.Valid()
      modifies this`groupedTodos
      ensures match TodoRepository.GetAll(db, codec)
        case Success(ts) => err == None && groupedTodos == Grouped(ts, selectedCategory)
        case Failure(e) => err == Some(e) && groupedTodos == old(groupedTodos)
    {
      match TodoRepository.GetAll(db, codec)
      case Success(ts) =>
        groupedTodos := Grouped(ts, selectedCategory);
        err := None;
      case Failure(e) =>
        err := Some(e);
    }

    method OnEvent(event: ListEvent)
      requires db.Valid()
      modifies this`selectedCategory, this`uiEvents, db
      ensures db.Valid()
      ensures match event
        case OnDeleteClick(t) =>
          db.todos == old(db.todos) - {t.id} && db.todoCounter == old(db.todoCounter) &&
          db.categories == old(db.categories) && db.categoryCounter == old(db.categoryCounter) &&
          selectedCategory == old(selectedCategory) && uiEvents == old(uiEvents)
        case OnCompleteChange(t, b) =>
          (db.todos, db.todoCounter) ==
            UpsertTodo(old(db.todos), old(db.todoCounter), TodoRepository.ToEntity(codec, t.(isCompleted := b))) &&
          db.categories == old(db.categories) && db.categoryCounter == old(db.categoryCounter) &&
          selectedCategory == old(selectedCategory) && uiEvents == old(uiEvents)
        case OnItemClick(id) =>
          unchanged(db) && selectedCategory == old(selectedCategory) &&
          uiEvents == old(uiEvents) + [Navigate(AddEditRoute(id))]
        case OnAddCategory(name, emoji) =>
          (if IsBlank(name) then unchanged(db)
           else
             (db.categories, db.categoryCounter) ==
               UpsertCategory(old(db.categories), old(db.categoryCounter), CategoryEntity(0, name, emoji)) &&
             db.todos == old(db.todos) && db.todoCounter == old(db.todoCounter)) &&
          selectedCategory == old(selectedCategory) && uiEvents == old(uiEvents)
        case OnCategorySelected(c) =>
          unchanged(db) && selectedCategory == c && uiEvents == old(uiEvents)
        case OnDeleteCategoryConfirm(c) =>
          db.categories == old(db.categories) - {c.id} && db.categoryCounter == old(db.categoryCounter) &&
          db.todos == old(db.todos) && db.todoCounter == old(db.todoCounter) &&
          selectedCategory == old(selectedCategory) && uiEvents == old(uiEvents)
    {
      match event
      case OnDeleteClick(t) => Delete(t);
      case OnCompleteChange(t, b) => Update(t.(isCompleted := b));
      case OnItemClick(id) => uiEvents := uiEvents + [Navigate(AddEditRoute(id))];
      case OnAddCategory(name, emoji) => AddCategory(name, emoji);
      case OnCategorySelected(c) => selectedCategory := c;
      case OnDeleteCategoryConfirm(c) => DeleteCategory(c);
    }

    /** Inserts a new category (id 0) only when the name is not blank. */
    method AddCategory(name: string, emoji: string)
      requires db.Valid()
      modifies db
      ensures db.Valid()
      ensures IsBlank(name) ==> unchanged(db)
      ensures !IsBlank(name) ==>
        (db.categories, db.categoryCounter) ==
          UpsertCategory(old(db.categories), old(db.categoryCounter), CategoryEntity(0, name, emoji)) &&
        db.todos == old(db.todos) && db.todoCounter == old(db.todoCounter)
    {
      if !IsBlank(name) {
        var newCategory := Category(id := 0, name := name, emoji := emoji);
        CategoryRepository.Insert(db, newCategory);
      }
    }

    /**
     * Deletes the category only; tasks that name it keep their rows unchanged,
     * so while any such task remains the task list can no longer be read.
     */
    method DeleteCategory(c: Category)
      requires db.Valid()
      modifies db
      ensures db.Valid()
      ensures db.categories == old(db.categories) - {c.id} && db.categoryCounter == old(db.categoryCounter)
      ensures db.todos == old(db.todos) && db.todoCounter == old(db.todoCounter)
      ensures (exists k :: k in db.todos && db.todos[k].categoryId == c.id) ==> GetAllWithCategory(db).Failure?
    {
      CategoryRepository.Delete(db, c);
    }

    method Delete(t: Todo)
      requires db.Valid()
      modifies db
      ensures db.Valid()
      ensures db.todos == old(db.todos) - {t.id} && db.todoCounter == old(db.todoCounter)
      ensures db.categories == old(db.categories) && db.categoryCounter == old(db.categoryCounter)
    {
      TodoRepository.Delete(db, codec, t);
    }

    /** A full-row upsert of the task as given. */
    method Update(t: Todo)
      requires db.Valid()
      modifies db
      ensures db.Valid()
      ensures (db.todos, db.todoCounter) == UpsertTodo(old(db.todos), old(db.todoCounter), TodoRepository.ToEntity(codec, t))
      ensures db.categories == old(db.categories) && db.categoryCounter == old(db.categoryCounter)
    {
      TodoRepository.Insert(db, codec, t);
    }
  }
}
