/**
 * The add/edit screen's form: fields set by events, index-based checklist
 * edits, loading a stored task into the form, and the validated save.
 */
module AddEditViewModel {
  import opened Wrappers
  import opened Domain
  import opened Entities
  import opened Storage
  import opened Text
  import opened TodoDao
  import TodoRepository
  import CategoryRepository

  const RequiredMessage: string := "Título e Categoria são obrigatórios."

  /** `checklist + ChecklistItem("", false)`: one empty unchecked item appended. */
  function AppendItem(items: seq<ChecklistItem>): (r: seq<ChecklistItem>)
    ensures |r| == |items| + 1 && r[..|items|] == items
    ensures r[|items|] == ChecklistItem("", false)
  {
    items + [ChecklistItem("", false)]
  }

  /** `removeAt(i)`: item i dropped, the others kept in their order. */
  function RemoveAt(items: seq<ChecklistItem>, i: int): (r: seq<ChecklistItem>)
    requires 0 <= i < |items|
    ensures |r| == |items| - 1
    ensures forall j :: 0 <= j < i ==> r[j] == items[j]
    ensures forall j :: i <= j < |r| ==> r[j] == items[j + 1]
    ensures multiset(r) + multiset{items[i]} == multiset(items)
  {
    assert items == items[..i] + [items[i]] + items[i + 1..];
    items[..i] + items[i + 1..]
  }

  /** `it[i] = it[i].copy(text = text)`: only item i's text changes. */
  function SetText(items: seq<ChecklistItem>, i: int, text: string): (r: seq<ChecklistItem>)
    requires 0 <= i < |items|
    ensures |r| == |items|
    ensures r[i].text == text && r[i].isChecked == items[i].isChecked
    ensures forall j :: 0 <= j < |items| && j != i ==> r[j] == items[j]
  {
    items[i := items[i].(text := text)]
  }

  /** `it[i] = it[i].copy(isChecked = checked)`: only item i's flag changes. */
  function SetChecked(items: seq<ChecklistItem>, i: int, checked: bool): (r: seq<ChecklistItem>)
    requires 0 <= i < |items|
    ensures |r| == |items|
    ensures r[i].isChecked == checked && r[i].text == items[i].text
    ensures forall j :: 0 <= j < |items| && j != i ==> r[j] == items[j]
  {
    items[i := items[i].(isChecked := checked)]
  }

  /** The save guard: a non-blank title and a selected category. */
  function CanSave(title: string, selected: Option<Category>): (ok: bool)
    ensures ok <==> selected.Some? && exists i :: 0 <= i < |title| && !IsWhitespace(title[i])
  {
    !IsBlank(title) && selected.Some?
  }

  /**
   * The completion flag a save keeps: the stored task's when editing a task
   * that exists, false for a new task or one no longer stored.
   */
  function StoredCompletion(db: TodoDatabase, codec: ChecklistCodec, todoId: Option<int>): (r: Result<bool, StoreError>)
    requires db.Valid()
    reads db
    ensures todoId.None? ==> r == Success(false)
    ensures todoId.Some? && todoId.value !in db.todos ==> r == Success(false)
    ensures r.Success? && todoId.Some? && todoId.value in db.todos ==>
      r.value == db.todos[todoId.value].isCompleted
    ensures r.Failure? ==> todoId.Some? && TodoRepository.GetById(db, codec, todoId.value).Failure?
    ensures todoId.Some? && TodoRepository.GetById(db, codec, todoId.value).Failure? ==>
      r == Failure(TodoRepository.GetById(db, codec, todoId.value).error)
  {
    match todoId
    case None => Success(false)
    case Some(id) =>
      match TodoRepository.GetById(db, codec, id)
      case Failure(e) => Failure(e)
      case Success(found) => Success(if found.Some? then found.value.isCompleted else false)
  }

  /**
   * The task a save writes: id `todoId ?: 0`, a blank description stored as
   * absent, the form's other fields, and the completion flag it keeps.
   */
  function TodoToSave(todoId: Option<int>, title: string, description: string, priority: Priority,
                      category: Category, checklist: seq<ChecklistItem>, isCompleted: bool): (t: Todo)
    ensures t.id == (if todoId.Some? then todoId.value else 0)
    ensures t.description.None? <==> IsBlank(description)
    ensures t.description.Some? ==> t.description.value == description
    ensures t.title == title && t.priority == priority && t.category == category
    ensures t.checklist == checklist && t.isCompleted == isCompleted
  {
    Todo(
      id := todoId.GetOr(0),
      title := title,
      description := if IsBlank(description) then None else Some(description),
      isCompleted := isCompleted,
      priority := priority,
      category := category,
      checklist := checklist)
  }

  /** Loading then saving an unedited task writes back the task as it was read, when its description is not blank. */
  lemma LoadSaveRoundTrip(t: Todo)
    requires t.description.None? || !IsBlank(t.description.value)
    ensures TodoToSave(Some(t.id), t.title, t.description.GetOr(""), t.priority, t.category,
                       t.checklist, t.isCompleted) == t
  {
    if t.description.None? {
      assert IsBlank("");
    }
  }

  datatype AddEditEvent =
    | TitleChanged(title: string)
    | DescriptionChanged(description: string)
    | CategoryChanged(category: Category)
    | PriorityChanged(priority: Priority)
    | ChecklistItemTextChanged(index: int, text: string)
    | ChecklistItemCheckedChanged(index: int, isChecked: bool)
    | AddChecklistItem
    | DeleteChecklistItem(index: int)
    | Save

  /** The checklist indices the screen passes are those of items it shows. */
  predicate IndexInRange(event: AddEditEvent, items: seq<ChecklistItem>) {
    match event
    case ChecklistItemTextChanged(i, _) => 0 <= i < |items|
    case ChecklistItemCheckedChanged(i, _) => 0 <= i < |items|
    case DeleteChecklistItem(i) => 0 <= i < |items|
    case _ => true
  }

  class AddEditViewModel {
    const db: TodoDatabase
    const codec: ChecklistCodec
    const todoId: Option<int>
    var title: string
    var description: string
    var priority: Priority
    var checklist: seq<ChecklistItem>
    var categories: seq<Category>
    var selectedCategory: Option<Category>
    var uiEvents: seq<UiEvent>

    /** The form's initial state: empty text, priority BAIXA, no items, no categories, none selected. */
    constructor (db: TodoDatabase, codec: ChecklistCodec, todoId: Option<int>)
      ensures this.db == db && this.codec == codec && this.todoId == todoId
      ensures title == "" && description == "" && priority == Baixa && checklist == []
      ensures categories == [] && selectedCategory == None && uiEvents == []
    {
      this.db := db;
      this.codec := codec;
      this.todoId := todoId;
      title, description, priority := "", "", Baixa;
      checklist, categories, selectedCategory := [], [], None;
      uiEvents := [];
    }

    /**
     * `loadInitialData`: the category list is read first; then a new task's
     * form selects the first category (by name), and an edited task's form is
     * filled from the stored task when it is found.
     */
    method LoadInitialData() returns (err: Option<StoreError>)
      requires db.Valid()
      modifies this`title, this`description, this`priority, this`checklist, this`categories, this`selectedCategory
      ensures CategoryRepository.IsListing(db.categories, categories)
      ensures todoId.None? ==> selectedCategory == (if categories == [] then None else Some(categories[0]))
      ensures todoId.None? ==>
        err == None &&
        title == old(title) && description == old(description) && priority == old(priority) &&
        checklist == old(checklist) &&
        (selectedCategory.None? <==> db.categories == map[]) &&
        (selectedCategory.Some? ==>
          selectedCategory.value.id in db.categories &&
          forall k :: k in db.categories ==> NameLe(selectedCategory.value.name, db.categories[k].name))
      ensures todoId.Some? ==> Filled(TodoRepository.GetById(db, codec, todoId.value), err, old(title),
                                      old(description), old(priority), old(selectedCategory), old(checklist))
    {
      categories := CategoryRepository.GetAll(db);
      if todoId.Some? {
        err := FillFromStore(todoId.value);
      } else {
        CategoryRepository.FirstIsLeast(db.categories, categories);
        selectedCategory := if categories == [] then None else Some(categories[0]);
        err := None;
      }
    }

    /**
     * The form after loading the edited task from `found`: the task's fields
     * when it was found, the form as it was (`title0` ...) otherwise.
     */
    ghost predicate Filled(found: Result<Option<Todo>, StoreError>, err: Option<StoreError>,
                           title0: string, description0: string, priority0: Priority,
                           selected0: Option<Category>, checklist0: seq<ChecklistItem>)
      reads this
    {
      match found
      case Success(Some(t)) =>
        err == None && title == t.title && description == t.description.GetOr("") &&
        priority == t.priority && selectedCategory == Some(t.category) && checklist == t.checklist
      case Success(None) =>
        err == None && title == title0 && description == description0 &&
        priority == priority0 && selectedCategory == selected0 && checklist == checklist0
      case Failure(e) =>
        err == Some(e) && title == title0 && description == description0 &&
        priority == priority0 && selectedCategory == selected0 && checklist == checklist0
    }

    /** The editing branch of `loadInitialData`: copy the stored task into the form if there is one. */
    method FillFromStore(id: int) returns (err: Option<StoreError>)
      requires db.Valid()
      modifies this`title, this`description, this`priority, this`checklist, this`selectedCategory
      ensures Filled(TodoRepository.GetById(db, codec, id), err, old(title), old(description), old(priority),
                     old(selectedCategory), old(checklist))
    {
      err := None;
      match TodoRepository.GetById(db, codec, id) {
        case Success(Some(t)) =>
          title := t.title;
          description := t.description.GetOr("");
          priority := t.priority;
          selectedCategory := Some(t.category);
          checklist := t.checklist;
        case Success(None) =>
        case Failure(e) =>
          err := Some(e);
      }
    }

    /** `saveTodo`: the validation gate, then the upsert and PopBack. */
    method SaveTodo() returns (err: Option<StoreError>)
      requires db.Valid()
      modifies this`uiEvents, db
      ensures db.Valid()
      ensures !CanSave(title, selectedCategory) ==>
        err == None && unchanged(db) && uiEvents == old(uiEvents) + [ShowSnackbar(RequiredMessage)]
      ensures CanSave(title, selectedCategory) ==>
        match old(StoredCompletion(db, codec, todoId))
        case Failure(e) =>
          err == Some(e) && unchanged(db) && uiEvents == old(uiEvents)
        case Success(isCompleted) =>
          var saved := TodoToSave(todoId, title, description, priority, selectedCategory.value, checklist, isCompleted);
          err == None &&
          (db.todos, db.todoCounter) ==
            UpsertTodo(old(db.todos), old(db.todoCounter), TodoRepository.ToEntity(codec, saved)) &&
          db.categories == old(db.categories) && db.categoryCounter == old(db.categoryCounter) &&
          uiEvents == old(uiEvents) + [PopBack]
    {
      if !CanSave(title, selectedCategory) {
        uiEvents := uiEvents + [ShowSnackbar(RequiredMessage)];
        return None;
      }
      match StoredCompletion(db, codec, todoId)
      case Failure(e) =>
        err := Some(e);
      case Success(isCompleted) =>
        var todoToSave := TodoToSave(todoId, title, description, priority, selectedCategory.value, checklist, isCompleted);
        TodoRepository.Insert(db, codec, todoToSave);
        uiEvents := uiEvents + [PopBack];
        err := None;
    }

    method OnEvent(event: AddEditEvent) returns (err: Option<StoreError>)
      requires db.Valid()
      requires IndexInRange(event, checklist)
      modifies this`title, this`description, this`priority, this`checklist, this`selectedCategory, this`uiEvents, db
      ensures db.Valid()
      ensures categories == old(categories)
      ensures !event.Save? ==> err == None && unchanged(db) && uiEvents == old(uiEvents)
      ensures event.TitleChanged? || event.DescriptionChanged? || event.CategoryChanged? || event.PriorityChanged? ==>
        checklist == old(checklist) &&
        title == (if event.TitleChanged? then event.title else old(title)) &&
        description == (if event.DescriptionChanged? then event.description else old(description)) &&
        selectedCategory == (if event.CategoryChanged? then Some(event.category) else old(selectedCategory)) &&
        priority == (if event.PriorityChanged? then event.priority else old(priority))
      ensures !(event.TitleChanged? || event.DescriptionChanged? || event.CategoryChanged? || event.PriorityChanged?) ==>
        title == old(title) && description == old(description) &&
        selectedCategory == old(selectedCategory) && priority == old(priority)
      ensures match event
        case AddChecklistItem => checklist == AppendItem(old(checklist))
        case DeleteChecklistItem(i) => checklist == RemoveAt(old(checklist), i)
        case ChecklistItemTextChanged(i, text) => checklist == SetText(old(checklist), i, text)
        case ChecklistItemCheckedChanged(i, b) => checklist == SetChecked(old(checklist), i, b)
        case _ => checklist == old(checklist)
      ensures event.Save? ==>
        (!CanSave(title, selectedCategory) ==>
          err == None && unchanged(db) && uiEvents == old(uiEvents) + [ShowSnackbar(RequiredMessage)]) &&
        (CanSave(title, selectedCategory) ==>
          match old(StoredCompletion(db, codec, todoId))
          case Failure(e) => err == Some(e) && unchanged(db) && uiEvents == old(uiEvents)
          case Success(isCompleted) =>
            err == None &&
            (db.todos, db.todoCounter) ==
              UpsertTodo(old(db.todos), old(db.todoCounter),
                TodoRepository.ToEntity(codec, TodoToSave(todoId, title, description, priority,
                                                          selectedCategory.value, checklist, isCompleted))) &&
            db.categories == old(db.categories) && db.categoryCounter == old(db.categoryCounter) &&
            uiEvents == old(uiEvents) + [PopBack])
    {
      err := None;
      match event
      case TitleChanged(t) => title := t;
      case DescriptionChanged(d) => description := d;
      case CategoryChanged(c) => selectedCategory := Some(c);
      case PriorityChanged(p) => priority := p;
      case AddChecklistItem => checklist := AppendItem(checklist);
      case DeleteChecklistItem(i) => checklist := RemoveAt(checklist, i);
      case ChecklistItemTextChanged(i, text) => checklist := SetText(checklist, i, text);
      case ChecklistItemCheckedChanged(i, b) => checklist := SetChecked(checklist, i, b);
      case Save => err := SaveTodo();
    }
  }
}
