/**
 * The category table's access object: REPLACE insert, delete by key, and the
 * listing ordered by name.
 */
module CategoryDao {
  import opened Entities
  import opened Storage
  import opened Text

  /** REPLACE insert: the row lands on its key (a fresh one for id 0); every other category stays. */
  method Insert(db: TodoDatabase, e: CategoryEntity)
    requires db.Valid()
    modifies db
    ensures db.Valid()
    ensures (db.categories, db.categoryCounter) == UpsertCategory(old(db.categories), old(db.categoryCounter), e)
    ensures db.todos == old(db.todos) && db.todoCounter == old(db.todoCounter)
  {
    var k := AssignedId(db.categoryCounter, e.id);
    db.categories := db.categories[k := e.(id := k)];
    db.categoryCounter := Bump(db.categoryCounter, k);
  }

  /** Delete by primary key only; the task rows, including those that name this category, stay as they are. */
  method Delete(db: TodoDatabase, e: CategoryEntity)
    requires db.Valid()
    modifies db
    ensures db.Valid()
    ensures db.categories == old(db.categories) - {e.id}
    ensures db.categoryCounter == old(db.categoryCounter)
    ensures db.todos == old(db.todos) && db.todoCounter == old(db.todoCounter)
  {
    db.categories := db.categories - {e.id};
  }

  /** Sorted by name under the BINARY collation; rows with equal names may come in any order. */
  ghost predicate SortedByName(rows: seq<CategoryEntity>) {
    forall i, j :: 0 <= i < j < |rows| ==> NameLe(rows[i].name, rows[j].name)
  }

  /** `rows` holds every stored category exactly once, and nothing else. */
  ghost predicate ListsTable(categories: map<int, CategoryEntity>, rows: seq<CategoryEntity>) {
    (forall e :: e in rows ==> e.id in categories && categories[e.id] == e) &&
    (forall k :: k in categories ==> categories[k] in rows) &&
    (forall i, j :: 0 <= i < j < |rows| ==> rows[i].id != rows[j].id)
  }

  lemma {:induction false} MinByNameExists(categories: map<int, CategoryEntity>, ids: set<int>)
    requires ids != {} && ids <= categories.Keys
    ensures exists m :: m in ids && forall k :: k in ids ==> NameLe(categories[m].name, categories[k].name)
    decreases |ids|
  {
    if forall k :: k !in ids { assert false; }
    var x :| x in ids;
    var rest := ids - {x};
    NameLeTotal(categories[x].name, categories[x].name);
    if rest == {} {
      assert ids == {x};
    } else {
      MinByNameExists(categories, rest);
      var m :| m in rest && forall k :: k in rest ==> NameLe(categories[m].name, categories[k].name);
      NameLeTotal(categories[x].name, categories[m].name);
      if NameLe(categories[x].name, categories[m].name) {
        forall k | k in ids ensures NameLe(categories[x].name, categories[k].name) {
          if k != x {
            NameLeTransitive(categories[x].name, categories[m].name, categories[k].name);
          }
        }
      } else {
        assert forall k :: k in ids ==> k == x || k in rest;
      }
    }
  }

  /**
   * Loop invariant of the listing: `rows` holds, once each, exactly the
   * stored categories whose ids are no longer pending.
   */
  ghost predicate ListedSoFar(cats: map<int, CategoryEntity>, pending: set<int>, rows: seq<CategoryEntity>) {
    pending <= cats.Keys &&
    (forall i :: 0 <= i < |rows| ==> rows[i].id in cats && cats[rows[i].id] == rows[i] && rows[i].id !in pending) &&
    (forall k :: k in cats && k !in pending ==> cats[k] in rows) &&
    (forall i, j :: 0 <= i < j < |rows| ==> rows[i].id != rows[j].id)
  }

  /** Loop invariant of the ordering: `rows` is sorted and no name in it is above a pending one. */
  ghost predicate SortedBelow(cats: map<int, CategoryEntity>, pending: set<int>, rows: seq<CategoryEntity>)
    requires pending <= cats.Keys
  {
    SortedByName(rows) &&
    forall i, k :: 0 <= i < |rows| && k in pending ==> NameLe(rows[i].name, cats[k].name)
  }

  lemma AppendKeepsListed(cats: map<int, CategoryEntity>, pending: set<int>, rows: seq<CategoryEntity>, m: int)
    requires forall k :: k in cats ==> cats[k].id == k
    requires ListedSoFar(cats, pending, rows) && m in pending
    ensures ListedSoFar(cats, pending - {m}, rows + [cats[m]])
  {
    var next := rows + [cats[m]];
    forall i | 0 <= i < |next|
      ensures next[i].id in cats && cats[next[i].id] == next[i] && next[i].id !in pending - {m}
    {
      if i < |rows| { assert next[i] == rows[i]; }
    }
    forall k | k in cats && k !in pending - {m} ensures cats[k] in next {
      if k != m { assert cats[k] in rows; }
      else { assert next[|rows|] == cats[k]; }
    }
    forall i, j | 0 <= i < j < |next| ensures next[i].id != next[j].id {
      if j < |rows| { assert next[i] == rows[i] && next[j] == rows[j]; }
      else { assert next[i] == rows[i]; }
    }
  }

  lemma AppendMinKeepsSorted(cats: map<int, CategoryEntity>, pending: set<int>, rows: seq<CategoryEntity>, m: int)
    requires pending <= cats.Keys && m in pending
    requires forall k :: k in pending ==> NameLe(cats[m].name, cats[k].name)
    requires SortedBelow(cats, pending, rows)
    ensures SortedBelow(cats, pending - {m}, rows + [cats[m]])
  {
    var next := rows + [cats[m]];
    forall i, j | 0 <= i < j < |next| ensures NameLe(next[i].name, next[j].name) {
      if j == |rows| {
        assert next[i] == rows[i];
      } else {
        assert next[i] == rows[i] && next[j] == rows[j];
      }
    }
    forall i, k | 0 <= i < |next| && k in pending - {m} ensures NameLe(next[i].name, cats[k].name) {
      if i < |rows| { assert next[i] == rows[i]; }
    }
  }

  /** `getAll`: every category row once, ordered by name ascending. */
  method GetAll(db: TodoDatabase) returns (rows: seq<CategoryEntity>)
    requires db.Valid()
    ensures SortedByName(rows)
    ensures ListsTable(db.categories, rows)
  {
    var cats := db.categories;
    var pending := cats.Keys;
    rows := [];
    while pending != {}
      invariant ListedSoFar(cats, pending, rows)
      invariant SortedBelow(cats, pending, rows)
      decreases |pending|
    {
      MinByNameExists(cats, pending);
      var m :| m in pending && forall k :: k in pending ==> NameLe(cats[m].name, cats[k].name);
      AppendKeepsListed(cats, pending, rows, m);
      AppendMinKeepsSorted(cats, pending, rows, m);
      rows := rows + [cats[m]];
      pending := pending - {m};
    }
    forall e | e in rows ensures e.id in cats && cats[e.id] == e {
      var i :| 0 <= i < |rows| && rows[i] == e;
    }
  }
}
