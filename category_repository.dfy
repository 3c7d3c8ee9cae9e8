/**
 * The category repository: field-by-field conversion between category rows
 * and domain categories, forwarding reads and writes to the category table.
 */
module CategoryRepository {
  import opened Domain
  import opened Entities
  import opened Storage
  import opened Text
  import CategoryDao

  /** The row written for a category: the same id, name and emoji. */
  function ToEntity(c: Category): (e: CategoryEntity)
    ensures e.id == c.id && e.name == c.name && e.emoji == c.emoji
  {
    CategoryEntity(c.id, c.name, c.emoji)
  }

  /** The category read from a row: the same id, name and emoji. */
  function ToDomain(e: CategoryEntity): (c: Category)
    ensures c.id == e.id && c.name == e.name && c.emoji == e.emoji
  {
    Category(e.id, e.name, e.emoji)
  }

  /** The two conversions are inverse to each other. */
  lemma ConversionRoundTrip(c: Category, e: CategoryEntity)
    ensures ToDomain(ToEntity(c)) == c
    ensures ToEntity(ToDomain(e)) == e
  {
  }

  /** Each row converted independently, keeping length and order. */
  function ToDomainAll(rows: seq<CategoryEntity>): (cs: seq<Category>)
    ensures |cs| == |rows|
    ensures forall i :: 0 <= i < |rows| ==> cs[i] == ToDomain(rows[i])
  {
    seq(|rows|, i requires 0 <= i < |rows| => ToDomain(rows[i]))
  }

  /** `cs` lists every stored category once, sorted by name, each equal to its row. */
  ghost predicate IsListing(categories: map<int, CategoryEntity>, cs: seq<Category>) {
    (forall i, j :: 0 <= i < j < |cs| ==> NameLe(cs[i].name, cs[j].name) && cs[i].id != cs[j].id) &&
    (forall c :: c in cs ==> c.id in categories && categories[c.id] == ToEntity(c)) &&
    (forall k :: k in categories ==> ToDomain(categories[k]) in cs)
  }

  /** The head of a listing is the stored category with the least name; the listing is empty only for an empty table. */
  lemma FirstIsLeast(categories: map<int, CategoryEntity>, cs: seq<Category>)
    requires IsListing(categories, cs)
    ensures cs == [] <==> categories == map[]
    ensures cs != [] ==>
      cs[0].id in categories &&
      forall k :: k in categories ==> NameLe(cs[0].name, categories[k].name)
  {
    if cs == [] {
      // every stored category would have to appear in the listing, which holds none
      assert forall c: Category :: c !in cs;
      assert forall k :: k !in categories;
      assert categories == map[];
    } else {
      assert cs[0] in cs;
      forall k | k in categories ensures NameLe(cs[0].name, categories[k].name) {
        var c := ToDomain(categories[k]);
        var j :| 0 <= j < |cs| && cs[j] == c;
        if j == 0 {
          NameLeTotal(c.name, c.name);
        }
      }
    }
  }

  /** `getAll`: every stored category once, sorted by name, each equal to its row. */
  method GetAll(db: TodoDatabase) returns (cs: seq<Category>)
    requires db.Valid()
    ensures IsListing(db.categories, cs)
  {
    var rows := CategoryDao.GetAll(db);
    cs := ToDomainAll(rows);
    forall k | k in db.categories ensures ToDomain(db.categories[k]) in cs {
      var i :| 0 <= i < |rows| && rows[i] == db.categories[k];
      assert cs[i] == ToDomain(db.categories[k]);
    }
    forall c | c in cs ensures c.id in db.categories && db.categories[c.id] == ToEntity(c) {
      var i :| 0 <= i < |cs| && cs[i] == c;
      assert rows[i] in rows;
    }
  }

  /** `insert`: the category's row is written by REPLACE insert. */
  method Insert(db: TodoDatabase, c: Category)
    requires db.Valid()
    modifies db
    ensures db.Valid()
    ensures (db.categories, db.categoryCounter) == UpsertCategory(old(db.categories), old(db.categoryCounter), ToEntity(c))
    ensures db.todos == old(db.todos) && db.todoCounter == old(db.todoCounter)
  {
    CategoryDao.Insert(db, ToEntity(c));
  }

  /** `delete`: the row keyed by the category's id is removed; nothing else changes. */
  method Delete(db: TodoDatabase, c: Category)
    requires db.Valid()
    modifies db
    ensures db.Valid()
    ensures db.categories == old(db.categories) - {c.id}
    ensures db.categoryCounter == old(db.categoryCounter)
    ensures db.todos == old(db.todos) && db.todoCounter == old(db.todoCounter)
  {
    CategoryDao.Delete(db, ToEntity(c));
  }

  /** A category inserted with a non-zero id is listed afterwards exactly as it was inserted. */
  method InsertThenList(db: TodoDatabase, c: Category) returns (cs: seq<Category>)
    requires db.Valid()
    requires c.id != 0
    modifies db
    ensures db.Valid()
    ensures c in cs
  {
    Insert(db, c);
    cs := GetAll(db);
    assert db.categories[c.id] == ToEntity(c);
    assert ToDomain(db.categories[c.id]) in cs;
    ConversionRoundTrip(c, ToEntity(c));
  }
}
