/** The `categories` collection (src/repositories/CategoryRepository.ts) as an
    in-memory sequence in insertion order, with the unique index on `name` enforced. */
module CategoryRepository {
  import opened Wrappers
  import opened Models

  datatype CategoryStore = CategoryStore(categories: seq<Category>)

  /** Outcome of an ordered `insertMany`: the store afterwards, how many documents
      went in, and the error that stopped it, if any. */
  datatype InsertManyResult = InsertManyResult(store: CategoryStore, inserted: nat, error: Option<string>)

  /** Error raised by the unique `name` index. */
  const DUPLICATE_NAME: string := "E11000 duplicate key error (index: name_1)"

  predicate NamesDistinct(cs: seq<Category>) {
    forall i, j :: 0 <= i < j < |cs| ==> cs[i].name != cs[j].name
  }

  /** The store invariant the unique name index maintains. */
  predicate Valid(s: CategoryStore) {
    NamesDistinct(s.categories)
  }

  predicate HasName(s: CategoryStore, name: string) {
    exists i :: 0 <= i < |s.categories| && s.categories[i].name == name
  }

  /** `count()`. */
  function Count(s: CategoryStore): nat {
    |s.categories|
  }

  /** `findByName(name)`: the first stored category with that name, or null. */
  function FindByName(s: CategoryStore, name: string): (r: Option<Category>)
    ensures r.Some? <==> HasName(s, name)
    ensures r.Some? ==> r.value in s.categories && r.value.name == name
  {
    FindNameFrom(s.categories, name)
  }

  function FindNameFrom(cs: seq<Category>, name: string): (r: Option<Category>)
    ensures r.Some? <==> exists i :: 0 <= i < |cs| && cs[i].name == name
    ensures r.Some? ==> r.value in cs && r.value.name == name
    decreases |cs|
  {
    if |cs| == 0 then None
    else if cs[0].name == name then Some(cs[0])
    else
      var r := FindNameFrom(cs[1..], name);
      assert forall i :: 1 <= i < |cs| ==> cs[i] == cs[1..][i - 1];
      r
  }

  /** `insertMany(items)` with the driver's default ordered semantics: documents go in
      one by one and the first duplicate name stops the batch, earlier ones staying. */
  function InsertMany(s: CategoryStore, items: seq<Category>): (r: InsertManyResult)
    ensures r.inserted <= |items|
    ensures r.store.categories == s.categories + items[..r.inserted]
    ensures r.error.None? <==> r.inserted == |items|
    ensures r.error.Some? ==> r.error.value == DUPLICATE_NAME && HasName(r.store, items[r.inserted].name)
    ensures Valid(s) ==> Valid(r.store)
    decreases |items|
  {
    if |items| == 0 then InsertManyResult(s, 0, None)
    else if HasName(s, items[0].name) then InsertManyResult(s, 0, Some(DUPLICATE_NAME))
    else
      var s' := CategoryStore(s.categories + [items[0]]);
      var rest := InsertMany(s', items[1..]);
      assert items[..rest.inserted + 1] == [items[0]] + items[1..][..rest.inserted];
      InsertManyResult(rest.store, rest.inserted + 1, rest.error)
  }

  /** `seedCategories(items)`: insert the whole list into an empty store, otherwise
      leave the store alone. */
  function SeedCategories(s: CategoryStore, items: seq<Category>): (r: InsertManyResult)
    ensures Count(s) > 0 ==> r == InsertManyResult(s, 0, None)
    ensures Count(s) == 0 && NamesDistinct(items) ==> r == InsertManyResult(CategoryStore(items), |items|, None)
    ensures Valid(s) ==> Valid(r.store)
  {
    if Count(s) == 0 then
      SeedDistinct(items);
      InsertMany(s, items)
    else InsertManyResult(s, 0, None)
  }

  /** Distinctly named items all go into an empty store. */
  lemma SeedDistinct(items: seq<Category>)
    ensures NamesDistinct(items) ==>
            InsertMany(CategoryStore([]), items) == InsertManyResult(CategoryStore(items), |items|, None)
  {
    var r := InsertMany(CategoryStore([]), items);
    if NamesDistinct(items) && r.error.Some? {
      assert false;
    }
    assert items[..|items|] == items;
  }

  /** After seeding an empty store with distinctly named items, `count()` is their number. */
  lemma SeedCount(s: CategoryStore, items: seq<Category>)
    requires Count(s) == 0 && NamesDistinct(items)
    ensures Count(SeedCategories(s, items).store) == |items|
  {
  }

  /** Seeding twice leaves the store as seeding once does. */
  lemma SeedIdempotent(s: CategoryStore, items: seq<Category>)
    ensures SeedCategories(SeedCategories(s, items).store, items).store == SeedCategories(s, items).store
  {
    var once := SeedCategories(s, items);
    if Count(s) == 0 && |items| > 0 {
      assert !HasName(s, items[0].name);
      assert once == InsertMany(s, items);
      assert once.inserted > 0;
    }
  }

  /** `getRandom()`: the `$sample` stage picks one stored document; `pick` stands for
      the database's random choice. Null exactly when the store is empty. */
  function GetRandom(s: CategoryStore, pick: nat): (r: Option<Category>)
    ensures r.None? <==> Count(s) == 0
    ensures r.Some? ==> r.value in s.categories
  {
    if |s.categories| == 0 then None else Some(s.categories[pick % |s.categories|])
  }

  /** Every stored category can be the one `getRandom()` returns. */
  lemma GetRandomReachesAll(s: CategoryStore, i: nat)
    requires i < Count(s)
    ensures GetRandom(s, i) == Some(s.categories[i])
  {
  }
}
