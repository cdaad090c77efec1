/** The server's persistent state: the `clothing_items` and `categories`
    tables keyed by id, and the public disk as the set of stored paths. */
module Database {
  import opened Wrappers
  import opened Records

  /** Every item's image path names a file on the disk. */
  predicate ImagesOnDisk(items: map<nat, Item>, disk: set<string>)
  {
    forall id :: id in items && items[id].imagePath.Some? ==> items[id].imagePath.value in disk
  }

  /** No two items share an image file, so deleting one item's file never
      takes away another's. */
  predicate ImagesDistinct(items: map<nat, Item>)
  {
    forall a, b :: a in items && b in items && a != b && items[a].imagePath.Some? ==>
      items[a].imagePath != items[b].imagePath
  }

  /** Every item belongs to a category that exists. */
  predicate CategoriesExist(items: map<nat, Item>, categories: map<nat, Category>)
  {
    forall id :: id in items ==> items[id].categoryId in categories
  }

  /** Category names are unique (the `unique:categories` rule). */
  predicate NamesUnique(categories: map<nat, Category>)
  {
    forall a, b :: a in categories && b in categories && a != b ==> categories[a].name != categories[b].name
  }

  /** Every row carries its own key as id, below the next id to hand out. */
  predicate ItemKeys(items: map<nat, Item>, nextId: nat)
  {
    forall id :: id in items ==> items[id].id == id && id < nextId
  }

  predicate CategoryKeys(categories: map<nat, Category>, nextId: nat)
  {
    forall id :: id in categories ==> categories[id].id == id && id < nextId
  }

  /** Rewriting one row in place, with its id kept and its category an
      existing one, keeps the key and category invariants. */
  lemma RewriteRowKeepsKeys(items: map<nat, Item>, categories: map<nat, Category>, nextId: nat, id: nat, row: Item)
    requires ItemKeys(items, nextId) && CategoriesExist(items, categories)
    requires id in items && row.id == id && row.categoryId in categories
    ensures ItemKeys(items[id := row], nextId) && CategoriesExist(items[id := row], categories)
  {
  }

  /** Rewriting one row keeps every image path on the disk and no two items
      sharing a file, when the row keeps its image, or when it takes a file
      new to the disk and its old file is deleted. */
  lemma RewriteRowKeepsImages(items: map<nat, Item>, disk: set<string>, id: nat, row: Item, disk': set<string>)
    requires ImagesOnDisk(items, disk) && ImagesDistinct(items) && id in items
    requires || (row.imagePath == items[id].imagePath && disk' == disk)
             || (row.imagePath.Some? && row.imagePath.value !in disk
                 && disk' == disk - PathOf(items[id].imagePath) + {row.imagePath.value})
    ensures ImagesOnDisk(items[id := row], disk') && ImagesDistinct(items[id := row])
  {
    var items' := items[id := row];
    forall a | a in items' && items'[a].imagePath.Some?
      ensures items'[a].imagePath.value in disk'
    {
      if a != id {
        assert items[a].imagePath != items[id].imagePath;
      }
    }
  }

  class Db {
    var items: map<nat, Item>
    var categories: map<nat, Category>
    var disk: set<string>
    var nextItemId: nat
    var nextCategoryId: nat

    ghost predicate Valid()
      reads this
    {
      && ItemKeys(items, nextItemId)
      && CategoryKeys(categories, nextCategoryId)
      && CategoriesExist(items, categories)
      && NamesUnique(categories)
      && ImagesOnDisk(items, disk)
      && ImagesDistinct(items)
    }

    /** An empty database with an empty disk. */
    constructor ()
      ensures Valid()
      ensures items == map[] && categories == map[] && disk == {}
      ensures nextItemId == 1 && nextCategoryId == 1
    {
      items, categories, disk := map[], map[], {};
      nextItemId, nextCategoryId := 1, 1;
    }
  }
}
