/** `CategoryController`: categories are shared by all users. Names are
    unique, the listing can be searched, a category shows only the caller's
    own items, and a category that still has items cannot be deleted. */
module CategoryController {
  import opened Wrappers
  import opened Records
  import opened Text
  import opened Rules
  import opened Database
  import Http

  datatype CategoryRequest = CategoryRequest(
    name: Field<string>,
    description: Field<string>,
    icon: Field<string>,
    color: Field<string>)

  /** A listed category with its `clothing_items_count`. */
  datatype CountedCategory = CountedCategory(category: Category, itemCount: nat)

  /** The items filed under category `id`, whoever owns them. */
  function ItemsIn(items: map<nat, Item>, id: nat): (r: set<nat>)
    ensures forall i :: i in r <==> i in items && items[i].categoryId == id
  {
    set i | i in items && items[i].categoryId == id
  }

  predicate MatchesSearch(search: Field<string>, c: Category)
  {
    search.Absent? ||
      var t := if search.Given? then search.value else "";
      Contains(c.name, t) || ColumnContains(c.description, t)
  }

  /** `index`: the categories the search admits, each with its item count.
      The query has no ORDER BY, so the rows are given keyed by id. */
  function Index(categories: map<nat, Category>, items: map<nat, Item>, search: Field<string>)
    : (r: map<nat, CountedCategory>)
    ensures forall id :: id in r <==> id in categories && MatchesSearch(search, categories[id])
    ensures forall id :: id in r ==>
      r[id].category == categories[id] && r[id].itemCount == |ItemsIn(items, id)|
  {
    map id | id in categories && MatchesSearch(search, categories[id]) ::
      CountedCategory(categories[id], |ItemsIn(items, id)|)
  }

  /** With a search term, a category is listed exactly when the term occurs in
      its name or in its description. */
  lemma SearchByNameOrDescription(categories: map<nat, Category>, items: map<nat, Item>, t: string, id: nat)
    requires id in categories
    ensures id in Index(categories, items, Given(t)) <==>
      Contains(categories[id].name, t) || ColumnContains(categories[id].description, t)
  {
  }

  /** `show`: the category with only the caller's items of that category. */
  function Show(categories: map<nat, Category>, items: map<nat, Item>, caller: nat, id: nat)
    : (r: Option<(Category, map<nat, Item>)>)
    ensures r.None? <==> id !in categories
    ensures r.Some? ==> r.value.0 == categories[id]
    ensures r.Some? ==> forall i :: i in r.value.1 <==>
      i in items && items[i].categoryId == id && items[i].userId == caller
    ensures r.Some? ==> forall i :: i in r.value.1 ==> r.value.1[i] == items[i]
  {
    if id !in categories then None
    else Some((categories[id], map i | i in items && items[i].categoryId == id && items[i].userId == caller :: items[i]))
  }

  /** Some category other than `except` already has this name. */
  predicate NameTaken(categories: map<nat, Category>, name: string, except: Option<nat>)
  {
    exists id :: id in categories && categories[id].name == name && Some(id) != except
  }

  /** The rules on description, icon and color, shared by store and update. */
  function OptionalFieldErrors(req: CategoryRequest): (r: set<string>)
    ensures "description" !in r <==> !req.description.Given? || |req.description.value| <= 255
    ensures "icon" !in r <==> !req.icon.Given? || |req.icon.value| <= 30
    ensures "color" !in r <==> !req.color.Given? || |req.color.value| <= 20
    ensures r <= {"description", "icon", "color"}
  {
    (if NullableString(req.description, 255) then {} else {"description"})
    + (if NullableString(req.icon, 30) then {} else {"icon"})
    + (if NullableString(req.color, 20) then {} else {"color"})
  }

  /** The fields whose `store` rule fails. */
  function CreateErrors(req: CategoryRequest, categories: map<nat, Category>): (r: set<string>)
    ensures r == {} <==>
      && req.name.Given? && !IsBlank(req.name.value) && |req.name.value| <= 50
      && !NameTaken(categories, req.name.value, None)
      && (req.description.Given? ==> |req.description.value| <= 255)
      && (req.icon.Given? ==> |req.icon.value| <= 30)
      && (req.color.Given? ==> |req.color.value| <= 20)
    ensures "name" !in r <==>
      && req.name.Given? && !IsBlank(req.name.value) && |req.name.value| <= 50
      && !NameTaken(categories, req.name.value, None)
    ensures "description" !in r <==> !req.description.Given? || |req.description.value| <= 255
    ensures "icon" !in r <==> !req.icon.Given? || |req.icon.value| <= 30
    ensures "color" !in r <==> !req.color.Given? || |req.color.value| <= 20
    ensures r <= {"name", "description", "icon", "color"}
  {
    (if RequiredString(req.name, 50) && !NameTaken(categories, req.name.value, None) then {} else {"name"})
    + OptionalFieldErrors(req)
  }

  /** The fields whose `update` rule fails for category `id`: the name rule
      applies only when a name is sent, and the category itself does not
      count as a clash. */
  function UpdateErrors(req: CategoryRequest, categories: map<nat, Category>, id: nat): (r: set<string>)
    ensures "name" !in r <==>
      || req.name.Absent?
      || (&& req.name.Given? && !IsBlank(req.name.value) && |req.name.value| <= 50
          && !NameTaken(categories, req.name.value, Some(id)))
    ensures "description" !in r <==> !req.description.Given? || |req.description.value| <= 255
    ensures "icon" !in r <==> !req.icon.Given? || |req.icon.value| <= 30
    ensures "color" !in r <==> !req.color.Given? || |req.color.value| <= 20
    ensures r <= {"name", "description", "icon", "color"}
  {
    (if req.name.Absent? || (RequiredString(req.name, 50) && !NameTaken(categories, req.name.value, Some(id)))
     then {} else {"name"})
    + OptionalFieldErrors(req)
  }

  /** Re-saving a category under its own name passes the name rule, because
      no other category can hold that name. */
  lemma ResaveOwnNameIsAccepted(categories: map<nat, Category>, id: nat, req: CategoryRequest)
    requires NamesUnique(categories) && id in categories
    requires req.name == Given(categories[id].name)
    requires RequiredString(req.name, 50)
    ensures "name" !in UpdateErrors(req, categories, id)
  {
  }

  /** Creating a category under a name that is already used always fails on
      `name`, unlike re-saving it. */
  lemma CreateWithUsedNameFails(categories: map<nat, Category>, id: nat, req: CategoryRequest)
    requires id in categories && req.name == Given(categories[id].name)
    ensures "name" in CreateErrors(req, categories)
  {
    assert NameTaken(categories, req.name.value, None);
  }

  /** The row `store` inserts with a fresh id. */
  function NewCategory(id: nat, req: CategoryRequest): (r: Category)
    requires req.name.Given?
    ensures r.id == id && r.name == req.name.value
    ensures r.description == Assign(req.description, None)
    ensures r.icon == Assign(req.icon, None) && r.color == Assign(req.color, None)
  {
    Category(id, req.name.value, Assign(req.description, None), Assign(req.icon, None), Assign(req.color, None))
  }

  /** The row after `update($validated)`; the id never changes. */
  function UpdatedCategory(prev: Category, req: CategoryRequest): (r: Category)
    requires !req.name.Null?
    ensures r.id == prev.id
    ensures r.name == (if req.name.Given? then req.name.value else prev.name)
    ensures r.description == Assign(req.description, prev.description)
    ensures r.icon == Assign(req.icon, prev.icon)
    ensures r.color == Assign(req.color, prev.color)
  {
    prev.(
      name := if req.name.Given? then req.name.value else prev.name,
      description := Assign(req.description, prev.description),
      icon := Assign(req.icon, prev.icon),
      color := Assign(req.color, prev.color))
  }

  /** `store`: 422 with the failing fields, or 201 with the new category. */
  method Store(db: Db, req: CategoryRequest) returns (status: int, errors: set<string>, created: Option<Category>)
    requires db.Valid()
    modifies db
    ensures db.Valid()
    ensures errors == CreateErrors(req, old(db.categories))
    ensures errors != {} ==> status == Http.Unprocessable && created.None? && unchanged(db)
    ensures errors == {} ==>
      && status == Http.Created
      && created == Some(NewCategory(old(db.nextCategoryId), req))
      && old(db.nextCategoryId) !in old(db.categories)
      && db.categories == old(db.categories)[old(db.nextCategoryId) := created.value]
      && db.nextCategoryId == old(db.nextCategoryId) + 1
      && db.items == old(db.items) && db.disk == old(db.disk) && db.nextItemId == old(db.nextItemId)
  {
    errors := CreateErrors(req, db.categories);
    if errors != {} {
      return Http.Unprocessable, errors, None;
    }
    var row := NewCategory(db.nextCategoryId, req);
    db.categories := db.categories[db.nextCategoryId := row];
    db.nextCategoryId := db.nextCategoryId + 1;
    status, created := Http.Created, Some(row);
  }

  /** `update`: 404 for no category, 422 with the failing fields, or the
      updated category. */
  method Update(db: Db, id: nat, req: CategoryRequest) returns (status: int, errors: set<string>, updated: Option<Category>)
    requires db.Valid()
    modifies db
    ensures db.Valid()
    ensures old(id !in db.categories) ==> status == Http.NotFound && updated.None? && unchanged(db)
    ensures old(id in db.categories) ==> errors == UpdateErrors(req, old(db.categories), id)
    ensures old(id in db.categories) && errors != {} ==>
      status == Http.Unprocessable && updated.None? && unchanged(db)
    ensures old(id in db.categories) && errors == {} ==>
      && status == Http.Ok
      && updated == Some(UpdatedCategory(old(db.categories[id]), req))
      && db.categories == old(db.categories)[id := updated.value]
      && db.items == old(db.items) && db.disk == old(db.disk)
      && db.nextItemId == old(db.nextItemId) && db.nextCategoryId == old(db.nextCategoryId)
  {
    errors, updated := {}, None;
    if id !in db.categories {
      return Http.NotFound, errors, updated;
    }
    errors := UpdateErrors(req, db.categories, id);
    if errors != {} {
      return Http.Unprocessable, errors, updated;
    }
    var row := UpdatedCategory(db.categories[id], req);
    db.categories := db.categories[id := row];
    status, updated := Http.Ok, Some(row);
  }

  /** `destroy`: 409 with the number of items still filed under the
      category, which stays; otherwise the category goes and the answer is 204. */
  method Destroy(db: Db, id: nat) returns (status: int, itemCount: nat)
    requires db.Valid()
    modifies db
    ensures db.Valid()
    ensures old(id !in db.categories) ==> status == Http.NotFound && unchanged(db)
    ensures itemCount == |ItemsIn(old(db.items), id)|
    ensures old(id in db.categories) && itemCount > 0 ==>
      status == Http.Conflict && unchanged(db) && id in db.categories
    ensures old(id in db.categories) && itemCount == 0 ==>
      && status == Http.NoContent
      && db.categories == old(db.categories) - {id}
      && db.items == old(db.items) && db.disk == old(db.disk)
      && db.nextItemId == old(db.nextItemId) && db.nextCategoryId == old(db.nextCategoryId)
  {
    itemCount := |ItemsIn(db.items, id)|;
    if id !in db.categories {
      return Http.NotFound, itemCount;
    }
    if itemCount > 0 {
      return Http.Conflict, itemCount;
    }
    assert ItemsIn(db.items, id) == {};
    db.categories := db.categories - {id};
    status := Http.NoContent;
  }
}
