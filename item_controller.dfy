/** `ClothingItemController`: creating, showing, updating and deleting one
    clothing item. Only the owner may show, update or delete an item, and
    the item's `image_path` moves in step with the files on the disk. The
    listing (`index`) is in module ItemListing. */
module ItemController {
  import opened Wrappers
  import opened Records
  import opened Rules
  import opened Text
  import opened Database
  import Http

  /** The fields of a create or update request. `userId` is whatever the
      client put under `user_id`; no rule validates it, so it never reaches
      the row. */
  datatype ItemRequest = ItemRequest(
    name: Field<string>,
    description: Field<string>,
    categoryId: Field<int>,
    color: Field<string>,
    size: Field<string>,
    brand: Field<string>,
    image: Field<UploadedFile>,
    favorite: Field<Scalar>,
    userId: Field<int>)

  /** The rules shared by `store` and `update` (description is any string). */
  function OptionalFieldErrors(req: ItemRequest): (r: set<string>)
    ensures "color" !in r <==> !req.color.Given? || |req.color.value| <= 50
    ensures "size" !in r <==> !req.size.Given? || |req.size.value| <= 20
    ensures "brand" !in r <==> !req.brand.Given? || |req.brand.value| <= 100
    ensures "image" !in r <==>
      !req.image.Given? || (IsImage(req.image.value) && req.image.value.sizeBytes <= 2048 * 1024)
    ensures "favorite" !in r <==> req.favorite.Absent? || (req.favorite.Given? && AcceptsBoolean(req.favorite.value))
    ensures r <= {"color", "size", "brand", "image", "favorite"}
  {
    (if NullableString(req.color, 50) then {} else {"color"})
    + (if NullableString(req.size, 20) then {} else {"size"})
    + (if NullableString(req.brand, 100) then {} else {"brand"})
    + (if NullableImage(req.image) then {} else {"image"})
    + (if BooleanRule(req.favorite) then {} else {"favorite"})
  }

  /** The fields whose `store` rule fails. */
  function CreateErrors(req: ItemRequest, categories: map<nat, Category>): (r: set<string>)
    ensures "name" !in r <==> req.name.Given? && !IsBlank(req.name.value) && |req.name.value| <= 255
    ensures "category_id" !in r <==>
      req.categoryId.Given? && req.categoryId.value >= 0 && req.categoryId.value as nat in categories
    ensures "color" !in r <==> !req.color.Given? || |req.color.value| <= 50
    ensures "size" !in r <==> !req.size.Given? || |req.size.value| <= 20
    ensures "brand" !in r <==> !req.brand.Given? || |req.brand.value| <= 100
    ensures "image" !in r <==>
      !req.image.Given? || (IsImage(req.image.value) && req.image.value.sizeBytes <= 2048 * 1024)
    ensures "favorite" !in r <==> req.favorite.Absent? || (req.favorite.Given? && AcceptsBoolean(req.favorite.value))
    ensures r <= {"name", "category_id", "color", "size", "brand", "image", "favorite"}
  {
    (if RequiredString(req.name, 255) then {} else {"name"})
    + (if ExistingCategory(req.categoryId, categories) then {} else {"category_id"})
    + OptionalFieldErrors(req)
  }

  /** The fields whose `update` rule fails; name and category are `sometimes`. */
  function UpdateErrors(req: ItemRequest, categories: map<nat, Category>): (r: set<string>)
    ensures "name" !in r <==>
      req.name.Absent? || (req.name.Given? && !IsBlank(req.name.value) && |req.name.value| <= 255)
    ensures "category_id" !in r <==>
      req.categoryId.Absent?
      || (req.categoryId.Given? && req.categoryId.value >= 0 && req.categoryId.value as nat in categories)
    ensures "color" !in r <==> !req.color.Given? || |req.color.value| <= 50
    ensures "size" !in r <==> !req.size.Given? || |req.size.value| <= 20
    ensures "brand" !in r <==> !req.brand.Given? || |req.brand.value| <= 100
    ensures "image" !in r <==>
      !req.image.Given? || (IsImage(req.image.value) && req.image.value.sizeBytes <= 2048 * 1024)
    ensures "favorite" !in r <==> req.favorite.Absent? || (req.favorite.Given? && AcceptsBoolean(req.favorite.value))
    ensures r <= {"name", "category_id", "color", "size", "brand", "image", "favorite"}
  {
    (if SometimesRequiredString(req.name, 255) then {} else {"name"})
    + (if req.categoryId.Absent? || ExistingCategory(req.categoryId, categories) then {} else {"category_id"})
    + OptionalFieldErrors(req)
  }

  /** The row `store` inserts: the validated fields, the stored image's path
      when a file was sent, and the caller as owner whatever `user_id` the
      request carried. An absent `favorite` takes the column default, false. */
  function NewRow(id: nat, caller: nat, req: ItemRequest, path: string, now: int, categories: map<nat, Category>): (r: Item)
    requires CreateErrors(req, categories) == {}
    ensures r.id == id && r.userId == caller && r.createdAt == now
    ensures r.name == req.name.value && r.categoryId == req.categoryId.value && r.categoryId in categories
    ensures r.imagePath == (if req.image.Given? then Some(path) else None)
    ensures r.favorite == (req.favorite.Given? && AsBool(req.favorite.value))
    ensures r.description == Assign(req.description, None) && r.color == Assign(req.color, None)
    ensures r.size == Assign(req.size, None) && r.brand == Assign(req.brand, None)
  {
    Item(id, req.name.value, Assign(req.description, None), req.categoryId.value as nat,
         Assign(req.color, None), Assign(req.size, None), Assign(req.brand, None),
         if req.image.Given? then Some(path) else None,
         req.favorite.Given? && AsBool(req.favorite.value),
         caller, now)
  }

  /** The row after `update($validated)`: each sent field replaces its column
      (null clears a nullable one), an absent field keeps it, a sent file
      replaces the image path; id, owner and creation time never change. */
  function UpdatedRow(prev: Item, req: ItemRequest, path: string, categories: map<nat, Category>): (r: Item)
    requires UpdateErrors(req, categories) == {}
    ensures r.id == prev.id && r.userId == prev.userId && r.createdAt == prev.createdAt
    ensures r.imagePath == (if req.image.Given? then Some(path) else prev.imagePath)
    ensures req.name.Absent? ==> r.name == prev.name
    ensures req.name.Given? ==> r.name == req.name.value
    ensures req.categoryId.Absent? ==> r.categoryId == prev.categoryId
    ensures req.categoryId.Given? ==> r.categoryId == req.categoryId.value && r.categoryId in categories
    ensures req.favorite.Absent? ==> r.favorite == prev.favorite
    ensures req.favorite.Given? ==> r.favorite == AsBool(req.favorite.value)
    ensures r.description == Assign(req.description, prev.description)
    ensures r.color == Assign(req.color, prev.color)
    ensures r.size == Assign(req.size, prev.size)
    ensures r.brand == Assign(req.brand, prev.brand)
  {
    prev.(
      name := if req.name.Given? then req.name.value else prev.name,
      description := Assign(req.description, prev.description),
      categoryId := if req.categoryId.Given? then req.categoryId.value as nat else prev.categoryId,
      color := Assign(req.color, prev.color),
      size := Assign(req.size, prev.size),
      brand := Assign(req.brand, prev.brand),
      imagePath := if req.image.Given? then Some(path) else prev.imagePath,
      favorite := if req.favorite.Given? then AsBool(req.favorite.value) else prev.favorite)
  }

  /** `store`: 422 with the failing fields, or 201 with the new row. `path` is
      where the disk puts the uploaded file; the disk never reuses a name. */
  method Store(db: Db, caller: nat, req: ItemRequest, path: string, now: int)
    returns (status: int, errors: set<string>, created: Option<Item>)
    requires db.Valid()
    requires path !in db.disk
    modifies db
    ensures db.Valid()
    ensures errors == CreateErrors(req, old(db.categories))
    ensures status == Http.Created <==> errors == {}
    ensures errors != {} ==> status == Http.Unprocessable && created.None? && unchanged(db)
    ensures errors == {} ==>
      && created == Some(NewRow(old(db.nextItemId), caller, req, path, now, old(db.categories)))
      && created.value.userId == caller
      && old(db.nextItemId) !in old(db.items)
      && db.items == old(db.items)[old(db.nextItemId) := created.value]
      && db.disk == old(db.disk) + (if req.image.Given? then {path} else {})
      && db.nextItemId == old(db.nextItemId) + 1
      && db.categories == old(db.categories) && db.nextCategoryId == old(db.nextCategoryId)
  {
    errors := CreateErrors(req, db.categories);
    if errors != {} {
      return Http.Unprocessable, errors, None;
    }
    if req.image.Given? {
      db.disk := db.disk + {path};
    }
    var row := NewRow(db.nextItemId, caller, req, path, now, db.categories);
    db.items := db.items[db.nextItemId := row];
    db.nextItemId := db.nextItemId + 1;
    status, created := Http.Created, Some(row);
  }

  /** `show`: the item for its owner, 403 for anyone else, 404 for no item. */
  method Show(db: Db, caller: nat, id: nat) returns (status: int, item: Option<Item>)
    ensures id !in db.items ==> status == Http.NotFound && item.None?
    ensures id in db.items && db.items[id].userId != caller ==> status == Http.Forbidden && item.None?
    ensures id in db.items && db.items[id].userId == caller ==> status == Http.Ok && item == Some(db.items[id])
  {
    if id !in db.items {
      return Http.NotFound, None;
    }
    if db.items[id].userId != caller {
      return Http.Forbidden, None;
    }
    return Http.Ok, Some(db.items[id]);
  }

  /** `update`: ownership first, then validation, then the write. A sent file
      replaces the old one on the disk; nothing else touches the disk. */
  method Update(db: Db, caller: nat, id: nat, req: ItemRequest, path: string)
    returns (status: int, errors: set<string>, item: Option<Item>)
    requires db.Valid()
    requires path !in db.disk
    modifies db
    ensures db.Valid()
    ensures old(id !in db.items) ==> status == Http.NotFound && unchanged(db)
    ensures old(id in db.items && db.items[id].userId != caller) ==>
      status == Http.Forbidden && item.None? && unchanged(db)
    ensures old(id in db.items && db.items[id].userId == caller) ==>
      errors == UpdateErrors(req, old(db.categories))
    ensures old(id in db.items && db.items[id].userId == caller) && errors != {} ==>
      status == Http.Unprocessable && item.None? && unchanged(db)
    ensures old(id in db.items && db.items[id].userId == caller) && errors == {} ==>
      && status == Http.Ok
      && item == Some(UpdatedRow(old(db.items[id]), req, path, old(db.categories)))
      && db.items == old(db.items)[id := item.value]
      && db.disk == (if req.image.Given? then old(db.disk) - PathOf(old(db.items[id].imagePath)) + {path}
                     else old(db.disk))
      && db.categories == old(db.categories)
      && db.nextItemId == old(db.nextItemId) && db.nextCategoryId == old(db.nextCategoryId)
  {
    errors, item := {}, None;
    if id !in db.items {
      return Http.NotFound, errors, item;
    }
    var current := db.items[id];
    if current.userId != caller {
      return Http.Forbidden, errors, item;
    }
    errors := UpdateErrors(req, db.categories);
    if errors != {} {
      return Http.Unprocessable, errors, item;
    }
    var row := UpdatedRow(current, req, path, db.categories);
    var disk' := if req.image.Given? then db.disk - PathOf(current.imagePath) + {path} else db.disk;
    RewriteRowKeepsKeys(db.items, db.categories, db.nextItemId, id, row);
    RewriteRowKeepsImages(db.items, db.disk, id, row, disk');
    if req.image.Given? {
      db.disk := db.disk - PathOf(current.imagePath);
      db.disk := db.disk + {path};
    }
    db.items := db.items[id := row];
    status, item := Http.Ok, Some(row);
  }

  /** `destroy`: the owner's item goes, and its image file with it. */
  method Destroy(db: Db, caller: nat, id: nat) returns (status: int)
    requires db.Valid()
    modifies db
    ensures db.Valid()
    ensures old(id !in db.items) ==> status == Http.NotFound && unchanged(db)
    ensures old(id in db.items && db.items[id].userId != caller) ==> status == Http.Forbidden && unchanged(db)
    ensures old(id in db.items && db.items[id].userId == caller) ==>
      && status == Http.NoContent
      && db.items == old(db.items) - {id}
      && db.disk == old(db.disk) - PathOf(old(db.items[id].imagePath))
      && id !in db.items
      && (IsSet(old(db.items[id].imagePath)) ==> old(db.items[id].imagePath).value !in db.disk)
      && db.categories == old(db.categories)
      && db.nextItemId == old(db.nextItemId) && db.nextCategoryId == old(db.nextCategoryId)
  {
    if id !in db.items {
      return Http.NotFound;
    }
    var current := db.items[id];
    if current.userId != caller {
      return Http.Forbidden;
    }
    db.disk := db.disk - PathOf(current.imagePath);
    db.items := db.items - {id};
    status := Http.NoContent;
  }
}
