/** `ImageUploadController`: attaching, replacing and removing the one image
    file of a clothing item, singly or in bulk. The stored file name is
    `clothing_images/` + 20 random characters + `.` + the client file's
    extension; the random part is a parameter here. */
module ImageUpload {
  import opened Wrappers
  import opened Records
  import opened Database
  import Http

  /** The path `upload` and `bulkUpload` store a file under. */
  function ImageFileName(random: string, extension: string): (r: string)
    ensures |r| == |"clothing_images/"| + |random| + 1 + |extension|
    ensures r[..|"clothing_images/"|] == "clothing_images/"
    ensures r[|"clothing_images/"|..] == random + "." + extension
  {
    "clothing_images/" + random + "." + extension
  }

  /** `image|mimes:jpeg,png,jpg,gif|max:2048`. */
  predicate AcceptableImage(f: UploadedFile)
  {
    IsImage(f) && IsJpegPngGif(f) && WithinImageLimit(f)
  }

  predicate ExistingItem(items: map<nat, Item>, id: int)
  {
    id >= 0 && id as nat in items
  }

  predicate Owns(items: map<nat, Item>, caller: nat, id: int)
  {
    ExistingItem(items, id) && items[id as nat].userId == caller
  }

  /** Point item `id` at a newly stored file `name`: the old file, if the
      column was set, leaves the disk and the new one arrives. */
  function ReplaceImage(items: map<nat, Item>, disk: set<string>, id: nat, name: string)
    : (r: (map<nat, Item>, set<string>))
    requires id in items
  {
    (items[id := items[id].(imagePath := Some(name))], disk - PathOf(items[id].imagePath) + {name})
  }

  // ---------------------------------------------------------------------
  // upload
  // ---------------------------------------------------------------------

  /** `sendsClothingItem` says whether the request body has a field named
      `clothingItem`; `required_without:clothingItem` looks only at the body,
      never at the route parameter. */
  datatype UploadRequest = UploadRequest(image: Field<UploadedFile>, clothingItemId: Field<int>, sendsClothingItem: bool)

  /** The fields whose `upload` rule fails. */
  function UploadErrors(req: UploadRequest, items: map<nat, Item>): (r: set<string>)
    ensures "image" !in r <==>
      && req.image.Given? && req.image.value.guessedExtension in {"jpeg", "png", "jpg", "gif"}
      && req.image.value.sizeBytes <= 2048 * 1024
    ensures "clothing_item_id" !in r <==>
      || (req.clothingItemId.Given? && ExistingItem(items, req.clothingItemId.value))
      || (req.clothingItemId.Absent? && req.sendsClothingItem)
    ensures r <= {"image", "clothing_item_id"}
  {
    (if req.image.Given? && AcceptableImage(req.image.value) then {} else {"image"})
    + (if (req.sendsClothingItem || req.clothingItemId.Given?)
          && (req.clothingItemId.Absent? || (req.clothingItemId.Given? && ExistingItem(items, req.clothingItemId.value)))
       then {} else {"clothing_item_id"})
  }

  /** The item the upload is for: the route's, else the body's id (once the
      body id has passed validation it names an existing item). */
  function UploadTarget(route: Option<nat>, req: UploadRequest): Option<int>
  {
    if route.Some? then Some(route.value as int)
    else if req.clothingItemId.Given? then Some(req.clothingItemId.value)
    else None
  }

  /** `upload`. A missing route item is 404 before anything else; then the
      rules (422), the lookup (404), the owner (403), and the replacement. */
  method Upload(db: Db, caller: nat, route: Option<nat>, req: UploadRequest, random: string)
    returns (status: int, errors: set<string>, imagePath: Option<string>)
    requires db.Valid()
    requires |random| == 20
    requires req.image.Given? ==> ImageFileName(random, req.image.value.clientExtension) !in db.disk
    modifies db
    ensures db.Valid()
    ensures imagePath.Some? <==> status == Http.Ok
    ensures status != Http.Ok ==> unchanged(db)
    ensures route.Some? && route.value !in old(db.items) ==> status == Http.NotFound
    ensures (route.None? || route.value in old(db.items)) ==> errors == UploadErrors(req, old(db.items))
    ensures (route.None? || route.value in old(db.items)) && errors != {} ==> status == Http.Unprocessable
    ensures (route.None? || route.value in old(db.items)) && errors == {} ==>
      var t := UploadTarget(route, req);
      && (t.None? ==> status == Http.NotFound)
      && (t.Some? && !Owns(old(db.items), caller, t.value) ==> status == Http.Forbidden)
      && (t.Some? && Owns(old(db.items), caller, t.value) ==>
            var name := ImageFileName(random, req.image.value.clientExtension);
            && status == Http.Ok && imagePath == Some(name)
            && (db.items, db.disk) == ReplaceImage(old(db.items), old(db.disk), t.value as nat, name)
            && db.items[t.value as nat].imagePath == imagePath
            && db.categories == old(db.categories)
            && db.nextItemId == old(db.nextItemId) && db.nextCategoryId == old(db.nextCategoryId))
  {
    errors, imagePath := {}, None;
    if route.Some? && route.value !in db.items {
      return Http.NotFound, errors, imagePath;
    }
    errors := UploadErrors(req, db.items);
    if errors != {} {
      return Http.Unprocessable, errors, imagePath;
    }
    var target := UploadTarget(route, req);
    if target.None? || !ExistingItem(db.items, target.value) {
      return Http.NotFound, errors, imagePath;
    }
    var id := target.value as nat;
    if db.items[id].userId != caller {
      return Http.Forbidden, errors, imagePath;
    }
    var name := ImageFileName(random, req.image.value.clientExtension);
    RewriteRowKeepsImages(db.items, db.disk, id, db.items[id].(imagePath := Some(name)), ReplaceImage(db.items, db.disk, id, name).1);
    db.items, db.disk := ReplaceImage(db.items, db.disk, id, name).0, ReplaceImage(db.items, db.disk, id, name).1;
    status, imagePath := Http.Ok, Some(name);
  }

  // ---------------------------------------------------------------------
  // delete
  // ---------------------------------------------------------------------

  /** `delete`: the owner's item loses its file and its path is cleared; an
      item with no image path gets 400 and nothing changes. */
  method Delete(db: Db, caller: nat, id: nat) returns (status: int)
    requires db.Valid()
    modifies db
    ensures db.Valid()
    ensures old(id !in db.items) ==> status == Http.NotFound && unchanged(db)
    ensures old(id in db.items && db.items[id].userId != caller) ==> status == Http.Forbidden && unchanged(db)
    ensures old(id in db.items && db.items[id].userId == caller && !IsSet(db.items[id].imagePath)) ==>
      status == Http.BadRequest && unchanged(db)
    ensures old(id in db.items && db.items[id].userId == caller && IsSet(db.items[id].imagePath)) ==>
      && status == Http.Ok
      && db.items == old(db.items)[id := old(db.items[id]).(imagePath := None)]
      && db.disk == old(db.disk) - {old(db.items[id].imagePath.value)}
      && old(db.items[id].imagePath.value) !in db.disk
      && db.categories == old(db.categories)
      && db.nextItemId == old(db.nextItemId) && db.nextCategoryId == old(db.nextCategoryId)
  {
    if id !in db.items {
      return Http.NotFound;
    }
    var current := db.items[id];
    if current.userId != caller {
      return Http.Forbidden;
    }
    if !IsSet(current.imagePath) {
      return Http.BadRequest;
    }
    db.disk := db.disk - {current.imagePath.value};
    db.items := db.items[id := current.(imagePath := None)];
    status := Http.Ok;
  }

  // ---------------------------------------------------------------------
  // bulkUpload
  // ---------------------------------------------------------------------

  datatype BulkRequest = BulkRequest(images: Field<seq<UploadedFile>>, clothingItemIds: Field<seq<int>>)

  /** One entry of `results`; `imagePath` stands for the `image_url` built from it. */
  datatype BulkResult = BulkResult(clothingItemId: int, success: bool, imagePath: Option<string>)

  /** The fields whose `bulkUpload` rule fails. `required` refuses an empty array. */
  function BulkErrors(req: BulkRequest, items: map<nat, Item>): (r: set<string>)
    ensures "images" !in r <==> req.images.Given? && |req.images.value| > 0
    ensures "images.*" in r <==>
      req.images.Given? && exists k :: 0 <= k < |req.images.value| && !AcceptableImage(req.images.value[k])
    ensures "clothing_item_ids" !in r <==> req.clothingItemIds.Given? && |req.clothingItemIds.value| > 0
    ensures "clothing_item_ids.*" in r <==>
      && req.clothingItemIds.Given?
      && exists k :: 0 <= k < |req.clothingItemIds.value| && !ExistingItem(items, req.clothingItemIds.value[k])
    ensures r <= {"images", "images.*", "clothing_item_ids", "clothing_item_ids.*"}
  {
    (if req.images.Given? && |req.images.value| > 0 then {} else {"images"})
    + (if req.images.Given? && exists k :: 0 <= k < |req.images.value| && !AcceptableImage(req.images.value[k])
       then {"images.*"} else {})
    + (if req.clothingItemIds.Given? && |req.clothingItemIds.value| > 0 then {} else {"clothing_item_ids"})
    + (if req.clothingItemIds.Given?
          && exists k :: 0 <= k < |req.clothingItemIds.value| && !ExistingItem(items, req.clothingItemIds.value[k])
       then {"clothing_item_ids.*"} else {})
  }

  /** What the loop has built so far. */
  datatype BulkState = BulkState(items: map<nat, Item>, disk: set<string>, results: seq<BulkResult>)

  function NameAt(files: seq<UploadedFile>, randoms: seq<string>, k: nat): string
    requires k < |files| && k < |randoms|
  {
    ImageFileName(randoms[k], files[k].clientExtension)
  }

  /** The random names give paths that are new to the disk and all different. */
  predicate FreshNames(disk: set<string>, files: seq<UploadedFile>, randoms: seq<string>)
  {
    |files| == |randoms|
    && (forall k :: 0 <= k < |files| ==> NameAt(files, randoms, k) !in disk)
    && (forall j, k :: 0 <= j < k < |files| ==> NameAt(files, randoms, j) != NameAt(files, randoms, k))
  }

  /** One pass of the loop: a missing or foreign item gets a failed result
      and the loop goes on; an owned item gets its image replaced. */
  function Step(s: BulkState, caller: nat, id: int, file: UploadedFile, random: string): BulkState
  {
    if !Owns(s.items, caller, id) then s.(results := s.results + [BulkResult(id, false, None)])
    else
      var name := ImageFileName(random, file.clientExtension);
      var (items', disk') := ReplaceImage(s.items, s.disk, id as nat, name);
      BulkState(items', disk', s.results + [BulkResult(id, true, Some(name))])
  }

  /** The state after the first `n` pairs. */
  function Run(s0: BulkState, caller: nat, ids: seq<int>, files: seq<UploadedFile>, randoms: seq<string>, n: nat): BulkState
    requires n <= |ids| == |files| == |randoms|
  {
    if n == 0 then s0 else Step(Run(s0, caller, ids, files, randoms, n - 1), caller, ids[n - 1], files[n - 1], randoms[n - 1])
  }

  /** The loop only ever rewrites image paths: the same rows, the same owners. */
  lemma {:induction false} RunKeepsRows(s0: BulkState, caller: nat, ids: seq<int>, files: seq<UploadedFile>, randoms: seq<string>, n: nat)
    requires n <= |ids| == |files| == |randoms|
    ensures var s := Run(s0, caller, ids, files, randoms, n);
      s.items.Keys == s0.items.Keys
      && forall id :: id in s.items ==> s.items[id] == s0.items[id].(imagePath := s.items[id].imagePath)
  {
    if n > 0 {
      RunKeepsRows(s0, caller, ids, files, randoms, n - 1);
    }
  }

  /** The result entry pair `k` earns: success exactly when the caller owns
      the item ids[k] names, with the path of the file stored for it. */
  function ResultFor(items: map<nat, Item>, caller: nat, id: int, file: UploadedFile, random: string): BulkResult
  {
    if Owns(items, caller, id) then BulkResult(id, true, Some(ImageFileName(random, file.clientExtension)))
    else BulkResult(id, false, None)
  }

  /** One result per image, in input order; a pair's outcome depends only on
      whether the caller owned the item when the request came in, so a failed
      pair never stops the ones after it. */
  lemma {:induction false} OneResultPerImage(s0: BulkState, caller: nat, ids: seq<int>, files: seq<UploadedFile>, randoms: seq<string>, n: nat)
    requires n <= |ids| == |files| == |randoms|
    requires s0.results == []
    ensures var s := Run(s0, caller, ids, files, randoms, n);
      |s.results| == n
      && forall k :: 0 <= k < n ==> s.results[k] == ResultFor(s0.items, caller, ids[k], files[k], randoms[k])
  {
    if n > 0 {
      OneResultPerImage(s0, caller, ids, files, randoms, n - 1);
      RunKeepsRows(s0, caller, ids, files, randoms, n - 1);
      var prev := Run(s0, caller, ids, files, randoms, n - 1);
      assert Owns(prev.items, caller, ids[n - 1]) == Owns(s0.items, caller, ids[n - 1]);
    }
  }

  /** The last of the first `n` positions whose id is `id`, or -1. */
  function LastIndexOf(ids: seq<int>, n: nat, id: int): (r: int)
    requires n <= |ids|
    ensures -1 <= r < n
    ensures r >= 0 ==> ids[r] == id && forall j :: r < j < n ==> ids[j] != id
    ensures r == -1 ==> forall j :: 0 <= j < n ==> ids[j] != id
  {
    if n == 0 then -1 else if ids[n - 1] == id then n - 1 else LastIndexOf(ids, n - 1, id)
  }

  /** Where each item's image ends up: an owned item named in the batch points
      at the file of its last pair; every other item keeps its old path. */
  lemma {:induction false} FinalImagePath(s0: BulkState, caller: nat, ids: seq<int>, files: seq<UploadedFile>, randoms: seq<string>, n: nat, id: nat)
    requires n <= |ids| == |files| == |randoms|
    requires id in s0.items
    ensures var s := Run(s0, caller, ids, files, randoms, n);
      var last := LastIndexOf(ids, n, id);
      id in s.items
      && s.items[id].imagePath == (if Owns(s0.items, caller, id) && last >= 0 then Some(NameAt(files, randoms, last))
                                   else s0.items[id].imagePath)
  {
    RunKeepsRows(s0, caller, ids, files, randoms, n);
    if n > 0 {
      FinalImagePath(s0, caller, ids, files, randoms, n - 1, id);
      RunKeepsRows(s0, caller, ids, files, randoms, n - 1);
    }
  }

  /** A missing or foreign item, or one the batch does not name, comes out of
      the batch exactly as it went in. */
  lemma UntouchedUnlessOwnedAndNamed(s0: BulkState, caller: nat, ids: seq<int>, files: seq<UploadedFile>, randoms: seq<string>, id: nat)
    requires |ids| == |files| == |randoms|
    requires id in s0.items
    requires !Owns(s0.items, caller, id) || forall k :: 0 <= k < |ids| ==> ids[k] != id
    ensures var s := Run(s0, caller, ids, files, randoms, |ids|);
      id in s.items && s.items[id] == s0.items[id]
  {
    var s := Run(s0, caller, ids, files, randoms, |ids|);
    RunKeepsRows(s0, caller, ids, files, randoms, |ids|);
    FinalImagePath(s0, caller, ids, files, randoms, |ids|, id);
    var row := s.items[id];
    assert row.imagePath == s0.items[id].imagePath;
    assert row == s0.items[id].(imagePath := row.imagePath);
  }

  /** With fresh names, the batch keeps every image path on the disk and no two
      items sharing a file; the disk only gains names of this batch. */
  lemma {:induction false} RunKeepsImagesConsistent(s0: BulkState, caller: nat, ids: seq<int>, files: seq<UploadedFile>, randoms: seq<string>, n: nat)
    requires n <= |ids| == |files| == |randoms|
    requires ImagesOnDisk(s0.items, s0.disk) && ImagesDistinct(s0.items)
    requires FreshNames(s0.disk, files, randoms)
    ensures var s := Run(s0, caller, ids, files, randoms, n);
      && ImagesOnDisk(s.items, s.disk) && ImagesDistinct(s.items)
      && forall x :: x in s.disk ==> x in s0.disk || exists j :: 0 <= j < n && x == NameAt(files, randoms, j)
  {
    if n > 0 {
      RunKeepsImagesConsistent(s0, caller, ids, files, randoms, n - 1);
      var prev := Run(s0, caller, ids, files, randoms, n - 1);
      var id := ids[n - 1];
      if Owns(prev.items, caller, id) {
        var name := NameAt(files, randoms, n - 1);
        assert name !in prev.disk;
        var row := prev.items[id as nat].(imagePath := Some(name));
        RewriteRowKeepsImages(prev.items, prev.disk, id as nat, row, ReplaceImage(prev.items, prev.disk, id as nat, name).1);
        var s := Run(s0, caller, ids, files, randoms, n);
        forall x | x in s.disk
          ensures x in s0.disk || exists j :: 0 <= j < n && x == NameAt(files, randoms, j)
        {
          if x != name {
            assert x in prev.disk;
          }
        }
      }
    }
  }

  /** The batch keeps every row under its own key and in an existing category. */
  lemma RunKeepsKeys(s0: BulkState, caller: nat, ids: seq<int>, files: seq<UploadedFile>, randoms: seq<string>,
                     categories: map<nat, Category>, nextId: nat)
    requires |ids| == |files| == |randoms|
    requires ItemKeys(s0.items, nextId) && CategoriesExist(s0.items, categories)
    ensures var s := Run(s0, caller, ids, files, randoms, |ids|);
      ItemKeys(s.items, nextId) && CategoriesExist(s.items, categories)
  {
    var s := Run(s0, caller, ids, files, randoms, |ids|);
    RunKeepsRows(s0, caller, ids, files, randoms, |ids|);
    forall id | id in s.items
      ensures s.items[id].id == id && id < nextId && s.items[id].categoryId in categories
    {
      assert s.items[id] == s0.items[id].(imagePath := s.items[id].imagePath);
    }
  }

  /** The loop of `bulkUpload`, over the rows and the disk it rewrites. */
  method UploadEach(items0: map<nat, Item>, disk0: set<string>, caller: nat,
                    ids: seq<int>, files: seq<UploadedFile>, randoms: seq<string>)
    returns (items: map<nat, Item>, disk: set<string>, results: seq<BulkResult>)
    requires |ids| == |files| == |randoms|
    ensures BulkState(items, disk, results) == Run(BulkState(items0, disk0, []), caller, ids, files, randoms, |files|)
  {
    items, disk, results := items0, disk0, [];
    var i := 0;
    while i < |files|
      invariant 0 <= i <= |files|
      invariant BulkState(items, disk, results) == Run(BulkState(items0, disk0, []), caller, ids, files, randoms, i)
    {
      var id := ids[i];
      if !Owns(items, caller, id) {
        results := results + [BulkResult(id, false, None)];
        i := i + 1;
        continue;
      }
      var item := items[id as nat];
      disk := disk - PathOf(item.imagePath);
      var name := ImageFileName(randoms[i], files[i].clientExtension);
      disk := disk + {name};
      items := items[id as nat := item.(imagePath := Some(name))];
      results := results + [BulkResult(id, true, Some(name))];
      i := i + 1;
    }
  }

  /** `bulkUpload`: 422 when a rule fails, 400 when the two arrays differ in
      length (both before anything is touched), otherwise the loop. */
  method BulkUpload(db: Db, caller: nat, req: BulkRequest, randoms: seq<string>)
    returns (status: int, errors: set<string>, results: seq<BulkResult>)
    requires db.Valid()
    requires req.images.Given? ==> FreshNames(db.disk, req.images.value, randoms)
    requires forall k :: 0 <= k < |randoms| ==> |randoms[k]| == 20
    modifies db
    ensures db.Valid()
    ensures errors == BulkErrors(req, old(db.items))
    ensures errors != {} ==> status == Http.Unprocessable && results == [] && unchanged(db)
    ensures errors == {} && |req.images.value| != |req.clothingItemIds.value| ==>
      status == Http.BadRequest && results == [] && unchanged(db)
    ensures errors == {} && |req.images.value| == |req.clothingItemIds.value| ==>
      && status == Http.Ok
      && BulkState(db.items, db.disk, results)
         == Run(BulkState(old(db.items), old(db.disk), []), caller, req.clothingItemIds.value, req.images.value, randoms, |randoms|)
      && db.categories == old(db.categories)
      && db.nextItemId == old(db.nextItemId) && db.nextCategoryId == old(db.nextCategoryId)
  {
    results := [];
    errors := BulkErrors(req, db.items);
    if errors != {} {
      return Http.Unprocessable, errors, results;
    }
    var files, ids := req.images.value, req.clothingItemIds.value;
    if |files| != |ids| {
      return Http.BadRequest, errors, results;
    }
    ghost var s0 := BulkState(db.items, db.disk, []);
    var items, disk;
    items, disk, results := UploadEach(db.items, db.disk, caller, ids, files, randoms);
    RunKeepsKeys(s0, caller, ids, files, randoms, db.categories, db.nextItemId);
    RunKeepsImagesConsistent(s0, caller, ids, files, randoms, |files|);
    db.items, db.disk := items, disk;
    status := Http.Ok;
  }
}
