# Wardrobe bookkeeping, modelled in Dafny

The wardrobe application keeps each user's clothing items, the categories
they are filed under, and one image file per item. The Laravel API serves
them; three Pinia stores in the browser cache them. This project models
the bookkeeping rules of both layers and proves them.

Server side (modules `Records`, `Http`, `Rules`, `Database`, `ItemListing`,
`ItemController`, `CategoryController`, `ImageUpload`):

- **The database.** A class `Db` holds three pieces of state:
  - the `clothing_items` and `categories` tables, as maps from id to row;
  - the public disk, as the set of stored paths;
  - the next ids to hand out.
- **The `Db.Valid` invariant.** `Db.Valid` says five things, and every
  controller method preserves it:
  - rows carry their own key;
  - every item's category exists;
  - category names are unique;
  - every image path is on the disk;
  - no two items share a file.
- **Controllers.** Each controller action is a module-level method that
  takes the database `db: Db` and carries `modifies db`. Validation is a
  function that returns the set of failing fields. The item listing is
  pure: a filter predicate, a newest-first order and 15-row pages.
- **Bulk upload.** The loop is proved against a left fold (`Run`), one
  `Step` per image/id pair. The properties of the batch are lemmas about
  that fold.

Client side (modules `Js`, `Text`, `ClothingStore`, `CategoryStore`,
`AuthStore`):

- **Stores.** Each store is a class whose fields are the store's state.
  Each action is one atomic method. The server's answer is a parameter
  (`Reply<T>`: the body, or a failure with the response's optional
  `message`).
- **JavaScript semantics.** Values are a `JsValue` datatype with
  truthiness and `String()`. `parseInt` is modelled on strings. An id
  match `record.id === parseInt(id)` is `Js.IdMatches`, and
  `Js.IdMatchesIsParseInt` proves it equal to `parseInt(String(id))`.
- **The auth store's storage.** `localStorage` is a second field
  (`storedToken`). An invariant `InSync` ties it to the token.

A detail the model exposes: when a login reply carries neither `token` nor
`access_token`, `localStorage.setItem` stores the text `"undefined"`. After a
reload the store reads that text back as a usable token
(`AuthStore.MissingTokenIsRestoredAsText`).

## Model

| member | source | states |
|---|---|---|
| ItemListing.CurrentPage | backend/app/Http/Controllers/API/ClothingItemController.php:42 | the page is the requested one when that is a positive integer, and 1 when it is missing, not an integer or below 1 |
| ItemListing.LastPage | backend/app/Http/Controllers/API/ClothingItemController.php:42 | last_page is 1 when there are no rows, and otherwise the least page count that holds all rows, 15 per page |
| ItemListing.Window | backend/app/Http/Controllers/API/ClothingItemController.php:42 | a page holds at most 15 ids, exactly the slice starting at (page-1)*15, empty past the end |
| ItemListing.NewestExists | backend/app/Http/Controllers/API/ClothingItemController.php:42 | every non-empty set of rows has a row newer than all the others (created_at, then id) |
| ItemListing.NewestFirst | backend/app/Http/Controllers/API/ClothingItemController.php:42 | the ordering lists each given id exactly once, each strictly newer than the ones after it |
| ItemListing.Listing | backend/app/Http/Controllers/API/ClothingItemController.php:18-42 | an id is listed iff it is a stored item of the caller passing the category, favorite and search filters; ids are distinct and created_at never increases |
| ItemListing.Rows | backend/app/Http/Controllers/API/ClothingItemController.php:42-43 | the response rows are the records of the page's ids, in the same order |
| ItemListing.Index | backend/app/Http/Controllers/API/ClothingItemController.php:16-44 | per_page is 15 and data holds at most 15 rows; total counts every match; current_page and last_page as Laravel's paginator gives them |
| ItemListing.RowOfListing | backend/app/Http/Controllers/API/ClothingItemController.php:42 | row i of a page is entry (page-1)*15+i of the ordered listing |
| ItemListing.IndexRowsMatch | backend/app/Http/Controllers/API/ClothingItemController.php:18-39 | every returned row is a stored item whose user_id is the caller's and that passes every filter sent (category equality, favorite parsed as 'true' or '1', search in name, description, brand or color) |
| ItemListing.IndexRowsOrdered | backend/app/Http/Controllers/API/ClothingItemController.php:42 | the rows of a page come in non-increasing created_at order |
| ItemListing.WindowAt | backend/app/Http/Controllers/API/ClothingItemController.php:42 | position k of the listing is row k mod 15 of page k/15+1, and that page is at most last_page |
| ItemListing.EveryMatchIsOnAPage | backend/app/Http/Controllers/API/ClothingItemController.php:42 | paging loses nothing: every match appears on some page up to last_page, at its place in the order |
| Rules.Assign | backend/app/Http/Controllers/API/ClothingItemController.php:98-120 | under update($validated) an absent field keeps its column, a null field clears it, a sent field sets it |
| ItemController.CreateErrors | backend/app/Http/Controllers/API/ClothingItemController.php:51-60 | each field fails iff its store rule fails: name sent, not blank and at most 255; category_id an existing category; color, size and brand at most 50, 20 and 100 when sent; image an image of at most 2048 KB when sent; favorite an accepted boolean when sent; description never fails |
| ItemController.UpdateErrors | backend/app/Http/Controllers/API/ClothingItemController.php:98-107 | as CreateErrors, except that an absent name or category_id passes (`sometimes`) |
| ItemController.NewRow | backend/app/Http/Controllers/API/ClothingItemController.php:51-71 | the new row has the caller as owner whatever user_id was sent, the validated name and an existing category, the stored path only when a file was sent, and the sent favorite value; description, color, size and brand are stored as sent, or null when absent |
| ItemController.UpdatedRow | backend/app/Http/Controllers/API/ClothingItemController.php:98-120 | sent fields replace their columns (name, category_id, favorite, and description, color, size and brand through Assign) and absent ones keep them; a sent file replaces image_path and no file keeps it; id, owner and created_at never change |
| ItemController.Store | backend/app/Http/Controllers/API/ClothingItemController.php:49-73 | returns 422 with exactly the failing fields and no change; otherwise 201 with the new row under a fresh id, the file added to the disk when sent, and the invariant kept |
| ItemController.Show | backend/app/Http/Controllers/API/ClothingItemController.php:78-86 | returns 404 for no item, 403 for a non-owner, and the item for its owner |
| ItemController.Update | backend/app/Http/Controllers/API/ClothingItemController.php:91-122 | returns 403 with nothing changed for a non-owner, and 422 with no change; otherwise the row becomes UpdatedRow and a sent file replaces the old one on the disk (the disk is untouched without a file) |
| ItemController.Destroy | backend/app/Http/Controllers/API/ClothingItemController.php:127-141 | returns 403 with nothing changed for a non-owner; otherwise 204, and neither the id nor its old image path remains |
| Database.RewriteRowKeepsKeys | backend/app/Http/Controllers/API/ClothingItemController.php:120 | rewriting a row in place with its id and an existing category keeps the key and category invariants |
| Database.RewriteRowKeepsImages | backend/app/Http/Controllers/API/ClothingItemController.php:110-120 | a row that keeps its image, or that swaps its old file for a new one, keeps every path on the disk and no file shared |
| CategoryController.ItemsIn | backend/app/Http/Controllers/API/CategoryController.php:84 | exactly the items filed under the category, whoever owns them |
| CategoryController.Index | backend/app/Http/Controllers/API/CategoryController.php:15-32 | a category is listed iff the search admits it, with its row and its item count |
| CategoryController.SearchByNameOrDescription | backend/app/Http/Controllers/API/CategoryController.php:20-26 | with a term, a category is listed iff the term occurs in its name or its description |
| CategoryController.Show | backend/app/Http/Controllers/API/CategoryController.php:54-59 | 404 for no category; otherwise the category with exactly the caller's items filed under it |
| CategoryController.CreateErrors | backend/app/Http/Controllers/API/CategoryController.php:39-44 | name passes iff it is sent, not blank, at most 50 characters and used by no category; description, icon and color pass iff absent, null or at most 255, 30 and 20 characters; only these four fields can fail, and create passes iff all four do |
| CategoryController.UpdateErrors | backend/app/Http/Controllers/API/CategoryController.php:66-71 | name passes iff it is absent, or is sent, not blank, at most 50 characters and not used by another category; description, icon and color pass iff at most 255, 30 and 20 characters when sent |
| CategoryController.NewCategory | backend/app/Http/Controllers/API/CategoryController.php:46 | the new row carries the fresh id, the sent name, and the sent description, icon and color (null when not sent) |
| CategoryController.ResaveOwnNameIsAccepted | backend/app/Http/Controllers/API/CategoryController.php:67 | re-saving a category under its own name passes the name rule |
| CategoryController.CreateWithUsedNameFails | backend/app/Http/Controllers/API/CategoryController.php:40 | creating a category under a used name fails on name |
| CategoryController.UpdatedCategory | backend/app/Http/Controllers/API/CategoryController.php:73 | the id never changes; a sent name replaces the old one; description, icon and color are set when sent, cleared when null and kept when absent |
| CategoryController.Store | backend/app/Http/Controllers/API/CategoryController.php:37-49 | returns 422 with exactly the failing fields and no change, or 201 with the new row under a fresh id; names stay unique |
| CategoryController.Update | backend/app/Http/Controllers/API/CategoryController.php:64-76 | returns 404 or 422 with no change, or the updated row in place; names stay unique |
| CategoryController.Destroy | backend/app/Http/Controllers/API/CategoryController.php:81-96 | with items filed under it, the answer is 409 with their count and the category stays; otherwise it is removed with 204 |
| ImageUpload.ImageFileName | backend/app/Http/Controllers/API/ImageUploadController.php:64 | the stored name is clothing_images/ followed by exactly the random part, a dot and the extension |
| ImageUpload.UploadErrors | backend/app/Http/Controllers/API/ImageUploadController.php:32-35 | the image passes iff it is sent, is jpeg, png, jpg or gif and is at most 2048 KB; clothing_item_id passes iff it names an existing item, or is absent while a clothingItem field is sent |
| ImageUpload.Upload | backend/app/Http/Controllers/API/ImageUploadController.php:29-78 | 422 with the failing fields, 404 for no item, 403 for a non-owner, all with no change; otherwise the old file is removed, image_path becomes the new name and the response returns that same path |
| ImageUpload.Delete | backend/app/Http/Controllers/API/ImageUploadController.php:88-113 | returns 403 for a non-owner, and 400 with no change when image_path is not set; otherwise the file is removed and image_path becomes null |
| ImageUpload.BulkErrors | backend/app/Http/Controllers/API/ImageUploadController.php:121-126 | images and clothing_item_ids fail iff missing or empty; images.* fails iff some image is not a jpeg, png, jpg or gif of at most 2048 KB; clothing_item_ids.* fails iff some id names no item |
| ImageUpload.RunKeepsRows | backend/app/Http/Controllers/API/ImageUploadController.php:145-179 | the batch keeps the same rows and changes nothing but image paths |
| ImageUpload.OneResultPerImage | backend/app/Http/Controllers/API/ImageUploadController.php:145-179 | exactly one result per image in input order; each follows from whether the caller owned the item when the request came in, so a failure never stops later pairs |
| ImageUpload.LastIndexOf | backend/app/Http/Controllers/API/ImageUploadController.php:145-146 | the last position among the first n whose id is the given one, or -1 when there is none |
| ImageUpload.FinalImagePath | backend/app/Http/Controllers/API/ImageUploadController.php:160-172 | an owned item named in the batch ends pointing at the file of its last pair; any other item keeps its path |
| ImageUpload.UntouchedUnlessOwnedAndNamed | backend/app/Http/Controllers/API/ImageUploadController.php:147-157 | a missing, foreign or unnamed item leaves the batch exactly as it went in |
| ImageUpload.RunKeepsImagesConsistent | backend/app/Http/Controllers/API/ImageUploadController.php:159-172 | with fresh names the batch keeps every path on the disk and no file shared; the disk gains only this batch's names |
| ImageUpload.RunKeepsKeys | backend/app/Http/Controllers/API/ImageUploadController.php:171-172 | the batch keeps every row under its own key and in an existing category |
| ImageUpload.UploadEach | backend/app/Http/Controllers/API/ImageUploadController.php:145-179 | the loop over the pairs ends in exactly the tables, disk and results of the fold Run over all pairs |
| ImageUpload.BulkUpload | backend/app/Http/Controllers/API/ImageUploadController.php:118-185 | 422 with the failing fields, or 400 on unequal counts, both before anything changes; otherwise the loop's final tables, disk and results are those of the fold Run, and the invariant is kept |
| Js.IdMatchesIsParseInt | frontend/src/stores/clothing.js:34 | the id test agrees with record.id === parseInt(String(id)) for every kind of value |
| Js.IdAfterIdeographicSpaceMatches | frontend/src/stores/clothing.js:34 | an id string with a leading ideographic space (U+3000) still matches, as parseInt skips it |
| Text.ParseIntOfNumberToString | frontend/src/stores/clothing.js:34 | parseInt of a number's decimal string gives the number back |
| Text.DigitCountIsLongest | frontend/src/stores/clothing.js:34 | parseInt reads the longest run of leading digits |
| Text.TrimStartDropsLeadingSpace | frontend/src/stores/clothing.js:34 | parseInt first skips the leading white space (the ECMAScript WhiteSpace and LineTerminator characters, every Unicode space separator included), and only that |
| Js.FindIndex | frontend/src/stores/clothing.js:206 | -1 when no element passes, otherwise the first position that passes |
| Js.Find | frontend/src/stores/clothing.js:34 | nothing when no element passes, otherwise the first element that passes |
| Js.Filter | frontend/src/stores/clothing.js:234 | the result holds only passing elements of the input, and every passing element |
| Js.FilterAppend | frontend/src/stores/clothing.js:234 | filtering works piece by piece, so the kept elements keep their relative order |
| Wrappers.ErrorText | frontend/src/stores/clothing.js:73 | `error.response?.data?.message || fallback`: the server's message when it is present and non-empty, the fallback otherwise |
| ClothingStore.Store.GetItemById | frontend/src/stores/clothing.js:33-35 | the first cached item whose id is parseInt(id), or nothing when none matches |
| ClothingStore.MergedFilters | frontend/src/stores/clothing.js:44-46 | the new filters win on their keys, every other filter key is kept, and nothing is added |
| ClothingStore.QueryParams | frontend/src/stores/clothing.js:50-54 | the parameters are page, per_page and every filter key, and a filter's value wins over page or per_page |
| ClothingStore.StripEmpty | frontend/src/stores/clothing.js:57-59 | the loop removes exactly the null and empty parameters and keeps the others unchanged |
| ClothingStore.SentParamsKeys | frontend/src/stores/clothing.js:50-59 | the query sent holds page and per_page (unless a filter replaces them) and every filter that is neither null nor empty, and no other key |
| ClothingStore.Store.FetchItems | frontend/src/stores/clothing.js:39-79 | on success items and pagination mirror the response; on failure they are kept, error is set and [] is returned; loading ends false |
| ClothingStore.Store.FetchItem | frontend/src/stores/clothing.js:81-98 | a falsy id changes nothing; otherwise the response becomes currentItem, or error is set and null returned |
| ClothingStore.BuildFormData | frontend/src/stores/clothing.js:113-128 | the loop produces the encoding of the item data, field by field in key order |
| ClothingStore.FavoriteText | frontend/src/stores/clothing.js:120 | favorite is written as 1 exactly when it is truthy, and as 0 otherwise |
| ClothingStore.EncodeField | frontend/src/stores/clothing.js:114-127 | a field adds at most one entry, under its own key |
| ClothingStore.EntriesUnderKey | frontend/src/stores/clothing.js:113-128 | under each key, the form holds exactly what that field encodes to |
| ClothingStore.NoEntriesUnderMissingKey | frontend/src/stores/clothing.js:113-128 | nothing is sent under a key the item data lacks |
| ClothingStore.FavoriteIsSentAsBoolean | frontend/src/stores/clothing.js:118-122 | favorite is sent once, as 1 or 0, which the server's boolean rule accepts and stores as the value's truthiness |
| ClothingStore.NullFieldIsOmitted | frontend/src/stores/clothing.js:123-127 | a null or undefined field other than favorite is not sent |
| ClothingStore.ImageFileIsSent | frontend/src/stores/clothing.js:114-117 | a File under image is sent as that file |
| ClothingStore.Store.CreateItem | frontend/src/stores/clothing.js:102-157 | on success the new item is at index 0 and the old items follow in order; on failure the cache is unchanged and error is set |
| ClothingStore.Store.UpdateItem | frontend/src/stores/clothing.js:160-224 | only the first item with the id is replaced, and the length is kept; nothing changes when none matches; currentItem is replaced only when its id matches |
| ClothingStore.Store.DeleteItem | frontend/src/stores/clothing.js:226-248 | on success no cached item carries the id, the others are kept by filter, and a matching currentItem becomes null; on failure it returns false |
| ClothingStore.Store.ToggleFavorite | frontend/src/stores/clothing.js:250-271 | only the favorite field of the first matching item and of a matching currentItem changes; every other field and item is unchanged |
| ClothingStore.Store.constructor | frontend/src/stores/clothing.js:6-24 | the initial state: empty cache, pagination (0, 1, 12, 1), the default filters |
| CategoryStore.Store.GetCategoryById | frontend/src/stores/category.js:14-16 | the first cached category whose id is parseInt(id), or nothing |
| CategoryStore.Store.FetchCategories | frontend/src/stores/category.js:20-35 | on success the cache becomes the response; on failure it is kept, error is set and [] is returned; loading ends false |
| CategoryStore.Store.FetchCategory | frontend/src/stores/category.js:37-52 | on success the response becomes currentCategory; on failure error is set and null returned |
| CategoryStore.Store.CreateCategory | frontend/src/stores/category.js:54-69 | on success the new category is appended, the length grows by one and the old entries are unchanged; on failure the cache is unchanged and the error rethrown |
| CategoryStore.Store.UpdateCategory | frontend/src/stores/category.js:71-94 | the first category with the id is replaced and the length kept, and currentCategory is always the response; on failure the cache and currentCategory are unchanged and the error is rethrown |
| CategoryStore.Store.DeleteCategory | frontend/src/stores/category.js:96-118 | on success every category with the id is removed and a matching currentCategory cleared; on failure the cache is unchanged and the error rethrown |
| CategoryStore.Store.constructor | frontend/src/stores/category.js:6-11 | the initial state is empty |
| AuthStore.InitialToken | frontend/src/stores/auth.js:8 | the stored token is used iff it is a non-empty string, otherwise null |
| AuthStore.ChosenTokenIsFirstTruthy | frontend/src/stores/auth.js:25 | token is used when truthy, otherwise access_token |
| AuthStore.TruthyPrintsNonEmpty | frontend/src/stores/auth.js:28 | a truthy token prints as a non-empty string |
| AuthStore.SessionSurvivesReload | frontend/src/stores/auth.js:28 | a usable token written to storage is read back as a usable token with the same text |
| AuthStore.MissingTokenIsRestoredAsText | frontend/src/stores/auth.js:25-28 | a reply with neither field stores "undefined", which a reload reads back as a usable token |
| AuthStore.Store.IsAuthenticated | frontend/src/stores/auth.js:14 | `!!token`: true for a non-empty string, a non-zero number, true or a file, false for null, undefined, false, 0 and the empty string |
| AuthStore.Store.constructor | frontend/src/stores/auth.js:6-11 | the initial state takes the token from storage and keeps the store in sync with storage |
| AuthStore.Store.FetchUser | frontend/src/stores/auth.js:63-79 | without a token nothing changes; on success the user is set; on failure user, token and storage are cleared and the error is 'Session expired' |
| AuthStore.Store.SignIn | frontend/src/stores/auth.js:19-39 | the steps login and register share: store the chosen token in state and storage, then fetch the user |
| AuthStore.Store.Login | frontend/src/stores/auth.js:19-39 | returns true iff the request succeeded; is authenticated afterwards iff a token was chosen and the user was fetched; a failed user fetch ends the session with 'Session expired'; a failed request sets the error and leaves the token |
| AuthStore.Store.Register | frontend/src/stores/auth.js:41-60 | as Login, with 'Registration failed' as the fallback message |
| AuthStore.Store.Logout | frontend/src/stores/auth.js:81-97 | the server is called iff there was a token; afterwards user, token and storage are cleared whatever the server answered |

## Left out

- Asynchrony: no two actions interleave, and each server outcome is a parameter. The HTTP requests, axios interceptors, `console` output and routing are not part of this model.
- `fetchFilterOptions` and `filterOptions` (frontend/src/stores/clothing.js:25-29, 273-282) are left out. The route goes to a controller method that does not exist.
- The eager-loaded `category` relation is left out: `ItemListing.Index`, `ItemController.Show` and `ItemController.Update` return bare `Item` rows (backend/app/Http/Controllers/API/ClothingItemController.php:18, 85, 121). Each row's `categoryId` names an existing category, so the nested object is `categories[categoryId]`.
- `updated_at` and the other timestamps are left out. Only `created_at` is kept, for ordering.
- The order of rows created in the same instant is not defined by the SQL. The model breaks such ties by the larger id.
- Matching:
  - Search is a plain substring test. SQL `LIKE` wildcards (`%`, `_`) inside the term and case-insensitive collation are not modelled.
  - PHP's loose comparison of numeric strings is not modelled. The `category_id` filter compares integers.
- Category name uniqueness is exact string equality; database collation is not modelled.
- `Str::random(20)` and the disk's own file names are parameters. That they are new to the disk is stated as a requirement, not derived.
- `storeAs('public', ...)` puts the file in the default disk's `public` folder, while deletes go to the `public` disk. The model treats both as one set of paths.
- `asset()` URLs are left out. A bulk result records the stored path instead.
- The second 400 of `upload` ("No image found", backend/app/Http/Controllers/API/ImageUploadController.php:80-82) is not modelled. Validation already demands the file, so it cannot be reached.
- The `image` rule infers the type from the file's content. The model takes that guess as a field of the file, and counts `svg` as an image as Laravel's list does.
- `ImageUpload.BulkUpload`: the loop works on local copies of the tables and the disk, written back after the loop. Nothing runs between the passes, so this is equivalent.
- Laravel reports a failed wildcard rule once per index (`images.0`, `clothing_item_ids.1`, ...). `ImageUpload.BulkErrors` reports one `images.*` or `clothing_item_ids.*` marker instead.
- The ownership test `$item->user_id !== auth()->id()` is strict, so it depends on the database driver returning `user_id` as an integer. The model compares integers, so it assumes the driver does.
- JavaScript numbers are modelled as integers, with no fractions, NaN or infinities.
- Array aliasing is not modelled: `currentItem` and the cached entry are separate values. In the source, `toggleFavorite` writes through the cached object, so an alias shared with `currentItem` would change too. The model changes each of them only when its id matches.
- `Object.keys` order is the order of the sequence of fields.
- The object passed to `createCategory` and `updateCategory` goes to the server unchanged and is not modelled.
- The category cache holds `Category` records without the `clothing_items_count` or the children the API attaches.
- `ClothingStore.StripEmpty`: as in the source, only null and `''` are removed, so an undefined parameter stays in the map. How axios serialises it is not modelled.
- The listing ignores `per_page`, and `color`, `size` and `brand` are not filters on the server, as in the source.
- The client sends an `image` that is not a File as text, just as it does any other non-null field. The model follows the code.
- An item created without `favorite` takes the column default, false, from the migration. The migration is not part of this model.
- The `currentUser` getter only returns `user` and has no separate member.
- The user record stands for whatever the user endpoint returns.
