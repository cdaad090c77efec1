/** The `clothing` store of the client: a cache of the user's items, the item
    being viewed, the list filters and the pagination of the last listing.
    Each action is one step whose server outcome is a parameter; `loading`
    is shown as it is once the action has finished. */
module ClothingStore {
  import opened Wrappers
  import opened Records
  import opened Js
  import opened Rules
  import ItemListing

  // ---------------------------------------------------------------------
  // Query parameters of `fetchItems`
  // ---------------------------------------------------------------------

  /** The filters a fresh store starts with. */
  function InitialFilters(): (r: map<string, JsValue>)
  {
    map["search" := JStr(""), "category_id" := JNull, "favorite" := JNull,
        "color" := JNull, "size" := JNull, "brand" := JNull]
  }

  /** `{ ...filters, ...newFilters }` when new filters are given. */
  function MergedFilters(filters: map<string, JsValue>, newFilters: Option<map<string, JsValue>>)
    : (r: map<string, JsValue>)
    ensures newFilters.None? ==> r == filters
    ensures newFilters.Some? ==> r.Keys == filters.Keys + newFilters.value.Keys
    ensures newFilters.Some? ==> forall k :: k in newFilters.value ==> r[k] == newFilters.value[k]
    ensures newFilters.Some? ==> forall k :: k in filters && k !in newFilters.value ==> r[k] == filters[k]
  {
    if newFilters.Some? then filters + newFilters.value else filters
  }

  /** `{ page, per_page, ...filters }`: a filter of the same name wins. */
  function QueryParams(page: int, perPage: int, filters: map<string, JsValue>): (r: map<string, JsValue>)
    ensures r.Keys == filters.Keys + {"page", "per_page"}
    ensures forall k :: k in filters ==> r[k] == filters[k]
  {
    map["page" := JNum(page), "per_page" := JNum(perPage)] + filters
  }

  /** A parameter survives unless it is null or the empty string. */
  predicate Kept(v: JsValue)
  {
    v != JNull && v != JStr("")
  }

  /** The parameters left once the null and empty ones are deleted. */
  function Stripped(params: map<string, JsValue>): (r: map<string, JsValue>)
    ensures forall k :: k in r <==> k in params && Kept(params[k])
    ensures forall k :: k in r ==> r[k] == params[k]
  {
    map k | k in params && Kept(params[k]) :: params[k]
  }

  /** The loop that deletes every null or empty parameter. */
  method StripEmpty(params: map<string, JsValue>) returns (r: map<string, JsValue>)
    ensures forall k :: k in r <==> k in params && Kept(params[k])
    ensures forall k :: k in r ==> r[k] == params[k]
    ensures r == Stripped(params)
  {
    r := params;
    var keys := params.Keys;
    while keys != {}
      invariant keys <= params.Keys
      invariant forall k :: k in r <==> k in params && (k in keys || Kept(params[k]))
      invariant forall k :: k in r ==> r[k] == params[k]
      decreases keys
    {
      var k :| k in keys;
      if !Kept(params[k]) {
        r := r - {k};
      }
      keys := keys - {k};
    }
  }

  /** The parameters `fetchItems` sends. */
  method Send(page: int, perPage: int, filters: map<string, JsValue>) returns (sent: map<string, JsValue>)
    ensures sent == Stripped(QueryParams(page, perPage, filters))
  {
    sent := StripEmpty(QueryParams(page, perPage, filters));
  }

  /** The query string of the listing request: `page` and `per_page` unless a
      filter of that name replaces them, and every filter that is neither
      null nor empty; nothing else. */
  lemma SentParamsKeys(page: int, perPage: int, filters: map<string, JsValue>)
    ensures var sent := Stripped(QueryParams(page, perPage, filters));
      && (forall k :: k in sent <==>
            (k in filters && Kept(filters[k])) || (k !in filters && (k == "page" || k == "per_page")))
      && (forall k :: k in sent && k in filters ==> sent[k] == filters[k])
      && ("page" !in filters ==> sent["page"] == JNum(page))
      && ("per_page" !in filters ==> sent["per_page"] == JNum(perPage))
  {
    var params := QueryParams(page, perPage, filters);
    assert "page" !in filters ==> params["page"] == JNum(page);
    assert "per_page" !in filters ==> params["per_page"] == JNum(perPage);
  }

  // ---------------------------------------------------------------------
  // The form `createItem` and `updateItem` post
  // ---------------------------------------------------------------------

  /** One multipart entry: a text value or a file. */
  datatype FormEntry = FormText(key: string, text: string) | FormFile(key: string, fileName: string)

  /** `formData.append(key, v)`: a File is sent as a file, anything else as its string. */
  function Entry(key: string, v: JsValue): (r: FormEntry)
    ensures r.key == key
  {
    if v.JFile? then FormFile(key, v.name) else FormText(key, ToString(v))
  }

  /** `favorite ? 1 : 0`. */
  function FavoriteText(v: JsValue): (r: string)
    ensures r == "1" <==> Truthy(v)
    ensures r == "0" || r == "1"
  {
    if Truthy(v) then "1" else "0"
  }

  /** The entries one field of the item data adds. A File under `image` is
      sent as the file; `favorite` always as 1 or 0; any other field unless
      it is null or undefined (so an `image` that is not a File goes as text). */
  function EncodeField(key: string, v: JsValue): (r: seq<FormEntry>)
    ensures |r| <= 1
    ensures forall i :: 0 <= i < |r| ==> r[i].key == key
  {
    if key == "image" && v.JFile? then [FormFile("image", v.name)]
    else if key == "favorite" then [FormText("favorite", FavoriteText(v))]
    else if v != JNull && v != JUndefined then [Entry(key, v)]
    else []
  }

  /** The entries of all fields, in the order of the object's keys. */
  function EncodeAll(fields: seq<(string, JsValue)>): (r: seq<FormEntry>)
    ensures |r| <= |fields|
  {
    if |fields| == 0 then []
    else EncodeAll(fields[..|fields| - 1]) + EncodeField(fields[|fields| - 1].0, fields[|fields| - 1].1)
  }

  /** The `Object.keys(itemData).forEach` loop that fills the form. */
  method BuildFormData(fields: seq<(string, JsValue)>) returns (form: seq<FormEntry>)
    ensures form == EncodeAll(fields)
  {
    form := [];
    var i := 0;
    while i < |fields|
      invariant 0 <= i <= |fields|
      invariant form == EncodeAll(fields[..i])
    {
      var (key, v) := fields[i];
      if key == "image" && v.JFile? {
        form := form + [FormFile("image", v.name)];
      } else if key == "favorite" {
        form := form + [FormText(key, FavoriteText(v))];
      } else if v != JNull && v != JUndefined {
        form := form + [Entry(key, v)];
      }
      assert fields[..i + 1][..i] == fields[..i];
      i := i + 1;
    }
    assert fields[..i] == fields;
  }

  /** An object's keys are distinct. */
  predicate DistinctKeys(fields: seq<(string, JsValue)>)
  {
    forall i, j :: 0 <= i < j < |fields| ==> fields[i].0 != fields[j].0
  }

  function KeyIs(key: string): FormEntry -> bool
  {
    (e: FormEntry) => e.key == key
  }

  /** Nothing is sent under a key the item data does not have. */
  lemma {:induction false} NoEntriesUnderMissingKey(fields: seq<(string, JsValue)>, key: string)
    requires forall k :: 0 <= k < |fields| ==> fields[k].0 != key
    ensures Filter(EncodeAll(fields), KeyIs(key)) == []
  {
    if |fields| > 0 {
      var init, last := fields[..|fields| - 1], fields[|fields| - 1];
      NoEntriesUnderMissingKey(init, key);
      var tail := EncodeField(last.0, last.1);
      FilterAppend(EncodeAll(init), tail, KeyIs(key));
      FilterNonePass(tail, KeyIs(key));
    }
  }

  /** Under each key of the item data the form holds exactly what that one
      field encodes to. */
  lemma {:induction false} EntriesUnderKey(fields: seq<(string, JsValue)>, k: nat)
    requires DistinctKeys(fields) && k < |fields|
    ensures Filter(EncodeAll(fields), KeyIs(fields[k].0)) == EncodeField(fields[k].0, fields[k].1)
  {
    var key := fields[k].0;
    var init, last := fields[..|fields| - 1], fields[|fields| - 1];
    var tail := EncodeField(last.0, last.1);
    FilterAppend(EncodeAll(init), tail, KeyIs(key));
    if k == |fields| - 1 {
      NoEntriesUnderMissingKey(init, key);
      FilterAllPass(tail, KeyIs(key));
    } else {
      EntriesUnderKey(init, k);
      FilterNonePass(tail, KeyIs(key));
    }
  }

  /** `favorite` is always sent once, as "1" or "0", which the server's
      `boolean` rule accepts and stores as the field's truthiness. */
  lemma FavoriteIsSentAsBoolean(fields: seq<(string, JsValue)>, k: nat)
    requires DistinctKeys(fields) && k < |fields| && fields[k].0 == "favorite"
    ensures var t := FavoriteText(fields[k].1);
      && Filter(EncodeAll(fields), KeyIs("favorite")) == [FormText("favorite", t)]
      && AcceptsBoolean(SStr(t)) && AsBool(SStr(t)) == Truthy(fields[k].1)
  {
    EntriesUnderKey(fields, k);
  }

  /** A null or undefined field other than `favorite` is not sent. */
  lemma NullFieldIsOmitted(fields: seq<(string, JsValue)>, k: nat)
    requires DistinctKeys(fields) && k < |fields| && fields[k].0 != "favorite"
    requires fields[k].1 == JNull || fields[k].1 == JUndefined
    ensures Filter(EncodeAll(fields), KeyIs(fields[k].0)) == []
  {
    EntriesUnderKey(fields, k);
  }

  /** A File under `image` is sent as that file. */
  lemma ImageFileIsSent(fields: seq<(string, JsValue)>, k: nat)
    requires DistinctKeys(fields) && k < |fields| && fields[k].0 == "image" && fields[k].1.JFile?
    ensures Filter(EncodeAll(fields), KeyIs("image")) == [FormFile("image", fields[k].1.name)]
  {
    EntriesUnderKey(fields, k);
  }

  // ---------------------------------------------------------------------
  // The store
  // ---------------------------------------------------------------------

  datatype Pagination = Pagination(total: nat, currentPage: nat, perPage: nat, lastPage: nat)

  function HasId(id: JsValue): Item -> bool
  {
    (it: Item) => IdMatches(it.id, id)
  }

  function LacksId(id: JsValue): Item -> bool
  {
    (it: Item) => !IdMatches(it.id, id)
  }

  /** `currentItem && currentItem.id === parseInt(id)`. */
  predicate IsCurrent(current: Option<Item>, id: JsValue)
  {
    current.Some? && IdMatches(current.value.id, id)
  }

  class Store {
    var items: seq<Item>
    var currentItem: Option<Item>
    var loading: bool
    var error: Option<string>
    var pagination: Pagination
    var filters: map<string, JsValue>

    constructor ()
      ensures items == [] && currentItem == None && !loading && error == None
      ensures pagination == Pagination(0, 1, 12, 1) && filters == InitialFilters()
    {
      items, currentItem, loading, error := [], None, false, None;
      pagination, filters := Pagination(0, 1, 12, 1), InitialFilters();
    }

    /** `getItemById`: the first cached item whose id is `parseInt(id)`. */
    function GetItemById(id: JsValue): (r: Option<Item>)
      reads this
      ensures r.None? <==> forall j :: 0 <= j < |items| ==> !IdMatches(items[j].id, id)
      ensures r.Some? ==> exists j :: (0 <= j < |items| && items[j] == r.value && IdMatches(items[j].id, id)
        && forall i :: 0 <= i < j ==> !IdMatches(items[i].id, id))
    {
      Find(items, HasId(id))
    }

    /** `fetchItems(page, newFilters)`: merges the filters, sends the stripped
        parameters, and mirrors a successful response in `items` and
        `pagination`; a failure keeps both and returns `[]`. */
    method FetchItems(page: int, newFilters: Option<map<string, JsValue>>, reply: Reply<ItemListing.Page>)
      returns (sent: map<string, JsValue>, result: seq<Item>)
      modifies this
      ensures filters == MergedFilters(old(filters), newFilters)
      ensures sent == Stripped(QueryParams(page, old(pagination.perPage), filters))
      ensures !loading && currentItem == old(currentItem)
      ensures reply.Ok? ==>
        var p := reply.body;
        && items == p.data && result == items && error == None
        && pagination == Pagination(p.total, p.currentPage, p.perPage, p.lastPage)
      ensures reply.Fail? ==>
        && result == [] && items == old(items) && pagination == old(pagination)
        && error == Some(ErrorText(reply.message, "Failed to load clothing items"))
    {
      loading, error := true, None;
      filters := MergedFilters(filters, newFilters);
      sent := Send(page, pagination.perPage, filters);
      match reply {
      case Ok(p) =>
        items := p.data;
        pagination := Pagination(p.total, p.currentPage, p.perPage, p.lastPage);
        result := items;
      case Fail(message) =>
        error := Some(ErrorText(message, "Failed to load clothing items"));
        result := [];
      }
      loading := false;
    }

    /** `fetchItem(id)`: nothing happens for a falsy id; otherwise the
        response becomes `currentItem`. A failure returns null, not an error. */
    method FetchItem(id: JsValue, reply: Reply<Item>) returns (result: Option<Item>)
      modifies this
      ensures !Truthy(id) ==> result.None? && unchanged(this)
      ensures Truthy(id) ==>
        && !loading && items == old(items) && pagination == old(pagination) && filters == old(filters)
        && (reply.Ok? ==> currentItem == Some(reply.body) && result == currentItem && error == None)
        && (reply.Fail? ==>
              result.None? && currentItem == old(currentItem)
              && error == Some(ErrorText(reply.message, "Failed to load item #" + ToString(id))))
    {
      if !Truthy(id) {
        return None;
      }
      loading, error := true, None;
      match reply {
      case Ok(body) =>
        currentItem := Some(body);
        result := Some(body);
      case Fail(message) =>
        error := Some(ErrorText(message, "Failed to load item #" + ToString(id)));
        result := None;
      }
      loading := false;
    }

    /** `createItem(itemData)`: posts the encoded form; the created item goes
        to the front of the cache. `None` stands for the rethrown error. */
    method CreateItem(itemData: seq<(string, JsValue)>, reply: Reply<Item>)
      returns (sent: seq<FormEntry>, result: Option<Item>)
      modifies this
      ensures sent == EncodeAll(itemData)
      ensures !loading && currentItem == old(currentItem) && pagination == old(pagination) && filters == old(filters)
      ensures reply.Ok? ==>
        && items == [reply.body] + old(items) && result == Some(reply.body) && error == None
        && items[0] == reply.body && items[1..] == old(items)
      ensures reply.Fail? ==>
        result.None? && items == old(items) && error == Some(ErrorText(reply.message, "Failed to create item"))
    {
      loading, error := true, None;
      sent := BuildFormData(itemData);
      match reply {
      case Ok(body) =>
        items := [body] + items;
        result := Some(body);
      case Fail(message) =>
        error := Some(ErrorText(message, "Failed to create item"));
        result := None;
      }
      loading := false;
    }

    /** `updateItem(id, itemData)`: posts `_method=PUT` and the encoded form;
        the response replaces the first cached item with that id, if any, and
        a matching `currentItem`. */
    method UpdateItem(id: JsValue, itemData: seq<(string, JsValue)>, reply: Reply<Item>)
      returns (sent: seq<FormEntry>, result: Option<Item>)
      modifies this
      ensures sent == [FormText("_method", "PUT")] + EncodeAll(itemData)
      ensures !loading && pagination == old(pagination) && filters == old(filters)
      ensures |items| == |old(items)|
      ensures reply.Ok? ==>
        var i := FindIndex(old(items), HasId(id));
        && result == Some(reply.body) && error == None
        && items == (if i == -1 then old(items) else old(items)[i := reply.body])
        && currentItem == (if IsCurrent(old(currentItem), id) then Some(reply.body) else old(currentItem))
      ensures reply.Fail? ==>
        && result.None? && items == old(items) && currentItem == old(currentItem)
        && error == Some(ErrorText(reply.message, "Failed to update item #" + ToString(id)))
    {
      loading, error := true, None;
      var form := BuildFormData(itemData);
      sent := [FormText("_method", "PUT")] + form;
      match reply {
      case Ok(body) =>
        var index := FindIndex(items, HasId(id));
        if index != -1 {
          items := items[index := body];
        }
        if IsCurrent(currentItem, id) {
          currentItem := Some(body);
        }
        result := Some(body);
      case Fail(message) =>
        error := Some(ErrorText(message, "Failed to update item #" + ToString(id)));
        result := None;
      }
      loading := false;
    }

    /** `deleteItem(id)`: drops every cached item with that id and a matching
        `currentItem`; a failure is reported by returning false. */
    method DeleteItem(id: JsValue, reply: Reply<()>) returns (ok: bool)
      modifies this
      ensures ok <==> reply.Ok?
      ensures !loading && pagination == old(pagination) && filters == old(filters)
      ensures reply.Ok? ==>
        && items == Filter(old(items), LacksId(id)) && error == None
        && (forall j :: 0 <= j < |items| ==> !IdMatches(items[j].id, id))
        && currentItem == (if IsCurrent(old(currentItem), id) then None else old(currentItem))
      ensures reply.Fail? ==>
        && items == old(items) && currentItem == old(currentItem)
        && error == Some(ErrorText(reply.message, "Failed to delete item #" + ToString(id)))
    {
      loading, error := true, None;
      match reply {
      case Ok(_) =>
        items := Filter(items, LacksId(id));
        if IsCurrent(currentItem, id) {
          currentItem := None;
        }
        ok := true;
      case Fail(message) =>
        error := Some(ErrorText(message, "Failed to delete item #" + ToString(id)));
        ok := false;
      }
      loading := false;
    }

    /** `toggleFavorite(id, favorite)`: only the `favorite` field of the first
        cached item with that id, and of a matching `currentItem`, changes;
        `loading` and `error` are left alone and a failure is rethrown. */
    method ToggleFavorite(id: JsValue, favorite: bool, reply: Reply<Item>) returns (result: Option<Item>)
      modifies this
      ensures loading == old(loading) && error == old(error)
      ensures pagination == old(pagination) && filters == old(filters)
      ensures |items| == |old(items)|
      ensures forall j :: 0 <= j < |items| ==> items[j] == old(items)[j].(favorite := items[j].favorite)
      ensures reply.Ok? ==>
        var i := FindIndex(old(items), HasId(id));
        && result == Some(reply.body)
        && (forall j :: 0 <= j < |items| && j != i ==> items[j] == old(items)[j])
        && (i != -1 ==> items[i].favorite == favorite)
        && currentItem == (if IsCurrent(old(currentItem), id) then Some(old(currentItem).value.(favorite := favorite))
                           else old(currentItem))
      ensures reply.Fail? ==> result.None? && items == old(items) && currentItem == old(currentItem)
    {
      match reply {
      case Ok(body) =>
        var index := FindIndex(items, HasId(id));
        if index != -1 {
          items := items[index := items[index].(favorite := favorite)];
        }
        if IsCurrent(currentItem, id) {
          currentItem := Some(currentItem.value.(favorite := favorite));
        }
        result := Some(body);
      case Fail(_) =>
        result := None;
      }
    }
  }
}
