/** `GET /clothing-items`: the caller's items, narrowed by the optional
    category, favorite and search filters, newest first, 15 to a page. */
module ItemListing {
  import opened Wrappers
  import opened Records
  import opened Text

  const PerPage: nat := 15

  /** The filter parameters the listing reads. */
  datatype ItemQuery = ItemQuery(
    categoryId: Field<int>,
    favorite: Field<string>,
    search: Field<string>)

  /** `$request->favorite == 'true' || $request->favorite == '1'`; an empty
      parameter arrives as null and compares false. */
  predicate FavoriteWanted(f: Field<string>)
  {
    f.Given? && (f.value == "true" || f.value == "1")
  }

  /** `where('category_id', v)`; a null value becomes `whereNull`, which no
      item meets because every item has a category. */
  predicate MatchesCategory(q: ItemQuery, it: Item)
  {
    match q.categoryId
    case Absent => true
    case Null => false
    case Given(c) => it.categoryId == c
  }

  predicate MatchesFavorite(q: ItemQuery, it: Item)
  {
    q.favorite.Absent? || it.favorite == FavoriteWanted(q.favorite)
  }

  /** The search term; a null term makes the pattern `%%`. */
  function SearchTerm(f: Field<string>): string
  {
    if f.Given? then f.value else ""
  }

  /** The OR-group: the term occurs in the name, description, brand or color. */
  predicate MatchesSearch(q: ItemQuery, it: Item)
  {
    q.search.Absent? ||
      var t := SearchTerm(q.search);
      Contains(it.name, t) || ColumnContains(it.description, t)
      || ColumnContains(it.brand, t) || ColumnContains(it.color, t)
  }

  /** The whole `where` clause: owner, then each filter the query carries. */
  predicate Matches(caller: nat, q: ItemQuery, it: Item)
  {
    it.userId == caller && MatchesCategory(q, it) && MatchesFavorite(q, it) && MatchesSearch(q, it)
  }

  // ---------------------------------------------------------------------
  // Ordering: `latest()` sorts by created_at descending. Rows created at the
  // same moment are put in descending id order.
  // ---------------------------------------------------------------------

  predicate Newer(items: map<nat, Item>, a: nat, b: nat)
    requires a in items && b in items
  {
    items[a].createdAt > items[b].createdAt || (items[a].createdAt == items[b].createdAt && a > b)
  }

  predicate IsNewest(items: map<nat, Item>, ids: set<nat>, m: nat)
    requires ids <= items.Keys
  {
    m in ids && forall o :: o in ids && o != m ==> Newer(items, m, o)
  }

  lemma {:induction false} NewestExists(items: map<nat, Item>, ids: set<nat>)
    requires ids <= items.Keys && ids != {}
    ensures exists m :: IsNewest(items, ids, m)
    decreases ids
  {
    var x :| x in ids;
    if ids == {x} {
      assert IsNewest(items, ids, x);
    } else {
      NewestExists(items, ids - {x});
      var m :| IsNewest(items, ids - {x}, m);
      if Newer(items, x, m) {
        forall o | o in ids && o != x
          ensures Newer(items, x, o)
        {
          if o != m { assert Newer(items, m, o); }
        }
        assert IsNewest(items, ids, x);
      } else {
        assert IsNewest(items, ids, m);
      }
    }
  }

  /** The ids of `ids`, each once, newest first. */
  function NewestFirst(items: map<nat, Item>, ids: set<nat>): (r: seq<nat>)
    requires ids <= items.Keys
    ensures |r| == |ids|
    ensures forall i :: 0 <= i < |r| ==> r[i] in ids
    ensures forall id :: id in ids ==> id in r
    ensures forall i, j :: 0 <= i < j < |r| ==> Newer(items, r[i], r[j])
    decreases ids
  {
    if ids == {} then []
    else
      NewestExists(items, ids);
      var m :| IsNewest(items, ids, m);
      var rest := NewestFirst(items, ids - {m});
      assert forall j :: 0 <= j < |rest| ==> Newer(items, m, rest[j]);
      [m] + rest
  }

  /** Every matching row, in `latest()` order, before paging. */
  function Listing(items: map<nat, Item>, caller: nat, q: ItemQuery): (r: seq<nat>)
    ensures forall id :: id in r <==> id in items && Matches(caller, q, items[id])
    ensures forall i :: 0 <= i < |r| ==> r[i] in items
    ensures forall i, j :: 0 <= i < j < |r| ==> r[i] != r[j] && items[r[i]].createdAt >= items[r[j]].createdAt
  {
    var ids := set id | id in items && Matches(caller, q, items[id]);
    NewestFirst(items, ids)
  }

  // ---------------------------------------------------------------------
  // Paging: `paginate(15)`.
  // ---------------------------------------------------------------------

  /** The JSON page object: `data`, `total`, `current_page`, `per_page`, `last_page`. */
  datatype Page = Page(data: seq<Item>, total: nat, currentPage: nat, perPage: nat, lastPage: nat)

  /** The page asked for, or 1 when the parameter is missing, not an integer or below 1. */
  function CurrentPage(p: Option<int>): (r: nat)
    ensures r >= 1
    ensures p.Some? && p.value >= 1 ==> r == p.value
    ensures !(p.Some? && p.value >= 1) ==> r == 1
  {
    if p.Some? && p.value >= 1 then p.value else 1
  }

  /** `max(ceil(total / 15), 1)`. */
  function LastPage(total: nat): (r: nat)
    ensures r >= 1
    ensures total <= r * PerPage
    ensures total > 0 ==> (r - 1) * PerPage < total
    ensures total == 0 ==> r == 1
  {
    if total == 0 then 1 else (total + PerPage - 1) / PerPage
  }

  /** The rows of page `page` out of `ids`. */
  function Window(ids: seq<nat>, page: nat): (r: seq<nat>)
    requires page >= 1
    ensures |r| <= PerPage
    ensures (page - 1) * PerPage >= |ids| ==> r == []
    ensures (page - 1) * PerPage < |ids| ==>
      |r| == (if page * PerPage <= |ids| then PerPage else |ids| - (page - 1) * PerPage)
    ensures forall i :: 0 <= i < |r| ==> (page - 1) * PerPage + i < |ids| && r[i] == ids[(page - 1) * PerPage + i]
  {
    var start := (page - 1) * PerPage;
    if start >= |ids| then []
    else ids[start..if start + PerPage <= |ids| then start + PerPage else |ids|]
  }

  /** The records of `ids`, in the same order. */
  function Rows(items: map<nat, Item>, ids: seq<nat>): (r: seq<Item>)
    requires forall i :: 0 <= i < |ids| ==> ids[i] in items
    ensures |r| == |ids| && forall i :: 0 <= i < |r| ==> r[i] == items[ids[i]]
  {
    seq(|ids|, i requires 0 <= i < |ids| => items[ids[i]])
  }

  /** The response of `index`. `page` is the `page` parameter, `None` when it
      is missing or is not an integer. */
  function Index(items: map<nat, Item>, caller: nat, q: ItemQuery, page: Option<int>): (r: Page)
    ensures r.perPage == PerPage && |r.data| <= PerPage
    ensures r.total == |Listing(items, caller, q)|
    ensures r.currentPage == CurrentPage(page) && r.lastPage == LastPage(r.total)
  {
    var ids := Listing(items, caller, q);
    var w := Window(ids, CurrentPage(page));
    Page(Rows(items, w), |ids|, CurrentPage(page), PerPage, LastPage(|ids|))
  }

  /** Row `i` of a page is entry `(page - 1) * 15 + i` of the ordered listing. */
  lemma RowOfListing(items: map<nat, Item>, caller: nat, q: ItemQuery, page: Option<int>, i: nat)
    requires i < |Index(items, caller, q, page).data|
    ensures var ids := Listing(items, caller, q);
      var k := (CurrentPage(page) - 1) * PerPage + i;
      k < |ids| && Index(items, caller, q, page).data[i] == items[ids[k]]
  {
    var ids := Listing(items, caller, q);
    var p := CurrentPage(page);
    assert Index(items, caller, q, page).data == Rows(items, Window(ids, p));
    assert forall j :: 0 <= j < |ids| ==> ids[j] in items;
    RowOfWindow(items, ids, p, i);
  }

  /** Row `i` of the records of a page is the record of entry
      `(page - 1) * 15 + i`. */
  lemma RowOfWindow(items: map<nat, Item>, ids: seq<nat>, page: nat, i: nat)
    requires page >= 1 && forall j :: 0 <= j < |ids| ==> ids[j] in items
    requires i < |Window(ids, page)|
    ensures var k := (page - 1) * PerPage + i;
      k < |ids| && Rows(items, Window(ids, page))[i] == items[ids[k]]
  {
  }

  /** Every row of a page is one of the caller's stored items and passes every filter. */
  lemma IndexRowsMatch(items: map<nat, Item>, caller: nat, q: ItemQuery, page: Option<int>)
    ensures var r := Index(items, caller, q, page);
      forall i :: 0 <= i < |r.data| ==>
        && r.data[i].userId == caller && Matches(caller, q, r.data[i])
        && exists id :: id in items && items[id] == r.data[i]
  {
    var ids := Listing(items, caller, q);
    var rows := Index(items, caller, q, page).data;
    forall i | 0 <= i < |rows|
      ensures rows[i].userId == caller && Matches(caller, q, rows[i])
      ensures exists id :: id in items && items[id] == rows[i]
    {
      RowOfListing(items, caller, q, page, i);
      var id := ids[(CurrentPage(page) - 1) * PerPage + i];
      assert id in ids;
      assert rows[i] == items[id];
    }
  }

  /** The rows of a page come newest first. */
  lemma IndexRowsOrdered(items: map<nat, Item>, caller: nat, q: ItemQuery, page: Option<int>)
    ensures var r := Index(items, caller, q, page);
      forall i, j :: 0 <= i < j < |r.data| ==> r.data[i].createdAt >= r.data[j].createdAt
  {
    var rows := Index(items, caller, q, page).data;
    forall i, j | 0 <= i < j < |rows|
      ensures rows[i].createdAt >= rows[j].createdAt
    {
      RowOfListing(items, caller, q, page, i);
      RowOfListing(items, caller, q, page, j);
    }
  }

  /** Position `k` of an ordered listing is row `k % 15` of page `k / 15 + 1`,
      and that page is at most the last page. */
  lemma WindowAt(ids: seq<nat>, k: nat)
    requires k < |ids|
    ensures var p := k / PerPage + 1;
      p <= LastPage(|ids|) && k % PerPage < |Window(ids, p)| && Window(ids, p)[k % PerPage] == ids[k]
  {
    var d, m := k / PerPage, k % PerPage;
    assert k == d * PerPage + m && m < PerPage;
    var p := d + 1;
    assert (p - 1) * PerPage == d * PerPage;
    var w := Window(ids, p);
    assert m < |w|;
  }

  /** Paging loses nothing: every row of the ordered listing is on a page
      between 1 and `last_page`, at its place in the order. */
  lemma EveryMatchIsOnAPage(items: map<nat, Item>, caller: nat, q: ItemQuery, k: nat)
    requires k < |Listing(items, caller, q)|
    ensures var p := k / PerPage + 1;
      var r := Index(items, caller, q, Some(p));
      p <= r.lastPage && k % PerPage < |r.data| && r.data[k % PerPage] == items[Listing(items, caller, q)[k]]
  {
    WindowAt(Listing(items, caller, q), k);
  }
}
