/** The `category` store of the client: a cache of the categories and the
    category being viewed. Each action is one step whose server outcome is a
    parameter; `loading` is shown as it is once the action has finished. A
    failed create, update or delete is rethrown, which `None` stands for. */
module CategoryStore {
  import opened Wrappers
  import opened Records
  import opened Js

  function HasId(id: JsValue): Category -> bool
  {
    (c: Category) => IdMatches(c.id, id)
  }

  function LacksId(id: JsValue): Category -> bool
  {
    (c: Category) => !IdMatches(c.id, id)
  }

  /** `currentCategory && currentCategory.id === parseInt(id)`. */
  predicate IsCurrent(current: Option<Category>, id: JsValue)
  {
    current.Some? && IdMatches(current.value.id, id)
  }

  class Store {
    var categories: seq<Category>
    var currentCategory: Option<Category>
    var loading: bool
    var error: Option<string>

    constructor ()
      ensures categories == [] && currentCategory == None && !loading && error == None
    {
      categories, currentCategory, loading, error := [], None, false, None;
    }

    /** `getCategoryById`: the first cached category whose id is `parseInt(id)`. */
    function GetCategoryById(id: JsValue): (r: Option<Category>)
      reads this
      ensures r.None? <==> forall j :: 0 <= j < |categories| ==> !IdMatches(categories[j].id, id)
      ensures r.Some? ==> exists j :: (0 <= j < |categories| && categories[j] == r.value
        && IdMatches(categories[j].id, id) && forall i :: 0 <= i < j ==> !IdMatches(categories[i].id, id))
    {
      Find(categories, HasId(id))
    }

    /** `fetchCategories`: the response replaces the cache; a failure keeps
        the cache and returns `[]`. */
    method FetchCategories(reply: Reply<seq<Category>>) returns (result: seq<Category>)
      modifies this
      ensures !loading && currentCategory == old(currentCategory)
      ensures reply.Ok? ==> categories == reply.body && result == categories && error == None
      ensures reply.Fail? ==>
        && result == [] && categories == old(categories)
        && error == Some(ErrorText(reply.message, "Failed to load categories"))
    {
      loading, error := true, None;
      match reply {
      case Ok(body) =>
        categories := body;
        result := categories;
      case Fail(message) =>
        error := Some(ErrorText(message, "Failed to load categories"));
        result := [];
      }
      loading := false;
    }

    /** `fetchCategory(id)`: the response becomes `currentCategory`; a failure
        returns null. */
    method FetchCategory(id: JsValue, reply: Reply<Category>) returns (result: Option<Category>)
      modifies this
      ensures !loading && categories == old(categories)
      ensures reply.Ok? ==> currentCategory == Some(reply.body) && result == currentCategory && error == None
      ensures reply.Fail? ==>
        && result.None? && currentCategory == old(currentCategory)
        && error == Some(ErrorText(reply.message, "Failed to load category #" + ToString(id)))
    {
      loading, error := true, None;
      match reply {
      case Ok(body) =>
        currentCategory := Some(body);
        result := Some(body);
      case Fail(message) =>
        error := Some(ErrorText(message, "Failed to load category #" + ToString(id)));
        result := None;
      }
      loading := false;
    }

    /** `createCategory`: the created category is pushed onto the end. */
    method CreateCategory(reply: Reply<Category>) returns (result: Option<Category>)
      modifies this
      ensures !loading && currentCategory == old(currentCategory)
      ensures reply.Ok? ==>
        && categories == old(categories) + [reply.body] && result == Some(reply.body) && error == None
        && |categories| == |old(categories)| + 1 && categories[..|old(categories)|] == old(categories)
      ensures reply.Fail? ==>
        && result.None? && categories == old(categories)
        && error == Some(ErrorText(reply.message, "Failed to create category"))
    {
      loading, error := true, None;
      match reply {
      case Ok(body) =>
        categories := categories + [body];
        result := Some(body);
      case Fail(message) =>
        error := Some(ErrorText(message, "Failed to create category"));
        result := None;
      }
      loading := false;
    }

    /** `updateCategory(id)`: the response replaces the first cached category
        with that id, if any, and always becomes `currentCategory`. */
    method UpdateCategory(id: JsValue, reply: Reply<Category>) returns (result: Option<Category>)
      modifies this
      ensures !loading && |categories| == |old(categories)|
      ensures reply.Ok? ==>
        var i := FindIndex(old(categories), HasId(id));
        && result == Some(reply.body) && error == None
        && categories == (if i == -1 then old(categories) else old(categories)[i := reply.body])
        && currentCategory == Some(reply.body)
      ensures reply.Fail? ==>
        && result.None? && categories == old(categories) && currentCategory == old(currentCategory)
        && error == Some(ErrorText(reply.message, "Failed to update category #" + ToString(id)))
    {
      loading, error := true, None;
      match reply {
      case Ok(body) =>
        var index := FindIndex(categories, HasId(id));
        if index != -1 {
          categories := categories[index := body];
        }
        currentCategory := Some(body);
        result := Some(body);
      case Fail(message) =>
        error := Some(ErrorText(message, "Failed to update category #" + ToString(id)));
        result := None;
      }
      loading := false;
    }

    /** `deleteCategory(id)`: drops every cached category with that id and a
        matching `currentCategory`. */
    method DeleteCategory(id: JsValue, reply: Reply<()>) returns (result: Option<bool>)
      modifies this
      ensures !loading
      ensures reply.Ok? ==>
        && result == Some(true) && error == None
        && categories == Filter(old(categories), LacksId(id))
        && (forall j :: 0 <= j < |categories| ==> !IdMatches(categories[j].id, id))
        && currentCategory == (if IsCurrent(old(currentCategory), id) then None else old(currentCategory))
      ensures reply.Fail? ==>
        && result.None? && categories == old(categories) && currentCategory == old(currentCategory)
        && error == Some(ErrorText(reply.message, "Failed to delete category #" + ToString(id)))
    {
      loading, error := true, None;
      match reply {
      case Ok(_) =>
        categories := Filter(categories, LacksId(id));
        if IsCurrent(currentCategory, id) {
          currentCategory := None;
        }
        result := Some(true);
      case Fail(message) =>
        error := Some(ErrorText(message, "Failed to delete category #" + ToString(id)));
        result := None;
      }
      loading := false;
    }
  }
}
