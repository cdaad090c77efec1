/** The JavaScript semantics the client stores lean on: dynamic values and
    their truthiness, string conversion, `parseInt` on an id, and the array
    methods `findIndex`, `find` and `filter`. */
module Js {
  import opened Wrappers
  import opened Text

  /** A value held in a store's state or passed to one of its actions. A
      `File` is known by its name. JavaScript numbers are modelled as integers. */
  datatype JsValue = JNull | JUndefined | JBool(b: bool) | JNum(n: int) | JStr(s: string) | JFile(name: string)

  /** `!!v`: false for null, undefined, false, 0 and the empty string. */
  predicate Truthy(v: JsValue)
  {
    match v
    case JNull => false
    case JUndefined => false
    case JBool(b) => b
    case JNum(n) => n != 0
    case JStr(s) => s != ""
    case JFile(_) => true
  }

  /** `String(v)`, which template literals and `parseInt` apply first. */
  function ToString(v: JsValue): string
  {
    match v
    case JNull => "null"
    case JUndefined => "undefined"
    case JBool(b) => if b then "true" else "false"
    case JNum(n) => NumberToString(n)
    case JStr(s) => s
    case JFile(_) => "[object File]"
  }

  /** `record.id === parseInt(id)`, by the kind of value `id` is: a number
      is its own value, a string is parsed, and anything else prints as a
      word and parses to NaN, which equals nothing. */
  predicate IdMatches(recordId: nat, id: JsValue)
  {
    match id
    case JNum(n) => n == recordId
    case JStr(s) => ParseInt(s) == Some(recordId as int)
    case _ => false
  }

  /** `IdMatches` is `parseInt(String(id)) === recordId` for every value. */
  lemma IdMatchesIsParseInt(recordId: nat, id: JsValue)
    ensures IdMatches(recordId, id) <==> ParseInt(ToString(id)) == Some(recordId as int)
  {
    match id
    case JNum(n) => ParseIntOfNumberToString(n);
    case JStr(_) =>
    case JNull => ParseIntOfWord("null");
    case JUndefined => ParseIntOfWord("undefined");
    case JBool(b) => ParseIntOfWord(if b then "true" else "false");
    case JFile(_) => ParseIntOfWord("[object File]");
  }

  /** An id behind an ideographic space still matches, since `parseInt`
      skips every Unicode space separator. */
  lemma IdAfterIdeographicSpaceMatches()
    ensures IdMatches(5, JStr("\U{3000}5"))
  {
    assert TrimStart("\U{3000}5") == "5" by {
      assert IsJsSpace('\U{3000}');
      assert "\U{3000}5"[1..] == "5";
    }
    assert DigitCount("5", 10) == 1;
  }

  /** `s.findIndex(p)`: the first position whose element satisfies `p`, or -1. */
  function FindIndex<T>(s: seq<T>, p: T -> bool): (r: int)
    ensures -1 <= r < |s|
    ensures r >= 0 ==> p(s[r]) && forall j :: 0 <= j < r ==> !p(s[j])
    ensures r == -1 ==> forall j :: 0 <= j < |s| ==> !p(s[j])
  {
    if |s| == 0 then -1
    else if p(s[0]) then 0
    else
      var k := FindIndex(s[1..], p);
      if k == -1 then -1 else k + 1
  }

  /** `s.find(p)`: the first element satisfying `p`, or undefined. */
  function Find<T>(s: seq<T>, p: T -> bool): (r: Option<T>)
    ensures r.None? <==> forall j :: 0 <= j < |s| ==> !p(s[j])
    ensures r.Some? ==> exists j :: 0 <= j < |s| && s[j] == r.value && p(s[j]) && forall i :: 0 <= i < j ==> !p(s[i])
  {
    var k := FindIndex(s, p);
    if k == -1 then None else Some(s[k])
  }

  /** `s.filter(p)`: the elements satisfying `p`, in their order. */
  function Filter<T>(s: seq<T>, p: T -> bool): (r: seq<T>)
    ensures |r| <= |s|
    ensures forall i :: 0 <= i < |r| ==> r[i] in s && p(r[i])
    ensures forall j :: 0 <= j < |s| && p(s[j]) ==> s[j] in r
  {
    if |s| == 0 then [] else (if p(s[0]) then [s[0]] else []) + Filter(s[1..], p)
  }

  /** Filtering works piece by piece, so kept elements keep their relative order. */
  lemma {:induction false} FilterAppend<T>(a: seq<T>, b: seq<T>, p: T -> bool)
    ensures Filter(a + b, p) == Filter(a, p) + Filter(b, p)
  {
    if |a| == 0 {
      assert a + b == b;
    } else {
      assert (a + b)[0] == a[0] && (a + b)[1..] == a[1..] + b;
      FilterAppend(a[1..], b, p);
      var head := if p(a[0]) then [a[0]] else [];
      calc {
        Filter(a + b, p);
        head + Filter(a[1..] + b, p);
        head + (Filter(a[1..], p) + Filter(b, p));
        (head + Filter(a[1..], p)) + Filter(b, p);
      }
    }
  }

  /** A stretch in which every element passes comes through whole. */
  lemma {:induction false} FilterAllPass<T>(s: seq<T>, p: T -> bool)
    requires forall j :: 0 <= j < |s| ==> p(s[j])
    ensures Filter(s, p) == s
  {
    if |s| > 0 {
      FilterAllPass(s[1..], p);
    }
  }

  /** A stretch in which no element passes vanishes. */
  lemma {:induction false} FilterNonePass<T>(s: seq<T>, p: T -> bool)
    requires forall j :: 0 <= j < |s| ==> !p(s[j])
    ensures Filter(s, p) == []
  {
    if |s| > 0 {
      FilterNonePass(s[1..], p);
    }
  }
}
