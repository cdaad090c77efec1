/** The `auth` store of the client: the signed-in user and the API token,
    which is mirrored in the browser's `localStorage` under the key `token`.
    The server's replies are parameters; the login and register requests
    themselves, and what they send, are not part of this model. */
module AuthStore {
  import opened Wrappers
  import opened Js

  datatype User = User(id: nat, name: string, email: string)

  /** The body of a login or register reply; a missing field is `undefined`. */
  datatype TokenReply = TokenReply(token: JsValue, accessToken: JsValue)

  /** `localStorage.getItem('token') || null`. */
  function InitialToken(stored: Option<string>): (r: JsValue)
    ensures Truthy(r) <==> stored.Some? && stored.value != ""
    ensures Truthy(r) ==> r == JStr(stored.value)
    ensures !Truthy(r) ==> r == JNull
  {
    if stored.Some? && stored.value != "" then JStr(stored.value) else JNull
  }

  /** `response.data.token || response.data.access_token`. */
  function ChosenToken(reply: TokenReply): (r: JsValue)
  {
    if Truthy(reply.token) then reply.token else reply.accessToken
  }

  /** The chosen token is usable exactly when one of the two fields is, and
      then it is the first usable one. */
  lemma ChosenTokenIsFirstTruthy(reply: TokenReply)
    ensures Truthy(ChosenToken(reply)) <==> Truthy(reply.token) || Truthy(reply.accessToken)
    ensures Truthy(reply.token) ==> ChosenToken(reply) == reply.token
    ensures !Truthy(reply.token) ==> ChosenToken(reply) == reply.accessToken
  {
  }

  /** What `localStorage.setItem('token', v)` stores. */
  function Stored(v: JsValue): (r: Option<string>)
  {
    Some(ToString(v))
  }

  /** A usable token prints as a non-empty string. */
  lemma TruthyPrintsNonEmpty(v: JsValue)
    requires Truthy(v)
    ensures ToString(v) != ""
  {
  }

  /** A usable token stored by the store is read back as a usable token
      with the same text when the page is loaded again, so a session
      survives a reload. */
  lemma SessionSurvivesReload(token: JsValue)
    requires Truthy(token)
    ensures Truthy(InitialToken(Stored(token)))
    ensures ToString(InitialToken(Stored(token))) == ToString(token)
  {
    TruthyPrintsNonEmpty(token);
  }

  /** A reply carrying neither field stores the text "undefined", which a
      reload reads back as a usable token although the store held none. */
  lemma MissingTokenIsRestoredAsText()
    ensures !Truthy(ChosenToken(TokenReply(JUndefined, JUndefined)))
    ensures InitialToken(Stored(ChosenToken(TokenReply(JUndefined, JUndefined)))) == JStr("undefined")
  {
  }

  class Store {
    var user: Option<User>
    var token: JsValue
    var loading: bool
    var error: Option<string>
    /** The browser's `localStorage` entry `token`. */
    var storedToken: Option<string>

    /** A usable token in the store is the one in storage. */
    ghost predicate InSync()
      reads this
    {
      Truthy(token) ==> storedToken == Stored(token)
    }

    constructor (stored: Option<string>)
      ensures InSync()
      ensures user == None && token == InitialToken(stored) && storedToken == stored
      ensures !loading && error == None
    {
      user, token, loading, error, storedToken := None, InitialToken(stored), false, None, stored;
    }

    /** `isAuthenticated`: `!!token`. */
    predicate IsAuthenticated(): (r: bool)
      reads this
      ensures r <==> match token
        case JStr(s) => s != ""
        case JNum(n) => n != 0
        case JBool(b) => b
        case JFile(_) => true
        case _ => false
    {
      Truthy(token)
    }

    /** `fetchUser`: without a token nothing happens; a failed lookup ends
        the session. */
    method FetchUser(reply: Reply<User>)
      requires InSync()
      modifies this
      ensures InSync()
      ensures !old(IsAuthenticated()) ==> unchanged(this)
      ensures old(IsAuthenticated()) && reply.Ok? ==>
        && user == Some(reply.body) && !loading
        && token == old(token) && storedToken == old(storedToken) && error == old(error)
      ensures old(IsAuthenticated()) && reply.Fail? ==>
        && user == None && token == JNull && storedToken == None && !loading
        && error == Some("Session expired")
    {
      if !Truthy(token) {
        return;
      }
      loading := true;
      match reply {
      case Ok(body) =>
        user := Some(body);
      case Fail(_) =>
        user, token, storedToken := None, JNull, None;
        error := Some("Session expired");
      }
      loading := false;
    }

    /** The shared body of `login` and `register`: take the reply's token,
        store it, and fetch the user when it is usable. */
    method SignIn(reply: Reply<TokenReply>, userReply: Reply<User>, fallback: string) returns (ok: bool)
      requires InSync()
      modifies this
      ensures InSync() && !loading
      ensures ok <==> reply.Ok?
      ensures reply.Fail? ==>
        && error == Some(ErrorText(reply.message, fallback))
        && user == old(user) && token == old(token) && storedToken == old(storedToken)
      ensures reply.Ok? && !Truthy(ChosenToken(reply.body)) ==>
        && token == ChosenToken(reply.body) && storedToken == Stored(token)
        && user == old(user) && error == None
      ensures reply.Ok? && Truthy(ChosenToken(reply.body)) && userReply.Ok? ==>
        && token == ChosenToken(reply.body) && storedToken == Stored(token)
        && user == Some(userReply.body) && error == None
      ensures reply.Ok? && Truthy(ChosenToken(reply.body)) && userReply.Fail? ==>
        && token == JNull && storedToken == None && user == None
        && error == Some("Session expired")
    {
      loading, error := true, None;
      match reply {
      case Ok(body) =>
        token := ChosenToken(body);
        storedToken := Stored(token);
        FetchUser(userReply);
        ok := true;
      case Fail(message) =>
        error := Some(ErrorText(message, fallback));
        ok := false;
      }
      loading := false;
    }

    /** `login`. */
    method Login(reply: Reply<TokenReply>, userReply: Reply<User>) returns (ok: bool)
      requires InSync()
      modifies this
      ensures InSync() && !loading
      ensures ok <==> reply.Ok?
      ensures reply.Fail? ==>
        && error == Some(ErrorText(reply.message, "Login failed"))
        && user == old(user) && token == old(token) && storedToken == old(storedToken)
      ensures reply.Ok? ==> (IsAuthenticated() <==> Truthy(ChosenToken(reply.body)) && userReply.Ok?)
      ensures reply.Ok? && IsAuthenticated() ==>
        && token == ChosenToken(reply.body) && storedToken == Stored(token)
        && user == Some(userReply.body) && error == None
      ensures reply.Ok? && Truthy(ChosenToken(reply.body)) && userReply.Fail? ==>
        && token == JNull && storedToken == None && user == None
        && error == Some("Session expired")
    {
      ok := SignIn(reply, userReply, "Login failed");
    }

    /** `register`: `login` with its own fallback message. */
    method Register(reply: Reply<TokenReply>, userReply: Reply<User>) returns (ok: bool)
      requires InSync()
      modifies this
      ensures InSync() && !loading
      ensures ok <==> reply.Ok?
      ensures reply.Fail? ==>
        && error == Some(ErrorText(reply.message, "Registration failed"))
        && user == old(user) && token == old(token) && storedToken == old(storedToken)
      ensures reply.Ok? ==> (IsAuthenticated() <==> Truthy(ChosenToken(reply.body)) && userReply.Ok?)
      ensures reply.Ok? && IsAuthenticated() ==>
        && token == ChosenToken(reply.body) && storedToken == Stored(token)
        && user == Some(userReply.body) && error == None
      ensures reply.Ok? && Truthy(ChosenToken(reply.body)) && userReply.Fail? ==>
        && token == JNull && storedToken == None && user == None
        && error == Some("Session expired")
    {
      ok := SignIn(reply, userReply, "Registration failed");
    }

    /** `logout`: the server is told only when there is a token, and whatever
        it answers the session ends. */
    method Logout() returns (calledServer: bool)
      requires InSync()
      modifies this
      ensures InSync()
      ensures calledServer <==> old(IsAuthenticated())
      ensures user == None && token == JNull && storedToken == None && !loading
      ensures error == old(error) && !IsAuthenticated()
    {
      loading := true;
      calledServer := Truthy(token);
      user, token, storedToken := None, JNull, None;
      loading := false;
    }
  }
}
