/** The user operations of api/user.ts: fetching the current user, creating
    it, and the get / create / get composition `callApi_ensureUser`. The
    network is replaced by the transport outcome of each request, since the
    two gets of one composition may see different server states. */
module UserApi {
  import opened Wrappers
  import opened Text
  import opened ApiEnum
  import opened Core

  datatype User = User(id: string, email: string, name: Option<string>)

  /** `{ success, data }`; `data` is JSON `null` when the server has no user. */
  datatype GetUserResponse = GetUserResponse(success: bool, data: Option<User>)

  /** `callApi_createUser` posts `{}`, an object and so a truthy body. */
  datatype EmptyObject = EmptyObject

  /** The request `callApi_getUser` sends. */
  function GetUserRequest(base: string, lookup: TokenLookup): Request<EmptyObject> {
    BuildRequest(AuthenticatedGet, base, UserGetRoute, lookup, None)
  }

  /** The request `callApi_createUser` sends. */
  function CreateUserRequest(base: string, lookup: TokenLookup): Request<EmptyObject> {
    BuildRequest(AuthenticatedPost, base, UserCreateRoute, lookup, Some(EmptyObject))
  }

  /** `callApi_getUser` as written: the user on success, no user when the
      error message mentions "404", the error itself otherwise. */
  function GetUser(t: Transport<GetUserResponse>): (r: Result<Option<User>, string>)
    ensures Interpret(t).Success? ==> r == Success(Interpret(t).value.data)
    ensures Interpret(t).Failure? && Contains(Interpret(t).error, "404") ==> r == Success(None)
    ensures r.Failure? <==> Interpret(t).Failure? && !Contains(Interpret(t).error, "404")
    ensures r.Failure? ==> r.error == Interpret(t).error
  {
    match Interpret(t)
    case Success(response) => Success(response.data)
    case Failure(message) => if Contains(message, "404") then Success(None) else Failure(message)
  }

  /** `callApi_createUser`: the response payload is discarded. */
  function CreateUser<P>(t: Transport<P>): (r: Result<(), string>)
    ensures r.Success? <==> Interpret(t).Success?
    ensures r.Failure? ==> r.error == Interpret(t).error
  {
    Interpret(t).MapValue((_: P) => ())
  }

  /** The backend calls a composition makes, in order. */
  datatype ApiCall = GetUserCall | CreateUserCall

  const CreateFailedMessage: string := "Failed to create user"

  /** The get / create / get composition over the outcomes of its three
      calls: a later call is made only when the earlier ones asked for it. */
  function Compose(first: Result<Option<User>, string>, create: Result<(), string>,
                   second: Result<Option<User>, string>): (r: (Result<User, string>, seq<ApiCall>))
    ensures first.Failure? ==> r == (Failure(first.error), [GetUserCall])
    ensures first.Success? && first.value.Some? ==> r == (Success(first.value.value), [GetUserCall])
    ensures first == Success(None) ==> |r.1| >= 2 && r.1[..2] == [GetUserCall, CreateUserCall]
    ensures first == Success(None) && create.Failure? ==> r == (Failure(create.error), [GetUserCall, CreateUserCall])
    ensures first == Success(None) && create.Success? ==>
      && r.1 == [GetUserCall, CreateUserCall, GetUserCall]
      && (second.Failure? ==> r.0 == Failure(second.error))
      && (second == Success(None) ==> r.0 == Failure(CreateFailedMessage))
      && (second.Success? && second.value.Some? ==> r.0 == Success(second.value.value))
    ensures CreateUserCall in r.1 <==> first == Success(None)
    ensures r.0.Success? ==> r.1[|r.1| - 1] == GetUserCall
  {
    match first
    case Failure(e) => (Failure(e), [GetUserCall])
    case Success(Some(u)) => (Success(u), [GetUserCall])
    case Success(None) =>
      match create
      case Failure(e) => (Failure(e), [GetUserCall, CreateUserCall])
      case Success(_) =>
        var trace := [GetUserCall, CreateUserCall, GetUserCall];
        match second
        case Failure(e) => (Failure(e), trace)
        case Success(None) => (Failure(CreateFailedMessage), trace)
        case Success(Some(u)) => (Success(u), trace)
  }

  /** `callApi_ensureUser` as written, given the transport outcome of each of
      its calls. An existing user is returned at once; when the first get
      reports none the user is created and fetched again, and every failure
      on the way is passed on. It returns a user only when some get returned
      one, and it creates the user only when the first get reported none. */
  function EnsureUser<P>(first: Transport<GetUserResponse>, create: Transport<P>,
                         second: Transport<GetUserResponse>): (r: (Result<User, string>, seq<ApiCall>))
    ensures r.0.Success? ==>
      || (GetUser(first) == Success(Some(r.0.value)) && r.1 == [GetUserCall])
      || (GetUser(second) == Success(Some(r.0.value)) && r.1 == [GetUserCall, CreateUserCall, GetUserCall])
    ensures CreateUserCall in r.1 <==> GetUser(first) == Success(None)
    ensures GetUser(first).Failure? ==> r.0 == Failure(Interpret(first).error)
    ensures GetUser(first).Success? && GetUser(first).value.Some? ==> r == (Success(GetUser(first).value.value), [GetUserCall])
    ensures GetUser(first) == Success(None) && Interpret(create).Failure? ==>
      r == (Failure(Interpret(create).error), [GetUserCall, CreateUserCall])
    ensures GetUser(first) == Success(None) && Interpret(create).Success? ==>
      && r.1 == [GetUserCall, CreateUserCall, GetUserCall]
      && (GetUser(second) == Success(None) ==> r.0 == Failure(CreateFailedMessage))
      && (GetUser(second).Success? && GetUser(second).value.Some? ==> r.0 == Success(GetUser(second).value.value))
      && (GetUser(second).Failure? ==> r.0 == Failure(GetUser(second).error))
  {
    Compose(GetUser(first), CreateUser(create), GetUser(second))
  }

  /** A missing user reported as status 404 with JSON `{ "error": "Not found" }`
      is rethrown instead of being created: the message the helper raises is
      "Not found", which does not mention "404". */
  lemma NotFoundWithErrorFieldIsRethrown<P>(r: GetUserResponse, create: Transport<P>,
                                            second: Transport<GetUserResponse>)
    ensures var first := Received(404, Json(Some("Not found"), r));
      EnsureUser(first, create, second) == (Failure("Not found"), [GetUserCall])
  {
    NotContainsFirst("Not found", "404");
  }

  /** A 404 whose body is not JSON is rethrown too: the helper's message is
      then "Request failed". */
  lemma NotFoundWithoutJsonIsRethrown<P>(syntaxError: string, create: Transport<P>,
                                         second: Transport<GetUserResponse>)
    ensures var first: Transport<GetUserResponse> := Received(404, Unparseable(syntaxError));
      EnsureUser(first, create, second) == (Failure("Request failed"), [GetUserCall])
  {
    NotContainsFirst("Request failed", "404");
  }

  /** Only a 404 whose JSON body has no truthy `error` reaches the creation
      branch, because only then does the message carry the status code. */
  lemma NotFoundWithoutErrorFieldCreates<P>(r: GetUserResponse, create: Transport<P>,
                                            second: Transport<GetUserResponse>)
    ensures var first := Received(404, Json(None, r));
      CreateUserCall in EnsureUser(first, create, second).1
  {
    var m := NonOkMessage(404, Json(None, r));
    NatToStringThreeDigits(404);
    assert Contains(m, "404");
  }

  /** A string cannot contain `sub` when it lacks the first character of `sub`. */
  lemma NotContainsFirst(s: string, sub: string)
    requires |sub| > 0 && sub[0] !in s
    ensures !Contains(s, sub)
  {
    ContainsAt(s, sub);
    forall i
      ensures !OccursAt(s, sub, i)
    {
      if 0 <= i <= |s| - |sub| {
        assert s[i..i + |sub|][0] == s[i] != sub[0];
      }
    }
  }

  /** `callApi_getUser` with not-found decided by the status code, as the
      comment at that branch states: every 404 means no user, and every other
      failure is rethrown unchanged. */
  function GetUserByStatus(t: Transport<GetUserResponse>): (r: Result<Option<User>, string>)
    ensures t.Received? && t.status == 404 ==> r == Success(None)
    ensures !(t.Received? && t.status == 404) ==>
      && (Interpret(t).Success? ==> r == Success(Interpret(t).value.data))
      && (Interpret(t).Failure? ==> r == Failure(Interpret(t).error))
  {
    if t.Received? && t.status == 404 then Success(None)
    else Interpret(t).MapValue((response: GetUserResponse) => response.data)
  }

  /** `callApi_ensureUser` built on the status-based get: any 404 from the
      first get leads to a create, whatever body the server sent. */
  function EnsureUserByStatus<P>(first: Transport<GetUserResponse>, create: Transport<P>,
                                 second: Transport<GetUserResponse>): (r: (Result<User, string>, seq<ApiCall>))
    ensures first.Received? && first.status == 404 ==> CreateUserCall in r.1
    ensures CreateUserCall in r.1 <==> GetUserByStatus(first) == Success(None)
    ensures r.0.Success? ==>
      || (GetUserByStatus(first) == Success(Some(r.0.value)) && r.1 == [GetUserCall])
      || (GetUserByStatus(second) == Success(Some(r.0.value)) && r.1 == [GetUserCall, CreateUserCall, GetUserCall])
    ensures GetUserByStatus(first).Failure? ==> r.0 == Failure(Interpret(first).error)
    ensures GetUserByStatus(first).Success? && GetUserByStatus(first).value.Some? ==> r == (Success(GetUserByStatus(first).value.value), [GetUserCall])
    ensures GetUserByStatus(first) == Success(None) && Interpret(create).Failure? ==>
      r == (Failure(Interpret(create).error), [GetUserCall, CreateUserCall])
    ensures GetUserByStatus(first) == Success(None) && Interpret(create).Success? ==>
      && r.1 == [GetUserCall, CreateUserCall, GetUserCall]
      && (GetUserByStatus(second) == Success(None) ==> r.0 == Failure(CreateFailedMessage))
      && (GetUserByStatus(second).Success? && GetUserByStatus(second).value.Some? ==> r.0 == Success(GetUserByStatus(second).value.value))
      && (GetUserByStatus(second).Failure? ==> r.0 == Failure(GetUserByStatus(second).error))
  {
    Compose(GetUserByStatus(first), CreateUser(create), GetUserByStatus(second))
  }

  /** The two versions agree on every response that is not a 404 and whose
      failure message does not mention "404". */
  lemma ByStatusAgreesElsewhere(t: Transport<GetUserResponse>)
    requires !(t.Received? && t.status == 404)
    requires Interpret(t).Failure? ==> !Contains(Interpret(t).error, "404")
    ensures GetUserByStatus(t) == GetUser(t)
  {
  }
}
