/** The todo operations of api/todos.ts. Each one is a `Plan`: the dedup key
    it is registered under, the helper it calls, the route it targets and the
    body it sends. Executing a plan runs the helper against a network and
    projects the `data` field of the response. */
module TodosApi {
  import opened Wrappers
  import opened Text
  import opened UrlEncode
  import opened ApiEnum
  import opened Core

  datatype Filter = All | Active | Completed

  /** The string value of a filter, as it appears in keys and query strings. */
  function FilterName(f: Filter): (s: string)
    ensures s != [] && '-' !in s
  {
    match f
    case All => "all"
    case Active => "active"
    case Completed => "completed"
  }

  lemma FilterNameInjective(f: Filter, g: Filter)
    requires FilterName(f) == FilterName(g)
    ensures f == g
  {
    assert FilterName(f)[0] == FilterName(g)[0];
  }

  datatype Todo = Todo(id: nat, title: string, description: string, isCompleted: bool, userId: string)

  datatype TodoPage = TodoPage(todos: seq<Todo>, total: nat, page: nat, totalPages: nat)

  /** Every response of the todo routes wraps its result in `{ data: ... }`. */
  datatype Envelope<D> = Envelope(data: D)

  /** `GetTodosParams`; every field may be omitted. */
  datatype GetTodosParams = GetTodosParams(page: Option<nat>, limit: Option<nat>,
                                           search: Option<string>, filter: Option<Filter>)

  /** The fields a PATCH may carry; omitted ones are left out of the JSON. */
  datatype TodoUpdates = TodoUpdates(title: Option<string>, description: Option<string>,
                                     isCompleted: Option<bool>)

  /** The JSON bodies the todo operations send. */
  datatype Payload = NewTodo(title: string, description: string) | Changes(updates: TodoUpdates)

  datatype Plan = Plan(key: string, helper: Helper, path: string, body: Option<Payload>)

  const DefaultPage: nat := 1
  const DefaultLimit: nat := 10

  /** The destructuring defaults of `callApi_getTodos`: they replace a missing
      field only, so an explicit page 0 stays 0. */
  datatype Resolved = Resolved(page: nat, limit: nat, search: Option<string>, filter: Filter)

  function Resolve(p: GetTodosParams): Resolved {
    Resolved(p.page.GetOr(DefaultPage), p.limit.GetOr(DefaultLimit), p.search, p.filter.GetOr(All))
  }

  /** `callApi_getTodos`: key and URL are built from the same resolved values;
      the key reads back to them and the query string decodes to the
      parameters `todosWithParams` appends. */
  function GetTodosPlan(params: GetTodosParams): (p: Plan)
    ensures p.helper == AuthenticatedGet && p.body == None
    ensures var r := Resolve(params);
      ParseTodosKey(p.key) == Some((r.page, r.limit, FilterName(r.filter), SearchOrEmpty(r.search)))
    ensures var r := Resolve(params);
      && IsPrefix(TodosRoute + "?", p.path)
      && ParseQuery(p.path[|TodosRoute| + 1..])
         == Some(QueryPairs(RouteParams(Some(r.page), Some(r.limit), r.search, Some(FilterName(r.filter)))))
  {
    var r := Resolve(params);
    var filter := FilterName(r.filter);
    var rp := RouteParams(Some(r.page), Some(r.limit), r.search, Some(filter));
    TodosKeyRoundTrip(r.page, r.limit, filter, r.search);
    TodosWithParamsDecodes(rp);
    Plan(TodosPaginatedKey(r.page, r.limit, filter, r.search), AuthenticatedGet, TodosWithParams(rp), None)
  }

  /** Omitting page, limit or filter is the same call as passing 1, 10 and
      "all". */
  lemma GetTodosDefaults(search: Option<string>)
    ensures GetTodosPlan(GetTodosParams(None, None, search, None))
         == GetTodosPlan(GetTodosParams(Some(1), Some(10), search, Some(All)))
  {
  }

  /** An absent search and an empty one are the same listing call. */
  lemma EmptySearchIsNoSearch(page: Option<nat>, limit: Option<nat>, filter: Option<Filter>)
    ensures GetTodosPlan(GetTodosParams(page, limit, None, filter))
         == GetTodosPlan(GetTodosParams(page, limit, Some(""), filter))
  {
  }

  /** Deduplication never merges two different listings: listing calls that
      share a key send the very same request. */
  lemma SameListingKeySameRequest(a: GetTodosParams, b: GetTodosParams)
    requires GetTodosPlan(a).key == GetTodosPlan(b).key
    ensures GetTodosPlan(a) == GetTodosPlan(b)
  {
    var ra, rb := Resolve(a), Resolve(b);
    TodosKeyInjective(ra.page, ra.limit, FilterName(ra.filter), ra.search,
                      rb.page, rb.limit, FilterName(rb.filter), rb.search);
    FilterNameInjective(ra.filter, rb.filter);
    var rpa := RouteParams(Some(ra.page), Some(ra.limit), ra.search, Some(FilterName(ra.filter)));
    var rpb := RouteParams(Some(rb.page), Some(rb.limit), rb.search, Some(FilterName(rb.filter)));
    assert StringTruthy(ra.search) <==> StringTruthy(rb.search);
    assert QueryPairs(rpa) == QueryPairs(rpb);
  }

  /** `callApi_createTodo`: POST of title and description to the collection,
      keyed by the title alone. */
  function CreateTodoPlan(title: string, description: string): Plan {
    Plan(CreateTodoKey(title), AuthenticatedPost, TodosRoute, Some(NewTodo(title, description)))
  }

  /** Two creates with one title share a key whatever their descriptions, so
      while the first is in flight the second joins it and its own
      description is never sent. */
  lemma CreateTodoKeyedByTitleOnly(title: string, d1: string, d2: string)
    ensures CreateTodoPlan(title, d1).key == CreateTodoPlan(title, d2).key
    ensures CreateTodoPlan(title, d1).body == CreateTodoPlan(title, d2).body <==> d1 == d2
  {
  }

  /** Creates with different titles never share a key. */
  lemma CreateTodoKeyDeterminesTitle(t1: string, d1: string, t2: string, d2: string)
    requires CreateTodoPlan(t1, d1).key == CreateTodoPlan(t2, d2).key
    ensures t1 == t2
  {
    SingleKeysInjective(t1, t2, 0, 0);
  }

  /** `callApi_updateTodo`: PATCH of the updates to the todo's own route,
      keyed by the id alone. */
  function UpdateTodoPlan(id: nat, updates: TodoUpdates): Plan {
    Plan(UpdateTodoKey(id), AuthenticatedPatch, TodoById(id), Some(Changes(updates)))
  }

  /** Updates of one todo share a key whatever they change; updates of
      different todos share neither key nor route. */
  lemma UpdateTodoKeyedByIdOnly(i: nat, j: nat, u1: TodoUpdates, u2: TodoUpdates)
    ensures UpdateTodoPlan(i, u1).key == UpdateTodoPlan(j, u2).key <==> i == j
    ensures UpdateTodoPlan(i, u1).path == UpdateTodoPlan(j, u2).path <==> i == j
  {
    SingleKeysInjective("", "", i, j);
    if TodoById(i) == TodoById(j) {
      TodoByIdInjective(i, j);
    }
  }

  /** `callApi_deleteTodo`: DELETE of the todo's own route, keyed by the id. */
  function DeleteTodoPlan(id: nat): Plan {
    Plan(DeleteTodoKey(id), AuthenticatedDelete, TodoById(id), None)
  }

  /** Every listing, create, update and delete is registered under a key of
      its own family, so the shared in-flight map never merges operations of
      different kinds. */
  lemma OperationKeysDisjoint(params: GetTodosParams, title: string, description: string,
                              id1: nat, updates: TodoUpdates, id2: nat)
    ensures var listing, create := GetTodosPlan(params).key, CreateTodoPlan(title, description).key;
      var update, delete := UpdateTodoPlan(id1, updates).key, DeleteTodoPlan(id2).key;
      && listing != create && listing != update && listing != delete
      && create != update && create != delete
      && update != delete
  {
    var r := Resolve(params);
    assert GetTodosPlan(params).key == TodosPaginatedKey(r.page, r.limit, FilterName(r.filter), r.search);
    KeyFamiliesDisjoint("", title, id1, id2, r.page, r.limit, FilterName(r.filter), r.search);
    KeyFamiliesDisjoint("", title, id2, id1, r.page, r.limit, FilterName(r.filter), r.search);
  }

  /** Runs the plan's helper and hands back the `data` field of a successful
      response; every failure of the helper is passed on unchanged. */
  function Execute<P>(plan: Plan, base: string, lookup: TokenLookup,
                      network: Request<Payload> -> Transport<Envelope<P>>): (r: Result<P, string>)
    ensures var t := network(BuildRequest(plan.helper, base, plan.path, lookup, plan.body));
      && (r.Success? <==> t.Received? && IsOk(t.status) && t.body.Json?)
      && (r.Success? ==> r.value == t.body.payload.data)
      && (r.Failure? ==> Interpret(t) == Failure(r.error))
  {
    Perform(plan.helper, base, plan.path, lookup, plan.body, network).MapValue((e: Envelope<P>) => e.data)
  }

  /** Merging listing calls is harmless: a caller that joins another's
      request receives exactly what its own request would have produced. */
  lemma JoinedListingGetsItsOwnResult(a: GetTodosParams, b: GetTodosParams, base: string,
                                      lookup: TokenLookup,
                                      network: Request<Payload> -> Transport<Envelope<TodoPage>>)
    requires GetTodosPlan(a).key == GetTodosPlan(b).key
    ensures Execute(GetTodosPlan(a), base, lookup, network) == Execute(GetTodosPlan(b), base, lookup, network)
  {
    SameListingKeySameRequest(a, b);
  }

  /** `callApi_deleteTodo` resolves with no value once the DELETE succeeds. */
  function DeleteTodo<P>(id: nat, base: string, lookup: TokenLookup,
                         network: Request<Payload> -> Transport<P>): (r: Result<(), string>)
    ensures var t := network(BuildRequest(AuthenticatedDelete, base, TodoById(id), lookup, None));
      && (r.Success? <==> t.Received? && IsOk(t.status) && t.body.Json?)
      && (r.Failure? ==> Interpret(t) == Failure(r.error))
  {
    var plan := DeleteTodoPlan(id);
    Perform(plan.helper, base, plan.path, lookup, plan.body, network).MapValue((_: P) => ())
  }

  /** The DELETE helper still reads a JSON body on success, so an ok response
      without one (204 No Content, say) rejects with the parser's message. */
  lemma DeleteNeedsJsonBody(id: nat, base: string, lookup: TokenLookup, syntaxError: string)
    ensures DeleteTodo<int>(id, base, lookup, _ => Received(204, Unparseable(syntaxError))) == Failure(syntaxError)
  {
  }
}
