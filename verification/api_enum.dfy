/** The dedup-key and route tables of the client layer
    (api/comman/api.enum.ts). Keys name one logical request; routes are
    paths relative to the API base URL. Numbers (page, limit, id) are
    integral and non-negative here and print as decimal numerals. */
module ApiEnum {
  import opened Wrappers
  import opened Text
  import opened UrlEncode

  // ---------------------------------------------------------------------------
  // ApiDedupKeys and ApiRoutes
  // ---------------------------------------------------------------------------

  const CreateUserKeyName: string := "createUser"
  const GetTodosKeyName: string := "getTodos"

  const UserCreateRoute: string := "/api/v0/user/create"
  const UserGetRoute: string := "/api/v0/user"
  const TodosRoute: string := "/api/v0/todos"

  // ---------------------------------------------------------------------------
  // DedupKeyHelpers
  // ---------------------------------------------------------------------------

  function CreateUserKey(email: string): string {
    "createUser-" + email
  }

  function CreateTodoKey(title: string): string {
    "createTodo-" + title
  }

  function UpdateTodoKey(id: nat): string {
    "updateTodo-" + NatToString(id)
  }

  function DeleteTodoKey(id: nat): string {
    "deleteTodo-" + NatToString(id)
  }

  /** `search || ""`: an absent search and an empty one both print as nothing. */
  function SearchOrEmpty(search: Option<string>): string {
    match search
    case None => ""
    case Some(s) => s
  }

  /** `todos-${page}-${limit}-${filter}-${search || ""}`. */
  function TodosPaginatedKey(page: nat, limit: nat, filter: string, search: Option<string>): string {
    "todos-" + NatToString(page) + "-" + NatToString(limit) + "-" + filter + "-" + SearchOrEmpty(search)
  }

  /** Reads (page, limit, filter, search-or-empty) back out of a pagination key. */
  function ParseTodosKey(k: string): Option<(nat, nat, string, string)> {
    if !IsPrefix("todos-", k) then None
    else
      var (pageText, r1) := SplitFirst(k[6..], '-');
      var (limitText, r2) := SplitFirst(r1, '-');
      var (filter, search) := SplitFirst(r2, '-');
      if |pageText| > 0 && AllDigits(pageText) && |limitText| > 0 && AllDigits(limitText)
      then Some((ParseDigits(pageText), ParseDigits(limitText), filter, search))
      else None
  }

  /** A pagination key determines the request parameters it was built from,
      as long as the filter holds no '-' (true of "all", "active" and
      "completed"). */
  lemma TodosKeyRoundTrip(page: nat, limit: nat, filter: string, search: Option<string>)
    requires '-' !in filter
    ensures ParseTodosKey(TodosPaginatedKey(page, limit, filter, search))
         == Some((page, limit, filter, SearchOrEmpty(search)))
  {
    var p, l, s := NatToString(page), NatToString(limit), SearchOrEmpty(search);
    var k := TodosPaginatedKey(page, limit, filter, search);
    var r2 := filter + ['-'] + s;
    var r1 := l + ['-'] + r2;
    KeyFields(p, l, filter, s);
    NumeralExcludes(page, '-');
    NumeralExcludes(limit, '-');
    SplitFirstCons(p, r1, '-');
    SplitFirstCons(l, r2, '-');
    SplitFirstCons(filter, s, '-');
    ParseNatToString(page);
    ParseNatToString(limit);
  }

  /** The pagination key read as its prefix and three '-'-terminated fields. */
  lemma KeyFields(p: string, l: string, filter: string, s: string)
    ensures var k := "todos-" + p + "-" + l + "-" + filter + "-" + s;
      IsPrefix("todos-", k) && k[6..] == p + ['-'] + (l + ['-'] + (filter + ['-'] + s))
  {
  }

  /** Distinct (page, limit, filter, search-or-empty) tuples never share a
      key, so deduplication never merges two different listings. */
  lemma TodosKeyInjective(page1: nat, limit1: nat, filter1: string, search1: Option<string>,
                          page2: nat, limit2: nat, filter2: string, search2: Option<string>)
    requires '-' !in filter1 && '-' !in filter2
    requires TodosPaginatedKey(page1, limit1, filter1, search1) == TodosPaginatedKey(page2, limit2, filter2, search2)
    ensures page1 == page2 && limit1 == limit2 && filter1 == filter2
    ensures SearchOrEmpty(search1) == SearchOrEmpty(search2)
  {
    TodosKeyRoundTrip(page1, limit1, filter1, search1);
    TodosKeyRoundTrip(page2, limit2, filter2, search2);
  }

  /** Without the restriction on the filter the key is ambiguous. */
  lemma TodosKeyAmbiguousWithDashedFilter()
    ensures TodosPaginatedKey(1, 6, "a-b", Some("c")) == TodosPaginatedKey(1, 6, "a", Some("b-c"))
  {
  }

  /** The single-argument keys are a fixed prefix followed by their argument,
      so each is injective. */
  lemma SingleKeysInjective(a: string, b: string, i: nat, j: nat)
    ensures CreateUserKey(a) == CreateUserKey(b) ==> a == b
    ensures CreateTodoKey(a) == CreateTodoKey(b) ==> a == b
    ensures UpdateTodoKey(i) == UpdateTodoKey(j) ==> i == j
    ensures DeleteTodoKey(i) == DeleteTodoKey(j) ==> i == j
  {
    if CreateUserKey(a) == CreateUserKey(b) {
      assert a == CreateUserKey(a)[11..];
    }
    if CreateTodoKey(a) == CreateTodoKey(b) {
      assert a == CreateTodoKey(a)[11..];
    }
    if UpdateTodoKey(i) == UpdateTodoKey(j) {
      assert NatToString(i) == UpdateTodoKey(i)[11..];
      assert NatToString(j) == UpdateTodoKey(j)[11..];
      NatToStringInjective(i, j);
    }
    if DeleteTodoKey(i) == DeleteTodoKey(j) {
      assert NatToString(i) == DeleteTodoKey(i)[11..];
      assert NatToString(j) == DeleteTodoKey(j)[11..];
      NatToStringInjective(i, j);
    }
  }

  /** Keys of different operations never coincide, so the one shared
      in-flight map never merges a create with an update, say. */
  lemma KeyFamiliesDisjoint(email: string, title: string, id1: nat, id2: nat,
                            page: nat, limit: nat, filter: string, search: Option<string>)
    ensures var listing := TodosPaginatedKey(page, limit, filter, search);
      && CreateUserKey(email) != CreateTodoKey(title)
      && CreateUserKey(email) != UpdateTodoKey(id1)
      && CreateUserKey(email) != DeleteTodoKey(id1)
      && CreateUserKey(email) != listing
      && CreateTodoKey(title) != UpdateTodoKey(id1)
      && CreateTodoKey(title) != DeleteTodoKey(id1)
      && CreateTodoKey(title) != listing
      && UpdateTodoKey(id1) != DeleteTodoKey(id2)
      && UpdateTodoKey(id1) != listing
      && DeleteTodoKey(id1) != listing
  {
    var listing := TodosPaginatedKey(page, limit, filter, search);
    assert listing[0] == 't';
    assert CreateUserKey(email)[0] == 'c' && CreateUserKey(email)[6] == 'U';
    assert CreateTodoKey(title)[0] == 'c' && CreateTodoKey(title)[6] == 'T';
    assert UpdateTodoKey(id1)[0] == 'u';
    assert DeleteTodoKey(id1)[0] == 'd';
    assert DeleteTodoKey(id2)[0] == 'd';
  }

  // ---------------------------------------------------------------------------
  // ApiRouteHelpers
  // ---------------------------------------------------------------------------

  /** `${ApiRoutes.TODOS}/${id}`. */
  function TodoById(id: nat): string {
    TodosRoute + "/" + NatToString(id)
  }

  lemma TodoByIdInjective(a: nat, b: nat)
    requires TodoById(a) == TodoById(b)
    ensures a == b
  {
    assert NatToString(a) == TodoById(a)[|TodosRoute| + 1..];
    assert NatToString(b) == TodoById(b)[|TodosRoute| + 1..];
    NatToStringInjective(a, b);
  }

  /** The optional parameters `todosWithParams` receives. */
  datatype RouteParams = RouteParams(page: Option<nat>, limit: Option<nat>,
                                     search: Option<string>, filter: Option<string>)

  /** JavaScript truthiness of an optional number and an optional string. */
  predicate NumberTruthy(n: Option<nat>) {
    n.Some? && n.value != 0
  }

  predicate StringTruthy(s: Option<string>) {
    s.Some? && s.value != ""
  }

  /** The first value stored under `name`, as `URLSearchParams.get` finds it. */
  function Lookup(ps: seq<(string, string)>, name: string): Option<string> {
    if |ps| == 0 then None
    else if ps[0].0 == name then Some(ps[0].1)
    else Lookup(ps[1..], name)
  }

  /** Position of a parameter name in the order `todosWithParams` appends them. */
  function Rank(name: string): nat {
    if name == "page" then 0
    else if name == "limit" then 1
    else if name == "search" then 2
    else 3
  }

  lemma LookupAppend(a: seq<(string, string)>, b: seq<(string, string)>, name: string)
    ensures Lookup(a + b, name) == if Lookup(a, name).Some? then Lookup(a, name) else Lookup(b, name)
  {
    if |a| > 0 {
      assert (a + b)[1..] == a[1..] + b;
      LookupAppend(a[1..], b, name);
    } else {
      assert a + b == b;
    }
  }

  function FirstFound(a: Option<string>, b: Option<string>): Option<string> {
    if a.Some? then a else b
  }

  lemma Lookup4(a: seq<(string, string)>, b: seq<(string, string)>, c: seq<(string, string)>,
                d: seq<(string, string)>, name: string)
    ensures Lookup(a + b + c + d, name)
         == FirstFound(Lookup(a, name), FirstFound(Lookup(b, name), FirstFound(Lookup(c, name), Lookup(d, name))))
  {
    assert a + b + c + d == a + (b + (c + d));
    LookupAppend(a, b + (c + d), name);
    LookupAppend(b, c + d, name);
    LookupAppend(c, d, name);
  }

  /** Parameter names strictly follow the order of `Rank`. */
  predicate RankSorted(ps: seq<(string, string)>) {
    forall i, j :: 0 <= i < j < |ps| ==> Rank(ps[i].0) < Rank(ps[j].0)
  }

  /** At most one pair, and it is named with rank `r`. */
  predicate AtMostOneOfRank(ps: seq<(string, string)>, r: nat) {
    |ps| <= 1 && (|ps| == 1 ==> Rank(ps[0].0) == r)
  }

  /** Every name in `ps` ranks below `r`. */
  predicate RanksBelow(ps: seq<(string, string)>, r: nat) {
    forall i :: 0 <= i < |ps| ==> Rank(ps[i].0) < r
  }

  lemma SortedAppendOne(a: seq<(string, string)>, b: seq<(string, string)>, r: nat)
    requires RankSorted(a) && RanksBelow(a, r) && AtMostOneOfRank(b, r)
    ensures RankSorted(a + b) && RanksBelow(a + b, r + 1)
  {
    var ab := a + b;
    forall i, j | 0 <= i < j < |ab|
      ensures Rank(ab[i].0) < Rank(ab[j].0)
    {
      if j < |a| {
        assert ab[i] == a[i] && ab[j] == a[j];
      } else {
        assert ab[i] == a[i] && ab[j] == b[0];
      }
    }
    forall i | 0 <= i < |ab|
      ensures Rank(ab[i].0) < r + 1
    {
      if i < |a| {
        assert ab[i] == a[i];
      } else {
        assert ab[i] == b[0];
      }
    }
  }

  /** One numeric parameter, appended only when truthy. */
  function NumberPair(name: string, n: Option<nat>): seq<(string, string)> {
    if NumberTruthy(n) then [(name, NatToString(n.value))] else []
  }

  /** One string parameter, appended only when truthy. */
  function StringPair(name: string, s: Option<string>): seq<(string, string)> {
    if StringTruthy(s) then [(name, s.value)] else []
  }

  /** The pairs `todosWithParams` appends: page, limit, search and filter,
      in that order, each only when truthy. */
  function QueryPairs(rp: RouteParams): seq<(string, string)> {
    NumberPair("page", rp.page) + NumberPair("limit", rp.limit)
      + StringPair("search", rp.search) + StringPair("filter", rp.filter)
  }

  /** At most one pair per parameter, and the names keep the order page,
      limit, search, filter. */
  lemma QueryPairsOrdered(rp: RouteParams)
    ensures |QueryPairs(rp)| <= 4
    ensures RankSorted(QueryPairs(rp))
  {
    var page, limit := NumberPair("page", rp.page), NumberPair("limit", rp.limit);
    var search, filter := StringPair("search", rp.search), StringPair("filter", rp.filter);
    assert RankSorted(page) && RanksBelow(page, 1);
    SortedAppendOne(page, limit, 1);
    SortedAppendOne(page + limit, search, 2);
    SortedAppendOne(page + limit + search, filter, 3);
  }

  /** Looking a parameter up in the query finds it exactly when it was
      truthy, with its own value. */
  lemma QueryPairsLookup(rp: RouteParams)
    ensures Lookup(QueryPairs(rp), "page") == if NumberTruthy(rp.page) then Some(NatToString(rp.page.value)) else None
    ensures Lookup(QueryPairs(rp), "limit") == if NumberTruthy(rp.limit) then Some(NatToString(rp.limit.value)) else None
    ensures Lookup(QueryPairs(rp), "search") == if StringTruthy(rp.search) then Some(rp.search.value) else None
    ensures Lookup(QueryPairs(rp), "filter") == if StringTruthy(rp.filter) then Some(rp.filter.value) else None
  {
    LookupName(rp, "page");
    LookupName(rp, "limit");
    LookupName(rp, "search");
    LookupName(rp, "filter");
  }

  lemma LookupName(rp: RouteParams, name: string)
    ensures Lookup(QueryPairs(rp), name)
         == FirstFound(Lookup(NumberPair("page", rp.page), name), FirstFound(Lookup(NumberPair("limit", rp.limit), name),
              FirstFound(Lookup(StringPair("search", rp.search), name), Lookup(StringPair("filter", rp.filter), name))))
  {
    Lookup4(NumberPair("page", rp.page), NumberPair("limit", rp.limit),
            StringPair("search", rp.search), StringPair("filter", rp.filter), name);
  }

  /** `${ApiRoutes.TODOS}?${queryParams.toString()}`: the "?" is always there,
      even when no parameter is. */
  function TodosWithParams(rp: RouteParams): string {
    TodosRoute + "?" + Serialize(QueryPairs(rp))
  }

  /** The listing route starts with the collection path and a "?", and its
      query string parses back to exactly the appended parameters. */
  lemma TodosWithParamsDecodes(rp: RouteParams)
    ensures var u := TodosWithParams(rp);
      && IsPrefix(TodosRoute + "?", u)
      && ParseQuery(u[|TodosRoute| + 1..]) == Some(QueryPairs(rp))
  {
    var u := TodosWithParams(rp);
    assert u[|TodosRoute| + 1..] == Serialize(QueryPairs(rp));
    QueryRoundTrip(QueryPairs(rp));
  }
}
