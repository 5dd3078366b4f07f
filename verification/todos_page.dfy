/** The list state of app/todos/page.tsx: filter tab, search box, current
    page, the last fetched listing and the loading flag, driven by the user's
    clicks and typing and by the outcome of each fetch. Rendering, alerts and
    the create / toggle / edit / delete handlers (each calls a todo
    operation, refetches, and catches every error with an alert) are outside
    this state machine. */
module TodosPage {
  import opened Wrappers
  import opened TodosApi
  import Pagination

  /** The page asks for this many todos per page. */
  const ItemsPerPage: nat := 6

  datatype PageState = PageState(
    filter: Filter,
    search: string,
    page: nat,
    totalPages: nat,
    total: nat,
    todos: seq<Todo>,
    loading: bool)

  const Initial: PageState := PageState(All, "", 1, 1, 0, [], true)

  datatype Event =
    | SelectFilter(f: Filter)
    | EditSearch(text: string)
    | ClearSearch
    | PrevPage
    | NextPage
    | FetchStarted
    | FetchDone(outcome: Result<TodoPage, string>)

  /** The arrows are rendered only when there is more than one page. */
  predicate ControlsShown(s: PageState) {
    s.totalPages > 1
  }

  /** The ✕ button is rendered only while the search is non-empty. */
  predicate ClearShown(s: PageState) {
    s.search != ""
  }

  /** `Math.max` and `Math.min` of two integers. */
  function Max(a: int, b: int): (m: int)
    ensures m >= a && m >= b && (m == a || m == b)
  {
    if a >= b then a else b
  }

  function Min(a: int, b: int): (m: int)
    ensures m <= a && m <= b && (m == a || m == b)
  {
    if a <= b then a else b
  }

  /** One transition. A click on a control that is not rendered or is
      disabled changes nothing. */
  function Step(s: PageState, e: Event): PageState {
    match e
    case SelectFilter(f) => s.(filter := f, page := 1)
    case EditSearch(text) => s.(search := text, page := 1)
    case ClearSearch => if ClearShown(s) then s.(search := "") else s
    case PrevPage =>
      if ControlsShown(s) && s.page != 1 then s.(page := Max(1, s.page - 1)) else s
    case NextPage =>
      if ControlsShown(s) && s.page != s.totalPages then s.(page := Min(s.totalPages, s.page + 1)) else s
    case FetchStarted => s.(loading := true)
    case FetchDone(outcome) =>
      match outcome
      case Success(listing) =>
        s.(todos := listing.todos, total := listing.total, totalPages := listing.totalPages, loading := false)
      case Failure(_) => s.(todos := [], loading := false)
  }

  function Run(s: PageState, events: seq<Event>): PageState
    decreases |events|
  {
    if |events| == 0 then s else Run(Step(s, events[0]), events[1..])
  }

  /** The parameters `fetchTodos` passes: the current page, six per page, the
      search only when non-empty, and the filter. */
  function FetchParams(s: PageState): (p: GetTodosParams)
    ensures Resolve(p).page == s.page && Resolve(p).limit == ItemsPerPage && Resolve(p).filter == s.filter
    ensures p.search.Some? <==> s.search != ""
    ensures p.search.Some? ==> p.search.value == s.search
  {
    GetTodosParams(Some(s.page), Some(ItemsPerPage), if s.search == "" then None else Some(s.search), Some(s.filter))
  }

  /** Choosing a filter or editing the search goes back to page 1 and
      changes nothing else but the filter or the search. */
  lemma CriteriaChangesResetPage(s: PageState, f: Filter, text: string)
    ensures Step(s, SelectFilter(f)) == s.(filter := f, page := 1)
    ensures Step(s, EditSearch(text)) == s.(search := text, page := 1)
    ensures FetchParams(Step(s, SelectFilter(f))).page == Some(1)
    ensures FetchParams(Step(s, EditSearch(text))).page == Some(1)
  {
  }

  /** Clearing the search keeps the page: the next fetch asks for the same
      page with no search at all. */
  lemma ClearSearchKeepsPage(s: PageState)
    requires ClearShown(s)
    ensures Step(s, ClearSearch).page == s.page
    ensures FetchParams(Step(s, ClearSearch)) == FetchParams(s).(search := None)
  {
  }

  /** Whenever the arrows are shown, Next always lands in 1..totalPages and
      Prev steps back by one. When the page lies past the last one, which a
      refetch with fewer pages leaves behind, the clamp of Next moves back to
      the last page, and Prev stays past it until it reaches totalPages + 1.
      Within 1..totalPages the arrows go to exactly the pages the pagination
      component's arrows ask for, and a disabled arrow changes nothing. */
  lemma ArrowsAgreeWithPagination(s: PageState)
    requires ControlsShown(s)
    ensures 1 <= Step(s, NextPage).page <= s.totalPages
    ensures s.page < s.totalPages ==> Step(s, NextPage) == s.(page := s.page + 1)
    ensures s.page == s.totalPages ==> Step(s, NextPage) == s
    ensures s.page > s.totalPages ==> Step(s, NextPage) == s.(page := s.totalPages)
    ensures s.page == 1 ==> Step(s, PrevPage) == s
    ensures s.page > 1 ==> Step(s, PrevPage) == s.(page := s.page - 1)
    ensures s.page > s.totalPages + 1 ==> Step(s, PrevPage).page > s.totalPages
    ensures 1 <= s.page <= s.totalPages ==>
      var p := Step(s, PrevPage).page;
      1 <= p <= s.totalPages && (Pagination.PrevTarget(s.page, s.totalPages).Some? ==> p == Pagination.PrevTarget(s.page, s.totalPages).value)
    ensures 1 <= s.page <= s.totalPages ==>
      var p := Step(s, NextPage).page;
      1 <= p <= s.totalPages && (Pagination.NextTarget(s.page, s.totalPages).Some? ==> p == Pagination.NextTarget(s.page, s.totalPages).value)
    ensures 1 <= s.page <= s.totalPages && Pagination.PrevTarget(s.page, s.totalPages).None? ==> Step(s, PrevPage) == s
    ensures 1 <= s.page <= s.totalPages && Pagination.NextTarget(s.page, s.totalPages).None? ==> Step(s, NextPage) == s
  {
  }

  /** The page can lie past the last one: on a listing of three pages the
      user moves to page 3, and the next fetch (after the only todo there was
      deleted, say) reports two pages. Both arrows are then shown and both
      lead to page 2. */
  lemma PagePastLastIsReachable()
    ensures var l1 := TodoPage([], 13, 1, 3);
            var l2 := TodoPage([], 12, 3, 2);
            var s := Run(Initial, [FetchDone(Success(l1)), NextPage, NextPage, FetchDone(Success(l2))]);
      && s.page == 3 && s.totalPages == 2 && ControlsShown(s)
      && Step(s, NextPage).page == 2 && Step(s, PrevPage).page == 2
  {
    var l1 := TodoPage([], 13, 1, 3);
    var l2 := TodoPage([], 12, 3, 2);
    var events := [FetchDone(Success(l1)), NextPage, NextPage, FetchDone(Success(l2))];
    var s1 := Step(Initial, events[0]);
    var s2 := Step(s1, events[1]);
    var s3 := Step(s2, events[2]);
    var s4 := Step(s3, events[3]);
    assert s1.page == 1 && s1.totalPages == 3;
    assert s2.page == 2 && s3.page == 3 && s4.page == 3 && s4.totalPages == 2;
    assert events[1..][1..][1..][1..] == [];
    assert Run(Initial, events) == Run(s1, events[1..]) == Run(s2, events[1..][1..])
        == Run(s3, events[1..][1..][1..]) == Run(s4, []) == s4;
  }

  /** A finished fetch always ends the loading state; a failed one empties
      the list and keeps the counts, a successful one shows its listing. */
  lemma FetchOutcome(s: PageState, outcome: Result<TodoPage, string>)
    ensures !Step(s, FetchDone(outcome)).loading
    ensures outcome.Failure? ==> Step(s, FetchDone(outcome)) == s.(todos := [], loading := false)
    ensures outcome.Success? ==> Step(s, FetchDone(outcome)).todos == outcome.value.todos
    ensures outcome.Success? ==> Step(s, FetchDone(outcome)).total == outcome.value.total
    ensures outcome.Success? ==> Step(s, FetchDone(outcome)).totalPages == outcome.value.totalPages
    ensures Step(s, FetchDone(outcome)).(todos := s.todos, total := s.total, totalPages := s.totalPages, loading := s.loading) == s
  {
  }

  /** Page numbers start at 1 and no sequence of clicks, typing or fetch
      outcomes ever brings the page below 1. */
  lemma {:induction false} PageStaysPositive(s: PageState, events: seq<Event>)
    requires s.page >= 1
    ensures Run(s, events).page >= 1
    decreases |events|
  {
    if |events| > 0 {
      var s1 := Step(s, events[0]);
      assert s1.page >= 1;
      PageStaysPositive(s1, events[1..]);
    }
  }

  /** Every state reachable from the initial one asks for a page of at least 1. */
  lemma ReachablePagesPositive(events: seq<Event>)
    ensures Initial.page == 1 && Initial.filter == All && Initial.search == ""
    ensures Run(Initial, events).page >= 1
    ensures FetchParams(Run(Initial, events)).page.value >= 1
  {
    PageStaysPositive(Initial, events);
  }
}
