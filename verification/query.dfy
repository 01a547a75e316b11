/**
 * `fetchEquipmentInventories` in both dashboard views: the query parameters
 * of one page request (pagination, sort, associations to populate, an
 * optional office filter and an optional five-field search), the bearer
 * header of the home view, and the early return when the view is not
 * configured. The remote API is an oracle from request to optional response.
 */
module Query {
  import opened Wrappers
  import opened Text
  import opened Inventory

  const RowsPerPage := 100
  const InventoriesPath := "/api/equipment-inventories"

  const PageKey := "pagination[page]"
  const PageSizeKey := "pagination[pageSize]"
  const SortKey := "sort"
  const PopulateKey := "populate"
  const SortByCode := "code:asc"
  const Populated: seq<string> := ["employee", "employee.office", "device_type", "device_model", "supplier", "files"]
  const OfficeKey := "filters[employee][office][name][$eq]"

  /** The five "contains, ignoring case" alternatives of the search filter, in the order they are added. */
  const SearchKeys: seq<string> := [
    "filters[$or][0][code][$containsi]",
    "filters[$or][1][employee][name][$containsi]",
    "filters[$or][2][device_model][name][$containsi]",
    "filters[$or][3][os_type][$containsi]",
    "filters[$or][4][device_status][$containsi]"
  ]

  const AuthorizationHeader := "Authorization"

  /** A query-parameter value: a number, a string, or a list of strings. */
  datatype ParamValue = Num(n: int) | Str(s: string) | StrList(items: seq<string>)

  /** The configuration the fetch reads: the API base address ("" when unset) and the session's bearer token. */
  datatype Env = Env(apiUrl: string, token: string)

  /** An HTTP GET as it leaves the client. */
  datatype Request = Request(url: string, params: map<string, ParamValue>, headers: map<string, string>)

  /** JavaScript truthiness of an optional string argument: present and not "". */
  predicate Truthy(s: Option<string>)
  {
    s.Some? && s.value != ""
  }

  /** The fetch goes ahead only with an API address, and in the home view only with a token as well. */
  predicate Configured(variant: Variant, env: Env)
  {
    env.apiUrl != "" && (variant == HomeView ==> env.token != "")
  }

  /** The value every search alternative carries: the home view trims the query, the page view does not. */
  function SearchValue(variant: Variant, query: string): string
  {
    if variant == HomeView then Trim(query) else query
  }

  /** The keys every request carries. */
  const BaseKeys: set<string> := {PageKey, PageSizeKey, SortKey, PopulateKey}

  function BaseParams(page: int): map<string, ParamValue>
  {
    map[PageKey := Num(page), PageSizeKey := Num(RowsPerPage), SortKey := Str(SortByCode), PopulateKey := StrList(Populated)]
  }

  function OfficeParams(office: Option<string>): map<string, ParamValue>
  {
    if Truthy(office) then map[OfficeKey := Str(office.value)] else map[]
  }

  function SearchParams(variant: Variant, query: Option<string>): map<string, ParamValue>
  {
    if Truthy(query) then map k | k in SearchKeys :: Str(SearchValue(variant, query.value)) else map[]
  }

  /** The query parameters of one page request. */
  function ExpectedParams(variant: Variant, page: int, office: Option<string>, query: Option<string>): map<string, ParamValue>
  {
    BaseParams(page) + OfficeParams(office) + SearchParams(variant, query)
  }

  /**
   * The keys of one page request: the fixed keys, the office filter exactly
   * when an office name is given, the five search alternatives exactly when a
   * query is given, and no other key.
   */
  lemma ParamKeys(variant: Variant, page: int, office: Option<string>, query: Option<string>)
    ensures ExpectedParams(variant, page, office, query).Keys == BaseKeys
      + (if Truthy(office) then {OfficeKey} else {})
      + (if Truthy(query) then set k | k in SearchKeys else {})
  {
  }

  /** The values under each key: later filters never overwrite the fixed keys. */
  lemma ParamValues(variant: Variant, page: int, office: Option<string>, query: Option<string>)
    ensures var p := ExpectedParams(variant, page, office, query);
      && p[PageKey] == Num(page)
      && p[PageSizeKey] == Num(100)
      && p[SortKey] == Str("code:asc")
      && p[PopulateKey] == StrList(["employee", "employee.office", "device_type", "device_model", "supplier", "files"])
      && (Truthy(office) ==> p[OfficeKey] == Str(office.value))
      && (Truthy(query) ==> forall i :: 0 <= i < |SearchKeys| ==> p[SearchKeys[i]] == Str(SearchValue(variant, query.value)))
  {
    FiltersAvoidBaseKeys(variant, office, query);
    var p := ExpectedParams(variant, page, office, query);
    var filters := OfficeParams(office) + SearchParams(variant, query);
    assert p == BaseParams(page) + filters;
    if Truthy(query) {
      forall i | 0 <= i < |SearchKeys|
        ensures p[SearchKeys[i]] == Str(SearchValue(variant, query.value))
      {
        assert SearchKeys[i] in SearchParams(variant, query);
      }
    }
  }

  /** Neither filter uses a fixed key, and the office key is not a search key. */
  lemma FiltersAvoidBaseKeys(variant: Variant, office: Option<string>, query: Option<string>)
    ensures forall k :: k in OfficeParams(office) + SearchParams(variant, query) ==> k !in BaseKeys
    ensures OfficeKey !in SearchParams(variant, query)
  {
    assert OfficeKey !in BaseKeys;
    assert forall i :: 0 <= i < |SearchKeys| ==> SearchKeys[i] !in BaseKeys && SearchKeys[i] != OfficeKey;
  }

  /** In the home view a query of white space alone still adds all five alternatives, each with the value "". */
  lemma BlankQueryStillFilters(page: int, office: Option<string>, q: string)
    requires q != "" && AllSpace(q)
    ensures var p := ExpectedParams(HomeView, page, office, Some(q));
      forall i :: 0 <= i < |SearchKeys| ==> SearchKeys[i] in p && p[SearchKeys[i]] == Str("")
  {
    ParamValues(HomeView, page, office, Some(q));
  }

  /**
   * Filling the `params` object step by step: the fixed keys first, then the
   * office filter, then (in the home view, after trimming the query in
   * place) the five search alternatives.
   */
  method BuildParams(variant: Variant, page: int, office: Option<string>, searchQuery: Option<string>)
    returns (params: map<string, ParamValue>)
    ensures params == ExpectedParams(variant, page, office, searchQuery)
  {
    params := map[PageKey := Num(page), PageSizeKey := Num(RowsPerPage), SortKey := Str(SortByCode), PopulateKey := StrList(Populated)];
    if Truthy(office) {
      params := params[OfficeKey := Str(office.value)];
    }
    assert params == BaseParams(page) + OfficeParams(office);
    ghost var before := params;
    if Truthy(searchQuery) {
      var q := searchQuery.value;
      if variant == HomeView {
        q := Trim(q);
      }
      params := params[SearchKeys[0] := Str(q)];
      params := params[SearchKeys[1] := Str(q)];
      params := params[SearchKeys[2] := Str(q)];
      params := params[SearchKeys[3] := Str(q)];
      params := params[SearchKeys[4] := Str(q)];
      assert params == before + SearchParams(variant, searchQuery) by {
        SearchUpdates(before, Str(q));
      }
    } else {
      assert params == before + SearchParams(variant, searchQuery) by {
        assert SearchParams(variant, searchQuery) == map[];
      }
    }
  }

  /** Writing the five search keys one by one adds the search alternatives to the map. */
  lemma SearchUpdates(m: map<string, ParamValue>, v: ParamValue)
    ensures m[SearchKeys[0] := v][SearchKeys[1] := v][SearchKeys[2] := v][SearchKeys[3] := v][SearchKeys[4] := v]
      == m + map k | k in SearchKeys :: v
  {
    var updated := m[SearchKeys[0] := v][SearchKeys[1] := v][SearchKeys[2] := v][SearchKeys[3] := v][SearchKeys[4] := v];
    var added := m + map k | k in SearchKeys :: v;
    assert updated.Keys == added.Keys;
    forall k | k in updated
      ensures updated[k] == added[k]
    {
      if k in SearchKeys {
        assert added[k] == v;
      }
    }
  }

  /** The home view sends its token as a bearer credential; the page view sends no header of its own. */
  function Headers(variant: Variant, env: Env): (h: map<string, string>)
    ensures variant == PageView ==> h == map[]
    ensures variant == HomeView ==> h.Keys == {AuthorizationHeader} && h[AuthorizationHeader] == "Bearer " + env.token
  {
    if variant == HomeView then map[AuthorizationHeader := "Bearer " + env.token] else map[]
  }

  /** The request one call sends, or None when it returns early without sending any. */
  function RequestFor(variant: Variant, env: Env, page: int, office: Option<string>, query: Option<string>): (r: Option<Request>)
    ensures r.None? <==> env.apiUrl == "" || (variant == HomeView && env.token == "")
    ensures r.Some? ==> r.value.url == env.apiUrl + "/api/equipment-inventories"
  {
    if Configured(variant, env) then
      Some(Request(env.apiUrl + InventoriesPath, ExpectedParams(variant, page, office, query), Headers(variant, env)))
    else
      None
  }

  /** The value one call resolves to: the server's answer to the request it sends, or null when it sends none. */
  function ResponseFor(variant: Variant, env: Env, page: int, office: Option<string>, query: Option<string>,
    server: Request -> Option<ApiResponse>): (response: Option<ApiResponse>)
    ensures !Configured(variant, env) ==> response.None?
  {
    match RequestFor(variant, env, page, office, query)
    case None => None
    case Some(request) => server(request)
  }

  /**
   * `fetchEquipmentInventories`: returns null without a request when not
   * configured; otherwise sends the page request and returns the response,
   * or null when the call failed (the oracle's None).
   */
  method FetchEquipmentInventories(
    variant: Variant, env: Env, page: int, office: Option<string>, searchQuery: Option<string>,
    server: Request -> Option<ApiResponse>)
    returns (sent: Option<Request>, response: Option<ApiResponse>)
    ensures sent == RequestFor(variant, env, page, office, searchQuery)
    ensures response == ResponseFor(variant, env, page, office, searchQuery, server)
  {
    if env.apiUrl == "" || (variant == HomeView && env.token == "") {
      return None, None;
    }
    var params := BuildParams(variant, page, office, searchQuery);
    var headers: map<string, string> := map[];
    if variant == HomeView {
      headers := headers[AuthorizationHeader := "Bearer " + env.token];
    }
    var request := Request(env.apiUrl + InventoriesPath, params, headers);
    sent := Some(request);
    response := server(request);
  }
}
