/**
 * The state both dashboard views keep between renders, and the handlers that
 * change it: the office tabs, the current page and its records, the search
 * box, the search submission, the page refresh and the spreadsheet export.
 */
module Dashboard {
  import opened Wrappers
  import opened Text
  import opened Inventory
  import opened Query
  import opened Export

  /** `offices.find(o => o.id.toString() === tab)?.name`: the name of the first office whose id renders as the tab key. */
  function OfficeName(offices: seq<Office>, tab: string): (name: Option<string>)
    ensures name.None? <==> forall i :: 0 <= i < |offices| ==> IntToString(offices[i].id) != tab
    ensures name.Some? ==> exists i ::
      && 0 <= i < |offices|
      && IntToString(offices[i].id) == tab
      && offices[i].name == name.value
      && forall j :: 0 <= j < i ==> IntToString(offices[j].id) != tab
  {
    if offices == [] then None
    else if IntToString(offices[0].id) == tab then Some(offices[0].name)
    else
      var rest := OfficeName(offices[1..], tab);
      if rest.Some? then
        assert forall i :: 1 <= i < |offices| ==> offices[i] == offices[1..][i - 1];
        rest
      else rest
  }

  /** No office is selected before the tabs are filled: every id renders to a non-empty key. */
  lemma NoTabNoOffice(offices: seq<Office>)
    ensures OfficeName(offices, "") == None
  {
    forall i | 0 <= i < |offices|
      ensures IntToString(offices[i].id) != ""
    {
    }
  }

  /** The first office's tab selects that office. */
  lemma FirstTabSelectsFirstOffice(offices: seq<Office>)
    requires offices != []
    ensures OfficeName(offices, IntToString(offices[0].id)) == Some(offices[0].name)
  {
  }

  class DashboardView {
    const variant: Variant
    const env: Env
    var offices: seq<Office>
    var tabSelected: string
    var page: int
    var totalPages: int
    var totalCount: int
    var data: seq<EquipmentInventory>
    var searchQuery: string
    var refreshTrigger: string

    /** The initial state: page 1 of 1, no records, no office tabs, an empty search box. */
    constructor(variant: Variant, env: Env)
      ensures this.variant == variant && this.env == env
      ensures offices == [] && tabSelected == "" && data == []
      ensures page == 1 && totalPages == 1 && totalCount == 0
      ensures searchQuery == "" && refreshTrigger == ""
    {
      this.variant := variant;
      this.env := env;
      offices := [];
      tabSelected := "";
      page := 1;
      totalPages := 1;
      totalCount := 0;
      data := [];
      searchQuery := "";
      refreshTrigger := "";
    }

    /** The office list arrived: show it, and select the first office's tab when there is one. */
    method ShowOffices(list: seq<Office>)
      modifies this
      ensures offices == list
      ensures tabSelected == if list != [] then IntToString(list[0].id) else old(tabSelected)
      ensures page == old(page) && totalPages == old(totalPages) && totalCount == old(totalCount) && data == old(data)
      ensures searchQuery == old(searchQuery) && refreshTrigger == old(refreshTrigger)
    {
      offices := list;
      if |list| > 0 {
        tabSelected := IntToString(list[0].id);
      }
    }

    /** Typing in the search box changes only the query text; nothing is fetched yet. */
    method SetSearchQuery(text: string)
      modifies this
      ensures searchQuery == text
      ensures offices == old(offices) && tabSelected == old(tabSelected) && page == old(page)
      ensures totalPages == old(totalPages) && totalCount == old(totalCount) && data == old(data)
      ensures refreshTrigger == old(refreshTrigger)
    {
      searchQuery := text;
    }

    /** `handleSearchSubmit`: record the query as the refresh trigger and go back to the first page. */
    method HandleSearchSubmit()
      modifies this
      ensures refreshTrigger == old(searchQuery) && page == 1
      ensures offices == old(offices) && tabSelected == old(tabSelected) && searchQuery == old(searchQuery)
      ensures totalPages == old(totalPages) && totalCount == old(totalCount) && data == old(data)
    {
      refreshTrigger := searchQuery;
      page := 1;
    }

    /** The filter the current tab selects. */
    function SelectedOffice(): Option<string>
      reads this
    {
      OfficeName(offices, tabSelected)
    }

    /**
     * The refresh effect: with a tab selected (and, in the home view, a
     * token), fetch the current page and show its records and counts; a null
     * result leaves the table as it was.
     */
    method FetchData(server: Request -> Option<ApiResponse>)
      modifies this
      ensures var response := ResponseFor(variant, env, old(page), old(SelectedOffice()), Some(old(searchQuery)), server);
        if old(tabSelected) == "" || (variant == HomeView && env.token == "") || response.None? then
          data == old(data) && totalPages == old(totalPages) && totalCount == old(totalCount)
        else
          data == response.value.data
          && totalPages == response.value.pagination.pageCount
          && totalCount == response.value.pagination.total
      ensures offices == old(offices) && tabSelected == old(tabSelected) && page == old(page)
      ensures searchQuery == old(searchQuery) && refreshTrigger == old(refreshTrigger)
    {
      if tabSelected == "" || (variant == HomeView && env.token == "") {
        return;
      }
      var office := OfficeName(offices, tabSelected);
      var sent, response := FetchEquipmentInventories(variant, env, page, office, Some(searchQuery), server);
      if response.Some? {
        data := response.value.data;
        totalPages := response.value.pagination.pageCount;
        totalCount := response.value.pagination.total;
      }
    }

    /** The source every request of an export draws on: the current view, office and query. */
    function ExportSource(server: Request -> Option<ApiResponse>): PageSource
      reads this
    {
      PageSource(variant, env, SelectedOffice(), Some(searchQuery), server)
    }

    /**
     * `exportToExcel`: request pages 1 .. totalPages in order, keep the
     * records of every page that came back, then flatten them into the "ITAM"
     * sheet of `ITAM_<office>.xlsx`. Returns the requests in the order they were
     * sent and the workbook, or Crashed when a comment could not be flattened.
     */
    method ExportToExcel(server: Request -> Option<ApiResponse>, now: YearMonth)
      returns (sent: seq<Request>, outcome: ExportOutcome)
      ensures sent == PageRequests(ExportSource(server), 1, totalPages + 1)
      ensures outcome == ExportOf(now, env.apiUrl, SelectedOffice(), Swept(ExportSource(server), totalPages))
    {
      var office := OfficeName(offices, tabSelected);
      var src := PageSource(variant, env, office, Some(searchQuery), server);
      var allPagesData;
      sent, allPagesData := SweepPages(src, totalPages);
      outcome := ExportOf(now, env.apiUrl, office, allPagesData);
    }
  }
}
