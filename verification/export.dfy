/**
 * `exportToExcel` in both dashboard views: the sweep that requests pages
 * 1 .. totalPages one after another and keeps the records of every page that
 * came back, the flattening of each record into a spreadsheet row, and the
 * sheet and file names of the workbook.
 */
module Export {
  import opened Wrappers
  import opened Text
  import opened Inventory
  import opened Derived
  import opened Query

  // ---------------------------------------------------------------------------
  // The page sweep
  // ---------------------------------------------------------------------------

  /** What every request of one sweep shares: the view, its configuration, the office and search filters, and the server. */
  datatype PageSource = PageSource(
    variant: Variant,
    env: Env,
    office: Option<string>,
    query: Option<string>,
    server: Request -> Option<ApiResponse>)

  /** The records page `page` contributes: its data when the call returned a body, nothing when it returned null. */
  function PageData(src: PageSource, page: int): (records: seq<EquipmentInventory>)
    ensures ResponseFor(src.variant, src.env, page, src.office, src.query, src.server).None? ==> records == []
  {
    match ResponseFor(src.variant, src.env, page, src.office, src.query, src.server)
    case None => []
    case Some(response) => response.data
  }

  /** The pieces `f(lo)`, ..., `f(hi - 1)`, concatenated in that order. */
  function Collect<T>(f: int -> seq<T>, lo: int, hi: int): seq<T>
    decreases hi - lo
  {
    if hi <= lo then [] else Collect(f, lo, hi - 1) + f(hi - 1)
  }

  /** The request page `page` sends: one, or none when the view is not configured. */
  function PageRequest(src: PageSource, page: int): (requests: seq<Request>)
    ensures |requests| <= 1
    ensures requests == [] <==> !Configured(src.variant, src.env)
  {
    var request := RequestFor(src.variant, src.env, page, src.office, src.query);
    if request.Some? then [request.value] else []
  }

  /** The records of pages lo .. hi - 1, concatenated in page order. */
  function PagesData(src: PageSource, lo: int, hi: int): seq<EquipmentInventory>
  {
    Collect(p => PageData(src, p), lo, hi)
  }

  /** The requests sent for pages lo .. hi - 1, in page order. */
  function PageRequests(src: PageSource, lo: int, hi: int): seq<Request>
  {
    Collect(p => PageRequest(src, p), lo, hi)
  }

  /** The accumulated records of a sweep over pages 1 .. totalPages. */
  function Swept(src: PageSource, totalPages: int): (records: seq<EquipmentInventory>)
    ensures totalPages < 1 ==> records == []
  {
    PagesData(src, 1, totalPages + 1)
  }

  /**
   * The loop of `exportToExcel`: fetch pages 1 .. totalPages one after
   * another and append the records of every page that returned a body.
   */
  method SweepPages(src: PageSource, totalPages: int) returns (sent: seq<Request>, allPagesData: seq<EquipmentInventory>)
    ensures sent == PageRequests(src, 1, totalPages + 1)
    ensures allPagesData == Swept(src, totalPages)
    ensures totalPages < 1 ==> sent == [] && allPagesData == []
  {
    allPagesData := [];
    sent := [];
    var currentPage := 1;
    while currentPage <= totalPages
      invariant 1 <= currentPage <= if totalPages >= 1 then totalPages + 1 else 1
      invariant allPagesData == PagesData(src, 1, currentPage)
      invariant sent == PageRequests(src, 1, currentPage)
      decreases totalPages - currentPage
    {
      var request, response := FetchEquipmentInventories(src.variant, src.env, currentPage, src.office, src.query, src.server);
      PagesStep(src, currentPage);
      if request.Some? {
        sent := sent + [request.value];
      }
      if response.Some? {
        allPagesData := allPagesData + response.value.data;
      }
      currentPage := currentPage + 1;
    }
  }

  /** One more page extends the sweep by that page's request and records. */
  lemma PagesStep(src: PageSource, page: int)
    requires 1 <= page
    ensures PagesData(src, 1, page + 1) == PagesData(src, 1, page) + PageData(src, page)
    ensures PageRequests(src, 1, page + 1) == PageRequests(src, 1, page) + PageRequest(src, page)
  {
  }

  /** Consecutive ranges concatenate. */
  lemma {:induction false} CollectSplit<T>(f: int -> seq<T>, lo: int, mid: int, hi: int)
    requires lo <= mid <= hi
    ensures Collect(f, lo, hi) == Collect(f, lo, mid) + Collect(f, mid, hi)
    decreases hi - mid
  {
    if mid < hi {
      var left, middle, last := Collect(f, lo, mid), Collect(f, mid, hi - 1), f(hi - 1);
      calc {
        Collect(f, lo, hi);
        Collect(f, lo, hi - 1) + last;
      == { CollectSplit(f, lo, mid, hi - 1); }
        (left + middle) + last;
      == { ConcatAssociative(left, middle, last); }
        left + (middle + last);
        left + Collect(f, mid, hi);
      }
    }
  }

  /** Pieces that are all empty collect to nothing. */
  lemma {:induction false} CollectNothing<T>(f: int -> seq<T>, lo: int, hi: int)
    requires forall p :: f(p) == []
    ensures Collect(f, lo, hi) == []
    decreases hi - lo
  {
    if lo < hi {
      CollectNothing(f, lo, hi - 1);
    }
  }

  /** An element is collected exactly when some piece of the range holds it. */
  lemma {:induction false} CollectMembers<T>(f: int -> seq<T>, lo: int, hi: int, x: T)
    ensures x in Collect(f, lo, hi) <==> exists p :: lo <= p < hi && x in f(p)
    decreases hi - lo
  {
    if hi > lo {
      CollectMembers(f, lo, hi - 1, x);
      if x in f(hi - 1) {
        assert lo <= hi - 1 < hi;
      }
    }
  }

  /** An empty piece can be cut out of the range. */
  lemma CollectSkip<T>(f: int -> seq<T>, lo: int, p: int, hi: int)
    requires lo <= p < hi && f(p) == []
    ensures Collect(f, lo, hi) == Collect(f, lo, p) + Collect(f, p + 1, hi)
  {
    var before, after := Collect(f, lo, p), Collect(f, p + 1, hi);
    assert Collect(f, p, p + 1) == [];
    calc {
      Collect(f, lo, hi);
    == { CollectSplit(f, lo, p, hi); }
      before + Collect(f, p, hi);
    == { CollectSplit(f, p, p + 1, hi); }
      before + ([] + after);
    == { assert [] + after == after; }
      before + after;
    }
  }

  /** A page whose call returned null contributes nothing: the sweep goes on with the pages after it. */
  lemma FailedPageSkipped(src: PageSource, p: int, totalPages: int)
    requires 1 <= p <= totalPages
    requires ResponseFor(src.variant, src.env, p, src.office, src.query, src.server).None?
    ensures Swept(src, totalPages) == Swept(src, p - 1) + PagesData(src, p + 1, totalPages + 1)
  {
    CollectSkip(q => PageData(src, q), 1, p, totalPages + 1);
  }

  /** A view that is not configured sends no request and exports no record, however many pages it expects. */
  lemma UnconfiguredSweepIsEmpty(src: PageSource, totalPages: int)
    requires !Configured(src.variant, src.env)
    ensures PageRequests(src, 1, totalPages + 1) == []
    ensures Swept(src, totalPages) == []
  {
    CollectNothing(q => PageRequest(src, q), 1, totalPages + 1);
    CollectNothing(q => PageData(src, q), 1, totalPages + 1);
  }

  /** A record is in the sweep's result exactly when some page of the range returned it. */
  lemma PagesMembers(src: PageSource, lo: int, hi: int, x: EquipmentInventory)
    ensures x in PagesData(src, lo, hi) <==> exists p :: lo <= p < hi && x in PageData(src, p)
  {
    var f := q => PageData(src, q);
    CollectMembers(f, lo, hi, x);
    assert forall p :: f(p) == PageData(src, p);
  }

  /** With the view configured, the sweep sends exactly one request per page, for pages lo .. hi - 1 in increasing order. */
  lemma {:induction false} SweepRequestsInOrder(src: PageSource, lo: int, hi: int)
    requires Configured(src.variant, src.env) && lo <= hi
    ensures |PageRequests(src, lo, hi)| == hi - lo
    ensures forall i :: 0 <= i < hi - lo ==>
      PageRequests(src, lo, hi)[i] == RequestFor(src.variant, src.env, lo + i, src.office, src.query).value
    decreases hi - lo
  {
    if lo < hi {
      SweepRequestsInOrder(src, lo, hi - 1);
      var last := RequestFor(src.variant, src.env, hi - 1, src.office, src.query);
      assert PageRequests(src, lo, hi) == PageRequests(src, lo, hi - 1) + [last.value];
    }
  }

  /** The request for a page names that page. */
  lemma RequestNamesPage(variant: Variant, env: Env, page: int, office: Option<string>, query: Option<string>)
    requires Configured(variant, env)
    ensures var params := RequestFor(variant, env, page, office, query).value.params;
      PageKey in params && params[PageKey] == Num(page)
  {
    ParamKeys(variant, page, office, query);
    ParamValues(variant, page, office, query);
  }

  // ---------------------------------------------------------------------------
  // Row flattening
  // ---------------------------------------------------------------------------

  /** One spreadsheet row; the four names read through an optional relation are absent when the relation is. */
  datatype Row = Row(
    code: string,
    employeeName: Option<string>,
    officeName: Option<string>,
    deviceType: Option<string>,
    deviceModel: Option<string>,
    osType: string,
    purchaseDate: string,
    yearUsed: string,
    deviceStatus: string,
    warrantyDuration: string,
    comment: string,
    files: string)

  const CellSeparator := ", "

  /**
   * The text of the first run of every comment paragraph, in order; None when
   * some paragraph has no runs, where reading `children[0].text` throws.
   */
  function FirstTexts(comment: seq<Paragraph>): (texts: Option<seq<string>>)
    ensures texts.Some? <==> forall i :: 0 <= i < |comment| ==> |comment[i].children| > 0
    ensures texts.Some? ==>
      && |texts.value| == |comment|
      && forall i :: 0 <= i < |comment| ==> texts.value[i] == comment[i].children[0].text
  {
    if comment == [] then Some([])
    else if |comment[0].children| == 0 then None
    else
      match FirstTexts(comment[1..])
      case None => None
      case Some(rest) => Some([comment[0].children[0].text] + rest)
  }

  /** The Comment cell: the first texts joined with ", ", or None when flattening throws. */
  function CommentCell(comment: seq<Paragraph>): (cell: Option<string>)
    ensures cell.Some? <==> forall i :: 0 <= i < |comment| ==> |comment[i].children| > 0
  {
    match FirstTexts(comment)
    case None => None
    case Some(texts) => Some(Join(texts, CellSeparator))
  }

  /** A spreadsheet formula linking to one attached file under the API's base address. */
  function Hyperlink(apiUrl: string, file: File): (formula: string)
    ensures var target := apiUrl + file.url;
      && |formula| == |target| + |file.name| + 18
      && formula[..12] == "=HYPERLINK(\"" && formula[12..12 + |target|] == target
      && formula[|formula| - |file.name| - 2..] == file.name + "\")"
  {
    "=HYPERLINK(\"" + apiUrl + file.url + "\"; \"" + file.name + "\")"
  }

  function Hyperlinks(apiUrl: string, files: seq<File>): (links: seq<string>)
    ensures |links| == |files|
  {
    seq(|files|, i requires 0 <= i < |files| => Hyperlink(apiUrl, files[i]))
  }

  /** The Files cell: one formula per file joined with ", ", and "" when the record has no file list. */
  function FilesCell(apiUrl: string, files: Option<seq<File>>): (cell: string)
    ensures files.None? ==> cell == ""
  {
    match files
    case None => ""
    case Some(list) => Join(Hyperlinks(apiUrl, list), CellSeparator)
  }

  /** The Files cell grows by one formula per file, in the order of the file list. */
  lemma FilesCellAppend(apiUrl: string, files: seq<File>, file: File)
    ensures FilesCell(apiUrl, Some([])) == ""
    ensures FilesCell(apiUrl, Some([file])) == Hyperlink(apiUrl, file)
    ensures files != [] ==>
      FilesCell(apiUrl, Some(files + [file])) == FilesCell(apiUrl, Some(files)) + ", " + Hyperlink(apiUrl, file)
  {
    if files != [] {
      assert Hyperlinks(apiUrl, files + [file]) == Hyperlinks(apiUrl, files) + [Hyperlink(apiUrl, file)];
      JoinAppend(Hyperlinks(apiUrl, files), Hyperlink(apiUrl, file), CellSeparator);
    }
  }

  /**
   * The Comment cell grows by one first text per paragraph, in paragraph
   * order: no paragraph gives "", one gives its first text, and each further
   * one appends ", " and its first text.
   */
  lemma CommentCellAppend(comment: seq<Paragraph>, paragraph: Paragraph)
    requires CommentCell(comment).Some? && |paragraph.children| > 0
    ensures CommentCell([]) == Some("")
    ensures CommentCell([paragraph]) == Some(paragraph.children[0].text)
    ensures comment != [] ==>
      CommentCell(comment + [paragraph]) == Some(CommentCell(comment).value + ", " + paragraph.children[0].text)
  {
    assert FirstTexts([paragraph]).value == [paragraph.children[0].text];
    if comment != [] {
      CommentCellNext(comment, paragraph);
    }
  }

  lemma CommentCellNext(comment: seq<Paragraph>, paragraph: Paragraph)
    requires comment != [] && CommentCell(comment).Some? && |paragraph.children| > 0
    ensures CommentCell(comment + [paragraph]) == Some(CommentCell(comment).value + ", " + paragraph.children[0].text)
  {
    var texts := FirstTexts(comment).value;
    var all := comment + [paragraph];
    assert forall i :: 0 <= i < |all| ==> |all[i].children| > 0;
    assert FirstTexts(all).value == texts + [paragraph.children[0].text];
    JoinAppend(texts, paragraph.children[0].text, CellSeparator);
  }

  /** `item.employee?.name` and the other optional reads. */
  function EmployeeName(item: EquipmentInventory): Option<string>
  {
    if item.employee.Some? then Some(item.employee.value.name) else None
  }

  function OfficeOf(item: EquipmentInventory): Option<string>
  {
    if item.employee.Some? then Some(item.employee.value.office.name) else None
  }

  function DeviceTypeName(item: EquipmentInventory): Option<string>
  {
    if item.deviceType.Some? then Some(item.deviceType.value.name) else None
  }

  function DeviceModelName(item: EquipmentInventory): Option<string>
  {
    if item.deviceModel.Some? then Some(item.deviceModel.value.name) else None
  }

  /**
   * One record as a row, with the derived columns computed as the table
   * shows them; None when the comment cannot be flattened.
   */
  function ToRow(now: YearMonth, apiUrl: string, item: EquipmentInventory): (row: Option<Row>)
    ensures row.Some? <==> CommentCell(item.comment).Some?
    ensures row.Some? ==>
      && row.value.code == item.code
      && row.value.purchaseDate == item.purchaseDate
      && row.value.yearUsed == UsedLabel(YearsMonthsUsed(now, item.purchased))
      && row.value.warrantyDuration == ConvertWarrantyToNumber(item.warrantyDuration)
      && row.value.comment == CommentCell(item.comment).value
      && row.value.files == FilesCell(apiUrl, item.files)
      && row.value.employeeName == (if item.employee.Some? then Some(item.employee.value.name) else None)
      && row.value.officeName == (if item.employee.Some? then Some(item.employee.value.office.name) else None)
      && row.value.deviceType == (if item.deviceType.Some? then Some(item.deviceType.value.name) else None)
      && row.value.deviceModel == (if item.deviceModel.Some? then Some(item.deviceModel.value.name) else None)
      && row.value.osType == item.osType
      && row.value.deviceStatus == item.deviceStatus
  {
    match CommentCell(item.comment)
    case None => None
    case Some(comment) =>
      Some(Row(item.code, EmployeeName(item), OfficeOf(item), DeviceTypeName(item), DeviceModelName(item),
        item.osType, item.purchaseDate, UsedLabel(YearsMonthsUsed(now, item.purchased)), item.deviceStatus,
        ConvertWarrantyToNumber(item.warrantyDuration), comment, FilesCell(apiUrl, item.files)))
  }

  /**
   * `xs.map(f)` for a callback that may throw (None): the results in order,
   * or None as soon as one call throws.
   */
  function MapAll<A, B>(f: A -> Option<B>, xs: seq<A>): (ys: Option<seq<B>>)
    ensures ys.Some? <==> forall i :: 0 <= i < |xs| ==> f(xs[i]).Some?
    ensures ys.Some? ==>
      && |ys.value| == |xs|
      && forall i :: 0 <= i < |xs| ==> ys.value[i] == f(xs[i]).value
  {
    if xs == [] then Some([])
    else
      match f(xs[0])
      case None => None
      case Some(y) =>
        match MapAll(f, xs[1..])
        case None => None
        case Some(rest) => Some([y] + rest)
  }

  /** The rows of all records, one per record in the same order; None when any record's flattening throws. */
  function Rows(now: YearMonth, apiUrl: string, items: seq<EquipmentInventory>): (rows: Option<seq<Row>>)
    ensures rows.Some? <==> forall i :: 0 <= i < |items| ==> ToRow(now, apiUrl, items[i]).Some?
    ensures rows.Some? ==>
      && |rows.value| == |items|
      && forall i :: 0 <= i < |items| ==> rows.value[i] == ToRow(now, apiUrl, items[i]).value
  {
    MapAll(item => ToRow(now, apiUrl, item), items)
  }

  // ---------------------------------------------------------------------------
  // The workbook
  // ---------------------------------------------------------------------------

  const SheetName := "ITAM"

  /** `ITAM_${officeName}.xlsx`; an office that was not found renders as "undefined". */
  function ExportFileName(office: Option<string>): (name: string)
    ensures |name| >= 10 && name[..5] == "ITAM_" && name[|name| - 5..] == ".xlsx"
    ensures name[5..|name| - 5] == if office.Some? then office.value else "undefined"
  {
    "ITAM_" + (if office.Some? then office.value else "undefined") + ".xlsx"
  }

  /** The workbook handed to the spreadsheet writer: one sheet of rows, and the name of the file to save. */
  datatype Workbook = Workbook(sheetName: string, fileName: string, rows: seq<Row>)

  /** The end of an export: the workbook is written, or flattening threw before anything was written. */
  datatype ExportOutcome = Written(book: Workbook) | Crashed

  /** What the export produces from the swept records. */
  function ExportOf(now: YearMonth, apiUrl: string, office: Option<string>, records: seq<EquipmentInventory>): (outcome: ExportOutcome)
    ensures outcome.Crashed? <==> exists i :: 0 <= i < |records| && CommentCell(records[i].comment).None?
    ensures outcome.Written? ==>
      && outcome.book.sheetName == "ITAM"
      && outcome.book.fileName == ExportFileName(office)
      && |outcome.book.rows| == |records|
      && outcome.book.rows == Rows(now, apiUrl, records).value
  {
    match Rows(now, apiUrl, records)
    case None => Crashed
    case Some(rows) => Written(Workbook(SheetName, ExportFileName(office), rows))
  }

  /** A record whose comment has an empty paragraph makes the whole export throw, whatever the other records hold. */
  lemma EmptyParagraphCrashes(now: YearMonth, apiUrl: string, office: Option<string>,
    before: seq<EquipmentInventory>, item: EquipmentInventory, after: seq<EquipmentInventory>, k: nat)
    requires k < |item.comment| && item.comment[k].children == []
    ensures ExportOf(now, apiUrl, office, before + [item] + after) == Crashed
  {
    assert CommentCell(item.comment).None?;
    assert (before + [item] + after)[|before|] == item;
  }
}
