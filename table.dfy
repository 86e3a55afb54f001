/**
 * The data table: its rows and headers, the column projection of the body,
 * and the paging state that the click handlers, the data-adoption effect,
 * the fetch and the page-count effect update one step at a time.
 */
module Table {
  import opened Wrappers
  import opened Decimal
  import opened Pagination

  /** A cell value of a record, as decoded JSON gives it. */
  datatype Value = Text(s: string) | Number(n: int) | Flag(b: bool) | Null

  /** One property of a record. */
  datatype Entry = Entry(key: string, value: Value)

  /** A record, its properties in the order `Object.keys` lists them. */
  type Row = seq<Entry>

  /** No two properties of a record share a key, as in every JavaScript object. */
  predicate DistinctKeys(row: Row) {
    forall i, j :: 0 <= i < j < |row| ==> row[i].key != row[j].key
  }

  /**
   * A column header: a plain string, or a `{field, label}` pair whose label
   * is held here as `caption`.
   */
  datatype Header = Label(text: string) | Column(field: string, caption: string)

  /** The `data` prop: an envelope with paging fields, or a bare array of records. */
  datatype DataProp =
    | Paged(pageNumber: Option<int>, pageSize: Option<int>, recordCount: Option<int>, records: seq<Row>)
    | Bare(rows: seq<Row>)

  /**
   * A decoded fetch response; every field may be missing. A `null` body reads
   * as the response with no fields at all, since `json?.field` is then
   * `undefined`. Fields that are present but `null` are not represented.
   */
  datatype Response = Response(pageNumber: Option<int>, pageSize: Option<int>, recordCount: Option<int>, records: Option<seq<Row>>)

  /** The caller's callbacks, in the order the table invoked them. */
  datatype Callback = NextPageClicked | PreviousPageClicked | Searched(text: string)

  /**
   * The rendered `<tbody>`: none without headers, a `TypeError` when the
   * headers array is empty (its first element is read), or one row of cells
   * per record, where `None` is an empty cell (the value `undefined`).
   */
  datatype Tbody = NoBody | TypeError | Body(rows: seq<seq<Option<Value>>>)

  /** `row[key]`: the value of the first property named `key`. */
  function Lookup(row: Row, key: string): (v: Option<Value>)
    ensures v.Some? <==> exists i :: 0 <= i < |row| && row[i].key == key
    ensures v.Some? ==> exists i :: 0 <= i < |row| && row[i] == Entry(key, v.value)
  {
    if row == [] then None
    else if row[0].key == key then Some(row[0].value)
    else
      var v := Lookup(row[1..], key);
      assert forall i :: 1 <= i < |row| ==> row[i] == row[1..][i - 1];
      v
  }

  /**
   * `header.label || header`: the caption shown in a `<th>`, or `None` when
   * it falls back to the header object itself (a pair with an empty label).
   */
  function HeaderCaption(h: Header): (c: Option<string>)
    ensures h.Label? ==> c == Some(h.text)
    ensures h.Column? ==> (c.Some? <==> h.caption != "") && (c.Some? ==> c.value == h.caption)
  {
    match h
    case Label(text) => Some(text)
    case Column(_, caption) => if caption != "" then Some(caption) else None
  }

  /**
   * The rendered `<thead>` row: its captions, or a render error when some
   * `<th>` would hold a header object, which React refuses to render as a
   * child, so that the whole table fails to render.
   */
  datatype Thead = HeaderRow(captions: seq<string>) | ObjectAsChildError

  /** The header row: one caption per header, in order, unless a header object is shown. */
  function HeaderCaptions(headers: seq<Header>): (thead: Thead)
    ensures thead.ObjectAsChildError? <==> exists i :: 0 <= i < |headers| && HeaderCaption(headers[i]).None?
    ensures thead.ObjectAsChildError? <==> exists i :: 0 <= i < |headers| && headers[i].Column? && headers[i].caption == ""
    ensures thead.HeaderRow? ==> |thead.captions| == |headers|
    ensures thead.HeaderRow? ==> forall i :: 0 <= i < |headers| ==> HeaderCaption(headers[i]) == Some(thead.captions[i])
  {
    if forall i :: 0 <= i < |headers| ==> HeaderCaption(headers[i]).Some? then
      HeaderRow(seq(|headers|, i requires 0 <= i < |headers| => HeaderCaption(headers[i]).value))
    else
      ObjectAsChildError
  }

  /** `headers[0].label` is truthy: only a pair with a non-empty label. */
  predicate FirstHasLabel(headers: seq<Header>)
    requires |headers| > 0
  {
    headers[0].Column? && headers[0].caption != ""
  }

  /** `header.field` as a property key; a string header has no `field`, and `row[undefined]` reads key "undefined". */
  function ProjectionKey(h: Header): string {
    match h
    case Column(field, _) => field
    case Label(_) => "undefined"
  }

  /** The cells of one record under field headers: one per header, in header order. */
  function ProjectRow(headers: seq<Header>, row: Row): seq<Option<Value>> {
    seq(|headers|, i requires 0 <= i < |headers| => Lookup(row, ProjectionKey(headers[i])))
  }

  /** The cells of one record in the schemaless path: its own values, in key order. */
  function OwnValues(row: Row): seq<Option<Value>> {
    seq(|row|, i requires 0 <= i < |row| => Some(row[i].value))
  }

  /** The body of the table for the given headers and records. */
  function TableBody(headers: Option<seq<Header>>, data: seq<Row>): (body: Tbody)
    ensures body.NoBody? <==> headers.None?
    ensures body.TypeError? <==> headers == Some([])
    ensures body.Body? ==> |body.rows| == |data|
    ensures body.Body? && FirstHasLabel(headers.value) ==>
      forall r :: 0 <= r < |data| ==> |body.rows[r]| == |headers.value|
    ensures body.Body? && FirstHasLabel(headers.value) ==>
      forall r, i :: 0 <= r < |data| && 0 <= i < |headers.value| ==>
        body.rows[r][i] == Lookup(data[r], ProjectionKey(headers.value[i]))
    ensures body.Body? && !FirstHasLabel(headers.value) ==>
      forall r :: 0 <= r < |data| ==> |body.rows[r]| == |data[r]|
    ensures body.Body? && !FirstHasLabel(headers.value) ==>
      forall r, i :: 0 <= r < |data| && 0 <= i < |data[r]| ==> body.rows[r][i] == Some(data[r][i].value)
  {
    match headers
    case None => NoBody
    case Some(hs) =>
      if hs == [] then TypeError
      else if FirstHasLabel(hs) then Body(seq(|data|, r requires 0 <= r < |data| => ProjectRow(hs, data[r])))
      else Body(seq(|data|, r requires 0 <= r < |data| => OwnValues(data[r])))
  }

  /** In a record with distinct keys, `row[key]` is the value of the one property with that key. */
  lemma LookupFindsProperty(row: Row, j: nat)
    requires DistinctKeys(row) && j < |row|
    ensures Lookup(row, row[j].key) == Some(row[j].value)
  {
  }

  /**
   * Under field headers, any property of a record whose key is a header's
   * field is shown in that record's row, in that header's column.
   */
  lemma FieldColumnShowsField(headers: seq<Header>, data: seq<Row>, r: nat, i: nat, j: nat)
    requires |headers| > 0 && FirstHasLabel(headers)
    requires r < |data| && i < |headers| && headers[i].Column?
    requires DistinctKeys(data[r]) && j < |data[r]| && data[r][j].key == headers[i].field
    ensures TableBody(Some(headers), data).rows[r][i] == Some(data[r][j].value)
  {
    LookupFindsProperty(data[r], j);
  }

  /** The table component's state. */
  class TableState {
    var tableData: seq<Row>
    var defaultSearch: string
    /** A fetch is in progress. */
    var atualizando: bool
    /** The URL the table fetches from; "" when there is none. */
    var currentEndpoint: string
    var pageNumber: Option<int>
    var pageSize: Option<int>
    var recordCount: Option<int>
    var pageOptions: Option<seq<SelectOption>>
    /** The `pageCount` ref; `None` is its initial `null`. */
    var pageCount: Option<PageCount>
    var calls: seq<Callback>

    /** The go-to-page options, once built, are "1" .. "k" for some k. */
    ghost predicate Valid()
      reads this`pageOptions
    {
      pageOptions.Some? ==> pageOptions.value == PageOptionList(|pageOptions.value|)
    }

    /** The guard of both arrow handlers: `!atualizando && currentEndpoint`. */
    predicate HandlersEnabled()
      reads this`atualizando, this`currentEndpoint
    {
      !atualizando && currentEndpoint != ""
    }

    /** The page number is a page of the current page count. */
    predicate OnExistingPage()
      reads this`pageNumber, this`pageCount
    {
      pageNumber.Some? && pageCount.Some? && pageCount.value.Pages?
      && 0 <= pageNumber.value < pageCount.value.n
    }

    constructor ()
      ensures tableData == [] && defaultSearch == "" && !atualizando && currentEndpoint == ""
      ensures pageNumber.None? && pageSize.None? && recordCount.None?
      ensures pageOptions.None? && pageCount.None? && calls == []
      ensures Valid()
    {
      tableData := [];
      defaultSearch := "";
      atualizando := false;
      currentEndpoint := "";
      pageNumber, pageSize, recordCount := None, None, None;
      pageOptions := None;
      pageCount := None;
      calls := [];
    }

    /**
     * The effect on `data` and `endpoint`: an envelope is copied verbatim, a
     * bare array of N records is one page of N; a non-empty endpoint becomes
     * the fetch target.
     */
    method AdoptProps(data: Option<DataProp>, endpoint: string)
      modifies this`tableData, this`pageNumber, this`pageSize, this`recordCount, this`currentEndpoint
      ensures data.Some? && data.value.Paged? ==>
        && tableData == data.value.records
        && pageNumber == data.value.pageNumber
        && pageSize == data.value.pageSize
        && recordCount == data.value.recordCount
      ensures data.Some? && data.value.Bare? ==>
        && tableData == data.value.rows
        && pageNumber == Some(0)
        && pageSize == Some(|data.value.rows|)
        && recordCount == Some(|data.value.rows|)
      ensures data.None? ==>
        && tableData == old(tableData)
        && pageNumber == old(pageNumber)
        && pageSize == old(pageSize)
        && recordCount == old(recordCount)
      ensures currentEndpoint == if endpoint != "" then endpoint else old(currentEndpoint)
    {
      match data {
        case Some(Paged(number, size, count, records)) =>
          tableData := records;
          pageNumber := number;
          pageSize := size;
          recordCount := count;
        case Some(Bare(rows)) =>
          tableData := rows;
          recordCount := Some(|rows|);
          pageSize := Some(|rows|);
          pageNumber := Some(0);
        case None =>
      }
      if endpoint != "" {
        currentEndpoint := endpoint;
      }
    }

    /**
     * `handleClickNextPage`: the caller's callback always runs; the page
     * number goes up by one only when the handlers are enabled and it is
     * defined. Clicking the arrow while it is enabled keeps an existing page.
     */
    method ClickNextPage()
      modifies this`pageNumber, this`calls
      ensures calls == old(calls) + [NextPageClicked]
      ensures pageNumber == Shift(old(pageNumber), 1, HandlersEnabled())
      ensures old(OnExistingPage()) && !NextDisabled(old(pageNumber), pageCount) ==> OnExistingPage()
    {
      calls := calls + [NextPageClicked];
      if HandlersEnabled() && pageNumber.Some? {
        if OnExistingPage() {
          EnabledArrowsStayInRange(pageNumber.value, pageCount.value.n);
        }
        pageNumber := Some(pageNumber.value + 1);
      }
    }

    /** `handleClickPreviousPage`: as the next click, going down by one. */
    method ClickPreviousPage()
      modifies this`pageNumber, this`calls
      ensures calls == old(calls) + [PreviousPageClicked]
      ensures pageNumber == Shift(old(pageNumber), -1, HandlersEnabled())
      ensures old(OnExistingPage()) && !PreviousDisabled(old(pageNumber)) ==> OnExistingPage()
    {
      calls := calls + [PreviousPageClicked];
      if HandlersEnabled() && pageNumber.Some? {
        pageNumber := Some(pageNumber.value - 1);
      }
    }

    /** The go-to-page selector: choosing the option valued `v` goes to page `Number(v) - 1`. */
    method GoToPage(v: string)
      requires IsIntLiteral(v)
      modifies this`pageNumber
      ensures pageNumber == Some(IntLiteralValue(v) - 1)
    {
      pageNumber := Some(IntLiteralValue(v) - 1);
    }

    /**
     * The effect on `currentEndpoint`: a non-empty endpoint is fetched and
     * the table is marked as updating; `request` is the URL fetched.
     */
    method StartFetch() returns (request: Option<string>)
      modifies this`atualizando
      ensures request.Some? <==> currentEndpoint != ""
      ensures request.Some? ==> request.value == currentEndpoint && atualizando
      ensures request.None? ==> atualizando == old(atualizando)
    {
      if currentEndpoint != "" {
        atualizando := true;
        request := Some(currentEndpoint);
      } else {
        request := None;
      }
    }

    /**
     * The fetch's completion: records replace the rows only when present;
     * the three paging fields are overwritten, missing ones with `undefined`.
     */
    method ApplyResponse(json: Response)
      modifies this`tableData, this`pageNumber, this`pageSize, this`recordCount, this`atualizando
      ensures tableData == if json.records.Some? then json.records.value else old(tableData)
      ensures pageNumber == json.pageNumber && pageSize == json.pageSize && recordCount == json.recordCount
      ensures !atualizando
    {
      if json.records.Some? {
        tableData := json.records.value;
      }
      pageNumber := json.pageNumber;
      pageSize := json.pageSize;
      recordCount := json.recordCount;
      atualizando := false;
    }

    /** The effect on `pageNumber`: a defined page number is written into the endpoint's query string. */
    method SyncEndpointWithPageNumber(update: (string, string, string) -> string)
      modifies this`currentEndpoint
      ensures currentEndpoint ==
        if pageNumber.Some? then update(old(currentEndpoint), "pageNumber", IntString(pageNumber.value))
        else old(currentEndpoint)
    {
      if pageNumber.Some? {
        currentEndpoint := update(currentEndpoint, "pageNumber", IntString(pageNumber.value));
      }
    }

    /** The effect on `pageSize`: a defined page size is written into the endpoint's query string. */
    method SyncEndpointWithPageSize(update: (string, string, string) -> string)
      modifies this`currentEndpoint
      ensures currentEndpoint ==
        if pageSize.Some? then update(old(currentEndpoint), "pageSize", IntString(pageSize.value))
        else old(currentEndpoint)
    {
      if pageSize.Some? {
        currentEndpoint := update(currentEndpoint, "pageSize", IntString(pageSize.value));
      }
    }

    /** Typing in the search box. */
    method EditSearch(text: string)
      modifies this`defaultSearch
      ensures defaultSearch == text
    {
      defaultSearch := text;
    }

    /** `handleTrocaBuscaPadrao`: reports the search text, then writes it into the endpoint's query string. */
    method SubmitSearch(update: (string, string, string) -> string)
      modifies this`calls, this`currentEndpoint
      ensures calls == old(calls) + [Searched(defaultSearch)]
      ensures currentEndpoint == update(old(currentEndpoint), "defaultSearch", defaultSearch)
    {
      calls := calls + [Searched(defaultSearch)];
      currentEndpoint := update(currentEndpoint, "defaultSearch", defaultSearch);
    }

    /** The page-count effect would push options forever (`i < Infinity`). */
    predicate Diverges()
      reads this`recordCount, this`pageSize, this`pageCount, this`pageOptions
    {
      recordCount.Some? && pageSize.Some? && pageSize.value == 0 && recordCount.value > 0
      && CountChanged(Infinity(false), pageCount) && RebuildsOptions(pageOptions, 0)
    }

    /**
     * The effect on `recordCount` and `pageSize`: with both defined, the ref
     * is set to the page count when it changed, and only then are the
     * go-to-page options rebuilt, if their number differs from the page size.
     */
    method SyncPageCount()
      requires Valid() && !Diverges()
      modifies this`pageCount, this`pageOptions
      ensures Valid()
      ensures recordCount.None? || pageSize.None? ==> pageCount == old(pageCount) && pageOptions == old(pageOptions)
      ensures recordCount.Some? && pageSize.Some? ==>
        pageCount == Some(PageCountOf(recordCount.value, pageSize.value))
      ensures recordCount.Some? && pageSize.Some? ==>
        var c := PageCountOf(recordCount.value, pageSize.value);
        pageOptions ==
          if CountChanged(c, old(pageCount)) && RebuildsOptions(old(pageOptions), pageSize.value)
          then Some(PageOptionList(LoopBound(c)))
          else old(pageOptions)
    {
      if recordCount.Some? && pageSize.Some? {
        var c := PageCountOf(recordCount.value, pageSize.value);
        if CountChanged(c, pageCount) {
          pageCount := Some(c);
          if RebuildsOptions(pageOptions, pageSize.value) {
            var options := BuildPageOptions(match c case Pages(n) => n case _ => 0);
            pageOptions := Some(options);
          }
        }
      }
    }
  }

  /** Choosing option `i` of the go-to-page list goes to page `i`, the page that option names. */
  lemma GoToOptionSelectsPage(n: nat, i: nat)
    requires i < n
    ensures IsIntLiteral(PageOptionList(n)[i].value)
    ensures IntLiteralValue(PageOptionList(n)[i].value) - 1 == i
  {
    PageOptionDenotesPage(n, i);
  }

  /**
   * The go-to-page list goes stale: 4 records of 2 per page give options
   * "1", "2"; 10 records of 2 per page then make 5 pages, but the two options
   * are kept because they number as many as the page size.
   */
  method StaleOptionsScenario() returns (optionCount: nat, count: PageCount)
    ensures optionCount == 2 && count == Pages(5)
  {
    var t := new TableState();
    t.ApplyResponse(Response(Some(0), Some(2), Some(4), None));
    t.SyncPageCount();
    assert t.pageOptions == Some(PageOptionList(2));
    t.ApplyResponse(Response(Some(0), Some(2), Some(10), None));
    t.SyncPageCount();
    optionCount := |t.pageOptions.value|;
    count := t.pageCount.value;
  }
}
