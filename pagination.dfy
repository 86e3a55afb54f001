/**
 * The pagination arithmetic of the data table: the page count, the
 * "first–last of total" line, the two arrow buttons, the go-to-page
 * options and the items-per-page options. Everything here is a pure
 * function of the table's state values.
 */
module Pagination {
  import opened Wrappers
  import opened Decimal

  /** `Math.ceil(a / b)` for a non-zero divisor. */
  function CeilDiv(a: int, b: int): (q: int)
    requires b != 0
    ensures b > 0 ==> (q - 1) * b < a <= q * b
    ensures b < 0 ==> (q - 1) * -b < -a <= q * -b
  {
    if b > 0 then
      var f := (-a) / b;
      assert -a == f * b + (-a) % b;
      -f
    else
      var f := a / -b;
      assert a == f * -b + a % -b;
      -f
  }

  /**
   * What `Math.ceil(recordCount / pageSize)` yields: a whole number of
   * pages, or, for a page size of 0, `NaN` (0 / 0) or an infinity.
   */
  datatype PageCount = Pages(n: int) | NaN | Infinity(negative: bool)

  function PageCountOf(recordCount: int, pageSize: int): (c: PageCount)
    ensures pageSize > 0 ==> c.Pages? && (c.n - 1) * pageSize < recordCount <= c.n * pageSize
    ensures pageSize > 0 && recordCount >= 0 ==> c.Pages? && c.n >= 0
    ensures pageSize == 0 ==> (c.NaN? <==> recordCount == 0)
    ensures pageSize == 0 ==> (c == Infinity(false) <==> recordCount > 0)
  {
    if pageSize != 0 then Pages(CeilDiv(recordCount, pageSize))
    else if recordCount == 0 then NaN
    else Infinity(recordCount < 0)
  }

  /** `currentPageCount !== pageCount.current`; `NaN` differs from everything, itself included. */
  predicate CountChanged(c: PageCount, current: Option<PageCount>)
    ensures current == Some(c) ==> (CountChanged(c, current) <==> c.NaN?)
    ensures current != Some(c) ==> CountChanged(c, current)
  {
    c.NaN? || current != Some(c)
  }

  /**
   * How often `for (let i = 0; i < currentPageCount; i++)` runs. The loop
   * never ends for a positive infinity, so that count is excluded.
   */
  function LoopBound(c: PageCount): (k: nat)
    requires c != Infinity(false)
    ensures c.Pages? && c.n > 0 ==> k == c.n
    ensures !(c.Pages? && c.n > 0) ==> k == 0
  {
    match c
    case Pages(n) => if n > 0 then n else 0
    case _ => 0
  }

  /** The test `i < currentPageCount` of the option loop; `NaN` compares false with everything. */
  predicate LoopTest(c: PageCount, i: int) {
    match c
    case Pages(n) => i < n
    case NaN => false
    case Infinity(negative) => !negative
  }

  /** For every count but +Infinity, the loop body runs exactly `LoopBound(c)` times. */
  lemma LoopRunsLoopBoundTimes(c: PageCount, i: nat)
    requires c != Infinity(false)
    ensures LoopTest(c, i) <==> i < LoopBound(c)
  {
  }

  /**
   * As written, the option loop never ends on a fresh table that receives a
   * page size of 0 and a positive record count: the count is +Infinity, it
   * differs from the unset ref, there are no options yet, and `i < Infinity`
   * holds for every `i`.
   */
  lemma OptionLoopNeverEnds(recordCount: int, i: nat)
    requires recordCount > 0
    ensures PageCountOf(recordCount, 0) == Infinity(false)
    ensures CountChanged(PageCountOf(recordCount, 0), None) && RebuildsOptions(None, 0)
    ensures LoopTest(PageCountOf(recordCount, 0), i)
  {
  }

  /** Intended: the page count is only computed for a positive page size; otherwise there are no pages. */
  function GuardedPageCount(recordCount: int, pageSize: int): (c: PageCount)
    ensures c.Pages?
    ensures pageSize > 0 ==> c == PageCountOf(recordCount, pageSize)
    ensures pageSize <= 0 ==> c == Pages(0)
  {
    if pageSize > 0 then PageCountOf(recordCount, pageSize) else Pages(0)
  }

  /** With the guarded count, the option loop stops after `LoopBound` rounds, for every input. */
  lemma GuardedOptionLoopEnds(recordCount: int, pageSize: int)
    ensures GuardedPageCount(recordCount, pageSize) != Infinity(false)
    ensures !LoopTest(GuardedPageCount(recordCount, pageSize), LoopBound(GuardedPageCount(recordCount, pageSize)))
    ensures forall i :: 0 <= i < LoopBound(GuardedPageCount(recordCount, pageSize)) ==>
      LoopTest(GuardedPageCount(recordCount, pageSize), i)
  {
  }

  /** An option of a `Select`, with its caption (the source's `label`) and its value. */
  datatype SelectOption = SelectOption(caption: string, value: string)

  /** The go-to-page options "1" .. "n". */
  function PageOptionList(n: nat): seq<SelectOption> {
    seq(n, i requires 0 <= i < n => SelectOption(NatString(i + 1), NatString(i + 1)))
  }

  /** Option `i` of the go-to-page list reads back as page number `i + 1`. */
  lemma PageOptionDenotesPage(n: nat, i: nat)
    requires i < n
    ensures |PageOptionList(n)| == n
    ensures PageOptionList(n)[i].caption == PageOptionList(n)[i].value
    ensures IsIntLiteral(PageOptionList(n)[i].value)
    ensures IntLiteralValue(PageOptionList(n)[i].value) == i + 1
  {
    NatStringRoundTrip(i + 1);
  }

  /** The go-to-page options are in ascending order, each page exactly once. */
  lemma PageOptionsAscending(n: nat, i: nat, j: nat)
    requires i < j < n
    ensures IntLiteralValue(PageOptionList(n)[i].value) < IntLiteralValue(PageOptionList(n)[j].value)
  {
    PageOptionDenotesPage(n, i);
    PageOptionDenotesPage(n, j);
  }

  /** The loop that pushes the go-to-page options (one per page). */
  method BuildPageOptions(pageCount: int) returns (options: seq<SelectOption>)
    ensures options == PageOptionList(if pageCount > 0 then pageCount else 0)
  {
    options := [];
    var i := 0;
    while i < pageCount
      invariant 0 <= i <= (if pageCount > 0 then pageCount else 0)
      invariant options == PageOptionList(i)
    {
      options := options + [SelectOption(NatString(i + 1), NatString(i + 1))];
      i := i + 1;
    }
  }

  /** `getItemsPerPage`: one option per size, in the given order, labelled with the size. */
  method ItemsPerPage(sizes: seq<int>) returns (items: seq<SelectOption>)
    ensures |items| == |sizes|
    ensures forall i :: 0 <= i < |sizes| ==> items[i] == SelectOption(IntString(sizes[i]), IntString(sizes[i]))
    ensures forall i :: 0 <= i < |sizes| ==>
      items[i].caption == items[i].value && IsIntLiteral(items[i].value) && IntLiteralValue(items[i].value) == sizes[i]
  {
    items := [];
    for i := 0 to |sizes|
      invariant |items| == i
      invariant forall k :: 0 <= k < i ==> items[k] == SelectOption(IntString(sizes[k]), IntString(sizes[k]))
      invariant forall k :: 0 <= k < i ==>
        items[k].caption == items[k].value && IsIntLiteral(items[k].value) && IntLiteralValue(items[k].value) == sizes[k]
    {
      IntStringRoundTrip(sizes[i]);
      items := items + [SelectOption(IntString(sizes[i]), IntString(sizes[i]))];
    }
  }

  /** A number is truthy in JavaScript when it is defined and not 0. */
  predicate Truthy(n: Option<int>) {
    n.Some? && n.value != 0
  }

  /**
   * The "current–perPage de total itens" line. `None` renders nothing
   * (the expression evaluates to `false` or `undefined`).
   */
  datatype Information = Information(current: Option<int>, perPage: Option<int>, total: Option<int>)

  /**
   * The numbers of the pagination line. Each of the three overrides takes
   * precedence whenever it is truthy.
   */
  function PaginationInformation(
    pageNumber: Option<int>, pageSize: Option<int>, recordCount: Option<int>,
    currentPageNumber: Option<int>, currentPerPageNumber: Option<int>, currentTotalRegistros: Option<int>
  ): (info: Information)
    ensures Truthy(currentPageNumber) ==> info.current == currentPageNumber
    ensures Truthy(currentPerPageNumber) ==> info.perPage == currentPerPageNumber
    ensures Truthy(currentTotalRegistros) ==> info.total == currentTotalRegistros
    ensures !Truthy(currentTotalRegistros) ==> info.total == recordCount
    ensures !Truthy(currentPageNumber) ==> (info.current.Some? <==> pageNumber.Some? && pageSize.Some?)
    ensures !Truthy(currentPerPageNumber) ==> (info.perPage.Some? <==> pageNumber.Some? && pageSize.Some?)
    ensures !Truthy(currentPageNumber) && info.current.Some? ==>
      info.current.value - 1 == pageNumber.value * pageSize.value
    ensures !Truthy(currentPerPageNumber) && info.perPage.Some? ==>
      info.perPage.value == pageNumber.value * pageSize.value + pageSize.value
    ensures !Truthy(currentPageNumber) && !Truthy(currentPerPageNumber) && info.current.Some? ==>
      info.perPage.value - info.current.value + 1 == pageSize.value
  {
    var offset := if pageNumber.Some? && pageSize.Some? then Some(pageNumber.value * pageSize.value) else None;
    Information(
      if Truthy(currentPageNumber) then currentPageNumber
      else if offset.Some? then Some(offset.value + 1) else None,
      if Truthy(currentPerPageNumber) then currentPerPageNumber
      else if offset.Some? then Some(offset.value + pageSize.value) else None,
      if Truthy(currentTotalRegistros) then currentTotalRegistros else recordCount)
  }

  /**
   * On a page that exists, the line's first number is a record that exists,
   * and the last number stays within the total exactly when the page is
   * full; on the final, partial page it overshoots by less than a page.
   */
  lemma RangeWithinRecords(pageNumber: int, pageSize: int, recordCount: int)
    requires pageSize > 0 && recordCount >= 0
    requires 0 <= pageNumber < PageCountOf(recordCount, pageSize).n
    ensures var info := PaginationInformation(Some(pageNumber), Some(pageSize), Some(recordCount), None, None, None);
      && 1 <= info.current.value <= recordCount
      && (info.perPage.value <= recordCount <==> (pageNumber + 1) * pageSize <= recordCount)
      && info.perPage.value < recordCount + pageSize
  {
  }

  /** The "previous" arrow: `disabled={pageNumber === 0}`. */
  predicate PreviousDisabled(pageNumber: Option<int>)
    ensures PreviousDisabled(pageNumber) <==> pageNumber.Some? && Shift(pageNumber, -1, true) == Some(-1)
  {
    pageNumber == Some(0)
  }

  /**
   * `(pageCount.current || 0) - 1` when it is an integer: a missing, zero or
   * `NaN` count gives -1, an infinite count gives no integer at all.
   */
  function LastPageIndex(current: Option<PageCount>): (last: Option<int>)
    ensures (current.Some? && current.value.Pages? && current.value.n != 0) ==> last == Some(current.value.n - 1)
    ensures (current.None? || current == Some(NaN) || current == Some(Pages(0))) ==> last == Some(-1)
    ensures current.Some? && current.value.Infinity? ==> last.None?
  {
    match current
    case None => Some(-1)
    case Some(Pages(n)) => Some(n - 1)
    case Some(NaN) => Some(-1)
    case Some(Infinity(_)) => None
  }

  /** The "next" arrow: `disabled={pageNumber === ((pageCount.current || 0) - 1)}`. */
  predicate NextDisabled(pageNumber: Option<int>, current: Option<PageCount>)
    ensures NextDisabled(pageNumber, current) <==>
      pageNumber.Some? && LastPageIndex(current).Some? && Shift(pageNumber, 1, true).value == LastPageIndex(current).value + 1
    ensures current.Some? && current.value.Infinity? ==> !NextDisabled(pageNumber, current)
  {
    pageNumber.Some? && LastPageIndex(current) == pageNumber
  }

  /** On a valid page of `count` pages, each arrow is disabled exactly at its end. */
  lemma ArrowsDisabledAtEnds(pageNumber: int, count: int)
    requires 0 <= pageNumber < count
    ensures PreviousDisabled(Some(pageNumber)) <==> pageNumber == 0
    ensures NextDisabled(Some(pageNumber), Some(Pages(count))) <==> pageNumber == count - 1
  {
  }

  /**
   * How a next/previous click changes the page number: by `delta` when the
   * handler's guard holds and the page number is defined, otherwise not at all.
   */
  function Shift(pageNumber: Option<int>, delta: int, guard: bool): (r: Option<int>)
    ensures r.Some? <==> pageNumber.Some?
    ensures guard && pageNumber.Some? ==> r.value == pageNumber.value + delta
    ensures !guard ==> r == pageNumber
  {
    if guard && pageNumber.Some? then Some(pageNumber.value + delta) else pageNumber
  }

  /**
   * The arrows keep a valid page valid: clicking an enabled arrow on page
   * `pageNumber` of `count` lands on a page in `[0, count)`.
   */
  lemma EnabledArrowsStayInRange(pageNumber: int, count: int)
    requires 0 <= pageNumber < count
    ensures !NextDisabled(Some(pageNumber), Some(Pages(count))) ==>
      0 <= Shift(Some(pageNumber), 1, true).value < count
    ensures !PreviousDisabled(Some(pageNumber)) ==>
      0 <= Shift(Some(pageNumber), -1, true).value < count
  {
  }

  /** The click handlers themselves do not bound the page: from page 0 a previous click reaches -1. */
  lemma HandlersDoNotBoundPage(count: int)
    requires count >= 1
    ensures Shift(Some(0), -1, true) == Some(-1)
    ensures Shift(Some(count - 1), 1, true) == Some(count)
  {
  }

  /**
   * As written: the go-to-page options are rebuilt when their number differs
   * from the PAGE SIZE (`pageOptions?.length !== pageSize`).
   */
  predicate RebuildsOptions(existing: Option<seq<SelectOption>>, pageSize: int)
    ensures existing.None? ==> RebuildsOptions(existing, pageSize)
    ensures existing.Some? && |existing.value| == pageSize ==> !RebuildsOptions(existing, pageSize)
    ensures existing.Some? && |existing.value| != pageSize ==> RebuildsOptions(existing, pageSize)
  {
    existing.None? || |existing.value| != pageSize
  }

  /**
   * A change of page count that leaves the options stale: when the options
   * happen to number `pageSize`, the new count is not a page size's worth,
   * and the options are kept, so they no longer list the pages.
   */
  lemma StaleOptionsKept(pageSize: int, recordCount: int)
    requires pageSize > 0 && recordCount >= 0
    requires PageCountOf(recordCount, pageSize).n != pageSize
    ensures !RebuildsOptions(Some(PageOptionList(pageSize)), pageSize)
    ensures Some(PageOptionList(pageSize)) != Some(PageOptionList(LoopBound(PageCountOf(recordCount, pageSize))))
  {
  }

  /** Intended: the options are rebuilt when their number differs from the page count. */
  predicate RebuildsOptionsIntended(existing: Option<seq<SelectOption>>, count: nat)
    ensures existing.None? ==> RebuildsOptionsIntended(existing, count)
    ensures existing == Some(PageOptionList(count)) ==> !RebuildsOptionsIntended(existing, count)
    ensures existing.Some? && |existing.value| != count ==> RebuildsOptionsIntended(existing, count)
  {
    existing.None? || |existing.value| != count
  }

  /**
   * With the intended rule, options that list pages "1".."k" (or no options
   * at all) are, after the update, the pages "1".."count" exactly.
   */
  lemma IntendedOptionsTrackPageCount(existing: Option<seq<SelectOption>>, count: nat)
    requires existing.Some? ==> existing.value == PageOptionList(|existing.value|)
    ensures (if RebuildsOptionsIntended(existing, count) then Some(PageOptionList(count)) else existing)
      == Some(PageOptionList(count))
  {
  }

  /** The footer for a first page of 10 out of 35 records reads "1–10 de 35"; only "previous" is disabled. */
  lemma FirstOfFourPagesFooter()
    ensures PageCountOf(35, 10) == Pages(4)
    ensures PaginationInformation(Some(0), Some(10), Some(35), None, None, None) == Information(Some(1), Some(10), Some(35))
    ensures PreviousDisabled(Some(0)) && !NextDisabled(Some(0), Some(Pages(4)))
  {
  }
}
