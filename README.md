# Data table paging and tag variants, in Dafny

This project models the two pieces of logic inside the react-dsgov UI
components.

**The data table (`Table`).** Its paging state is held in
`Table.TableState`: the rows (`tableData`), `pageNumber`, `pageSize`,
`recordCount`, the "updating" flag `atualizando`, the fetch target
`currentEndpoint`, the `pageCount` ref, the go-to-page options, the search
text, and a log of the caller's callbacks. Each React effect and handler is
one method, called explicitly:

- adopting the `data` and `endpoint` props;
- the next-page and previous-page clicks;
- choosing a page in the go-to-page selector;
- starting a fetch and applying its response;
- writing the page number, the page size or the search text into the endpoint;
- recomputing the page count and the go-to-page options.

The values the footer and the body show are pure functions of that state.
They live in module `Pagination` and in the first half of module `Table`:

- the page count (`Math.ceil`, including the `NaN` and infinite counts a page size of 0 gives);
- the "first–last de total itens" line and its three overrides;
- the disabled state of the two arrows;
- the go-to-page and items-per-page options;
- the header captions and the column projection of every row.

Module `Decimal` models how `String(n)` writes an integer and how
`Number(s)` reads it back. The option labels and query-string values use
this text.

**The tag (`Tag`).** This module is a pure function of the props, over the
six variants `text | checkbox | radio | status | count | icon`. It gives:

- the wrapper element;
- the class list, which is the arguments of `classNames` with the falsy ones dropped;
- the content inside the tag and after it;
- the props handed to the radio or checkbox, where only truthy ones are forwarded.

Some naming conventions:

- `None` of `Option` stands for `undefined`.
- The empty string stands for a missing endpoint, because both are falsy and the code treats them alike.
- Fields the source calls `label` are called `caption` here, because `label` is a Dafny keyword.

Two behaviours of the code are worth stating outright:

- The code does not keep the page number within `[0, pageCount-1]`: the click handlers and the go-to-page selector never check a bound. Only the arrows' `disabled` state reflects the bound. `EnabledArrowsStayInRange` and `HandlersDoNotBoundPage` state what does hold.
- The body has two paths, chosen by the first header alone. A string header that appears in the field path reads the property `"undefined"`.

## Model

| member | source | states |
|---|---|---|
| `Decimal.NatString` | dist/Table/Table.tsx:249-250 | `String(n)` of a page number is a non-empty string of digits with no leading zero |
| `Decimal.NatStringRoundTrip` | dist/Table/Table.tsx:395 | `Number(String(n)) == n` for every non-negative n |
| `Decimal.NatStringInjective` | dist/Table/Table.tsx:249-250 | different page numbers get different labels |
| `Decimal.IntString` | dist/Table/Table.tsx:270-271 | `String(n)` of any integer is an integer literal, with a minus sign exactly when n is negative |
| `Decimal.IntStringRoundTrip` | dist/Table/Table.tsx:270-271 | `Number(String(n)) == n` for every integer |
| `Decimal.IntLiteralValue` | dist/Table/Table.tsx:395 | `Number(valor)` of an integer literal: negative only with a minus sign, never positive with one |
| `Pagination.CeilDiv` | dist/Table/Table.tsx:237 | the result q is the ceiling of a / b: `(q-1)*b < a <= q*b`, for either sign of b |
| `Pagination.PageCountOf` | dist/Table/Table.tsx:237 | with a positive page size, the count is the fewest pages that hold all records, and it is non-negative for a non-negative total; a page size of 0 gives `NaN` exactly for 0 records and +Infinity exactly for a positive total |
| `Pagination.LoopBound` | dist/Table/Table.tsx:246 | the option loop runs n times for a positive count n, and 0 times for a count ≤ 0, `NaN` or -Infinity |
| `Pagination.LoopRunsLoopBoundTimes` | dist/Table/Table.tsx:246 | for every count but +Infinity, the test `i < currentPageCount` holds exactly for the first `LoopBound` values of i |
| `Pagination.OptionLoopNeverEnds` | dist/Table/Table.tsx:234-246 | as written: on a fresh table, page size 0 with a positive total gives +Infinity pages, a changed count, a rebuild, and a loop test that holds for every i |
| `Pagination.GuardedPageCount` | dist/Table/Table.tsx:236-237 | intended: the page count for a positive page size, and no pages otherwise; never an infinity |
| `Pagination.GuardedOptionLoopEnds` | dist/Table/Table.tsx:246 | with the guarded count, the option loop runs `LoopBound` rounds and then stops, for every input |
| `Pagination.CountChanged` | dist/Table/Table.tsx:238 | `currentPageCount !== pageCount.current`: an unchanged count counts as a change only when it is `NaN`; any other difference, an unset ref included, is a change |
| `Pagination.PageOptionDenotesPage` | dist/Table/Table.tsx:246-253 | option i of the go-to-page list has equal label and value, and that value reads back as page i+1 |
| `Pagination.PageOptionsAscending` | dist/Table/Table.tsx:246-253 | the go-to-page options are in strictly ascending order |
| `Pagination.BuildPageOptions` | dist/Table/Table.tsx:243-254 | the loop builds exactly the options "1".."count", and none for a count ≤ 0 |
| `Pagination.ItemsPerPage` | dist/Table/Table.tsx:265-276 | `getItemsPerPage` gives one option per size, in order, labelled and valued with the canonical decimal `String(size)`; each label equals its value and reads back as that size |
| `Pagination.PaginationInformation` | dist/Table/Table.tsx:391 | a truthy override replaces its number; without an override of the first number, first − 1 = pageNumber·pageSize; without an override of the last number, last = pageNumber·pageSize + pageSize; without either, last − first + 1 = pageSize; each number is shown only when pageNumber and pageSize are defined; the total is the override or `recordCount` |
| `Pagination.RangeWithinRecords` | dist/Table/Table.tsx:391 | on a page that exists, the first number is a record that exists; the last number is within the total exactly when the page is full, and otherwise overshoots by less than one page |
| `Pagination.PreviousDisabled` | dist/Table/Table.tsx:398 | "previous" is disabled exactly on page 0, the one page where a previous click would reach −1 |
| `Pagination.LastPageIndex` | dist/Table/Table.tsx:399 | the last page index (the ref, or 0 when falsy, minus 1) is count − 1 for a non-zero count, −1 for a null, zero or `NaN` count, and no integer for an infinite count |
| `Pagination.NextDisabled` | dist/Table/Table.tsx:399 | "next" is disabled exactly on the page from which a next click reaches `pageCount.current || 0`; never under an infinite count |
| `Pagination.ArrowsDisabledAtEnds` | dist/Table/Table.tsx:398-399 | on a valid page, "previous" is disabled iff the page is 0 and "next" is disabled iff it is the last page |
| `Pagination.Shift` | dist/Table/Table.tsx:136-143 | a click changes a defined page number by exactly the step when the guard holds; a click leaves it unchanged when the guard fails; a click never defines an undefined page number |
| `Pagination.EnabledArrowsStayInRange` | dist/Table/Table.tsx:133-161 | clicking an enabled arrow on a valid page lands on a valid page |
| `Pagination.HandlersDoNotBoundPage` | dist/Table/Table.tsx:151-159 | the handlers alone do not bound the page: "previous" from page 0 reaches −1, and "next" from the last page goes past it |
| `Pagination.RebuildsOptions` | dist/Table/Table.tsx:242 | as written: options are built when there are none, and kept whenever their number equals `pageSize`, whatever the new page count |
| `Pagination.RebuildsOptionsIntended` | dist/Table/Table.tsx:242 | corrected: options are built when there are none or their number differs from the page count, and options already listing "1".."count" are kept |
| `Pagination.StaleOptionsKept` | dist/Table/Table.tsx:242 | as written: options that number pageSize are kept when the page count changes to a different number, so they no longer list the pages |
| `Pagination.IntendedOptionsTrackPageCount` | dist/Table/Table.tsx:241-258 | comparing with the page count instead, the options are always exactly "1".."count" after the update |
| `Pagination.FirstOfFourPagesFooter` | dist/Table/Table.tsx:391-399 | 35 records in pages of 10 make 4 pages; page 0 reads "1–10 de 35", with "previous" disabled and "next" enabled |
| `Table.Lookup` | dist/Table/Table.tsx:373 | `row[key]` is defined exactly when some property has that key, and it is that property's value |
| `Table.HeaderCaption` | dist/Table/Table.tsx:349 | a string header shows itself; a pair shows its label when that label is non-empty, and otherwise falls back to the object |
| `Table.HeaderCaptions` | dist/Table/Table.tsx:345-352 | the header row fails to render exactly when some pair has an empty label (React refuses the object as a child); otherwise it has one caption per header, in order |
| `Table.TableBody` | dist/Table/Table.tsx:354-379 | no body without headers; empty headers raise a `TypeError`; otherwise there is one row per record; if the first header has a label, row r has one cell per header and cell i is `row[headers[i].field]`; otherwise row r shows its own values in key order |
| `Table.LookupFindsProperty` | dist/Table/Table.tsx:373 | in a record whose keys are distinct, `row[key]` is the value of the property with that key, wherever it stands |
| `Table.FieldColumnShowsField` | dist/Table/Table.tsx:367-377 | under field headers, a property of a record (keys distinct) whose key is a header's field shows, at any position in the record, in that header's column |
| `Table.TableState.constructor` | dist/Table/Table.tsx:115-128 | empty rows, no search text, not updating, no endpoint, every paging value undefined, null ref |
| `Table.TableState.HandlersEnabled` | dist/Table/Table.tsx:136-151 | the guard both arrow handlers share: not updating and a truthy endpoint |
| `Table.TableState.AdoptProps` | dist/Table/Table.tsx:177-199 | an envelope's records and paging fields are copied verbatim, undefined ones included; a bare array of N records gives page 0, size N, total N; without data nothing changes; a non-empty endpoint becomes the fetch target |
| `Table.TableState.ClickNextPage` | dist/Table/Table.tsx:133-146 | the callback always runs; the page number goes up by 1 only when not updating, the endpoint is set and the page number is defined; the page number is otherwise unchanged; an enabled click keeps a valid page valid |
| `Table.TableState.ClickPreviousPage` | dist/Table/Table.tsx:148-161 | the same as the next click, going down by 1 |
| `Table.TableState.GoToPage` | dist/Table/Table.tsx:395 | choosing value v sets the page number to `Number(v) - 1` |
| `Table.TableState.StartFetch` | dist/Table/Table.tsx:202-205 | a fetch of `currentEndpoint` is issued exactly when it is non-empty, and then the table is marked as updating |
| `Table.TableState.ApplyResponse` | dist/Table/Table.tsx:206-216 | the rows are replaced only when the response has records; the three paging fields are always overwritten, undefined ones too; the updating mark is cleared |
| `Table.TableState.SyncEndpointWithPageNumber` | dist/Table/Table.tsx:223-226 | a defined page number is written into the endpoint through the query-string helper; otherwise the endpoint is unchanged |
| `Table.TableState.SyncEndpointWithPageSize` | dist/Table/Table.tsx:229-232 | a defined page size is written into the endpoint through the query-string helper; otherwise the endpoint is unchanged |
| `Table.TableState.EditSearch` | dist/Table/Table.tsx:325 | the search text becomes the typed text |
| `Table.TableState.SubmitSearch` | dist/Table/Table.tsx:163-168 | the search callback gets the text, which is then written into the endpoint |
| `Table.TableState.SyncPageCount` | dist/Table/Table.tsx:235-263 | nothing changes unless both recordCount and pageSize are defined; the ref then holds the page count; the options are rebuilt as "1".."count" only when the count changed and their number differs from pageSize; otherwise the options are kept, and they always remain a list "1".."k" |
| `Table.GoToOptionSelectsPage` | dist/Table/Table.tsx:394-395 | choosing option i of the go-to-page list goes to page i |
| `Table.StaleOptionsScenario` | dist/Table/Table.tsx:235-263 | as written: after 4 records of 2 per page and then 10 records of 2 per page, the count is 5 pages but only 2 options remain |
| `Tag.ElementName` | src/components/Tag/Tag.tsx:37 | the wrapper is `div` exactly for text, checkbox and radio, and `span` exactly for status, count and icon |
| `Tag.ClassArguments` | src/components/Tag/Tag.tsx:38-48 | the eight `classNames` arguments in order: `br-tag`, one per variant condition, the status, the density in effect and the caller's class |
| `Tag.ClassList` | src/components/Tag/Tag.tsx:38-48 | the tag's classes: the truthy arguments in order (its properties are the lemmas below) |
| `Tag.KeepTruthy` | src/components/Tag/Tag.tsx:38-48 | the kept classes are no more than the arguments, and a truthy first argument comes first |
| `Tag.KeepTruthyMembers` | src/components/Tag/Tag.tsx:38-48 | a string is a class exactly when it is a non-empty argument |
| `Tag.BrTagFirst` | src/components/Tag/Tag.tsx:39 | `br-tag` is the first class of every variant |
| `Tag.InClassList` | src/components/Tag/Tag.tsx:38-48 | a class is in the tag's list exactly when it is a non-empty argument of `classNames` |
| `Tag.InteractionSelectClass` | src/components/Tag/Tag.tsx:40 | `interaction-select` is present iff the variant is radio or checkbox, or the caller's class is that name |
| `Tag.TextClass` | src/components/Tag/Tag.tsx:41 | `text` is present iff the variant is text, or the caller's class is that name |
| `Tag.StatusVariantClass` | src/components/Tag/Tag.tsx:42 | `status` is present iff the variant is status, or the caller's class is that name |
| `Tag.CountClass` | src/components/Tag/Tag.tsx:43 | `count` is present iff the variant is count, or the caller's class is that name |
| `Tag.IconClassList` | src/components/Tag/Tag.tsx:38-48 | the icon variant's classes are `br-tag`, the status if given, the density and the caller's truthy class, in that order; the variant adds no class of its own |
| `Tag.DensityClasses` | src/components/Tag/Tag.tsx:45 | the density in effect (`normal` by default) is always a class; any other density appears only as the caller's class |
| `Tag.StatusClasses` | src/components/Tag/Tag.tsx:44 | a status class appears exactly when that status is given, or the caller's class is that name |
| `Tag.ForwardedProps` | src/components/Tag/Tag.tsx:62-77 | `name` is the given name, or "" when it is missing or empty; value, label, defaultChecked and checked are forwarded unchanged exactly when truthy, so `false` and "" never are |
| `Tag.Render` | src/components/Tag/Tag.tsx:32-85 | the element and classes are as above; only text renders the icon and label; only radio renders a radio and only checkbox a checkbox, each with the forwarded props; count renders its label inside and status renders it after the tag, each only when the label is non-empty |
| `Tag.CheckedRadio` | src/components/Tag/Tag.tsx:61-68 | a checked radio without `defaultChecked` gets `checked` and no `defaultChecked` prop |

## Left out

- The network fetch and JSON decoding (dist/Table/Table.tsx:205-206). A response is an input value of `ApplyResponse`. Responses that complete out of order (last completed wins) are a concurrency matter and are not modelled.
- React's scheduling of effects and re-renders. Each effect is a method that the caller invokes in the order React would.
- The `core.BRTable` controller (dist/Table/Table.tsx:15, 170-174). It is a foreign, DOM-bound runtime.
- `updateQueryStringParameter`: its code is not part of this model. It is passed as the function parameter `update`, and nothing is claimed about it.
- `null` paging fields. `None` stands only for `undefined`; the code's checks `typeof … !== 'undefined'` and `!== undefined` (dist/Table/Table.tsx:138, 153, 224, 230, 236) let `null` through, with effects the model does not capture: a next click on a `null` page gives page 1 (`null + 1`), the URL gets `pageNumber=null`, and a response `{recordCount: 10, pageSize: null}` makes `10/null = Infinity` pages and an option loop that never ends.
- Floating point: non-integer or `NaN` page numbers, sizes and totals, and rounding in `Math.ceil(recordCount / pageSize)`. All three are integers here. Numbers are unbounded integers; the source's doubles lose precision above 2^53, and `String` writes magnitudes of 10^21 or more in exponent form (`"1e+21"`), so `Decimal.IntString`, `Pagination.Shift` and `Pagination.PaginationInformation` match the source only below those bounds.
- `Table.TableBody`: cell values are scalars (strings, integers, booleans, `null`). A record property holding an object or array, shown in a cell (dist/Table/Table.tsx:360, 373), makes React throw and the whole table fail to render; the model cannot express such a value. Fractional numbers are not represented either.
- `Table.TableState.SyncPageCount` requires `!Diverges()`. That excludes the one state where the source's loop `i < Infinity` never ends: page size 0, a positive total, a changed count and a rebuild. It is reachable (see "## Findings").
- `Table.TableState.GoToPage` requires an integer literal. The selector only offers the option values "1".."k".
- The items-per-page selector's `setPageSize(value)` (dist/Table/Table.tsx:387). It passes the selected string, a coercion this model does not represent.
- The row keys React uses (the row object at 357, the index at 370). They are identities, not content.
- The order of `Object.keys`, which lists integer-like keys first. A row's properties are taken in the order given.
- An untyped `data` object without `records`. The `data` prop's type requires `records`, so `DataProp.Paged` always has records.
- Markup, ARIA and data attributes, titles, the show/hide flags, `useMtProps`/`useSpreadProps`, `uniqueId` and the caller's `children`. How `classNames` joins its strings is left out too: the class list is the sequence of kept strings.
- `src/components/react-dsgov/CarouselStep.tsx`: fixed markup with nothing to state.

## Findings

| source | as written | input that shows it | evidently intended | confidence | as-written member | corrected member |
|---|---|---|---|---|---|---|
| dist/Table/Table.tsx:242 | the go-to-page options are rebuilt only when their number differs from `pageSize` | recordCount 4 with pageSize 2 builds options "1","2"; recordCount 10 with pageSize 2 then makes 5 pages, but the two options are kept because 2 == pageSize | rebuild when the number of options differs from the new page count | medium (not executed) | `Table.StaleOptionsScenario` | `Pagination.IntendedOptionsTrackPageCount` |
| dist/Table/Table.tsx:236-246 | the page count `Math.ceil(recordCount / pageSize)` is computed for any page size, and the options loop runs while `i < currentPageCount` | a fresh table that receives `{pageSize: 0, recordCount: 5}` gets +Infinity pages, and the loop pushes options forever | compute the count only for a positive page size, and otherwise build no options | medium (not executed) | `Pagination.OptionLoopNeverEnds` | `Pagination.GuardedOptionLoopEnds` |

`Table.TableState.SyncPageCount` models line 242 as written, using `Pagination.RebuildsOptions`. The corrected rule is `Pagination.RebuildsOptionsIntended`. `Pagination.IntendedOptionsTrackPageCount` proves that under the corrected rule the options always list exactly the pages. For the second row, `Table.TableState.SyncPageCount` keeps the unguarded page count of lines 236-246 as written, and its `!Diverges()` precondition excludes the one state where the loop never ends. `Pagination.GuardedPageCount` is the guarded count.
