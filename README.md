# Book list: catalogue loading and price-range filtering

This project models the `BookList` component of the Book Store application
(`src/components/BookList/index.js`) in Dafny and proves properties of it.
The component loads a book catalogue from the IT Book Store API and tracks
the request in a status field: INITIAL, IN_PROGRESS, SUCCESS or FAILURE.
After a successful load it resets a price range to `[0, max price]`. It then
shows only the books whose price lies in the chosen range.

The model has four modules:

- `JsNumbers` (`js_numbers.dfy`): the JavaScript number behaviour the component
  relies on. A `Number` is `Finite(real)`, `NaN`, `PosInfinity` or `NegInfinity`.
  The module defines the `<=`/`>=` comparison, which is false whenever NaN is
  involved, and `Math.max`, which gives -Infinity for no arguments and NaN as
  soon as one argument is NaN.
- `DecimalParsing` (`decimal_parsing.dfy`): what `parseFloat` reads from a price
  once its currency symbol has been dropped. It reads the longest prefix of the
  form sign, digits, point, digits. `None` stands for NaN. The module also has
  the catalogue's price format (units, a point, two digits of cents) and the
  proof that parsing reads a formatted price back exactly.
- `Books` (`books.dfy`): the `Book` record, the price range, and the two pure
  derivations: `getMaxPriceOfBooks` and `getFilteredBooksByPriceRange`. Both
  read a price the same way, through `PriceOf`.
- `BookList` (`book_list.dfy`): the request status and the endpoint choice. It
  also has the class `BookListComponent`, whose fields are the component's
  `state` (`apiStatus`, `booksData`, `priceRangeValue`). Its methods make the
  updates that `setState` makes, and its functions give the view that
  `renderBooks` selects. Some of its methods and lemmas replay whole scenarios:
  a first load of two books, a load of an empty catalogue, and a failed search
  after a successful load.

`getBooks` is an `async` function. It is modelled in two steps. `GetBooks` is
the part before `await fetch`: it sets IN_PROGRESS and returns the URL to fetch.
`ReceiveBooksResponse` is the continuation: it takes the response as a
parameter.

Three behaviours of the code are easy to misread:

- An empty catalogue gives a maximum price of -Infinity (`Math.max()` with no
  arguments), not 0. After such a load the range is `[0, -Infinity]`.
- A price that does not parse is not skipped: it makes the maximum NaN.
  `UnreadablePriceHidesAll` proves what follows: the range becomes `[0, NaN]`
  and the list shows no book at all.
- A response whose body has no `books` field is not treated as an empty
  catalogue. The code stores `undefined` (see "Left out").

## Model

| member | source | states |
|---|---|---|
| JsNumbers.LessEq | src/components/BookList/index.js:80 | `a <= b` (and `b >= a`) is false whenever either side is NaN; it holds for every other number compared with itself, for -Infinity below any other non-NaN number and for +Infinity above any non-NaN number; on finite numbers it is the order of the reals |
| JsNumbers.LessEqTransitive | src/components/BookList/index.js:80 | the comparison is transitive, so a range test `lo <= p && p <= hi` can only pass when `lo <= hi` |
| JsNumbers.Max | src/components/BookList/index.js:64 | `Math.max` of two numbers is NaN exactly when one of them is NaN; otherwise it is one of the two and no smaller than either |
| JsNumbers.MaxOf | src/components/BookList/index.js:64 | `Math.max(...xs)` is -Infinity for no arguments; otherwise it is one of the arguments; it is NaN exactly when some argument is NaN; otherwise every argument is at most the result |
| DecimalParsing.ParseFloat | src/components/BookList/index.js:63 | the empty string reads as NaN; a number read from a string that does not start with '-' is never negative |
| DecimalParsing.ParseFloatOfFormattedAmount | src/components/BookList/index.js:63 | reading back an amount written as units, a point and two digits of cents gives exactly units + cents/100 |
| Books.DropFirst | src/components/BookList/index.js:63 | `price.slice(1)` is the price with its first character removed (the empty string stays empty): the price is that character followed by the result |
| Books.PriceOf | src/components/BookList/index.js:79 | `parseFloat(price.slice(1))`, shared by the maximum and the filter, is a finite number or NaN and never an infinity |
| Books.PriceOfFormatted | src/components/BookList/index.js:63 | a price written as any one symbol followed by a formatted amount reads as that amount |
| Books.Prices | src/components/BookList/index.js:63 | `books.map(...)` gives one price per book, in catalogue order, each read as `PriceOf` reads it |
| Books.MaxPriceOfBooks | src/components/BookList/index.js:62-66 | the maximum price of no books is -Infinity; for at least one book it is finite or NaN, never an infinity |
| Books.MaxPriceIsNaN | src/components/BookList/index.js:62-66 | the maximum price is NaN if and only if some book's price does not parse |
| Books.MaxPriceBound | src/components/BookList/index.js:62-66 | for a non-empty list whose prices all parse, the maximum is finite, equals some book's price, and is at least every book's price |
| Books.InPriceRange | src/components/BookList/index.js:78-81 | a book passes the filter's test only when its price parses and the range is not empty; with finite bounds it passes exactly when its price lies between them, bounds included |
| Books.FilterByPriceRange | src/components/BookList/index.js:76-83 | the filtered list is no longer than the catalogue; it holds only catalogue books whose price p satisfies lo <= p <= hi, so never a book whose price is NaN; it holds every catalogue book that satisfies that test |
| Books.FilterIsSubsequence | src/components/BookList/index.js:78-81 | the filtered list is a subsequence of the catalogue: books are kept in their original order |
| Books.FilterCounts | src/components/BookList/index.js:78-81 | every copy of a book in range is kept, and no copy of a book out of range is kept |
| Books.FilterUnique | src/components/BookList/index.js:76-83 | any order-preserving selection from the catalogue with those counts is exactly the filtered list, so the two facts above determine the result |
| Books.FilterOfEmptyRange | src/components/BookList/index.js:80 | a range with lo > hi, or with a NaN bound, shows no book |
| Books.FilterIdempotent | src/components/BookList/index.js:76-83 | filtering the filtered list by the same range changes nothing |
| Books.FilterKeepsAllInRange | src/components/BookList/index.js:78-81 | when every book is in range, the filter returns the whole catalogue unchanged |
| Books.FilterUpToMaxPriceKeepsAll | src/components/BookList/index.js:68-72 | when all prices parse and none is negative, the range `[0, max price]` shows every book, in order |
| Books.UnreadablePriceHidesAll | src/components/BookList/index.js:68-72 | one unparsable price makes the maximum NaN, and the range `[0, NaN]` then shows no book |
| BookList.ApiUrl | src/components/BookList/index.js:34-38 | the URL is the new-releases endpoint if and only if the query is empty; it starts with the search prefix if and only if the query is non-empty |
| BookList.ApiUrlRoundTrip | src/components/BookList/index.js:34-38 | the query can be read back from the URL unchanged, so the query is appended verbatim and different queries give different URLs |
| BookList.Response.Ok | src/components/BookList/index.js:42 | `response.ok` holds exactly for the statuses of the 2xx class |
| BookList.BookListComponent.constructor | src/components/BookList/index.js:19-23 | a new component has status INITIAL, no books and range `[0, 0]` |
| BookList.BookListComponent.GetBooks | src/components/BookList/index.js:29-38 | from any status, the status becomes IN_PROGRESS; books and range are unchanged; the endpoint returned is the one `ApiUrl` chooses for the query |
| BookList.BookListComponent.ReceiveBooksResponse | src/components/BookList/index.js:40-55 | an ok (2xx) response sets the books to the response's books, the status to SUCCESS and the range to `[0, max price of the new books]`; any other response sets FAILURE and keeps books and range |
| BookList.BookListComponent.OnChangePriceRange | src/components/BookList/index.js:58-60 | the range becomes exactly the given value, with no clamping or ordering check; status and books are unchanged |
| BookList.BookListComponent.SetPriceRangeValue | src/components/BookList/index.js:68-72 | the range becomes `[0, max price of the held books]`; status and books are unchanged |
| BookList.BookListComponent.GetFilteredBooksByPriceRange | src/components/BookList/index.js:76-83 | the shown books are an in-order subsequence of the held books; they are exactly the held books in the held range; the state is only read |
| BookList.BookListComponent.RenderBooksListView | src/components/BookList/index.js:85-101 | the list view shows the filtered books, or the no-results text exactly when none is in range |
| BookList.BookListComponent.RenderBooks | src/components/BookList/index.js:111-124 | books (or the no-results text) are shown if and only if the status is SUCCESS; the error view appears exactly in FAILURE, the loader exactly in IN_PROGRESS, and nothing in INITIAL; shown books are non-empty, in order, held and in range |
| BookList.WholeDollarPrice | src/components/BookList/index.js:63 | a price such as "$10.00" reads as its number of whole dollars |
| BookList.TenAndTwentyDollars | src/components/BookList/index.js:63 | "$10.00" and "$20.00" read as 10 and 20 |
| BookList.TwoBookCatalogue | src/components/BookList/index.js:62-83 | for books priced 10 and 20, the maximum is 20 and the range `[0, 20]` shows both books in their original order |
| BookList.MaxOfTwoPrices | src/components/BookList/index.js:62-66 | the maximum of the prices 10 and 20 is 20 |
| BookList.ThreeBooksOneInRange | src/components/BookList/index.js:76-83 | for books priced 5, 15 and 25, the range `[10, 20]` shows only the book priced 15 |
| BookList.FirstLoadOfTwoBooks | src/components/BookList/index.js:29-72 | a first load with the empty query fetches the new-releases endpoint; if it returns "$10.00" and "$20.00" books, the range becomes `[0, 20]` and both books are shown in order |
| BookList.LoadOfEmptyCatalogue | src/components/BookList/index.js:42-72 | a successful load of no books leaves the range `[0, -Infinity]` and shows the no-results text |
| BookList.FailedSearchKeepsBooks | src/components/BookList/index.js:29-55 | a non-ok response to the search "golang" after a successful load fetches the search endpoint and shows the error view; the earlier books and range are kept |

## Left out

- The `fetch` call, `response.json()` and the `async`/`await` plumbing: the response is a parameter of `ReceiveBooksResponse`, reduced to its HTTP status and its `books` array.
- A rejected `fetch` (a network error) is not caught by the component, so the status would stay IN_PROGRESS. Exceptions are not modelled.
- A JSON body without a `books` field: the code stores `undefined` and later fails on it. The model's response always carries a list.
- Overlapping `getBooks` calls: the two steps can be called in any order on the class, but concurrent execution and which response arrives last are not modelled.
- React's `setState` batching and merging: each `setState` is modelled as an immediate update of the named fields, and the callback `setPriceRangeValue` runs right after the update it follows.
- Rendering with JSX, the CSS, and the child components (`Header`, `PriceRange`, `SearchInput`, `BookItem`, `Loader`, `ErrorMessage`): `View` records only which branch `renderBooks` takes and which books it lists. The `maxPrice` property that `render` passes to `PriceRange` is not modelled.
- The `...BookItem` spread in `setPriceRangeValue` adds no state field that the component reads, so it is left out.
- `componentDidMount`, which only calls `getBooks("")`: the first load is modelled by calling `GetBooks` with the empty query.
- Book fields other than `isbn13` and `price` are stood for by `title`. They are carried along unchanged.
- Books.DropFirst: a Dafny `char` is a whole Unicode scalar value, while JavaScript's `slice(1)` removes one UTF-16 code unit. For a price whose first character lies outside the Basic Multilingual Plane (such as U+1F4B0 followed by "10.00"), the code keeps a lone surrogate, `parseFloat` gives NaN and every book is hidden; the model reads 10. Strings are not modelled as UTF-16, and the catalogue's "$" is a single code unit.
- JsNumbers.Max: the sign of zero is not modelled, and neither are IEEE-754 rounding and precision. Finite numbers are exact reals.
- DecimalParsing.ParseFloat: reads no exponent, no "Infinity" and no leading whitespace, all of which JavaScript's `parseFloat` accepts. No price served in the catalogue's format uses them.
