/** The book list component: its request status, the endpoint a search
    goes to, the component state that `setState` updates, and the view the
    status selects. */
module BookList {
  import opened JsNumbers
  import opened DecimalParsing
  import opened Books

  /** `apiStatusConstants`: where the catalogue request stands. */
  datatype ApiStatus = Initial | InProgress | Success | Failure

  /** What `fetch` resolves to, reduced to what the component reads: the HTTP
      status behind `response.ok` and the `books` array of the JSON body. */
  datatype Response = Response(status: int, books: seq<Book>) {
    /** `response.ok`: the status is in the 2xx range. */
    predicate Ok(): (ok: bool)
      ensures ok <==> status / 100 == 2
    {
      200 <= status <= 299
    }
  }

  const NewBooksUrl: string := "https://api.itbook.store/1.0/new"
  const SearchUrlPrefix: string := "https://api.itbook.store/1.0/search/"

  /** The endpoint `getBooks` fetches: the new releases for an empty query,
      otherwise the search endpoint with the query appended as it is. */
  function ApiUrl(searchInputValue: string): (apiUrl: string)
    ensures searchInputValue == "" <==> apiUrl == NewBooksUrl
    ensures searchInputValue != "" <==>
              |apiUrl| > |SearchUrlPrefix| && apiUrl[..|SearchUrlPrefix|] == SearchUrlPrefix
  {
    if searchInputValue == "" then NewBooksUrl else SearchUrlPrefix + searchInputValue
  }

  /** Which query an endpoint answers, if it is one `getBooks` uses. */
  function QueryOfApiUrl(apiUrl: string): Option<string>
  {
    if apiUrl == NewBooksUrl then Some("")
    else if |apiUrl| > |SearchUrlPrefix| && apiUrl[..|SearchUrlPrefix|] == SearchUrlPrefix
    then Some(apiUrl[|SearchUrlPrefix|..])
    else None
  }

  /** The endpoint determines the query: no two queries share an endpoint. */
  lemma ApiUrlRoundTrip(searchInputValue: string)
    ensures QueryOfApiUrl(ApiUrl(searchInputValue)) == Some(searchInputValue)
  {
    if searchInputValue != "" {
      var apiUrl := ApiUrl(searchInputValue);
      assert apiUrl[|SearchUrlPrefix|..] == searchInputValue;
    }
  }

  /** What `renderBooks` puts in the item container. */
  datatype View =
    | BooksListView(items: seq<Book>)  // the filtered books, one item each
    | NoSearchResultsView              // "No Search Results Found"
    | FailureView                      // the error message
    | LoadingView                      // the loader
    | NoView                           // null, before the first request

  /** The component's `state`. */
  class BookListComponent {
    var apiStatus: ApiStatus
    var booksData: seq<Book>
    var priceRangeValue: PriceRange

    /** The initial `state`. */
    constructor ()
      ensures apiStatus == Initial && booksData == []
      ensures priceRangeValue == PriceRange(Finite(0.0), Finite(0.0))
    {
      apiStatus := Initial;
      booksData := [];
      priceRangeValue := PriceRange(Finite(0.0), Finite(0.0));
    }

    /** `getBooks` up to its `await fetch`: the status becomes IN_PROGRESS
        whatever it was, and the endpoint to fetch is returned. */
    method GetBooks(searchInputValue: string) returns (apiUrl: string)
      modifies this
      ensures apiStatus == InProgress
      ensures booksData == old(booksData) && priceRangeValue == old(priceRangeValue)
      ensures apiUrl == ApiUrl(searchInputValue)
    {
      apiStatus := InProgress;
      if searchInputValue == "" {
        apiUrl := NewBooksUrl;
      } else {
        apiUrl := SearchUrlPrefix + searchInputValue;
      }
    }

    /** `getBooks` after its `await fetch`: an ok response replaces the books,
        sets SUCCESS and then, in the `setState` callback, resets the range
        to `[0, max price]`; any other response sets FAILURE and keeps the
        books and the range. */
    method ReceiveBooksResponse(response: Response)
      modifies this
      ensures response.Ok() ==>
                apiStatus == Success && booksData == response.books &&
                priceRangeValue == PriceRange(Finite(0.0), MaxPriceOfBooks(response.books))
      ensures !response.Ok() ==>
                apiStatus == Failure && booksData == old(booksData) &&
                priceRangeValue == old(priceRangeValue)
    {
      if response.Ok() {
        var fetchedData := response.books;
        booksData, apiStatus := fetchedData, Success;
        SetPriceRangeValue();
      } else {
        apiStatus := Failure;
      }
    }

    /** `onChangePriceRange`: the slider's value becomes the range as it is,
        without clamping and without checking `lo <= hi`. */
    method OnChangePriceRange(event: PriceRange)
      modifies this
      ensures priceRangeValue == event
      ensures apiStatus == old(apiStatus) && booksData == old(booksData)
    {
      priceRangeValue := event;
    }

    /** `setPriceRangeValue`: the range becomes `[0, max price of the books]`. */
    method SetPriceRangeValue()
      modifies this
      ensures priceRangeValue == PriceRange(Finite(0.0), MaxPriceOfBooks(booksData))
      ensures apiStatus == old(apiStatus) && booksData == old(booksData)
    {
      var maxPrice := MaxPriceOfBooks(booksData);
      priceRangeValue := PriceRange(Finite(0.0), maxPrice);
    }

    /** `getFilteredBooksByPriceRange`: the held books whose price lies in the
        held range, in catalogue order; the state itself is only read. */
    function GetFilteredBooksByPriceRange(): (shown: seq<Book>)
      reads this
      ensures IsSubsequence(shown, booksData)
      ensures forall b :: b in shown ==> InPriceRange(b, priceRangeValue)
      ensures forall b :: b in booksData && InPriceRange(b, priceRangeValue) ==> b in shown
    {
      FilterIsSubsequence(booksData, priceRangeValue);
      FilterByPriceRange(booksData, priceRangeValue)
    }

    /** `renderBooksListView`: the filtered books, or the "no results" text
        when none is in range. */
    function RenderBooksListView(): (view: View)
      reads this
      ensures view.BooksListView? || view.NoSearchResultsView?
      ensures view.NoSearchResultsView? <==> GetFilteredBooksByPriceRange() == []
      ensures view.BooksListView? ==> view.items == GetFilteredBooksByPriceRange()
    {
      var filteredBooks := GetFilteredBooksByPriceRange();
      if |filteredBooks| > 0 then BooksListView(filteredBooks) else NoSearchResultsView
    }

    /** `renderBooks`: books are shown only in SUCCESS, and then only held
        books in the held range. */
    function RenderBooks(): (view: View)
      reads this
      ensures view.BooksListView? || view.NoSearchResultsView? <==> apiStatus == Success
      ensures view.FailureView? <==> apiStatus == Failure
      ensures view.LoadingView? <==> apiStatus == InProgress
      ensures view.NoView? <==> apiStatus == Initial
      ensures view.BooksListView? ==>
                view.items != [] && IsSubsequence(view.items, booksData) &&
                forall b :: b in view.items ==> InPriceRange(b, priceRangeValue)
    {
      match apiStatus
      case Success => RenderBooksListView()
      case Failure => FailureView
      case InProgress => LoadingView
      case Initial => NoView
    }
  }

  /** A price of whole dollars written with two zero cents, such as
      "$10.00", reads as that number of dollars. */
  lemma WholeDollarPrice(b: Book, units: nat, digits: string)
    requires digits == NatDigits(units) && b.price == "$" + digits + ".00"
    ensures PriceOf(b) == Finite(units as real)
  {
    assert b.price == ['$'] + FormatAmount(units, 0);
    PriceOfFormatted(b, '$', units, 0);
  }

  /** "$10.00" and "$20.00" read as 10 and 20. */
  lemma TenAndTwentyDollars(a: Book, b: Book)
    requires a.price == "$10.00" && b.price == "$20.00"
    ensures PriceOf(a) == Finite(10.0) && PriceOf(b) == Finite(20.0)
  {
    assert "10" == NatDigits(10) && "20" == NatDigits(20);
    assert a.price == "$" + "10" + ".00" && b.price == "$" + "20" + ".00";
    WholeDollarPrice(a, 10, "10");
    WholeDollarPrice(b, 20, "20");
  }

  /** Two books priced 10 and 20: the maximum is 20 and the range `[0, 20]`
      shows both, in order. */
  lemma TwoBookCatalogue(a: Book, b: Book)
    requires PriceOf(a) == Finite(10.0) && PriceOf(b) == Finite(20.0)
    ensures MaxPriceOfBooks([a, b]) == Finite(20.0)
    ensures FilterByPriceRange([a, b], PriceRange(Finite(0.0), Finite(20.0))) == [a, b]
  {
    var books := [a, b];
    MaxOfTwoPrices(a, b);
    forall i | 0 <= i < |books|
      ensures PriceOf(books[i]).Finite? && PriceOf(books[i]).value >= 0.0
    {
      assert books[i] == a || books[i] == b;
    }
    FilterUpToMaxPriceKeepsAll(books);
  }

  lemma MaxOfTwoPrices(a: Book, b: Book)
    requires PriceOf(a) == Finite(10.0) && PriceOf(b) == Finite(20.0)
    ensures MaxPriceOfBooks([a, b]) == Finite(20.0)
  {
    var ps := Prices([a, b]);
    assert ps == [Finite(10.0), Finite(20.0)];
    assert ps[..1] == [Finite(10.0)] && [Finite(10.0)][..0] == [];
    assert MaxOf(ps[..1]) == Finite(10.0);
  }

  /** Books priced 5, 15 and 25 under the range `[10, 20]`: only the book
      priced 15 is shown. */
  lemma ThreeBooksOneInRange(a: Book, b: Book, c: Book)
    requires PriceOf(a) == Finite(5.0) && PriceOf(b) == Finite(15.0) && PriceOf(c) == Finite(25.0)
    ensures FilterByPriceRange([a, b, c], PriceRange(Finite(10.0), Finite(20.0))) == [b]
  {
    var range := PriceRange(Finite(10.0), Finite(20.0));
    assert !InPriceRange(a, range);
    assert InPriceRange(b, range);
    assert !InPriceRange(c, range);
    assert [a, b, c][1..] == [b, c] && [b, c][1..] == [c] && [c][1..] == [];
    assert FilterByPriceRange([c], range) == [];
  }

  /** A first load of the new releases answered with two well-formed books:
      the range is reset to `[0, 20]` and both books are shown, in order. */
  method FirstLoadOfTwoBooks(a: Book, b: Book) returns (apiUrl: string, range: PriceRange, view: View)
    requires a.price == "$10.00" && b.price == "$20.00"
    ensures apiUrl == NewBooksUrl
    ensures range == PriceRange(Finite(0.0), Finite(20.0))
    ensures view == BooksListView([a, b])
  {
    TenAndTwentyDollars(a, b);
    TwoBookCatalogue(a, b);
    var component := new BookListComponent();
    apiUrl := component.GetBooks("");
    component.ReceiveBooksResponse(Response(200, [a, b]));
    range := component.priceRangeValue;
    assert component.GetFilteredBooksByPriceRange() == [a, b];
    view := component.RenderBooks();
  }

  /** A load answered with an empty catalogue: the slider's upper bound is
      `Math.max()` of nothing, -Infinity, and the no-results text is shown. */
  method LoadOfEmptyCatalogue() returns (range: PriceRange, view: View)
    ensures range == PriceRange(Finite(0.0), NegInfinity)
    ensures view == NoSearchResultsView
  {
    var component := new BookListComponent();
    var apiUrl := component.GetBooks("");
    component.ReceiveBooksResponse(Response(200, []));
    range := component.priceRangeValue;
    view := component.RenderBooks();
  }

  /** A failed search after a successful load: the status is FAILURE, the
      books and range of the earlier load are kept, and only the error view
      is shown. */
  method FailedSearchKeepsBooks(books: seq<Book>, status: int)
    returns (apiUrl: string, view: View, booksAfter: seq<Book>, rangeAfter: PriceRange)
    requires !(200 <= status <= 299)
    ensures apiUrl == SearchUrlPrefix + "golang"
    ensures view == FailureView
    ensures booksAfter == books
    ensures rangeAfter == PriceRange(Finite(0.0), MaxPriceOfBooks(books))
  {
    var component := new BookListComponent();
    var firstUrl := component.GetBooks("");
    component.ReceiveBooksResponse(Response(200, books));
    apiUrl := component.GetBooks("golang");
    component.ReceiveBooksResponse(Response(status, []));
    booksAfter, rangeAfter := component.booksData, component.priceRangeValue;
    view := component.RenderBooks();
  }
}
