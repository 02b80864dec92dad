/** The book catalogue as the book list holds it, and the two pure
    derivations over it: the largest price (which bounds the price slider)
    and the books whose price lies in the chosen range. */
module Books {
  import opened JsNumbers
  import opened DecimalParsing

  /** One element of the `books` array the catalogue API returns. `isbn13`
      keys the rendered list and `title` stands for the fields only the item
      view reads; `price` is a currency symbol followed by a decimal amount. */
  datatype Book = Book(isbn13: string, title: string, price: string)

  /** The inclusive price range `[lo, hi]` held in `priceRangeValue`. */
  datatype PriceRange = PriceRange(lo: Number, hi: Number)

  /** `s.slice(1)` for a string whose first character is a single UTF-16
      code unit (as the "$" of the catalogue's prices is): everything after
      that character; "" when `s` is empty. */
  function DropFirst(s: string): (r: string)
    ensures |r| == if s == [] then 0 else |s| - 1
    ensures s != [] ==> s == [s[0]] + r
  {
    if s == [] then [] else s[1..]
  }

  /** `parseFloat(book.price.slice(1))`, the one price reading shared by the
      maximum and the filter. It is never infinite. */
  function PriceOf(b: Book): (p: Number)
    ensures p.Finite? || p.NaN?
  {
    match ParseFloat(DropFirst(b.price))
    case Some(v) => Finite(v)
    case None => NaN
  }

  /** `books.map(book => parseFloat(book.price.slice(1)))` */
  function Prices(books: seq<Book>): (ps: seq<Number>)
    ensures |ps| == |books|
    ensures forall i :: 0 <= i < |books| ==> ps[i] == PriceOf(books[i])
  {
    seq(|books|, i requires 0 <= i < |books| => PriceOf(books[i]))
  }

  /** `getMaxPriceOfBooks`: `Math.max` over the parsed prices. */
  function MaxPriceOfBooks(books: seq<Book>): (m: Number)
    ensures books == [] ==> m == NegInfinity
    ensures books != [] ==> m.Finite? || m.NaN?
  {
    MaxOf(Prices(books))
  }

  /** One unreadable price makes the maximum NaN, and only then is it NaN. */
  lemma MaxPriceIsNaN(books: seq<Book>)
    ensures MaxPriceOfBooks(books).NaN? <==> exists i :: 0 <= i < |books| && PriceOf(books[i]).NaN?
  {
    var ps := Prices(books);
    if NaN in ps {
      var i :| 0 <= i < |ps| && ps[i] == NaN;
      assert PriceOf(books[i]).NaN?;
    }
  }

  /** When every price is readable and there is at least one book, the
      maximum is the price of some book and no book costs more. */
  lemma MaxPriceBound(books: seq<Book>)
    requires books != []
    requires forall i :: 0 <= i < |books| ==> PriceOf(books[i]).Finite?
    ensures MaxPriceOfBooks(books).Finite?
    ensures exists i :: 0 <= i < |books| && PriceOf(books[i]) == MaxPriceOfBooks(books)
    ensures forall i :: 0 <= i < |books| ==> PriceOf(books[i]).value <= MaxPriceOfBooks(books).value
  {
    var ps := Prices(books);
    var m := MaxOf(ps);
    assert NaN !in ps;
    var k :| 0 <= k < |ps| && ps[k] == m;
    assert PriceOf(books[k]) == m;
    forall i | 0 <= i < |books|
      ensures PriceOf(books[i]).value <= m.value
    {
      assert LessEq(ps[i], m);
    }
  }

  /** The filter's test `price >= lo && price <= hi`. A book passes only
      when its price is readable and the range is not empty; for finite
      bounds it passes exactly when its price lies between them. */
  predicate InPriceRange(b: Book, range: PriceRange): (r: bool)
    ensures r ==> PriceOf(b).Finite? && LessEq(range.lo, range.hi)
    ensures range.lo.Finite? && range.hi.Finite? ==>
              (r <==> PriceOf(b).Finite? && range.lo.value <= PriceOf(b).value <= range.hi.value)
  {
    var price := PriceOf(b);
    LessEq(range.lo, price) && LessEq(price, range.hi)
  }

  /** `getFilteredBooksByPriceRange`: `books.filter` with the range test. */
  function FilterByPriceRange(books: seq<Book>, range: PriceRange): (shown: seq<Book>)
    ensures |shown| <= |books|
    ensures forall b :: b in shown ==> b in books && InPriceRange(b, range)
    ensures forall b :: b in shown ==> PriceOf(b).Finite?
    ensures forall b :: b in books && InPriceRange(b, range) ==> b in shown
  {
    if books == [] then []
    else
      var rest := FilterByPriceRange(books[1..], range);
      assert forall b :: b in books ==> b == books[0] || b in books[1..];
      (if InPriceRange(books[0], range) then [books[0]] else []) + rest
  }

  /** `sub` is `s` with some elements left out and the rest kept in order. */
  predicate IsSubsequence(sub: seq<Book>, s: seq<Book>)
  {
    if sub == [] then true
    else if s == [] then false
    else (sub[0] == s[0] && IsSubsequence(sub[1..], s[1..])) || IsSubsequence(sub, s[1..])
  }

  lemma {:induction false} SubsequenceMultiset(sub: seq<Book>, s: seq<Book>)
    requires IsSubsequence(sub, s)
    ensures multiset(sub) <= multiset(s)
  {
    if sub != [] {
      assert s == [s[0]] + s[1..];
      if sub[0] == s[0] && IsSubsequence(sub[1..], s[1..]) {
        SubsequenceMultiset(sub[1..], s[1..]);
        assert sub == [sub[0]] + sub[1..];
      } else {
        SubsequenceMultiset(sub, s[1..]);
      }
    }
  }

  /** The filter keeps the books in their catalogue order. */
  lemma {:induction false} FilterIsSubsequence(books: seq<Book>, range: PriceRange)
    ensures IsSubsequence(FilterByPriceRange(books, range), books)
  {
    if books != [] {
      var shown, rest := FilterByPriceRange(books, range), FilterByPriceRange(books[1..], range);
      FilterIsSubsequence(books[1..], range);
      if InPriceRange(books[0], range) {
        assert shown == [books[0]] + rest;
        assert shown[0] == books[0] && shown[1..] == rest;
      } else {
        assert shown == rest;
      }
    }
  }

  /** The filter keeps every copy of a book in range and no copy of any other. */
  lemma {:induction false} FilterCounts(books: seq<Book>, range: PriceRange)
    ensures forall b :: multiset(FilterByPriceRange(books, range))[b] ==
              if InPriceRange(b, range) then multiset(books)[b] else 0
  {
    if books != [] {
      FilterCounts(books[1..], range);
      assert books == [books[0]] + books[1..];
    }
  }

  /** The two facts above pin the result down: any order-preserving
      selection from the catalogue with those counts is the filter's result. */
  lemma {:induction false} FilterUnique(books: seq<Book>, range: PriceRange, shown: seq<Book>)
    requires IsSubsequence(shown, books)
    requires forall b :: multiset(shown)[b] == if InPriceRange(b, range) then multiset(books)[b] else 0
    ensures shown == FilterByPriceRange(books, range)
  {
    if books == [] {
      assert shown == [];
    } else {
      var x := books[0];
      assert books == [x] + books[1..];
      if shown != [] && shown[0] == x {
        assert shown == [x] + shown[1..];
        assert multiset(shown)[x] > 0;
        assert InPriceRange(x, range);
        if !IsSubsequence(shown[1..], books[1..]) {
          SubsequenceMultiset(shown, books[1..]);
        }
        FilterUnique(books[1..], range, shown[1..]);
      } else {
        assert IsSubsequence(shown, books[1..]);
        SubsequenceMultiset(shown, books[1..]);
        assert multiset(shown)[x] <= multiset(books[1..])[x] < multiset(books)[x];
        assert !InPriceRange(x, range);
        FilterUnique(books[1..], range, shown);
      }
    }
  }

  /** A range with `lo > hi` (or a NaN bound) shows nothing. */
  lemma FilterOfEmptyRange(books: seq<Book>, range: PriceRange)
    requires !LessEq(range.lo, range.hi)
    ensures FilterByPriceRange(books, range) == []
  {
  }

  /** Filtering what was already filtered by the same range changes nothing. */
  lemma {:induction false} FilterIdempotent(books: seq<Book>, range: PriceRange)
    ensures FilterByPriceRange(FilterByPriceRange(books, range), range) == FilterByPriceRange(books, range)
  {
    if books != [] {
      var shown, rest := FilterByPriceRange(books, range), FilterByPriceRange(books[1..], range);
      FilterIdempotent(books[1..], range);
      if InPriceRange(books[0], range) {
        assert shown == [books[0]] + rest;
        assert shown[0] == books[0] && shown[1..] == rest;
        assert FilterByPriceRange(shown, range) == [books[0]] + FilterByPriceRange(rest, range);
      } else {
        assert shown == rest;
      }
    }
  }

  /** A range that every price lies in shows the whole catalogue. */
  lemma {:induction false} FilterKeepsAllInRange(books: seq<Book>, range: PriceRange)
    requires forall i :: 0 <= i < |books| ==> InPriceRange(books[i], range)
    ensures FilterByPriceRange(books, range) == books
  {
    if books != [] {
      FilterKeepsAllInRange(books[1..], range);
      assert books == [books[0]] + books[1..];
    }
  }

  /** The range `[0, max price]` that a successful load installs shows every
      book when all prices are readable and none is negative. */
  lemma FilterUpToMaxPriceKeepsAll(books: seq<Book>)
    requires forall i :: 0 <= i < |books| ==> PriceOf(books[i]).Finite? && PriceOf(books[i]).value >= 0.0
    ensures FilterByPriceRange(books, PriceRange(Finite(0.0), MaxPriceOfBooks(books))) == books
  {
    var range := PriceRange(Finite(0.0), MaxPriceOfBooks(books));
    if books != [] {
      MaxPriceBound(books);
      var m := MaxPriceOfBooks(books).value;
      forall i | 0 <= i < |books|
        ensures InPriceRange(books[i], range)
      {
        var p := PriceOf(books[i]);
        assert 0.0 <= p.value <= m;
      }
    }
    FilterKeepsAllInRange(books, range);
  }

  /** One unreadable price makes the maximum NaN, and the range `[0, NaN]`
      that a successful load then installs shows no book at all. */
  lemma UnreadablePriceHidesAll(books: seq<Book>, i: nat)
    requires i < |books| && PriceOf(books[i]).NaN?
    ensures MaxPriceOfBooks(books).NaN?
    ensures FilterByPriceRange(books, PriceRange(Finite(0.0), MaxPriceOfBooks(books))) == []
  {
    MaxPriceIsNaN(books);
    FilterOfEmptyRange(books, PriceRange(Finite(0.0), MaxPriceOfBooks(books)));
  }

  /** A price written as a symbol, whole units, a point and two digits of
      cents reads as that amount, whatever the symbol. */
  lemma PriceOfFormatted(b: Book, symbol: char, units: nat, cents: nat)
    requires cents < 100 && b.price == [symbol] + FormatAmount(units, cents)
    ensures PriceOf(b) == Finite(units as real + cents as real / 100.0)
  {
    assert DropFirst(b.price) == FormatAmount(units, cents);
    ParseFloatOfFormattedAmount(units, cents);
  }
}
