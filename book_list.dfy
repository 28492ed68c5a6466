/** The order in which the list view shows the books: by year, ascending or
    descending, with the books whose year cannot be read always last. The
    view sorts a copy of the store's items, so the items themselves are never
    reordered. */
module BookList {
  import opened Options
  import opened Strings
  import opened BookTypes
  import BooksSlice

  datatype SortOrder = Asc | Desc

  /** The order used when the view is given none. */
  function SortOrderOrDefault(requested: Option<SortOrder>): (order: SortOrder)
    ensures requested.None? ==> order == Desc
    ensures requested.Some? ==> order == requested.value
  {
    requested.GetOr(Desc)
  }

  /** `parseYear`: nothing for an absent or empty year, otherwise what
      `Number.parseInt(year, 10)` reads, with `NaN` as nothing. */
  function ParseYear(year: Option<string>): (parsed: Option<int>)
    ensures year.None? || year == Some("") ==> parsed.None?
    ensures year.Some? && year.value != "" ==> parsed == ParseInt(year.value)
  {
    if year.None? || year.value == "" then None else ParseInt(year.value)
  }

  /** Every year the list normaliser produces reads back as a year: the
      publication year itself, or the value of the four logged digits. */
  lemma DerivedYearParses(entry: Entry)
    ensures BooksSlice.PublishYear(entry).Some? ==>
      ParseYear(BooksSlice.DeriveYear(entry)) == BooksSlice.PublishYear(entry)
    ensures BooksSlice.DeriveYear(entry).Some? ==> ParseYear(BooksSlice.DeriveYear(entry)).Some?
  {
    var year := BooksSlice.DeriveYear(entry);
    if BooksSlice.PublishYear(entry).Some? {
      ParseIntOfDecimal(BooksSlice.PublishYear(entry).value);
    } else if year.Some? {
      assert year.value + [] == year.value;
      ParseIntOfDigits(year.value, []);
    }
  }

  function YearOf(book: BookListItem): Option<int> {
    ParseYear(book.year)
  }

  /** The comparator: zero when neither book has a year; a book without a
      year after one with a year; otherwise the difference of the years, in
      the requested direction. */
  function Compare(order: SortOrder, a: BookListItem, b: BookListItem): (r: int)
    ensures YearOf(a).None? && YearOf(b).None? ==> r == 0
    ensures YearOf(a).None? && YearOf(b).Some? ==> r > 0
    ensures YearOf(a).Some? && YearOf(b).None? ==> r < 0
    ensures YearOf(a).Some? && YearOf(b).Some? && order == Asc ==>
      (r < 0 <==> YearOf(a).value < YearOf(b).value) && (r == 0 <==> YearOf(a).value == YearOf(b).value)
    ensures YearOf(a).Some? && YearOf(b).Some? && order == Desc ==>
      (r < 0 <==> YearOf(a).value > YearOf(b).value) && (r == 0 <==> YearOf(a).value == YearOf(b).value)
  {
    var yearA := YearOf(a);
    var yearB := YearOf(b);
    if yearA.None? && yearB.None? then 0
    else if yearA.None? then 1
    else if yearB.None? then -1
    else if order == Asc then yearA.value - yearB.value
    else yearB.value - yearA.value
  }

  /** Swapping the arguments negates the comparison. */
  lemma CompareAntisymmetric(order: SortOrder, a: BookListItem, b: BookListItem)
    ensures Compare(order, a, b) == -Compare(order, b, a)
  {
  }

  /** `a` may stand before `b`. */
  predicate Before(order: SortOrder, a: BookListItem, b: BookListItem) {
    Compare(order, a, b) <= 0
  }

  lemma BeforeTransitive(order: SortOrder, a: BookListItem, b: BookListItem, c: BookListItem)
    requires Before(order, a, b) && Before(order, b, c)
    ensures Before(order, a, c)
  {
  }

  predicate SortedBy(order: SortOrder, books: seq<BookListItem>) {
    forall i, j :: 0 <= i < j < |books| ==> Before(order, books[i], books[j])
  }

  /** What a sorted list looks like: every book with a year comes before every
      book without one, and the years run up for `asc` and down for `desc`. */
  lemma SortedMeaning(order: SortOrder, books: seq<BookListItem>, i: int, j: int)
    requires SortedBy(order, books) && 0 <= i < j < |books|
    ensures YearOf(books[j]).Some? ==> YearOf(books[i]).Some?
    ensures YearOf(books[i]).Some? && YearOf(books[j]).Some? && order == Asc ==>
      YearOf(books[i]).value <= YearOf(books[j]).value
    ensures YearOf(books[i]).Some? && YearOf(books[j]).Some? && order == Desc ==>
      YearOf(books[i]).value >= YearOf(books[j]).value
  {
    assert Before(order, books[i], books[j]);
  }

  /** The insertion sort's state while it sinks the element at `j`: apart from
      that element, positions `..i` are sorted, and the element may stand
      before everything after it up to `i`. */
  predicate Inserting(order: SortOrder, s: seq<BookListItem>, i: int, j: int)
    requires 0 <= j <= i < |s|
  {
    && (forall k, m :: 0 <= k < m <= i && k != j && m != j ==> Before(order, s[k], s[m]))
    && (forall m :: j < m <= i ==> Before(order, s[j], s[m]))
  }

  function Swapped(s: seq<BookListItem>, j: int): (t: seq<BookListItem>)
    requires 0 < j < |s|
    ensures |t| == |s| && multiset(t) == multiset(s)
  {
    s[j - 1 := s[j]][j := s[j - 1]]
  }

  lemma StartInserting(order: SortOrder, s: seq<BookListItem>, i: int)
    requires 0 <= i < |s| && SortedBy(order, s[..i])
    ensures Inserting(order, s, i, i)
  {
    forall k, m | 0 <= k < m <= i && k != i && m != i ensures Before(order, s[k], s[m]) {
      assert s[k] == s[..i][k] && s[m] == s[..i][m];
    }
  }

  lemma SwapKeepsInserting(order: SortOrder, s: seq<BookListItem>, i: int, j: int)
    requires 0 < j <= i < |s| && Inserting(order, s, i, j) && Compare(order, s[j - 1], s[j]) > 0
    ensures Inserting(order, Swapped(s, j), i, j - 1)
  {
    CompareAntisymmetric(order, s[j - 1], s[j]);
  }

  lemma DoneInserting(order: SortOrder, s: seq<BookListItem>, i: int, j: int)
    requires 0 <= j <= i < |s| && Inserting(order, s, i, j)
    requires j == 0 || Before(order, s[j - 1], s[j])
    ensures SortedBy(order, s[..i + 1])
  {
    forall k | 0 <= k < j ensures Before(order, s[k], s[j]) {
      if k < j - 1 {
        BeforeTransitive(order, s[k], s[j - 1], s[j]);
      }
    }
    var t := s[..i + 1];
    forall k, m | 0 <= k < m < |t| ensures Before(order, t[k], t[m]) {
      assert t[k] == s[k] && t[m] == s[m];
    }
  }

  /** One pass of the insertion sort: sinks `a[i]` by adjacent swaps until
      positions `..i` are sorted. */
  method Sink(a: array<BookListItem>, order: SortOrder, i: int)
    requires 0 <= i < a.Length && SortedBy(order, a[..i])
    modifies a
    ensures SortedBy(order, a[..i + 1])
    ensures multiset(a[..]) == multiset(old(a[..]))
  {
    StartInserting(order, a[..], i);
    var j := i;
    while 0 < j && Compare(order, a[j - 1], a[j]) > 0
      invariant 0 <= j <= i
      invariant multiset(a[..]) == multiset(old(a[..]))
      invariant Inserting(order, a[..], i, j)
    {
      SwapKeepsInserting(order, a[..], i, j);
      ghost var next := Swapped(a[..], j);
      a[j - 1], a[j] := a[j], a[j - 1];
      assert a[..] == next;
      j := j - 1;
    }
    DoneInserting(order, a[..], i, j);
  }

  /** `sortedBooks`: copies the books into a fresh array and sorts the copy in
      place (an insertion sort by adjacent swaps, standing for `Array.sort`).
      The result holds the same books, sorted by the comparator. */
  method SortedBooks(books: seq<BookListItem>, order: SortOrder) returns (sorted: seq<BookListItem>)
    ensures multiset(sorted) == multiset(books)
    ensures SortedBy(order, sorted)
  {
    var copy := new BookListItem[|books|](k requires 0 <= k < |books| => books[k]);
    assert copy[..] == books;
    var i := 0;
    while i < copy.Length
      invariant 0 <= i <= copy.Length
      invariant SortedBy(order, copy[..i])
      invariant multiset(copy[..]) == multiset(books)
    {
      Sink(copy, order, i);
      i := i + 1;
    }
    assert copy[..] == copy[..copy.Length];
    sorted := copy[..];
  }

  /** The sorted list, stated as the view promises it. */
  lemma SortedBooksMeaning(order: SortOrder, sorted: seq<BookListItem>)
    requires SortedBy(order, sorted)
    ensures forall i, j :: 0 <= i < j < |sorted| && YearOf(sorted[j]).Some? ==> YearOf(sorted[i]).Some?
    ensures order == Asc ==> forall i, j :: 0 <= i < j < |sorted| && YearOf(sorted[i]).Some? && YearOf(sorted[j]).Some? ==>
      YearOf(sorted[i]).value <= YearOf(sorted[j]).value
    ensures order == Desc ==> forall i, j :: 0 <= i < j < |sorted| && YearOf(sorted[i]).Some? && YearOf(sorted[j]).Some? ==>
      YearOf(sorted[i]).value >= YearOf(sorted[j]).value
  {
    forall i, j | 0 <= i < j < |sorted| {
      SortedMeaning(order, sorted, i, j);
    }
  }
}
