/** The reading list: normalising Open Library reading-log entries into
    `BookListItem`s, and the fetch-state reducer of the list. */
module BooksSlice {
  import opened Options
  import opened Strings
  import opened BookTypes

  const ListPlaceholderImage: string := "https://via.placeholder.com/500x750.png?text=No+Image"

  /** The error shown when a rejected fetch carries no message (Thai for
      "an error occurred while fetching the books"). */
  const DefaultListError: string :=
    "\U{0E40}\U{0E01}\U{0E34}\U{0E14}\U{0E02}\U{0E49}\U{0E2D}\U{0E1C}\U{0E34}\U{0E14}\U{0E1E}\U{0E25}\U{0E32}\U{0E14}\U{0E43}\U{0E19}\U{0E01}\U{0E32}\U{0E23}\U{0E14}\U{0E36}\U{0E07}\U{0E02}\U{0E49}\U{0E2D}\U{0E21}\U{0E39}\U{0E25}\U{0E2B}\U{0E19}\U{0E31}\U{0E07}\U{0E2A}\U{0E37}\U{0E2D}"

  /** At most this many books are kept from one fetch. */
  const MaxListItems: nat := 30

  // ---------------------------------------------------------------------------
  // Normalising one entry

  /** An author list that is present and not empty. */
  predicate HasNames(names: Option<seq<string>>) {
    names.Some? && |names.value| > 0
  }

  /** A string that is present and not empty (JavaScript truthiness). */
  predicate HasText(s: Option<string>) {
    s.Some? && s.value != ""
  }

  /** The authors: `author_names` when it has any, else `author_name` when it
      has any, else none. */
  function ExtractAuthors(entry: Entry): (authors: seq<string>)
    ensures entry.work.None? ==> authors == []
    ensures authors == [] <==>
      entry.work.None? || (!HasNames(entry.work.value.authorNames) && !HasNames(entry.work.value.authorName))
    ensures entry.work.Some? && HasNames(entry.work.value.authorNames) ==>
      authors == entry.work.value.authorNames.value
    ensures entry.work.Some? && !HasNames(entry.work.value.authorNames) && HasNames(entry.work.value.authorName) ==>
      authors == entry.work.value.authorName.value
  {
    match entry.work
    case None => []
    case Some(work) =>
      if HasNames(work.authorNames) then work.authorNames.value
      else if HasNames(work.authorName) then work.authorName.value
      else []
  }

  /** The work's first publication year when it is present and not zero. */
  function PublishYear(entry: Entry): (year: Option<int>)
    ensures year.Some? <==>
      entry.work.Some? && entry.work.value.firstPublishYear.Some? && entry.work.value.firstPublishYear.value != 0
    ensures year.Some? ==> year == entry.work.value.firstPublishYear && year.value != 0
  {
    if entry.work.Some? && entry.work.value.firstPublishYear.Some? && entry.work.value.firstPublishYear.value != 0
    then entry.work.value.firstPublishYear
    else None
  }

  /** The logged date, or the empty string when there is none. */
  function LoggedText(entry: Entry): string {
    entry.loggedDate.GetOr("")
  }

  /** The year shown for an entry: a non-zero first publication year printed in
      decimal; otherwise the first four consecutive digits of the logged date;
      otherwise none. */
  function DeriveYear(entry: Entry): (year: Option<string>)
    ensures PublishYear(entry).Some? ==> year == Some(IntToDecimal(PublishYear(entry).value))
    ensures PublishYear(entry).None? ==> year == FirstFourDigitRun(LoggedText(entry))
    ensures year.None? <==> PublishYear(entry).None? && forall i :: !FourDigitsAt(LoggedText(entry), i)
  {
    if PublishYear(entry).Some? then Some(IntToDecimal(PublishYear(entry).value))
    else if HasText(entry.loggedDate) then FirstFourDigitRun(entry.loggedDate.value)
    else None
  }

  lemma PrintsYear1999()
    ensures IntToDecimal(1999) == "1999"
  {
    assert NatToDigits(1) == "1";
    assert NatToDigits(19) == NatToDigits(1) + [DigitChar(9)] == "19";
    assert NatToDigits(199) == NatToDigits(19) + [DigitChar(9)] == "199";
    assert NatToDigits(1999) == NatToDigits(199) + [DigitChar(9)] == "1999";
  }

  lemma FirstRunOfLogDate()
    ensures FirstFourDigitRun("2020-01-01") == Some("2020")
  {
    var logged := "2020-01-01";
    assert FourDigitsAt(logged, 0);
    assert FindFourDigits(logged, 0) == Some(0);
    assert logged[0..4] == "2020";
  }

  /** Year precedence on three inputs: a work from 1999 logged on 2020-01-01
      gives "1999"; without the publication year the log date gives "2020";
      with neither there is no year. */
  lemma DeriveYearExamples(work: Work)
    requires work.firstPublishYear == Some(1999)
    ensures DeriveYear(Entry(Some(work), Some("2020-01-01"))) == Some("1999")
    ensures DeriveYear(Entry(Some(work.(firstPublishYear := None)), Some("2020-01-01"))) == Some("2020")
    ensures DeriveYear(Entry(Some(work.(firstPublishYear := None)), None)) == None
  {
    PrintsYear1999();
    FirstRunOfLogDate();
    var undated := Entry(Some(work.(firstPublishYear := None)), Some("2020-01-01"));
    assert PublishYear(undated).None? && HasText(undated.loggedDate);
  }

  /** The list image: the Open Library cover when `cover_id` is present and not
      zero, else the list placeholder. */
  function ListImageUrl(coverId: Option<int>): (url: string)
    ensures url == ListPlaceholderImage <==> coverId.None? || coverId.value == 0
    ensures coverId.Some? && coverId.value != 0 ==> url == CoverUrl(coverId.value)
  {
    if coverId.Some? && coverId.value != 0 then CoverUrl(coverId.value) else ListPlaceholderImage
  }

  /** An entry is kept when it has a work with a non-empty key and title. */
  predicate IsListable(entry: Entry): (listable: bool)
    ensures !listable <==>
      entry.work.None? || entry.work.value.key.None? || entry.work.value.key.value == ""
      || entry.work.value.title.None? || entry.work.value.title.value == ""
  {
    entry.work.Some? && HasText(entry.work.value.key) && HasText(entry.work.value.title)
  }

  /** One entry as a list item, or nothing when it has no work, key or title. */
  function MapEntryToBook(entry: Entry): (book: Option<BookListItem>)
    ensures book.None? <==> !IsListable(entry)
    ensures book.Some? ==>
      var work := entry.work.value;
      && book.value.title == work.title.value
      && book.value.id == StripWorksPrefix(work.key.value)
      && book.value.imageUrl == ListImageUrl(work.coverId)
      && book.value.year == DeriveYear(entry)
      && book.value.authors == Some(ExtractAuthors(entry))
      && book.value.rating == (if work.rating.Some? then Some(work.rating.value.average) else None)
      && book.value.loggedAt == entry.loggedDate
  {
    if !IsListable(entry) then None
    else
      var work := entry.work.value;
      Some(BookListItem(
        StripWorksPrefix(work.key.value),
        work.title.value,
        ListImageUrl(work.coverId),
        DeriveYear(entry),
        Some(ExtractAuthors(entry)),
        if work.rating.Some? then Some(work.rating.value.average) else None,
        entry.loggedDate))
  }

  // ---------------------------------------------------------------------------
  // The list a fetch delivers: map, keep the non-null results, take 30

  /** `entries.map(mapEntryToBook)`. */
  function MapEntries(entries: seq<Entry>): (mapped: seq<Option<BookListItem>>)
    ensures |mapped| == |entries|
    ensures forall i :: 0 <= i < |entries| ==> mapped[i] == MapEntryToBook(entries[i])
  {
    seq(|entries|, i requires 0 <= i < |entries| => MapEntryToBook(entries[i]))
  }

  /** `.filter(Boolean)`: the present values, in order. */
  function Present(xs: seq<Option<BookListItem>>): (kept: seq<BookListItem>)
    decreases |xs|
    ensures |kept| <= |xs|
    ensures forall b :: b in kept <==> Some(b) in xs
  {
    if xs == [] then []
    else if xs[0].Some? then [xs[0].value] + Present(xs[1..])
    else Present(xs[1..])
  }

  /** Keeping present values commutes with concatenation, so the relative
      order of the kept books is the order of their entries. */
  lemma {:induction false} PresentAppend(xs: seq<Option<BookListItem>>, ys: seq<Option<BookListItem>>)
    decreases |xs|
    ensures Present(xs + ys) == Present(xs) + Present(ys)
  {
    if xs == [] {
      assert xs + ys == ys;
    } else {
      assert (xs + ys)[1..] == xs[1..] + ys;
      PresentAppend(xs[1..], ys);
    }
  }

  /** The books a successful fetch delivers: the listable entries, normalised,
      in their original order, cut to the first 30; no entry list gives none. */
  function FetchBooksPayload(response: ListResponse): (books: seq<BookListItem>)
    ensures response.readingLogEntries.None? ==> books == []
    ensures response.readingLogEntries.Some? ==>
      var kept := Present(MapEntries(response.readingLogEntries.value));
      && books <= kept
      && |books| == if |kept| < MaxListItems then |kept| else MaxListItems
  {
    match response.readingLogEntries
    case None => []
    case Some(entries) =>
      var kept := Present(MapEntries(entries));
      if |kept| <= MaxListItems then kept else kept[..MaxListItems]
  }

  /** The payload never holds more than 30 books, and every book in it is the
      normalisation of some entry of the response. */
  lemma PayloadBounded(response: ListResponse)
    ensures |FetchBooksPayload(response)| <= MaxListItems
    ensures forall b :: b in FetchBooksPayload(response) ==>
      exists e :: e in response.readingLogEntries.value && MapEntryToBook(e) == Some(b)
  {
    if response.readingLogEntries.Some? {
      var entries := response.readingLogEntries.value;
      var mapped := MapEntries(entries);
      forall b | b in FetchBooksPayload(response)
        ensures exists e :: e in entries && MapEntryToBook(e) == Some(b)
      {
        assert b in Present(mapped);
        var i :| 0 <= i < |mapped| && mapped[i] == Some(b);
        assert entries[i] in entries;
      }
    }
  }

  lemma MapEntriesAppend(entries: seq<Entry>, later: seq<Entry>)
    ensures MapEntries(entries + later) == MapEntries(entries) + MapEntries(later)
  {
    var whole, first, rest := MapEntries(entries + later), MapEntries(entries), MapEntries(later);
    assert |whole| == |first + rest|;
    forall i | 0 <= i < |whole| ensures whole[i] == (first + rest)[i] {
      if i < |entries| {
        assert (entries + later)[i] == entries[i];
      } else {
        assert (entries + later)[i] == later[i - |entries|];
      }
    }
  }

  /** Unfolds `FetchBooksPayload` for a response that has an entry list: the
      step `PayloadIgnoresLaterEntries` takes on both of its responses. */
  lemma PayloadOfEntries(entries: seq<Entry>)
    ensures var kept := Present(MapEntries(entries));
      FetchBooksPayload(ListResponse(Some(entries))) == if |kept| <= MaxListItems then kept else kept[..MaxListItems]
  {
  }

  /** Entries appended after the first 30 listable ones do not change the
      payload. */
  lemma PayloadIgnoresLaterEntries(entries: seq<Entry>, later: seq<Entry>)
    requires |Present(MapEntries(entries))| >= MaxListItems
    ensures FetchBooksPayload(ListResponse(Some(entries + later)))
         == FetchBooksPayload(ListResponse(Some(entries)))
  {
    var first, rest := MapEntries(entries), MapEntries(later);
    MapEntriesAppend(entries, later);
    PresentAppend(first, rest);
    var kept := Present(first);
    assert Present(MapEntries(entries + later)) == kept + Present(rest);
    assert (kept + Present(rest))[..MaxListItems] == kept[..MaxListItems];
    PayloadOfEntries(entries + later);
    PayloadOfEntries(entries);
  }

  // ---------------------------------------------------------------------------
  // The fetch-state reducer

  datatype BooksState = BooksState(items: seq<BookListItem>, status: FetchStatus, error: Option<string>)

  const InitialBooksState: BooksState := BooksState([], Idle, None)

  /** The three lifecycle actions of one `fetchBooks` call. */
  datatype BooksEvent =
    | Pending
    | Fulfilled(payload: seq<BookListItem>)
    | Rejected(message: Option<string>)

  /** The reducer, as a function of the state and the action. Whatever the
      state before, the state after pairs its status with its error. */
  function Reduce(s: BooksState, e: BooksEvent): (next: BooksState)
    ensures e.Pending? ==> next == BooksState(s.items, Loading, None)
    ensures e.Fulfilled? ==> next == BooksState(e.payload, Succeeded, s.error)
    ensures e.Rejected? ==> next == BooksState(s.items, Failed, Some(e.message.GetOr(DefaultListError)))
    ensures ErrorPaired(next)
  {
    match e
    case Pending => s.(status := Loading, error := None)
    case Fulfilled(payload) => s.(status := Succeeded, items := payload)
    case Rejected(message) => s.(status := Failed, error := Some(message.GetOr(DefaultListError)))
  }

  /** The state after the actions `events`, in order, starting from `s`. */
  function Run(s: BooksState, events: seq<BooksEvent>): (r: BooksState)
    decreases |events|
    ensures events == [] ==> r == s
    ensures events != [] ==> ErrorPaired(r)
    ensures r.items == s.items || exists i :: 0 <= i < |events| && events[i].Fulfilled? && r.items == events[i].payload
  {
    if events == [] then s else Reduce(Run(s, events[..|events| - 1]), events[|events| - 1])
  }

  /** `failed` always carries an error; `idle` and `loading` never do. */
  predicate ErrorPaired(s: BooksState) {
    && (s.status == Failed ==> s.error.Some?)
    && (s.status == Idle || s.status == Loading ==> s.error.None?)
  }

  /** Every completion (fulfilled or rejected) comes straight after a
      `pending`. Two requests may still be outstanding at once; what this
      excludes is a completion that follows another completion. */
  predicate CompletionFollowsRequest(events: seq<BooksEvent>) {
    forall i :: 0 <= i < |events| && !events[i].Pending? ==> 0 < i && events[i - 1].Pending?
  }

  /** Any sequence of actions from the initial state keeps the status and the
      error paired. */
  lemma {:induction false} RunKeepsErrorPaired(events: seq<BooksEvent>)
    ensures ErrorPaired(Run(InitialBooksState, events))
  {
    if events != [] {
      var before := Run(InitialBooksState, events[..|events| - 1]);
      assert Run(InitialBooksState, events) == Reduce(before, events[|events| - 1]);
    }
  }

  /** When every completion comes straight after a pending, the pairing is
      exact: an error is present exactly when the status is `failed`. */
  lemma {:induction false} RunErrorIffFailed(events: seq<BooksEvent>)
    requires CompletionFollowsRequest(events)
    ensures Run(InitialBooksState, events).error.Some? <==> Run(InitialBooksState, events).status == Failed
  {
    if events != [] {
      var prefix := events[..|events| - 1];
      assert CompletionFollowsRequest(prefix) by {
        forall i | 0 <= i < |prefix| && !prefix[i].Pending?
          ensures 0 < i && prefix[i - 1].Pending?
        {
          assert prefix[i] == events[i];
        }
      }
      RunErrorIffFailed(prefix);
      var last := events[|events| - 1];
      if !last.Pending? {
        assert prefix[|prefix| - 1] == events[|events| - 2];
        assert prefix == prefix[..|prefix| - 1] + [prefix[|prefix| - 1]];
        assert Run(InitialBooksState, prefix).status == Loading;
      }
    }
  }

  /** Without that discipline the pairing can break: an overlapping fetch that
      succeeds after another one failed leaves `succeeded` with a stale error,
      because `fulfilled` does not clear the error. */
  lemma OverlappingFetchesKeepStaleError()
    ensures
      var s := Run(InitialBooksState, [Pending, Pending, Rejected(None), Fulfilled([])]);
      s.status == Succeeded && s.error == Some(DefaultListError)
  {
    var events := [Pending, Pending, Rejected(None), Fulfilled([])];
    assert events[..3] == [Pending, Pending, Rejected(None)];
    assert events[..3][..2] == [Pending, Pending];
    assert events[..3][..2][..1] == [Pending];
    assert events[..3][..2][..1][..0] == [];
  }

  /** The list slice's state, updated in place by the three case reducers. */
  class BooksStore {
    var items: seq<BookListItem>
    var status: FetchStatus
    var error: Option<string>

    function State(): BooksState
      reads this
    {
      BooksState(items, status, error)
    }

    constructor ()
      ensures State() == InitialBooksState
    {
      items := [];
      status := Idle;
      error := None;
    }

    /** `fetchBooks.pending`: loading, error cleared, items kept. */
    method FetchPending()
      modifies this
      ensures status == Loading && error.None? && items == old(items)
      ensures State() == Reduce(old(State()), Pending)
    {
      status := Loading;
      error := None;
    }

    /** `fetchBooks.fulfilled`: succeeded, items replaced, error untouched. */
    method FetchFulfilled(payload: seq<BookListItem>)
      modifies this
      ensures status == Succeeded && items == payload && error == old(error)
      ensures State() == Reduce(old(State()), Fulfilled(payload))
    {
      status := Succeeded;
      items := payload;
    }

    /** `fetchBooks.rejected`: failed, the message or the default as error,
        items kept. */
    method FetchRejected(message: Option<string>)
      modifies this
      ensures status == Failed && error == Some(message.GetOr(DefaultListError)) && items == old(items)
      ensures State() == Reduce(old(State()), Rejected(message))
    {
      status := Failed;
      error := Some(message.GetOr(DefaultListError));
    }
  }
}
