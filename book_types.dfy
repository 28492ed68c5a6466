/** The records the slices exchange: the normalised list and detail shapes and
    the parts of the Open Library responses the normalisers read. A field the
    normalisers test for presence, or that the TypeScript types mark optional,
    is an `Option`. The key and title of a work detail are read without a
    test and are taken to be present (see README, Left out). */
module BookTypes {
  import opened Options
  import opened Strings

  /** A rating average. It is only passed through, never computed with. */
  type Rating = real

  /** A book as the list view, the cards and the collection show it. */
  datatype BookListItem = BookListItem(
    id: string,
    title: string,
    imageUrl: string,
    year: Option<string>,
    authors: Option<seq<string>>,
    rating: Option<Rating>,
    loggedAt: Option<string>)

  datatype RatingSummary = RatingSummary(average: Rating)

  /** The `work` object of one reading-log entry. Key and title are declared
      strings but are tested for presence, so they are optional here too. */
  datatype Work = Work(
    key: Option<string>,
    title: Option<string>,
    coverId: Option<int>,
    firstPublishYear: Option<int>,
    rating: Option<RatingSummary>,
    authorNames: Option<seq<string>>,
    authorName: Option<seq<string>>)

  datatype Entry = Entry(work: Option<Work>, loggedDate: Option<string>)

  datatype ListResponse = ListResponse(readingLogEntries: Option<seq<Entry>>)

  /** A work's description: a plain string or an object with a `value`. */
  datatype Description = Plain(text: string) | Structured(value: Option<string>)

  datatype WorkDetail = WorkDetail(
    key: string,
    title: string,
    description: Option<Description>,
    covers: Option<seq<int>>,
    subjects: Option<seq<string>>,
    firstPublishYear: Option<int>)

  /** A book as the detail page shows it. */
  datatype BookDetail = BookDetail(
    id: string,
    title: string,
    imageUrl: string,
    description: Option<string>,
    subjects: seq<string>,
    firstPublishYear: Option<int>)

  /** The life cycle of one remote fetch. */
  datatype FetchStatus = Idle | Loading | Succeeded | Failed

  const CoversBaseUrl: string := "https://covers.openlibrary.org/b/id"

  /** The large cover image of an Open Library cover id. */
  function CoverUrl(coverId: int): (url: string)
    ensures CoversBaseUrl + "/" <= url
    ensures |url| > |CoversBaseUrl| + 1 + 6
    ensures url[|CoversBaseUrl| + 1..|url| - 6] == IntToDecimal(coverId)
    ensures url[|url| - 6..] == "-L.jpg"
  {
    CoversBaseUrl + "/" + IntToDecimal(coverId) + "-L.jpg"
  }

  /** Different cover ids give different image URLs. */
  lemma CoverUrlInjective(a: int, b: int)
    requires CoverUrl(a) == CoverUrl(b)
    ensures a == b
  {
    IntToDecimalInjective(a, b);
  }
}
