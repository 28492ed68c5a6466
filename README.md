# BookHaven state core in Dafny

This project models the state layer of BookHaven, a React and Redux Toolkit
front end for an Open Library reading list:

- the **books slice** normalises reading-log entries into list items and tracks the list fetch;
- the **book-detail slice** normalises one work record and tracks fetch state per book id;
- the **collection slice** keeps the user's saved books in a map mirrored to local storage;
- the **theme slice** chooses and stores the colour mode;
- the **toast slice** holds the single notification;
- the list view's **sort by year** runs in either direction, with undated books last.

How the model is organised:

- Pure normalisers are Dafny functions with named results.
- Each slice's state is a class whose methods assign its fields as the case reducers do.
- The list and detail reducers are also written as a `Reduce` function. A `Run` over a sequence of actions lets lemmas state what every reachable state satisfies.
- Local storage is one `Storage.Slot` per key, which may refuse a write.
- The year sort is an insertion sort, in place, on a fresh array copy.

JavaScript semantics the model writes out:

- Truthiness: a string is truthy when non-empty, a number when non-zero.
- `/\d{4}/` matches ASCII digits only.
- `Number.prototype.toString` on integers.
- `Number.parseInt(s, 10)`: leading white space, one optional sign, the longest digit run, and `NaN` as `None`.

Files:

| file | module |
|---|---|
| options.dfy | `Options`: `Option` |
| strings.dfy | `Strings`: digit runs, the `/works/` prefix, integer printing and `parseInt` |
| book_types.dfy | `BookTypes`: the records of `src/Types/book.ts`, `FetchStatus`, cover URLs |
| storage.dfy | `Storage`: one local-storage key |
| books_slice.dfy | `BooksSlice` |
| book_detail_slice.dfy | `BookDetailSlice` |
| collection_slice.dfy | `CollectionSlice` |
| theme_slice.dfy | `ThemeSlice` |
| toast_slice.dfy | `ToastSlice` |
| book_list.dfy | `BookList`: `parseYear`, the comparator and the sort |

Behaviour of the code worth knowing, which the model keeps:

- `fetchBooks.fulfilled` does not clear `error`. `BooksSlice.OverlappingFetchesKeepStaleError` shows the state `succeeded` with a stale error that this allows.
- Every `pending` action is accepted, whatever the current status.
- An entry is dropped when its key OR its title is missing or empty.
- Toggling an item twice restores the collection only when the id was absent or already held that same item. When the id held a different item, the second toggle stores the new item instead (`CollectionSlice.ToggleTwiceReplacesOtherItem`).
- The theme reducers do not catch a failing `setItem`. The exception aborts the reducer, so the mode stays unchanged. The collection slice swallows the same failure.

## Model

| member | source | states |
|---|---|---|
| Strings.FindFourDigits | src/store/slices/booksSlice.ts:37 | the result is the leftmost index at or after `from` where four digits start; nothing means no such index exists |
| Strings.FirstFourDigitRun | src/store/slices/booksSlice.ts:37-40 | a match exists iff some index starts four digits; the match is four digits, taken at the leftmost such index |
| Strings.StripWorksPrefix | src/store/slices/booksSlice.ts:57 | a key starting with "/works/" loses exactly that prefix; any other key is unchanged |
| Strings.StripWorksPrefixUndoesPrefix | src/store/slices/bookDetailSlice.ts:32 | stripping undoes prefixing "/works/" to an id |
| Strings.NatToDigits | src/store/slices/booksSlice.ts:33 | printing a natural gives a non-empty digit string with no leading zero unless the number is 0 |
| Strings.IntToDecimal | src/store/slices/booksSlice.ts:33 | the printed integer starts with '-' exactly when it is negative, followed by the magnitude's digits |
| Strings.DigitsValueOfNatToDigits | src/store/slices/booksSlice.ts:33 | reading the printed digits of n gives back n |
| Strings.TrimStart | src/components/Booklist/BookList.tsx:17 | the result is the suffix left after the leading JavaScript white space, and does not start with white space |
| Strings.Unsigned | src/components/Booklist/BookList.tsx:17 | a leading '-' or '+' is dropped (one character only); any other text is left as it is |
| Strings.LeadingDigits | src/components/Booklist/BookList.tsx:17 | the result is the longest all-digit prefix |
| Strings.ParseInt | src/components/Booklist/BookList.tsx:17-18 | a number exactly when digits follow the white space and one optional sign; its value is the digits' value, negated after '-' |
| Strings.LeadingDigitsOfDigits | src/components/Booklist/BookList.tsx:17 | a digit string followed by a non-digit is the leading digit run |
| Strings.ParseIntOfDigits | src/components/Booklist/BookList.tsx:17 | `parseInt` of digits followed by a non-digit is the digits' value |
| Strings.ParseIntOfNegatedDigits | src/components/Booklist/BookList.tsx:17 | `parseInt` of '-' followed by digits is the negated value |
| Strings.ParseIntOfDecimal | src/components/Booklist/BookList.tsx:13-19 | `parseInt` reads back every integer `toString` prints (round trip) |
| Strings.IntToDecimalInjective | src/store/slices/booksSlice.ts:33 | distinct integers print differently |
| BookTypes.CoverUrl | src/store/slices/bookDetailSlice.ts:35-36 | the URL is the covers base, '/', the printed id and "-L.jpg" |
| BookTypes.CoverUrlInjective | src/store/slices/booksSlice.ts:53-54 | different cover ids give different cover URLs |
| BooksSlice.ExtractAuthors | src/store/slices/booksSlice.ts:13-28 | `author_names` if non-empty, else `author_name` if non-empty, else none; empty exactly when neither has names |
| BooksSlice.PublishYear | src/store/slices/booksSlice.ts:31-32 | the work's first publish year exactly when it is present and truthy (non-zero) |
| BooksSlice.DeriveYear | src/store/slices/booksSlice.ts:30-44 | a non-zero publish year printed in decimal wins; otherwise the first four-digit run of the log date; nothing exactly when neither exists |
| BooksSlice.DeriveYearExamples | src/store/slices/booksSlice.ts:30-44 | 1999 with log date 2020-01-01 gives "1999"; the log date alone gives "2020"; neither gives nothing |
| BooksSlice.ListImageUrl | src/store/slices/booksSlice.ts:53-55 | the placeholder exactly when the cover id is absent or zero, else the cover URL of the id |
| BooksSlice.IsListable | src/store/slices/booksSlice.ts:49 | an entry is rejected exactly when the work, its key or its title is missing or empty |
| BooksSlice.MapEntryToBook | src/store/slices/booksSlice.ts:46-68 | nothing exactly when work, key or title is missing or empty; otherwise every field as the normaliser derives it |
| BooksSlice.MapEntries | src/store/slices/booksSlice.ts:75-77 | position by position the normalisation of each entry |
| BooksSlice.Present | src/store/slices/booksSlice.ts:78 | never longer than its input; a book is kept exactly when it is present in the input (order: `PresentAppend`) |
| BooksSlice.PresentAppend | src/store/slices/booksSlice.ts:78 | the filter distributes over concatenation, so input order is kept |
| BooksSlice.FetchBooksPayload | src/store/slices/booksSlice.ts:75-80 | no entry list gives []; otherwise a prefix of the kept books of length min(kept, 30) |
| BooksSlice.PayloadBounded | src/store/slices/booksSlice.ts:75-80 | at most 30 books, each the normalisation of an entry of the response |
| BooksSlice.MapEntriesAppend | src/store/slices/booksSlice.ts:77 | normalising a concatenation concatenates the normalisations |
| BooksSlice.PayloadIgnoresLaterEntries | src/store/slices/booksSlice.ts:75-80 | once 30 listable entries precede them, later entries do not change the payload |
| BooksSlice.Reduce | src/store/slices/booksSlice.ts:104-116 | pending gives loading with no error; fulfilled replaces the items and keeps the error; rejected gives failed with the message or the Thai default; every result pairs status and error |
| BooksSlice.Run | src/store/slices/booksSlice.ts:104-116 | after at least one action status and error are paired; the items are the initial ones or the payload of some fulfilled action |
| BooksSlice.RunKeepsErrorPaired | src/store/slices/booksSlice.ts:92-116 | in every reachable state `failed` has an error, and `idle` and `loading` have none |
| BooksSlice.RunErrorIffFailed | src/store/slices/booksSlice.ts:104-116 | when every completion comes straight after a pending, an error is present exactly when the status is `failed` |
| BooksSlice.OverlappingFetchesKeepStaleError | src/store/slices/booksSlice.ts:108-111 | pending, pending, rejected, fulfilled ends `succeeded` with the default error still set |
| BooksSlice.BooksStore.constructor | src/store/slices/booksSlice.ts:92-96 | no items, `idle`, no error |
| BooksSlice.BooksStore.FetchPending | src/store/slices/booksSlice.ts:104-107 | loading, error cleared, items kept; the new state is `Reduce` of the old |
| BooksSlice.BooksStore.FetchFulfilled | src/store/slices/booksSlice.ts:108-111 | succeeded, items replaced by the payload, error untouched |
| BooksSlice.BooksStore.FetchRejected | src/store/slices/booksSlice.ts:112-115 | failed, with the action's message or the Thai default, items kept |
| BookDetailSlice.GetDescriptionText | src/store/slices/bookDetailSlice.ts:14-26 | none when absent or an empty string; the string itself; the object's `value` |
| BookDetailSlice.DescriptionFormsAgree | src/store/slices/bookDetailSlice.ts:14-26 | both description forms of a non-empty text give that text |
| BookDetailSlice.DetailImageUrl | src/store/slices/bookDetailSlice.ts:29-37 | the placeholder exactly when covers are absent or empty or the first is 0, else the first cover's URL |
| BookDetailSlice.MapDetail | src/store/slices/bookDetailSlice.ts:28-41 | id with the prefix stripped; title, description, image, subjects (default []) and year as derived |
| BookDetailSlice.MapDetailKeepsRequestedId | src/store/slices/bookDetailSlice.ts:45-50 | a record whose key is "/works/" plus the requested id is stored under that id |
| BookDetailSlice.Reduce | src/store/slices/bookDetailSlice.ts:74-90 | only the action's id is written: loading, succeeded or failed; the error is the message or the Thai default for a rejection and null otherwise; a fulfilled action stores its entity |
| BookDetailSlice.Run | src/store/slices/bookDetailSlice.ts:74-90 | ids with a status are never removed, and every new one is the id of some action of the run |
| BookDetailSlice.ReduceIsLocal | src/store/slices/bookDetailSlice.ts:74-90 | an action leaves every other id's entries alone, and its effect on its own id depends only on that id's entries |
| BookDetailSlice.EventsFor | src/store/slices/bookDetailSlice.ts:74-90 | never longer than the actions; an action is selected exactly when it is among them and concerns the id; empty when none does (order: `EventsForAppend`) |
| BookDetailSlice.EventsForAppend | src/store/slices/bookDetailSlice.ts:74-90 | the selection distributes over concatenation, so the selected actions keep their order |
| BookDetailSlice.RunIsPerId | src/store/slices/bookDetailSlice.ts:74-90 | what any run leaves under an id equals what that id's own actions leave |
| BookDetailSlice.NeverFetchedIsAbsent | src/store/slices/bookDetailSlice.ts:62-66 | an id no action concerned has no entity, status or error |
| BookDetailSlice.ReducePreservesWellFormed | src/store/slices/bookDetailSlice.ts:74-90 | every action preserves the invariant: status and error keys equal; entities under their own id with a status; never `idle`; error iff `failed`; `succeeded` has its entity |
| BookDetailSlice.RunWellFormed | src/store/slices/bookDetailSlice.ts:62-90 | every reachable state satisfies that invariant |
| BookDetailSlice.MismatchedResponseLeavesRequestLoading | src/store/slices/bookDetailSlice.ts:79-84 | a response with another id leaves the requested id `loading` |
| BookDetailSlice.BookDetailStore.constructor | src/store/slices/bookDetailSlice.ts:62-66 | three empty maps, which satisfy the invariant |
| BookDetailSlice.BookDetailStore.FetchPending | src/store/slices/bookDetailSlice.ts:74-78 | that id loading with a null error, nothing else changed, invariant kept |
| BookDetailSlice.BookDetailStore.FetchFulfilled | src/store/slices/bookDetailSlice.ts:79-84 | entity, `succeeded` and no error under the payload's id, invariant kept |
| BookDetailSlice.BookDetailStore.FetchRejected | src/store/slices/bookDetailSlice.ts:85-90 | that id failed with the message or the Thai default, entities unchanged, invariant kept |
| CollectionSlice.BackfillYear | src/store/slices/collectionSlice.ts:26-29 | every field kept; a missing year becomes the first four-digit run of the log date |
| CollectionSlice.LoadFromStorage | src/store/slices/collectionSlice.ts:7-35 | empty without a window or when reading or parsing fails or gives nothing; otherwise the same ids with backfilled items |
| CollectionSlice.BackfillSettles | src/store/slices/collectionSlice.ts:28 | a backfilled item is settled, and a settled item is left as it is |
| CollectionSlice.LoadOfSettledIsIdentity | src/store/slices/collectionSlice.ts:7-47 | loading a saved map whose items are settled gives the map back |
| CollectionSlice.LoadIsIdempotent | src/store/slices/collectionSlice.ts:23-31 | loading a loaded map changes nothing |
| CollectionSlice.ListedBookIsSettled | src/store/slices/collectionSlice.ts:28 | every book the list normaliser produces survives a save and reload unchanged |
| CollectionSlice.LegacyEntryGetsYear | src/store/slices/collectionSlice.ts:28 | an item without a year logged "Logged 2018-05-01" loads with year "2018" |
| CollectionSlice.Toggled | src/store/slices/collectionSlice.ts:69-77 | the item's id flips between present and absent, holds the item when present, every other id unchanged |
| CollectionSlice.ToggleTwiceRestores | src/store/slices/collectionSlice.ts:69-77 | toggling twice restores the map when the id was absent or held that item |
| CollectionSlice.ToggleTwiceReplacesOtherItem | src/store/slices/collectionSlice.ts:69-77 | otherwise toggling twice replaces the stored item, so the map differs |
| CollectionSlice.CollectionStore.constructor | src/store/slices/collectionSlice.ts:53-55 | the items are what loading gives |
| CollectionSlice.CollectionStore.SaveToStorage | src/store/slices/collectionSlice.ts:37-47 | with a window and an accepting slot the snapshot is stored; otherwise the slot is unchanged and nothing is raised |
| CollectionSlice.CollectionStore.AddBook | src/store/slices/collectionSlice.ts:61-64 | the item is stored under its id, other ids kept, and the new map is saved |
| CollectionSlice.CollectionStore.RemoveBook | src/store/slices/collectionSlice.ts:65-68 | only that id is removed, and an absent id changes nothing; the map is saved |
| CollectionSlice.CollectionStore.ToggleBook | src/store/slices/collectionSlice.ts:69-77 | the map becomes `Toggled` of the old one, and is saved |
| CollectionSlice.CollectionStore.ClearCollection | src/store/slices/collectionSlice.ts:78-81 | the map is empty, and is saved |
| Storage.Slot.SetItem | src/store/slices/collectionSlice.ts:43 | throws exactly when the slot refuses; otherwise the value is stored |
| ToastSlice.ToastStore.constructor | src/store/slices/toastSlice.ts:17-21 | no message, kind `info`, hidden |
| ToastSlice.ToastStore.ShowToast | src/store/slices/toastSlice.ts:27-31 | the new message, its kind or `info`, shown |
| ToastSlice.ToastStore.HideToast | src/store/slices/toastSlice.ts:32-34 | hidden with message and kind kept; hiding a hidden toast changes nothing |
| ToastSlice.ToastStore.ClearToast | src/store/slices/toastSlice.ts:35-38 | no message, hidden, kind kept |
| ThemeSlice.ModeName | src/store/slices/themeSlice.ts:4 | "light" and "dark" name exactly their modes |
| ThemeSlice.GetInitialTheme | src/store/slices/themeSlice.ts:8-22 | dark without a window; a stored mode name wins; otherwise light exactly when the system prefers light |
| ThemeSlice.SavedModeIsRestored | src/store/slices/themeSlice.ts:13-16 | a stored mode is chosen again at start-up, whatever the system prefers |
| ThemeSlice.Toggled | src/store/slices/themeSlice.ts:43 | the other mode |
| ThemeSlice.ToggleTwiceRestores | src/store/slices/themeSlice.ts:43 | toggling twice restores the mode |
| ThemeSlice.ThemeStore.constructor | src/store/slices/themeSlice.ts:28-30 | the mode is the initial theme of the slot's content |
| ThemeSlice.ThemeStore.SetTheme | src/store/slices/themeSlice.ts:36-41 | the mode becomes the requested one and its name is stored; a refused write aborts and leaves the mode |
| ThemeSlice.ThemeStore.ToggleTheme | src/store/slices/themeSlice.ts:42-47 | the mode flips and the new name is stored; a refused write aborts and leaves the mode |
| BookList.SortOrderOrDefault | src/components/Booklist/BookList.tsx:21 | `desc` when no order is given |
| BookList.ParseYear | src/components/Booklist/BookList.tsx:13-19 | nothing for an absent or empty year, else what `parseInt` reads |
| BookList.DerivedYearParses | src/components/Booklist/BookList.tsx:13-19 | every year the list normaliser derives parses back; a publish year parses to itself |
| BookList.Compare | src/components/Booklist/BookList.tsx:32-47 | zero for two undated books, undated after dated, otherwise the sign of the year difference in the requested direction |
| BookList.CompareAntisymmetric | src/components/Booklist/BookList.tsx:32-47 | swapping the books negates the comparison |
| BookList.BeforeTransitive | src/components/Booklist/BookList.tsx:32-47 | the comparator's order is transitive, so it is a consistent sort order |
| BookList.SortedMeaning | src/components/Booklist/BookList.tsx:30-49 | in a sorted list dated books precede undated ones, and years ascend for `asc` and descend for `desc` |
| BookList.Sink | src/components/Booklist/BookList.tsx:32-47 | one insertion pass leaves positions up to `i` sorted and the array a permutation of what it was |
| BookList.SortedBooks | src/components/Booklist/BookList.tsx:30-49 | the result is a permutation of the books, sorted by the comparator |
| BookList.SortedBooksMeaning | src/components/Booklist/BookList.tsx:30-49 | the same facts for every pair of positions of a sorted list |

## Left out

- HTTP requests (`axios`), `createAsyncThunk` dispatching and Immer drafts are not modelled. A fetch is given as its response or its pending, fulfilled and rejected actions.
- `JSON.parse` and `JSON.stringify` are not modelled. A stored collection is given as the map it denotes, or as one of the failure cases. A stored object with a `null` item makes the real loader throw and return `{}`; the model takes every stored item to be an object.
- Reading the theme key can throw in the source, which would abort start-up. This is not modelled: the stored value is given as present or absent.
- `window.matchMedia` becomes the `prefersLight` parameter. Whether `window` exists becomes the `hasWindow` constant.
- Numbers are unbounded integers, and ratings are passed through as reals. JavaScript floating point, non-integral years or cover ids, and the exponent form `toString` uses from 10^21 on are not modelled.
- BookList.SortedBooks: its contract promises a sorted permutation. It does not state stability: `Array.prototype.sort` is stable, and this insertion sort swaps only on `Compare > 0`, so it is stable too, but that is not proved.
- The views are not modelled: rendering, the toast timer, the views' guards against duplicate fetches, and the detail page's conversion of a detail into a list item, which reads the current date.
- BooksSlice.RunErrorIffFailed: the pairing is proved only for action sequences where every completion comes straight after a pending. Overlapping fetches break it, as `OverlappingFetchesKeepStaleError` shows.
- CollectionSlice.Toggled: the collection is a plain object, so `state.items[id]` also sees inherited properties, and assigning to `__proto__` on the Immer draft throws. For an id such as `constructor`, `toString`, `valueOf` or `hasOwnProperty`, `toggleBook` takes the delete branch and never stores the item; `addBook` with `__proto__` adds no key and throws out of the reducer. The model treats every id as an ordinary key. Open Library work ids never take these values.
- BookDetailSlice.Reduce: the three detail maps are plain objects keyed by the id taken from the `/book/:bookId` route, which a user can set to `__proto__`. Writing a status or an error under that key goes to the inherited `__proto__` setter. That setter ignores a string, but the `null` error that `pending` writes reaches the draft's `setPrototypeOf` trap and throws, so the fetch is rejected before any request is made. Either way no key is written. (The detail page's guard never dispatches for this id anyway, because the inherited `entities['__proto__']` is truthy.) The model writes the key `"__proto__"` like any other, and `RunWellFormed`, `RunIsPerId` and `NeverFetchedIsAbsent` describe that state.
- BookDetailSlice.MapDetail: the work record is taken to carry `key` and `title`. In the source a record without `key` makes `detail.key.replace` throw inside the thunk, so the fetch ends `rejected` with that TypeError's message and no detail is made. A record without `title` is stored with an undefined title. Neither input is representable in the model.
