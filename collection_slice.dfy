/** The user's collection: a map from book id to the saved `BookListItem`,
    loaded once from local storage with a year backfill, and written back
    whole after every change. */
module CollectionSlice {
  import opened Options
  import opened Strings
  import opened BookTypes
  import opened Storage
  import BooksSlice

  type Items = map<string, BookListItem>

  /** What reading the storage key can give at start-up. `JSON.parse` itself
      is not modelled: a text that parses to an object is given as the map it
      denotes. */
  datatype StoredCollection =
    | ReadFailed         // `getItem` threw
    | NotStored          // `getItem` returned null
    | EmptyText          // the stored text is ""
    | Unparsable         // `JSON.parse` threw
    | ParsedFalsy        // the text parsed to null (or another falsy value)
    | Parsed(items: Items)

  // ---------------------------------------------------------------------------
  // Loading

  /** A saved item as loading returns it: every field kept, and a missing year
      filled from the first four-digit run of a non-empty `loggedAt`. */
  function BackfillYear(item: BookListItem): (loaded: BookListItem)
    ensures loaded.(year := item.year) == item
    ensures item.year.Some? ==> loaded.year == item.year
    ensures item.year.None? ==> loaded.year == FirstFourDigitRun(item.loggedAt.GetOr(""))
  {
    if item.year.Some? then item
    else if item.loggedAt.Some? && item.loggedAt.value != "" then item.(year := FirstFourDigitRun(item.loggedAt.value))
    else item.(year := None)
  }

  /** The initial collection. It never fails: without a window, or when the
      key cannot be read, is missing, empty, unparsable or null, it is empty;
      otherwise every stored id is kept with its item backfilled. */
  function LoadFromStorage(hasWindow: bool, stored: StoredCollection): (items: Items)
    ensures !hasWindow || !stored.Parsed? ==> items == map[]
    ensures hasWindow && stored.Parsed? ==>
      && items.Keys == stored.items.Keys
      && forall id :: id in items ==> items[id] == BackfillYear(stored.items[id])
  {
    if !hasWindow then map[]
    else
      match stored
      case Parsed(saved) => map id | id in saved :: BackfillYear(saved[id])
      case _ => map[]
  }

  /** An item whose year loading would not change: it has one, or its log
      date holds no four-digit run. */
  predicate YearSettled(item: BookListItem) {
    item.year.Some? || FirstFourDigitRun(item.loggedAt.GetOr("")).None?
  }

  lemma BackfillSettles(item: BookListItem)
    ensures YearSettled(BackfillYear(item))
    ensures YearSettled(item) ==> BackfillYear(item) == item
  {
  }

  /** Saving and loading again gives back the same map when every item's year
      is settled. */
  lemma {:induction false} LoadOfSettledIsIdentity(saved: Items)
    requires forall id :: id in saved ==> YearSettled(saved[id])
    ensures LoadFromStorage(true, Parsed(saved)) == saved
  {
    var loaded := LoadFromStorage(true, Parsed(saved));
    forall id | id in saved ensures loaded[id] == saved[id] {
      BackfillSettles(saved[id]);
    }
  }

  /** Loading what was loaded changes nothing more. */
  lemma LoadIsIdempotent(saved: Items)
    ensures LoadFromStorage(true, Parsed(LoadFromStorage(true, Parsed(saved)))) == LoadFromStorage(true, Parsed(saved))
  {
    var loaded := LoadFromStorage(true, Parsed(saved));
    forall id | id in loaded ensures YearSettled(loaded[id]) {
      BackfillSettles(saved[id]);
    }
    LoadOfSettledIsIdentity(loaded);
  }

  /** Books normalised from the reading list already have a settled year, so
      they survive a save and a reload unchanged. */
  lemma ListedBookIsSettled(entry: Entry)
    requires BooksSlice.MapEntryToBook(entry).Some?
    ensures YearSettled(BooksSlice.MapEntryToBook(entry).value)
  {
    var book := BooksSlice.MapEntryToBook(entry).value;
    assert book.loggedAt.GetOr("") == BooksSlice.LoggedText(entry);
  }

  /** A legacy item saved without a year and logged "Logged 2018-05-01"
      loads with year "2018". */
  lemma LegacyEntryGetsYear(item: BookListItem)
    requires item.year.None? && item.loggedAt == Some("Logged 2018-05-01")
    ensures BackfillYear(item).year == Some("2018")
  {
    var logged := "Logged 2018-05-01";
    assert !IsDigit(logged[6]);
    assert FourDigitsAt(logged, 7);
    assert FindFourDigits(logged, 7) == Some(7);
    assert FindFourDigits(logged, 0) == Some(7);
    assert logged[7..11] == "2018";
  }

  // ---------------------------------------------------------------------------
  // Toggling

  /** The map after toggling `item`: its id flips between present and absent;
      when it becomes present it holds `item`; every other id is unchanged. */
  function Toggled(items: Items, item: BookListItem): (toggled: Items)
    ensures item.id in toggled <==> item.id !in items
    ensures item.id in toggled ==> toggled[item.id] == item
    ensures forall id :: id != item.id ==> (id in toggled <==> id in items)
    ensures forall id :: id != item.id && id in items ==> toggled[id] == items[id]
  {
    if item.id in items then items - {item.id} else items[item.id := item]
  }

  /** Toggling the same item twice restores the map, when the id was absent or
      already held that very item. */
  lemma {:induction false} ToggleTwiceRestores(items: Items, item: BookListItem)
    requires item.id !in items || items[item.id] == item
    ensures Toggled(Toggled(items, item), item) == items
  {
    var twice := Toggled(Toggled(items, item), item);
    assert twice.Keys == items.Keys;
    forall id | id in items ensures twice[id] == items[id] {
    }
  }

  /** When the id held a different item, toggling twice replaces it. */
  lemma ToggleTwiceReplacesOtherItem(items: Items, item: BookListItem)
    requires item.id in items && items[item.id] != item
    ensures Toggled(Toggled(items, item), item) == items[item.id := item]
    ensures Toggled(Toggled(items, item), item) != items
  {
    var twice := Toggled(Toggled(items, item), item);
    assert twice[item.id] == item;
    assert twice.Keys == items.Keys;
    forall id | id in items ensures twice[id] == items[item.id := item][id] {
    }
  }

  // ---------------------------------------------------------------------------
  // The store

  /** The collection slice's state, updated in place by its four reducers,
      each of which then writes the whole map to the storage slot. A failed
      write is ignored. */
  class CollectionStore {
    var items: Items
    /** Whether `window` exists; without it nothing is read or written. */
    const hasWindow: bool
    const slot: Slot<Items>

    /** Start-up: `stored` is what reading the key gave, an input of its own.
        The model does not tie it to `slot.content`, since the slot holds a
        map and the key holds text that `JSON.parse` reads; what a save and a
        reload do together is stated by `LoadOfSettledIsIdentity`. */
    constructor (hasWindow: bool, slot: Slot<Items>, stored: StoredCollection)
      ensures this.hasWindow == hasWindow && this.slot == slot
      ensures items == LoadFromStorage(hasWindow, stored)
    {
      this.hasWindow := hasWindow;
      this.slot := slot;
      items := LoadFromStorage(hasWindow, stored);
    }

    /** `saveToStorage`: writes `snapshot` when there is a window; a throwing
        write is swallowed. */
    method SaveToStorage(snapshot: Items)
      modifies slot`content
      ensures slot.content == if hasWindow && slot.accepts then Some(snapshot) else old(slot.content)
    {
      if hasWindow {
        var _ := slot.SetItem(snapshot);
      }
    }

    /** `addBook`: inserts or overwrites under the item's id. */
    method AddBook(item: BookListItem)
      modifies this`items, slot`content
      ensures items == old(items)[item.id := item]
      ensures forall id :: id != item.id ==> (id in items <==> id in old(items))
      ensures slot.content == if hasWindow && slot.accepts then Some(items) else old(slot.content)
    {
      items := items[item.id := item];
      SaveToStorage(items);
    }

    /** `removeBook`: deletes that id only; nothing happens to the map when it
        is absent. */
    method RemoveBook(id: string)
      modifies this`items, slot`content
      ensures items == old(items) - {id}
      ensures id !in old(items) ==> items == old(items)
      ensures slot.content == if hasWindow && slot.accepts then Some(items) else old(slot.content)
    {
      items := items - {id};
      SaveToStorage(items);
    }

    /** `toggleBook`: removes the item's id when present, inserts the item
        otherwise. */
    method ToggleBook(item: BookListItem)
      modifies this`items, slot`content
      ensures items == Toggled(old(items), item)
      ensures slot.content == if hasWindow && slot.accepts then Some(items) else old(slot.content)
    {
      var id := item.id;
      if id in items {
        items := items - {id};
      } else {
        items := items[id := item];
      }
      SaveToStorage(items);
    }

    /** `clearCollection`: the map becomes empty. */
    method ClearCollection()
      modifies this`items, slot`content
      ensures items == map[]
      ensures slot.content == if hasWindow && slot.accepts then Some(items) else old(slot.content)
    {
      items := map[];
      SaveToStorage(items);
    }
  }
}
