/** The detail page's data: normalising one Open Library work record into a
    `BookDetail`, and the fetch state kept per book id in three maps. */
module BookDetailSlice {
  import opened Options
  import opened Strings
  import opened BookTypes

  const DetailPlaceholderImage: string := "https://via.placeholder.com/640x960.png?text=No+Cover"

  /** The error stored when a rejected fetch carries no message (Thai for
      "an error occurred while fetching the details"). */
  const DefaultDetailError: string :=
    "\U{0E40}\U{0E01}\U{0E34}\U{0E14}\U{0E02}\U{0E49}\U{0E2D}\U{0E1C}\U{0E34}\U{0E14}\U{0E1E}\U{0E25}\U{0E32}\U{0E14}\U{0E43}\U{0E19}\U{0E01}\U{0E32}\U{0E23}\U{0E14}\U{0E36}\U{0E07}\U{0E23}\U{0E32}\U{0E22}\U{0E25}\U{0E30}\U{0E40}\U{0E2D}\U{0E35}\U{0E22}\U{0E14}"

  // ---------------------------------------------------------------------------
  // Normalising one work record

  /** The description as plain text: none when absent or an empty string, the
      string itself otherwise, and the `value` of the object form (which may
      itself be absent or empty). */
  function GetDescriptionText(description: Option<Description>): (text: Option<string>)
    ensures description.None? ==> text.None?
    ensures description.Some? && description.value.Plain? ==>
      (text.None? <==> description.value.text == "") && (text.Some? ==> text.value == description.value.text)
    ensures description.Some? && description.value.Structured? ==> text == description.value.value
  {
    match description
    case None => None
    case Some(Plain(s)) => if s == "" then None else Some(s)
    case Some(Structured(value)) => value
  }

  /** Both forms of a non-empty description normalise to the same text. */
  lemma DescriptionFormsAgree(s: string)
    requires s != ""
    ensures GetDescriptionText(Some(Plain(s))) == GetDescriptionText(Some(Structured(Some(s)))) == Some(s)
  {
  }

  /** The detail image: the first cover when there is one and it is not zero,
      else the detail placeholder. */
  function DetailImageUrl(covers: Option<seq<int>>): (url: string)
    ensures url == DetailPlaceholderImage <==> covers.None? || covers.value == [] || covers.value[0] == 0
    ensures covers.Some? && covers.value != [] && covers.value[0] != 0 ==> url == CoverUrl(covers.value[0])
  {
    if covers.Some? && covers.value != [] && covers.value[0] != 0 then CoverUrl(covers.value[0])
    else DetailPlaceholderImage
  }

  /** One work record as a `BookDetail`. */
  function MapDetail(detail: WorkDetail): (book: BookDetail)
    ensures book.id == StripWorksPrefix(detail.key)
    ensures book.title == detail.title
    ensures book.description == GetDescriptionText(detail.description)
    ensures book.imageUrl == DetailImageUrl(detail.covers)
    ensures book.subjects == detail.subjects.GetOr([])
    ensures book.firstPublishYear == detail.firstPublishYear
  {
    BookDetail(
      StripWorksPrefix(detail.key),
      detail.title,
      DetailImageUrl(detail.covers),
      GetDescriptionText(detail.description),
      detail.subjects.GetOr([]),
      detail.firstPublishYear)
  }

  /** A record fetched for `/works/<id>.json` whose key is `/works/<id>` is
      stored under `id`, the id it was requested with. */
  lemma MapDetailKeepsRequestedId(detail: WorkDetail, id: string)
    requires detail.key == WorksPrefix + id
    ensures MapDetail(detail).id == id
  {
    StripWorksPrefixUndoesPrefix(id);
  }

  // ---------------------------------------------------------------------------
  // The per-id fetch state

  datatype DetailState = DetailState(
    entities: map<string, BookDetail>,
    statusById: map<string, FetchStatus>,
    errorById: map<string, Option<string>>)

  const InitialDetailState: DetailState := DetailState(map[], map[], map[])

  /** The three lifecycle actions of one `fetchBookDetail(bookId)` call. */
  datatype DetailEvent =
    | Pending(bookId: string)
    | Fulfilled(payload: BookDetail)
    | Rejected(bookId: string, message: Option<string>)

  /** The one id an action writes under: the requested id for `pending` and
      `rejected`, the normalised id of the response for `fulfilled`. */
  function EventId(e: DetailEvent): string {
    match e
    case Pending(id) => id
    case Fulfilled(payload) => payload.id
    case Rejected(id, _) => id
  }

  /** The reducer, as a function of the state and the action: it writes the
      status and the error of the action's id, and a fulfilled action also
      its entity. */
  function Reduce(s: DetailState, e: DetailEvent): (next: DetailState)
    ensures next.statusById == s.statusById[EventId(e) := if e.Pending? then Loading else if e.Fulfilled? then Succeeded else Failed]
    ensures next.errorById == s.errorById[EventId(e) := if e.Rejected? then Some(e.message.GetOr(DefaultDetailError)) else None]
    ensures next.entities == if e.Fulfilled? then s.entities[EventId(e) := e.payload] else s.entities
  {
    match e
    case Pending(id) =>
      s.(statusById := s.statusById[id := Loading], errorById := s.errorById[id := None])
    case Fulfilled(payload) =>
      DetailState(s.entities[payload.id := payload],
                  s.statusById[payload.id := Succeeded],
                  s.errorById[payload.id := None])
    case Rejected(id, message) =>
      s.(statusById := s.statusById[id := Failed],
         errorById := s.errorById[id := Some(message.GetOr(DefaultDetailError))])
  }

  /** The state after the actions `events`, in order, starting from `s`. */
  function Run(s: DetailState, events: seq<DetailEvent>): (r: DetailState)
    decreases |events|
    ensures s.statusById.Keys <= r.statusById.Keys
    ensures forall id :: id in r.statusById && id !in s.statusById ==> exists e :: e in events && EventId(e) == id
  {
    if events == [] then s else Reduce(Run(s, events[..|events| - 1]), events[|events| - 1])
  }

  function Lookup<V>(m: map<string, V>, id: string): Option<V> {
    if id in m then Some(m[id]) else None
  }

  /** Everything the state holds for one id. */
  datatype IdView = IdView(entity: Option<BookDetail>, status: Option<FetchStatus>, error: Option<Option<string>>)

  function ViewOf(s: DetailState, id: string): IdView {
    IdView(Lookup(s.entities, id), Lookup(s.statusById, id), Lookup(s.errorById, id))
  }

  /** An action leaves every other id's entries alone, and what it does to its
      own id depends only on that id's entries. */
  lemma ReduceIsLocal(s: DetailState, t: DetailState, e: DetailEvent, id: string)
    ensures id != EventId(e) ==> ViewOf(Reduce(s, e), id) == ViewOf(s, id)
    ensures ViewOf(s, id) == ViewOf(t, id) ==> ViewOf(Reduce(s, e), id) == ViewOf(Reduce(t, e), id)
  {
  }

  /** The actions that concern `id`, in order. */
  function EventsFor(events: seq<DetailEvent>, id: string): (mine: seq<DetailEvent>)
    decreases |events|
    ensures |mine| <= |events|
    ensures forall e {:trigger e in mine} :: e in mine <==> e in events && EventId(e) == id
    ensures (forall e :: e in events ==> EventId(e) != id) ==> mine == []
  {
    if events == [] then []
    else
      var last := events[|events| - 1];
      EventsFor(events[..|events| - 1], id) + (if EventId(last) == id then [last] else [])
  }

  /** Selecting one id's actions distributes over concatenation, so they keep
      their relative order. */
  lemma {:induction false} EventsForAppend(events: seq<DetailEvent>, later: seq<DetailEvent>, id: string)
    decreases |later|
    ensures EventsFor(events + later, id) == EventsFor(events, id) + EventsFor(later, id)
  {
    if later == [] {
      assert events + later == events;
    } else {
      var init, last := later[..|later| - 1], later[|later| - 1];
      var tail := if EventId(last) == id then [last] else [];
      assert (events + later)[..|events + later| - 1] == events + init;
      assert (events + later)[|events + later| - 1] == last;
      EventsForAppend(events, init, id);
      assert EventsFor(events + later, id) == EventsFor(events, id) + EventsFor(init, id) + tail;
    }
  }

  /** Ids fetch independently: what the state holds for `id` after any sequence
      of actions is what it would hold after that id's actions alone. */
  lemma {:induction false} RunIsPerId(s: DetailState, t: DetailState, events: seq<DetailEvent>, id: string)
    requires ViewOf(s, id) == ViewOf(t, id)
    decreases |events|
    ensures ViewOf(Run(s, events), id) == ViewOf(Run(t, EventsFor(events, id)), id)
  {
    if events != [] {
      var prefix, last := events[..|events| - 1], events[|events| - 1];
      RunIsPerId(s, t, prefix, id);
      var mine := EventsFor(prefix, id);
      ReduceIsLocal(Run(s, prefix), Run(t, mine), last, id);
      if EventId(last) == id {
        assert EventsFor(events, id) == mine + [last];
        assert (mine + [last])[..|mine|] == mine;
      } else {
        assert EventsFor(events, id) == mine;
      }
    }
  }

  /** An id no action has concerned has no entry in any of the three maps. */
  lemma NeverFetchedIsAbsent(events: seq<DetailEvent>, id: string)
    requires forall e :: e in events ==> EventId(e) != id
    ensures ViewOf(Run(InitialDetailState, events), id) == IdView(None, None, None)
  {
    RunIsPerId(InitialDetailState, InitialDetailState, events, id);
  }

  /** The invariant of the three maps: status and error are written together;
      an entity is stored under its own id and only for an id that has a
      status; a status is never `idle`; an error is present exactly when the
      status is `failed`; `succeeded` always has its entity. */
  predicate WellFormed(s: DetailState) {
    && s.statusById.Keys == s.errorById.Keys
    && s.entities.Keys <= s.statusById.Keys
    && (forall id :: id in s.entities ==> s.entities[id].id == id)
    && (forall id :: id in s.statusById ==>
          && s.statusById[id] != Idle
          && (s.statusById[id] == Failed <==> s.errorById[id].Some?)
          && (s.statusById[id] == Succeeded ==> id in s.entities))
  }

  lemma ReducePreservesWellFormed(s: DetailState, e: DetailEvent)
    requires WellFormed(s)
    ensures WellFormed(Reduce(s, e))
  {
  }

  /** Every state reachable from the initial one is well formed. */
  lemma {:induction false} RunWellFormed(events: seq<DetailEvent>)
    decreases |events|
    ensures WellFormed(Run(InitialDetailState, events))
  {
    if events != [] {
      RunWellFormed(events[..|events| - 1]);
      ReducePreservesWellFormed(Run(InitialDetailState, events[..|events| - 1]), events[|events| - 1]);
    }
  }

  /** A response whose normalised id differs from the requested one is stored
      under its own id; the requested id stays `loading`. */
  lemma MismatchedResponseLeavesRequestLoading(s: DetailState, bookId: string, payload: BookDetail)
    requires payload.id != bookId
    ensures Reduce(Reduce(s, Pending(bookId)), Fulfilled(payload)).statusById[bookId] == Loading
  {
  }

  /** The detail slice's state, updated in place by the three case reducers. */
  class BookDetailStore {
    var entities: map<string, BookDetail>
    var statusById: map<string, FetchStatus>
    var errorById: map<string, Option<string>>

    function State(): DetailState
      reads this
    {
      DetailState(entities, statusById, errorById)
    }

    ghost predicate Valid()
      reads this
    {
      WellFormed(State())
    }

    constructor ()
      ensures Valid() && State() == InitialDetailState
    {
      entities, statusById, errorById := map[], map[], map[];
    }

    /** `fetchBookDetail.pending(bookId)`: that id is loading, its error
        cleared; the entities and every other id are unchanged. */
    method FetchPending(bookId: string)
      requires Valid()
      modifies this
      ensures Valid()
      ensures statusById == old(statusById)[bookId := Loading]
      ensures errorById == old(errorById)[bookId := None]
      ensures entities == old(entities)
      ensures State() == Reduce(old(State()), Pending(bookId))
    {
      statusById := statusById[bookId := Loading];
      errorById := errorById[bookId := None];
      ReducePreservesWellFormed(old(State()), Pending(bookId));
    }

    /** `fetchBookDetail.fulfilled`: entity, `succeeded` and no error, all under
        the id of the payload. */
    method FetchFulfilled(payload: BookDetail)
      requires Valid()
      modifies this
      ensures Valid()
      ensures entities == old(entities)[payload.id := payload]
      ensures statusById == old(statusById)[payload.id := Succeeded]
      ensures errorById == old(errorById)[payload.id := None]
      ensures State() == Reduce(old(State()), Fulfilled(payload))
    {
      var bookId := payload.id;
      entities := entities[bookId := payload];
      statusById := statusById[bookId := Succeeded];
      errorById := errorById[bookId := None];
      ReducePreservesWellFormed(old(State()), Fulfilled(payload));
    }

    /** `fetchBookDetail.rejected(bookId)`: that id has failed with the message
        or the default; the entities are unchanged. */
    method FetchRejected(bookId: string, message: Option<string>)
      requires Valid()
      modifies this
      ensures Valid()
      ensures statusById == old(statusById)[bookId := Failed]
      ensures errorById == old(errorById)[bookId := Some(message.GetOr(DefaultDetailError))]
      ensures entities == old(entities)
      ensures State() == Reduce(old(State()), Rejected(bookId, message))
    {
      statusById := statusById[bookId := Failed];
      errorById := errorById[bookId := Some(message.GetOr(DefaultDetailError))];
      ReducePreservesWellFormed(old(State()), Rejected(bookId, message));
    }
  }
}
