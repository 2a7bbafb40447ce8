/** Calendar events (src/api/eventsService.js): the normalised event shape
    shared by stored and generated events, the snapshot order by date and
    the update payload. */
module EventsService {
  import opened Wrappers
  import opened Strings
  import opened Seqs
  import opened Sorting
  import opened Dates
  import opened MembersService

  /** What distinguishes a generated event from a stored one: the
      `isRecurring`/`recurringType` fields of a weekly event, or the
      `isBirthday`/`memberName`/`turningAge` fields of a birthday. */
  datatype EventKind =
    | Stored
    | Recurring(recurringType: string)
    | Birthday(memberName: string, turningAge: int)

  /** An event. `None` stands for `null`; `eventType` is the `type` field. */
  datatype Event = Event(
    id: Id,
    firestoreId: Option<string>,
    title: string,
    eventType: string,
    date: string,
    time: string,
    location: string,
    description: string,
    attendees: int,
    icon: string,
    overrideOf: Option<string>,
    isOverride: bool,
    isCancelled: bool,
    memberId: Option<Id>,
    kind: EventKind)
  {
    /** `isVirtual`: generated rather than stored. */
    predicate IsVirtual() {
      !kind.Stored?
    }
  }

  /** An event document as stored. */
  datatype RawEvent = RawEvent(
    id: Presence<Id>,
    title: Presence<string>,
    eventType: Presence<string>,
    date: Presence<string>,
    time: Presence<string>,
    location: Presence<string>,
    description: Presence<string>,
    attendees: Presence<int>,
    icon: Presence<string>,
    overrideOf: Presence<string>,
    isOverride: Presence<bool>,
    isCancelled: Presence<bool>,
    memberId: Presence<Id>)

  /** `flag || false`. */
  function BoolOrFalse(flag: Presence<bool>): (b: bool)
    ensures b <==> flag == Present(true)
  {
    flag.Present? && flag.value
  }

  /** `normalizeEvent(data, docId)`. */
  function NormalizeEvent(data: RawEvent, docId: string): (e: Event)
    ensures data.id.Present? && IdTruthy(data.id.value) ==> e.id == data.id.value
    ensures !(data.id.Present? && IdTruthy(data.id.value)) ==> e.id == Str(docId)
    ensures e.firestoreId == Some(docId) && e.kind == Stored
    ensures e.title == StringOr(data.title, "") && e.eventType == StringOr(data.eventType, "worship")
    ensures e.date == StringOr(data.date, "") && e.time == StringOr(data.time, "09:00")
    ensures e.location == StringOr(data.location, "") && e.description == StringOr(data.description, "")
    ensures e.icon == StringOr(data.icon, "Calendar")
    ensures e.attendees == (if data.attendees.Present? then data.attendees.value else 0)
    ensures e.overrideOf == StringOrNull(data.overrideOf)
    ensures e.isOverride <==> data.isOverride == Present(true)
    ensures e.isCancelled <==> data.isCancelled == Present(true)
    ensures e.memberId.Some? <==> data.memberId.Present? && IdTruthy(data.memberId.value)
    ensures e.memberId.Some? ==> e.memberId.value == data.memberId.value
  {
    Event(
      if data.id.Present? && IdTruthy(data.id.value) then data.id.value else Str(docId),
      Some(docId),
      StringOr(data.title, ""),
      StringOr(data.eventType, "worship"),
      StringOr(data.date, ""),
      StringOr(data.time, "09:00"),
      StringOr(data.location, ""),
      StringOr(data.description, ""),
      if data.attendees.Present? then data.attendees.value else 0,
      StringOr(data.icon, "Calendar"),
      StringOrNull(data.overrideOf),
      BoolOrFalse(data.isOverride),
      BoolOrFalse(data.isCancelled),
      if data.memberId.Present? && IdTruthy(data.memberId.value) then Some(data.memberId.value) else None,
      Stored)
  }

  /** A document with none of the override fields set is not an override. */
  lemma PlainDocumentIsNoOverride(data: RawEvent, docId: string)
    requires !data.overrideOf.Present? && !data.isOverride.Present? && !data.isCancelled.Present?
    ensures NormalizeEvent(data, docId).overrideOf == None
    ensures !NormalizeEvent(data, docId).isOverride && !NormalizeEvent(data, docId).isCancelled
  {
  }

  /** `events.some(e => e.overrideOf === id)`: a stored event replaces the
      generated occurrence `id`. */
  predicate Overridden(stored: seq<Event>, id: string) {
    exists k :: 0 <= k < |stored| && stored[k].overrideOf == Some(id)
  }

  datatype EventDoc = EventDoc(docId: string, data: RawEvent)

  function NormalizeEventDocs(docs: seq<EventDoc>): (es: seq<Event>)
    ensures |es| == |docs|
    ensures forall k :: 0 <= k < |docs| ==> es[k] == NormalizeEvent(docs[k].data, docs[k].docId)
  {
    if docs == [] then [] else [NormalizeEvent(docs[0].data, docs[0].docId)] + NormalizeEventDocs(docs[1..])
  }

  function EventDateValue(e: Event): Option<int> {
    DateValue(e.date)
  }

  /** `new Date(a.date) - new Date(b.date)`. */
  function DateOrder(a: Event, b: Event): int {
    NumericOrder(DateValue(a.date), DateValue(b.date))
  }

  /** `events.sort((a, b) => new Date(a.date) - new Date(b.date))`: a
      permutation, ascending by date whenever every date parses. */
  function SortByDate(events: seq<Event>): (r: seq<Event>)
    ensures multiset(r) == multiset(events)
    ensures AllKeyed(events, EventDateValue) ==>
      AllKeyed(r, EventDateValue) && KeyAscending(r, EventDateValue)
  {
    if AllKeyed(events, EventDateValue) then
      SortByKey(events, DateOrder, EventDateValue);
      SortWith(events, DateOrder)
    else SortWith(events, DateOrder)
  }

  /** The list a snapshot delivers: normalised events sorted by date. */
  function ProcessEventSnapshot(docs: seq<EventDoc>): (es: seq<Event>)
    ensures multiset(es) == multiset(NormalizeEventDocs(docs))
    ensures AllKeyed(NormalizeEventDocs(docs), EventDateValue) ==>
      AllKeyed(es, EventDateValue) && KeyAscending(es, EventDateValue)
  {
    SortByDate(NormalizeEventDocs(docs))
  }

  /** Whether `new Date(e.date)` falls in `year` and the zero-based `month`. */
  predicate InMonth(e: Event, year: int, month: int) {
    var d := ParseIsoDate(e.date);
    d.Some? && d.value.year == year && d.value.month - 1 == month
  }

  /** The month view of a generated list: `events.filter` on `InMonth`. */
  function EventsInMonth(events: seq<Event>, year: int, month: int): (r: seq<Event>)
    ensures forall k :: 0 <= k < |r| ==> r[k] in events && InMonth(r[k], year, month)
    ensures forall k :: 0 <= k < |events| && InMonth(events[k], year, month) ==> events[k] in r
  {
    Filter(events, (e: Event) => InMonth(e, year, month))
  }

  /** An event whose date string is `FormatDate(d)` belongs to the month of `d`. */
  lemma FormattedDateInMonth(e: Event, d: Date, year: int, month: int)
    requires e.date == FormatDate(d) && ValidDate(d) && 1000 <= d.year <= 9999
    ensures InMonth(e, year, month) <==> d.year == year && d.month == month + 1
  {
    ParseFormatDate(d);
  }

  /** `eventDate >= today && eventDate <= endDate` with `endDate` `days`
      days after `today`; an unparseable date compares false. */
  predicate InWindow(e: Event, today: Date, days: int)
    requires ValidDate(today)
  {
    var v := DateValue(e.date);
    v.Some? && DayNumber(today) <= v.value <= DayNumber(AddDays(today, days))
  }

  function WithinWindow(today: Date, days: int): Event -> bool
    requires ValidDate(today)
  {
    (e: Event) => InWindow(e, today, days)
  }

  /** The window is the inclusive day range from `today` to `today + days`. */
  lemma InWindowRange(e: Event, today: Date, days: int)
    requires ValidDate(today)
    ensures InWindow(e, today, days) <==>
      ParseIsoDate(e.date).Some? && DayNumber(today) <= DayNumber(ParseIsoDate(e.date).value) <= DayNumber(today) + days
  {
    AddDaysNumber(today, days);
  }

  datatype EventSnapshotEvent = EventSnapshot(docs: seq<EventDoc>) | EventSubscriptionError

  function DeliveredEvents(event: EventSnapshotEvent): (es: seq<Event>)
    ensures event.EventSubscriptionError? ==> es == []
    ensures event.EventSnapshot? ==> multiset(es) == multiset(NormalizeEventDocs(event.docs))
  {
    match event
    case EventSnapshot(docs) => ProcessEventSnapshot(docs)
    case EventSubscriptionError => []
  }

  /** The object `updateEvent` sends: every property but `firestoreId`, in
      order; unlike the member update, `undefined` values are kept. */
  function EventUpdatePayload<V>(data: seq<Entry<V>>): (payload: seq<Entry<V>>)
    ensures forall k :: 0 <= k < |payload| ==> payload[k].key != "firestoreId"
    ensures forall k :: 0 <= k < |data| && data[k].key != "firestoreId" ==> data[k] in payload
    ensures forall k :: 0 <= k < |payload| ==> payload[k] in data
    ensures |payload| <= |data|
  {
    if data == [] then []
    else if data[0].key == "firestoreId" then EventUpdatePayload(data[1..])
    else [data[0]] + EventUpdatePayload(data[1..])
  }
}
