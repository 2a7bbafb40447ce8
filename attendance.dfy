/** The attendance overview (src/composables/useAttendance.js): attendance
    records, meeting minutes and past events merged into one list, newest
    first. The current date is a parameter. */
module Attendance {
  import opened Wrappers
  import opened Strings
  import opened Seqs
  import opened Sorting
  import opened Dates
  import opened MembersService
  import opened EventsService

  /** `isPastOrToday`: a date that is set, parses, and is not after today. */
  predicate IsPastOrToday(dateString: string, today: Date)
    requires ValidDate(today)
  {
    dateString != "" && DateValue(dateString).Some? && DateValue(dateString).value <= DayNumber(today)
  }

  /** An empty date is never past or today; otherwise the test compares
      calendar days. */
  lemma IsPastOrTodayDays(dateString: string, today: Date)
    requires ValidDate(today)
    ensures dateString == "" ==> !IsPastOrToday(dateString, today)
    ensures dateString != "" && ParseIsoDate(dateString).Some? ==>
      (IsPastOrToday(dateString, today) <==> !LexLess(today, ParseIsoDate(dateString).value))
  {
    if dateString != "" && ParseIsoDate(dateString).Some? {
      var d := ParseIsoDate(dateString).value;
      DayNumberOrder(today, d);
      DayNumberOrder(d, today);
      if DayNumber(d) == DayNumber(today) {
        DayNumberInjective(d, today);
      }
    }
  }

  /** A normalised attendance record. */
  datatype AttendanceRecord = AttendanceRecord(
    id: string,
    firestoreId: string,
    eventId: string,
    eventType: string,
    eventTitle: string,
    date: string,
    time: string,
    location: string,
    attendees: seq<string>,
    totalAttendees: int,
    expectedAttendees: int,
    notes: string)

  /** A normalised minutes document, as far as the overview reads it. */
  datatype Minute = Minute(
    id: string,
    firestoreId: string,
    title: string,
    date: string,
    startTime: string,
    location: string,
    attendees: seq<string>)

  /** Where a row of the overview comes from. */
  datatype Source = FromEvent | FromAttendance | FromMinute

  /** One row of the overview; `expectedAttendees` is `None` on minutes
      rows, which do not carry the property. */
  datatype Row = Row(
    id: string,
    firestoreId: Id,
    eventId: Id,
    eventType: string,
    eventTitle: string,
    date: string,
    time: string,
    location: string,
    attendees: seq<string>,
    expectedAttendees: Option<int>,
    totalAttendees: int,
    notes: string,
    source: Source)

  /** `a || b` for strings. */
  function Or(a: string, b: string): string {
    if a != "" then a else b
  }

  /** `event.firestoreId || event.id`. */
  function EventKey(e: Event): Id {
    if e.firestoreId.Some? && e.firestoreId.value != "" then Str(e.firestoreId.value) else e.id
  }

  // Attendance rows.

  /** `events.find(e => (e.firestoreId || e.id) === eventId)`. */
  function FindEvent(events: seq<Event>, eventId: string): (r: Option<Event>)
    ensures r.None? <==> forall k :: 0 <= k < |events| ==> EventKey(events[k]) != Str(eventId)
    ensures r.Some? ==> r.value in events && EventKey(r.value) == Str(eventId)
    ensures r.Some? ==> exists k :: 0 <= k < |events| && events[k] == r.value
                                    && forall j :: 0 <= j < k ==> EventKey(events[j]) != Str(eventId)
  {
    if events == [] then None
    else if EventKey(events[0]) == Str(eventId) then Some(events[0])
    else
      assert forall k :: 1 <= k < |events| ==> events[k] == events[1..][k - 1];
      var r := FindEvent(events[1..], eventId);
      if r.Some? then
        var k :| 0 <= k < |events[1..]| && events[1..][k] == r.value
                 && forall j :: 0 <= j < k ==> EventKey(events[1..][j]) != Str(eventId);
        assert events[k + 1] == r.value;
        assert forall j :: 0 <= j < k + 1 ==> EventKey(events[j]) != Str(eventId) by {
          forall j | 0 <= j < k + 1 ensures EventKey(events[j]) != Str(eventId) {
            if j > 0 {
              assert events[j] == events[1..][j - 1];
            }
          }
        }
        r
      else r
  }

  /** Some event is keyed by `eventId`. */
  predicate Linked(events: seq<Event>, eventId: string) {
    exists k :: 0 <= k < |events| && EventKey(events[k]) == Str(eventId)
  }

  /** The linked event of a record with an event id. */
  function LinkedEvent(events: seq<Event>, record: AttendanceRecord): Option<Event> {
    if record.eventId != "" then FindEvent(events, record.eventId) else None
  }

  /** The row for an attendance record: its fields, with the expected
      count and the source decided by the linked event. */
  function AttendanceRow(events: seq<Event>, record: AttendanceRecord): Row {
    var linked := LinkedEvent(events, record);
    var expected := if linked.Some? then linked.value.attendees else record.expectedAttendees;
    Row(record.id, Str(record.firestoreId), Str(record.eventId), record.eventType, record.eventTitle, record.date,
        record.time, record.location, record.attendees, Some(expected), record.totalAttendees, record.notes,
        if linked.Some? then FromEvent else FromAttendance)
  }

  /** A record's row comes from an event exactly when an event is keyed by
      its event id, and then expects as many attendees as that event;
      otherwise it keeps the record's own expected count. */
  lemma AttendanceRowSource(events: seq<Event>, record: AttendanceRecord)
    ensures AttendanceRow(events, record).source == FromEvent <==> record.eventId != "" && Linked(events, record.eventId)
    ensures AttendanceRow(events, record).source != FromEvent ==>
      AttendanceRow(events, record).source == FromAttendance
      && AttendanceRow(events, record).expectedAttendees == Some(record.expectedAttendees)
    ensures AttendanceRow(events, record).source == FromEvent ==>
      exists e :: e in events && EventKey(e) == Str(record.eventId)
        && AttendanceRow(events, record).expectedAttendees == Some(e.attendees)
    ensures AttendanceRow(events, record).id == record.id && AttendanceRow(events, record).date == record.date
    ensures AttendanceRow(events, record).attendees == record.attendees
    ensures AttendanceRow(events, record).totalAttendees == record.totalAttendees
  {
    var linked := LinkedEvent(events, record);
    if linked.Some? {
      assert linked.value in events && EventKey(linked.value) == Str(record.eventId);
    }
  }

  function AttendanceRowOf(events: seq<Event>): AttendanceRecord -> Option<Row> {
    (record: AttendanceRecord) => Some(AttendanceRow(events, record))
  }

  // Minutes rows.

  /** The row for a minutes document. */
  function MinuteRow(minute: Minute): (row: Row)
    ensures row.source == FromMinute && row.totalAttendees == |minute.attendees|
    ensures row.date == minute.date && row.attendees == minute.attendees
  {
    var key := Or(minute.firestoreId, minute.id);
    Row("minute-" + Or(minute.id, minute.firestoreId), Str(key), Str(key), "meeting", Or(minute.title, "Meeting"),
        minute.date, minute.startTime, minute.location, minute.attendees, None, |minute.attendees|, "", FromMinute)
  }

  /** Minutes are listed only when their date is today or earlier. */
  function MinuteRowOf(today: Date): Minute -> Option<Row>
    requires ValidDate(today)
  {
    (minute: Minute) => if IsPastOrToday(minute.date, today) then Some(MinuteRow(minute)) else None
  }

  // Event rows.

  /** The event ids the attendance records carry: the keys of
      `attendanceByEventId`. */
  function RecordEventIds(attendance: seq<AttendanceRecord>): set<string> {
    set k | 0 <= k < |attendance| && attendance[k].eventId != "" :: attendance[k].eventId
  }

  /** `attendanceByEventId.has(eventId)`: only a string key can match. */
  predicate HasRecord(ids: set<string>, key: Id) {
    key.Str? && key.s in ids
  }

  /** The row for an event without an attendance record. */
  function EventRow(e: Event): (row: Row)
    ensures row.source == FromEvent && row.totalAttendees == 0 && row.attendees == []
    ensures row.eventId == EventKey(e) && row.expectedAttendees == Some(e.attendees) && row.date == e.date
  {
    var key := EventKey(e);
    Row("event-" + IdToString(key), key, key, Or(e.eventType, "event"), Or(e.title, "Event"), e.date, e.time,
        e.location, [], Some(e.attendees), 0, e.description, FromEvent)
  }

  /** An event is listed when it is past or today and no attendance record
      carries its id. */
  predicate EventListed(ids: set<string>, today: Date, e: Event)
    requires ValidDate(today)
  {
    IsPastOrToday(e.date, today) && !HasRecord(ids, EventKey(e))
  }

  function EventRowOf(ids: set<string>, today: Date): Event -> Option<Row>
    requires ValidDate(today)
  {
    (e: Event) => if EventListed(ids, today, e) then Some(EventRow(e)) else None
  }

  // The merged list.

  /** The rows in the order the loops push them. */
  function PushedRows(attendance: seq<AttendanceRecord>, events: seq<Event>, minutes: seq<Minute>, today: Date): seq<Row>
    requires ValidDate(today)
  {
    Collect(attendance, AttendanceRowOf(events)) + Collect(minutes, MinuteRowOf(today))
    + Collect(events, EventRowOf(RecordEventIds(attendance), today))
  }

  /** The date a row sorts by: `new Date(row.date || 0)`. */
  function RowDate(row: Row): Option<int> {
    if row.date == "" then Some(DayNumber(Epoch)) else DateValue(row.date)
  }

  /** `(a, b) => new Date(b.date || 0) - new Date(a.date || 0)`. */
  function NewestFirst(a: Row, b: Row): int {
    NumericOrder(RowDate(b), RowDate(a))
  }

  /** `attendanceByEventId`: the records carrying an event id, keyed by it. */
  method RecordsByEventId(attendance: seq<AttendanceRecord>) returns (byEventId: map<string, AttendanceRecord>)
    ensures byEventId.Keys == RecordEventIds(attendance)
  {
    byEventId := map[];
    for i := 0 to |attendance|
      invariant byEventId.Keys == RecordEventIds(attendance[..i])
    {
      if attendance[i].eventId != "" {
        byEventId := byEventId[attendance[i].eventId := attendance[i]];
      }
      assert attendance[..i + 1][..i] == attendance[..i];
    }
    assert attendance[..|attendance|] == attendance;
  }

  /** The first loop: one row per attendance record. */
  method AttendanceRows(attendance: seq<AttendanceRecord>, events: seq<Event>) returns (rows: seq<Row>)
    ensures rows == Collect(attendance, AttendanceRowOf(events))
  {
    rows := [];
    for i := 0 to |attendance|
      invariant rows == Collect(attendance[..i], AttendanceRowOf(events))
    {
      var record := attendance[i];
      var linkedEvent: Option<Event> := None;
      if record.eventId != "" {
        linkedEvent := FindEvent(events, record.eventId);
      }
      var source := if linkedEvent.Some? then FromEvent else FromAttendance;
      var expected := if linkedEvent.Some? then linkedEvent.value.attendees else record.expectedAttendees;
      var row := Row(record.id, Str(record.firestoreId), Str(record.eventId), record.eventType,
                     record.eventTitle, record.date, record.time, record.location, record.attendees,
                     Some(expected), record.totalAttendees, record.notes, source);
      assert linkedEvent == LinkedEvent(events, record);
      CollectPrefixSnoc(attendance, i, AttendanceRowOf(events));
      rows := rows + [row];
    }
    assert attendance[..|attendance|] == attendance;
  }

  /** The second loop: one row per minutes document dated today or earlier. */
  method MinuteRows(minutes: seq<Minute>, today: Date) returns (rows: seq<Row>)
    requires ValidDate(today)
    ensures rows == Collect(minutes, MinuteRowOf(today))
  {
    rows := [];
    for i := 0 to |minutes|
      invariant rows == Collect(minutes[..i], MinuteRowOf(today))
    {
      var minute := minutes[i];
      CollectPrefixSnoc(minutes, i, MinuteRowOf(today));
      if IsPastOrToday(minute.date, today) {
        rows := rows + [MinuteRow(minute)];
      }
    }
    assert minutes[..|minutes|] == minutes;
  }

  /** The third loop: one row per past event without an attendance record. */
  method EventRows(events: seq<Event>, byEventId: map<string, AttendanceRecord>, today: Date) returns (rows: seq<Row>)
    requires ValidDate(today)
    ensures rows == Collect(events, EventRowOf(byEventId.Keys, today))
  {
    rows := [];
    for i := 0 to |events|
      invariant rows == Collect(events[..i], EventRowOf(byEventId.Keys, today))
    {
      var event := events[i];
      CollectPrefixSnoc(events, i, EventRowOf(byEventId.Keys, today));
      if IsPastOrToday(event.date, today) {
        var eventId := EventKey(event);
        if !(eventId.Str? && eventId.s in byEventId) {
          rows := rows + [EventRow(event)];
        }
      }
    }
    assert events[..|events|] == events;
  }

  /** `aggregatedAttendance`: the three row lists in order, sorted newest
      first. */
  method AggregatedAttendance(attendance: seq<AttendanceRecord>, events: seq<Event>, minutes: seq<Minute>, today: Date)
    returns (records: seq<Row>)
    requires ValidDate(today)
    ensures records == SortWith(PushedRows(attendance, events, minutes, today), NewestFirst)
  {
    var byEventId := RecordsByEventId(attendance);
    var fromAttendance := AttendanceRows(attendance, events);
    var fromMinutes := MinuteRows(minutes, today);
    var fromEvents := EventRows(events, byEventId, today);
    records := SortWith(fromAttendance + fromMinutes + fromEvents, NewestFirst);
  }

  // What the merged list holds.

  lemma InSorted(rows: seq<Row>, row: Row)
    ensures row in SortWith(rows, NewestFirst) <==> row in rows
  {
    assert row in multiset(SortWith(rows, NewestFirst)) <==> row in multiset(rows);
  }

  /** Every attendance record has its row in the overview. */
  lemma EveryRecordListed(attendance: seq<AttendanceRecord>, events: seq<Event>, minutes: seq<Minute>, today: Date, k: int)
    requires ValidDate(today) && 0 <= k < |attendance|
    ensures AttendanceRow(events, attendance[k]) in SortWith(PushedRows(attendance, events, minutes, today), NewestFirst)
  {
    CollectComplete(attendance, AttendanceRowOf(events), k);
    InSorted(PushedRows(attendance, events, minutes, today), AttendanceRow(events, attendance[k]));
  }

  /** No attendance row is a minutes row. */
  lemma AttendanceRowsNotMinutes(attendance: seq<AttendanceRecord>, events: seq<Event>, row: Row)
    requires row in Collect(attendance, AttendanceRowOf(events))
    ensures row.source != FromMinute
  {
    CollectSound(attendance, AttendanceRowOf(events), row);
  }

  /** Every event row comes from an event. */
  lemma EventRowsFromEvents(ids: set<string>, events: seq<Event>, today: Date, row: Row)
    requires ValidDate(today) && row in Collect(events, EventRowOf(ids, today))
    ensures row.source == FromEvent
  {
    CollectSound(events, EventRowOf(ids, today), row);
  }

  /** A minutes row is in the overview exactly when some minutes document
      dated today or earlier gives it; its total is its attendee count. */
  lemma MinuteRowsListed(attendance: seq<AttendanceRecord>, events: seq<Event>, minutes: seq<Minute>, today: Date, row: Row)
    requires ValidDate(today) && row.source == FromMinute
    ensures row in SortWith(PushedRows(attendance, events, minutes, today), NewestFirst) <==>
      exists j :: 0 <= j < |minutes| && IsPastOrToday(minutes[j].date, today) && row == MinuteRow(minutes[j])
  {
    InSorted(PushedRows(attendance, events, minutes, today), row);
    if row in Collect(attendance, AttendanceRowOf(events)) {
      AttendanceRowsNotMinutes(attendance, events, row);
    }
    if row in Collect(events, EventRowOf(RecordEventIds(attendance), today)) {
      EventRowsFromEvents(RecordEventIds(attendance), events, today, row);
    }
    MinuteRowsOfMinutes(minutes, today, row);
  }

  lemma MinuteRowsOfMinutes(minutes: seq<Minute>, today: Date, row: Row)
    requires ValidDate(today)
    ensures row in Collect(minutes, MinuteRowOf(today)) <==>
      exists j :: 0 <= j < |minutes| && IsPastOrToday(minutes[j].date, today) && row == MinuteRow(minutes[j])
  {
    if row in Collect(minutes, MinuteRowOf(today)) {
      CollectSound(minutes, MinuteRowOf(today), row);
    }
    if exists j :: 0 <= j < |minutes| && IsPastOrToday(minutes[j].date, today) && row == MinuteRow(minutes[j]) {
      var j :| 0 <= j < |minutes| && IsPastOrToday(minutes[j].date, today) && row == MinuteRow(minutes[j]);
      CollectComplete(minutes, MinuteRowOf(today), j);
    }
  }

  /** Every minutes row counts its own attendees. */
  lemma MinuteRowsTotal(minutes: seq<Minute>, today: Date, row: Row)
    requires ValidDate(today) && row in Collect(minutes, MinuteRowOf(today))
    ensures row.source == FromMinute && row.totalAttendees == |row.attendees|
  {
    MinuteRowsOfMinutes(minutes, today, row);
  }

  /** An event's own row is in the overview exactly when the event is past
      or today and no attendance record carries its id. */
  lemma EventRowsListed(attendance: seq<AttendanceRecord>, events: seq<Event>, minutes: seq<Minute>, today: Date, k: int)
    requires ValidDate(today) && 0 <= k < |events|
    ensures EventListed(RecordEventIds(attendance), today, events[k]) ==>
      EventRow(events[k]) in SortWith(PushedRows(attendance, events, minutes, today), NewestFirst)
    ensures EventRow(events[k]) in Collect(events, EventRowOf(RecordEventIds(attendance), today)) ==>
      exists j :: 0 <= j < |events| && EventListed(RecordEventIds(attendance), today, events[j])
        && EventRow(events[j]) == EventRow(events[k])
  {
    var f := EventRowOf(RecordEventIds(attendance), today);
    if EventListed(RecordEventIds(attendance), today, events[k]) {
      CollectComplete(events, f, k);
      InSorted(PushedRows(attendance, events, minutes, today), EventRow(events[k]));
    }
    if EventRow(events[k]) in Collect(events, f) {
      CollectSound(events, f, EventRow(events[k]));
    }
  }

  /** No event with an attendance record gets a row of its own, and each
      event gives at most one. */
  lemma NoDuplicateEventRows(attendance: seq<AttendanceRecord>, events: seq<Event>, today: Date)
    requires ValidDate(today)
    ensures |Collect(events, EventRowOf(RecordEventIds(attendance), today))| <= |events|
    ensures forall r :: r in Collect(events, EventRowOf(RecordEventIds(attendance), today)) ==>
      !HasRecord(RecordEventIds(attendance), r.eventId)
  {
    var f := EventRowOf(RecordEventIds(attendance), today);
    forall r: Row | r in Collect(events, f) ensures !HasRecord(RecordEventIds(attendance), r.eventId) {
      CollectSound(events, f, r);
    }
  }

  /** When every row's date parses, the overview runs newest first. */
  lemma NewestFirstOrder(rows: seq<Row>)
    requires AllKeyed(rows, RowDate)
    ensures AllKeyed(SortWith(rows, NewestFirst), RowDate) && KeyDescending(SortWith(rows, NewestFirst), RowDate)
  {
    SortByKeyDirected(rows, NewestFirst, RowDate, false);
  }
}
