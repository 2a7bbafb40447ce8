/** The generated weekly events of the current year
    (src/composables/useRecurringEvents.js): a Sunday service every Sunday
    and an online prayer meeting every Wednesday but the first of each month,
    each dropped when a stored event overrides its id. */
module RecurringEvents {
  import opened Wrappers
  import opened Strings
  import opened Seqs
  import opened Dates
  import opened MembersService
  import opened EventsService

  /** `getWeekdayOccurrence`: `Math.ceil(dayOfMonth / 7)`, which of the
      month's Sundays (or Wednesdays, ...) the day is. */
  function WeekdayOccurrence(dayOfMonth: int): (k: int)
    ensures 7 * (k - 1) < dayOfMonth <= 7 * k
    ensures 1 <= dayOfMonth <= 31 ==> 1 <= k <= 5
  {
    (dayOfMonth + 6) / 7
  }

  /** The two weekly series. */
  datatype Series = SundayService | PrayerMeeting

  /** `getDay()` of the series' weekday: Sunday is 0, Wednesday 3. */
  function Weekday(series: Series): (w: int)
    ensures 0 <= w < 7
  {
    match series
    case SundayService => 0
    case PrayerMeeting => 3
  }

  function IdPrefix(series: Series): string {
    match series
    case SundayService => "sunday-service-"
    case PrayerMeeting => "prayer-meeting-"
  }

  /** Every Sunday has a service; only the second to fifth Wednesday of a
      month has a prayer meeting. */
  predicate Qualifies(series: Series, d: Date) {
    series.SundayService? || WeekdayOccurrence(d.day) >= 2
  }

  /** The virtual id of the occurrence on `d`. */
  function VirtualId(series: Series, d: Date): string {
    IdPrefix(series) + FormatDate(d)
  }

  /** `members.value?.length || 0`; `None` is a member list not yet set. */
  function ExpectedAttendees(members: Option<seq<Member>>): (n: nat)
    ensures members.None? ==> n == 0
    ensures members.Some? ==> n == |members.value|
  {
    if members.Some? then |members.value| else 0
  }

  /** The event object pushed for the occurrence on `d`; its id is the
      prefix followed by its own date string. */
  function Occurrence(series: Series, d: Date, attendees: int): (e: Event)
    ensures e.id == Str(IdPrefix(series) + e.date) && e.date == FormatDate(d)
    ensures e.firestoreId == None && e.IsVirtual() && e.kind == Recurring("weekly")
    ensures e.attendees == attendees && e.overrideOf == None && !e.isCancelled
  {
    match series
    case SundayService =>
      Event(Str(VirtualId(series, d)), None, "Sunday Service", "worship", FormatDate(d), "09:00",
            "UEC Canubing II",
            "Weekly Sunday worship service. Come and join us in praising the Lord!",
            attendees, "Church", None, false, false, None, Recurring("weekly"))
    case PrayerMeeting =>
      Event(Str(VirtualId(series, d)), None, "Online Prayer Meeting", "prayer", FormatDate(d), "19:00",
            "Online (Zoom/Google Meet)",
            "Weekly online prayer meeting. Join us to pray together as a community.",
            attendees, "HandHeart", None, false, false, None, Recurring("weekly"))
  }

  /** How many days after weekday `from` the next weekday `to` comes (0 when equal). */
  function DaysUntil(from: int, to: int): (n: int)
    requires 0 <= from < 7 && 0 <= to < 7
    ensures 0 <= n < 7 && (n == 0 <==> from == to)
  {
    if from <= to then to - from else to - from + 7
  }

  /** The first day on or after `d` whose weekday is `w`. */
  function FirstWeekday(d: Date, w: int): (r: Date)
    requires ValidDate(d) && 0 <= w < 7
    ensures ValidDate(r) && DayOfWeek(r) == w
    ensures DayNumber(r) == DayNumber(d) + DaysUntil(DayOfWeek(d), w)
    decreases DaysUntil(DayOfWeek(d), w)
  {
    if DayOfWeek(d) == w then d
    else
      NextDayWeekday(d);
      NextDayNumber(d);
      FirstWeekday(NextDay(d), w)
  }

  /** `first`, a week later, two weeks later, ... up to and including `last`. */
  function WeeklyDates(first: Date, last: Date): (r: seq<Date>)
    requires ValidDate(first) && ValidDate(last)
    ensures forall k :: 0 <= k < |r| ==> ValidDate(r[k])
    decreases DayNumber(last) - DayNumber(first) + 1
  {
    if DayNumber(first) > DayNumber(last) then []
    else [first] + WeeklyDates(NextWeek(first), last)
  }

  /** The `k`-th visited date is `7 * k` days after `first`, on its weekday
      and not after `last`. */
  lemma {:induction false} WeeklyDatesAt(first: Date, last: Date, k: int)
    requires ValidDate(first) && ValidDate(last) && 0 <= k < |WeeklyDates(first, last)|
    ensures var d := WeeklyDates(first, last)[k];
      ValidDate(d) && DayNumber(d) == DayNumber(first) + 7 * k
      && DayNumber(d) <= DayNumber(last) && DayOfWeek(d) == DayOfWeek(first)
    decreases k
  {
    hide DaysBeforeYear, DaysBeforeMonth, DaysInMonth;
    var next := NextWeek(first);
    assert WeeklyDates(first, last) == [first] + WeeklyDates(next, last);
    if k > 0 {
      WeeklyDatesAt(next, last, k - 1);
      assert WeeklyDates(first, last)[k] == WeeklyDates(next, last)[k - 1];
    }
  }

  /** Each visited date after the first is a week after the one before. */
  lemma {:induction false} WeeklyDatesNext(first: Date, last: Date, k: int)
    requires ValidDate(first) && ValidDate(last) && 0 <= k < |WeeklyDates(first, last)| - 1
    ensures ValidDate(WeeklyDates(first, last)[k])
    ensures WeeklyDates(first, last)[k + 1] == NextWeek(WeeklyDates(first, last)[k])
    decreases k
  {
    var next := NextWeek(first);
    var r, rest := WeeklyDates(first, last), WeeklyDates(next, last);
    assert r == [first] + rest;
    assert r[k + 1] == rest[k];
    if k > 0 {
      WeeklyDatesNext(next, last, k - 1);
      assert r[k] == rest[k - 1];
    }
  }

  /** The number of visited dates is the number of whole weeks from `first`
      to `last`, plus one. */
  lemma {:induction false} WeeklyDatesCount(first: Date, last: Date)
    requires ValidDate(first) && ValidDate(last)
    ensures |WeeklyDates(first, last)| == if DayNumber(first) > DayNumber(last) then 0
                                          else (DayNumber(last) - DayNumber(first)) / 7 + 1
    decreases DayNumber(last) - DayNumber(first) + 1
  {
    if DayNumber(first) <= DayNumber(last) {
      var next := NextWeek(first);
      WeeklyDatesCount(next, last);
      var x := DayNumber(last) - DayNumber(first);
      if x < 7 {
        assert x / 7 == 0;
      } else {
        assert (x - 7) / 7 + 1 == x / 7;
      }
    }
  }

  /** The dates the weekly loop of `series` visits in `year`: from the first
      such weekday of the year through December 31. */
  function SeriesDates(series: Series, year: int): seq<Date> {
    WeeklyDates(FirstWeekday(MakeDate(year, 0, 1), Weekday(series)), EndOfYear(year))
  }

  /** Whether the occurrence on `d` is pushed: it qualifies and no stored
      event overrides its virtual id. */
  predicate Emitted(series: Series, d: Date, stored: seq<Event>) {
    Qualifies(series, d) && !Overridden(stored, VirtualId(series, d))
  }

  /** The value a visit to `d` pushes, if any. */
  function EmitValue(series: Series, stored: seq<Event>, attendees: int): Date -> Option<Event> {
    (d: Date) => if Emitted(series, d, stored) then Some(Occurrence(series, d, attendees)) else None
  }

  /** The events pushed while visiting `dates`, in order. */
  function Emit(series: Series, dates: seq<Date>, stored: seq<Event>, attendees: int): seq<Event> {
    Collect(dates, EmitValue(series, stored, attendees))
  }

  /** What `sundayServiceEvents` or `prayerMeetingEvents` computes. */
  function SeriesEvents(series: Series, year: int, stored: seq<Event>, attendees: int): seq<Event> {
    Emit(series, SeriesDates(series, year), stored, attendees)
  }

  /** The generator loop of one series: step a day at a time to the first
      weekday of the series, then a week at a time while on or before
      December 31, pushing each qualifying occurrence that is not overridden. */
  method GenerateSeries(series: Series, currentYear: int, stored: seq<Event>, attendees: int)
      returns (events: seq<Event>)
    ensures events == SeriesEvents(series, currentYear, stored, attendees)
  {
    hide Occurrence, VirtualId, DaysBeforeYear, FormatDate, Collect;
    var w := Weekday(series);
    var startDate := MakeDate(currentYear, 0, 1);
    var endDate := EndOfYear(currentYear);
    ghost var first := FirstWeekday(startDate, w);
    assert WeeklyDates(first, endDate) == SeriesDates(series, currentYear);
    var current := startDate;
    while DayOfWeek(current) != w
      invariant ValidDate(current)
      invariant FirstWeekday(current, w) == first
      decreases DaysUntil(DayOfWeek(current), w)
    {
      NextDayWeekday(current);
      current := NextDay(current);
    }
    events := EmitWeekly(series, current, endDate, stored, attendees);
  }

  /** The weekly part of the generator loop: from `first`, a week at a time
      while on or before `endDate`, pushing each qualifying occurrence that
      is not overridden. */
  method EmitWeekly(series: Series, first: Date, endDate: Date, stored: seq<Event>, attendees: int)
      returns (events: seq<Event>)
    requires ValidDate(first) && ValidDate(endDate)
    ensures events == Emit(series, WeeklyDates(first, endDate), stored, attendees)
  {
    hide Occurrence, VirtualId, DaysBeforeYear, FormatDate, Collect;
    ghost var all := WeeklyDates(first, endDate);
    var current := first;
    ghost var i := 0;
    events := [];
    while DayNumber(current) <= DayNumber(endDate)
      invariant ValidDate(current) && 0 <= i <= |all|
      invariant WeeklyDates(current, endDate) == all[i..]
      invariant events == Emit(series, all[..i], stored, attendees)
      decreases DayNumber(endDate) - DayNumber(current) + 1
    {
      WeeklyStep(all, i, current, endDate);
      EmitStep(series, stored, attendees, all, i, current);
      ghost var before := events;
      if Qualifies(series, current) {
        var hasOverride := Overridden(stored, VirtualId(series, current));
        if !hasOverride {
          events := events + [Occurrence(series, current, attendees)];
        }
      }
      assert events == before + if Emitted(series, current, stored) then [Occurrence(series, current, attendees)] else [];
      i := i + 1;
      current := NextWeek(current);
    }
    assert all[..i] == all;
  }

  /** One turn of the weekly loop: `current` is the next date to visit and
      the rest follow a week later. */
  lemma WeeklyStep(all: seq<Date>, i: int, current: Date, last: Date)
    requires ValidDate(current) && ValidDate(last) && DayNumber(current) <= DayNumber(last)
    requires 0 <= i <= |all| && WeeklyDates(current, last) == all[i..]
    ensures i < |all| && all[i] == current && WeeklyDates(NextWeek(current), last) == all[i + 1..]
  {
    var rest := all[i..];
    assert rest == [current] + WeeklyDates(NextWeek(current), last);
    assert rest[0] == current;
    assert all[i + 1..] == rest[1..];
  }

  /** Visiting one more date pushes at most its occurrence. */
  lemma EmitStep(series: Series, stored: seq<Event>, attendees: int, dates: seq<Date>, i: int, d: Date)
    requires 0 <= i < |dates| && dates[i] == d
    ensures Emit(series, dates[..i + 1], stored, attendees)
            == Emit(series, dates[..i], stored, attendees)
               + (if Emitted(series, d, stored) then [Occurrence(series, d, attendees)] else [])
  {
    CollectPrefixSnoc(dates, i, EmitValue(series, stored, attendees));
  }

  /** `recurringEvents`: all Sunday services, then all prayer meetings. */
  method RecurringEvents(currentYear: int, stored: seq<Event>, members: Option<seq<Member>>)
      returns (events: seq<Event>)
    ensures events == SeriesEvents(SundayService, currentYear, stored, ExpectedAttendees(members))
                      + SeriesEvents(PrayerMeeting, currentYear, stored, ExpectedAttendees(members))
  {
    var attendees := ExpectedAttendees(members);
    var sundays := GenerateSeries(SundayService, currentYear, stored, attendees);
    var prayers := GenerateSeries(PrayerMeeting, currentYear, stored, attendees);
    events := sundays + prayers;
  }

  /** A date lies on the series' weekday within `year` exactly when the
      weekly loop visits it. */
  lemma SeriesDatesExact(series: Series, year: int, d: Date)
    requires ValidDate(d)
    ensures d in SeriesDates(series, year) <==> d.year == year && DayOfWeek(d) == Weekday(series)
  {
    hide DaysBeforeYear;
    MakeDateInRange(year, 0, 1);
    var jan1, dec31 := Date(year, 1, 1), Date(year, 12, 31);
    var first := FirstWeekday(jan1, Weekday(series));
    var dates := WeeklyDates(first, dec31);
    InYear(d, year);
    InYear(first, year);
    if d in dates {
      var k :| 0 <= k < |dates| && dates[k] == d;
      WeeklyDatesAt(first, dec31, k);
    }
    if d.year == year && DayOfWeek(d) == Weekday(series) {
      if DayNumber(d) < DayNumber(first) {
        SameWeekdayApart(d, first);
        assert false;
      }
      WeeklyDatesComplete(first, dec31, d);
    }
  }

  /** Every day from `first` through `last` on the weekday of `first` is visited. */
  lemma {:induction false} WeeklyDatesComplete(first: Date, last: Date, d: Date)
    requires ValidDate(first) && ValidDate(last) && ValidDate(d)
    requires DayNumber(first) <= DayNumber(d) <= DayNumber(last) && DayOfWeek(d) == DayOfWeek(first)
    ensures d in WeeklyDates(first, last)
    decreases DayNumber(last) - DayNumber(first)
  {
    if DayNumber(d) == DayNumber(first) {
      DayNumberInjective(d, first);
    } else {
      SameWeekdayApart(first, d);
      WeeklyDatesComplete(NextWeek(first), last, d);
    }
  }

  /** Consecutive occurrences are exactly seven days apart. */
  lemma SeriesSpacing(series: Series, year: int)
    ensures var dates := SeriesDates(series, year);
      forall k :: 0 <= k < |dates| - 1 ==> DayNumber(dates[k + 1]) == DayNumber(dates[k]) + 7
  {
    var first := FirstWeekday(MakeDate(year, 0, 1), Weekday(series));
    var dec31 := EndOfYear(year);
    var dates := WeeklyDates(first, dec31);
    forall k | 0 <= k < |dates| - 1
      ensures DayNumber(dates[k + 1]) == DayNumber(dates[k]) + 7
    {
      WeeklyDatesNext(first, dec31, k);
    }
  }

  /** A year has 52 or 53 occurrences of each weekday. */
  lemma SeriesCount(series: Series, year: int)
    ensures |SeriesDates(series, year)| == 52 || |SeriesDates(series, year)| == 53
  {
    hide DaysBeforeYear;
    MakeDateInRange(year, 0, 1);
    var jan1, dec31 := Date(year, 1, 1), Date(year, 12, 31);
    var first := FirstWeekday(jan1, Weekday(series));
    InYear(jan1, year);
    DaysBeforeNextYear(year);
    var span := DayNumber(dec31) - DayNumber(first);
    assert 358 <= span <= 365;
    assert span / 7 == 51 || span / 7 == 52;
    WeeklyDatesCount(first, dec31);
  }

  /** With no stored overrides every occurrence of the year is emitted: one
      Sunday service per Sunday. */
  lemma NoOverridesAllSundays(year: int, stored: seq<Event>, attendees: int, d: Date)
    requires forall k :: 0 <= k < |stored| ==> stored[k].overrideOf == None
    requires ValidDate(d) && d.year == year && DayOfWeek(d) == 0
    ensures Occurrence(SundayService, d, attendees) in SeriesEvents(SundayService, year, stored, attendees)
  {
    SeriesEmits(SundayService, year, stored, attendees, d);
  }

  /** With no stored overrides the Sunday series emits exactly one event per
      visited date, so a year has 52 or 53 Sunday services. */
  lemma NoOverridesCount(year: int, stored: seq<Event>, attendees: int)
    requires forall k :: 0 <= k < |stored| ==> stored[k].overrideOf == None
    ensures |SeriesEvents(SundayService, year, stored, attendees)| == |SeriesDates(SundayService, year)|
    ensures |SeriesEvents(SundayService, year, stored, attendees)| == 52
         || |SeriesEvents(SundayService, year, stored, attendees)| == 53
  {
    hide Occurrence, VirtualId, DaysBeforeYear, FormatDate, WeeklyDates, FirstWeekday, MakeDate;
    var dates := SeriesDates(SundayService, year);
    var f := EmitValue(SundayService, stored, attendees);
    assert forall k :: 0 <= k < |dates| ==> f(dates[k]).Some?;
    CollectAllSome(dates, f);
    SeriesCount(SundayService, year);
  }

  /** A day of `year` on the series' weekday that qualifies and is not
      overridden has its occurrence emitted. */
  lemma SeriesEmits(series: Series, year: int, stored: seq<Event>, attendees: int, d: Date)
    requires ValidDate(d) && d.year == year && DayOfWeek(d) == Weekday(series) && Emitted(series, d, stored)
    ensures Occurrence(series, d, attendees) in SeriesEvents(series, year, stored, attendees)
  {
    hide Occurrence, VirtualId, DaysBeforeYear, FormatDate, WeeklyDates, FirstWeekday, MakeDate, Collect;
    var dates := SeriesDates(series, year);
    SeriesDatesExact(series, year, d);
    var j :| 0 <= j < |dates| && dates[j] == d;
    CollectComplete(dates, EmitValue(series, stored, attendees), j);
  }

  /** Each emitted event was made for a day of `year` on the series'
      weekday, is not overridden, and for a prayer meeting lies after the
      seventh of its month. */
  lemma SeriesEventFacts(series: Series, year: int, stored: seq<Event>, attendees: int, e: Event)
    requires e in SeriesEvents(series, year, stored, attendees)
    ensures exists d :: (ValidDate(d) && e == Occurrence(series, d, attendees)
                         && d.year == year && DayOfWeek(d) == Weekday(series)
                         && !Overridden(stored, VirtualId(series, d))
                         && (series.PrayerMeeting? ==> d.day > 7))
  {
    hide Occurrence, VirtualId, DaysBeforeYear, FormatDate, WeeklyDates, FirstWeekday, MakeDate, Collect;
    var dates := SeriesDates(series, year);
    CollectSound(dates, EmitValue(series, stored, attendees), e);
    var j :| 0 <= j < |dates| && EmitValue(series, stored, attendees)(dates[j]) == Some(e);
    var d := dates[j];
    EmittedValue(series, stored, attendees, d, e);
    SeriesDatesExact(series, year, d);
    assert series.PrayerMeeting? ==> WeekdayOccurrence(d.day) >= 2;
    assert ValidDate(d) && e == Occurrence(series, d, attendees)
           && d.year == year && DayOfWeek(d) == Weekday(series)
           && !Overridden(stored, VirtualId(series, d))
           && (series.PrayerMeeting? ==> d.day > 7);
  }

  /** A visit that pushes an event pushes the occurrence of a date that
      is emitted. */
  lemma EmittedValue(series: Series, stored: seq<Event>, attendees: int, d: Date, e: Event)
    requires EmitValue(series, stored, attendees)(d) == Some(e)
    ensures Emitted(series, d, stored) && e == Occurrence(series, d, attendees)
  {
    hide Occurrence;
  }

  /** An occurrence is missing exactly when a stored event overrides its id. */
  lemma OverrideSuppresses(series: Series, year: int, stored: seq<Event>, attendees: int, d: Date)
    requires ValidDate(d) && d.year == year && DayOfWeek(d) == Weekday(series) && Qualifies(series, d)
    requires 1000 <= year <= 9999
    ensures Occurrence(series, d, attendees) in SeriesEvents(series, year, stored, attendees)
            <==> !Overridden(stored, VirtualId(series, d))
  {
    hide Occurrence, SeriesEvents;
    var e := Occurrence(series, d, attendees);
    if !Overridden(stored, VirtualId(series, d)) {
      SeriesEmits(series, year, stored, attendees, d);
    }
    if e in SeriesEvents(series, year, stored, attendees) {
      SeriesEventFacts(series, year, stored, attendees, e);
      var d' :| ValidDate(d') && e == Occurrence(series, d', attendees) && d'.year == year
        && DayOfWeek(d') == Weekday(series) && !Overridden(stored, VirtualId(series, d'))
        && (series.PrayerMeeting? ==> d'.day > 7);
      OccurrenceDate(series, d, d', attendees);
    }
  }

  /** Two occurrences of a series in the years 1000 to 9999 are equal only
      when their dates are. */
  lemma OccurrenceDate(series: Series, d: Date, d': Date, attendees: int)
    requires ValidDate(d) && ValidDate(d') && 1000 <= d.year <= 9999 && d'.year == d.year
    requires Occurrence(series, d, attendees) == Occurrence(series, d', attendees)
    ensures d == d'
  {
    hide Occurrence;
    ParseFormatDate(d);
    ParseFormatDate(d');
  }

  /** `getEventsForMonth(year, month)` keeps an occurrence exactly when its
      date lies in that year and zero-based month. */
  lemma OccurrenceInMonth(series: Series, year: int, stored: seq<Event>, attendees: int,
                          d: Date, viewYear: int, month: int)
    requires ValidDate(d) && d.year == year && DayOfWeek(d) == Weekday(series) && Emitted(series, d, stored)
    requires 1000 <= year <= 9999
    ensures Occurrence(series, d, attendees) in EventsInMonth(SeriesEvents(series, year, stored, attendees), viewYear, month)
            <==> year == viewYear && d.month == month + 1
  {
    hide Occurrence, SeriesEvents;
    var e := Occurrence(series, d, attendees);
    var events := SeriesEvents(series, year, stored, attendees);
    SeriesEmits(series, year, stored, attendees, d);
    FormattedDateInMonth(e, d, viewYear, month);
    if year == viewYear && d.month == month + 1 {
      var k :| 0 <= k < |events| && events[k] == e;
    }
  }
}
