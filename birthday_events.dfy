/** Birthday events (src/composables/useBirthdayEvents.js): one virtual
    `celebration` event per member with a usable date of birth, on that
    member's birthday in the current year, unless a stored event overrides
    it; and the month, upcoming and today views of that list. */
module BirthdayEvents {
  import opened Wrappers
  import opened Strings
  import opened Seqs
  import opened Sorting
  import opened Dates
  import opened MembersService
  import opened MemberUtils
  import opened EventsService

  /** `[year, month, day]` of a date of birth, each already known truthy. */
  datatype BirthParts = BirthParts(year: int, month: int, day: int)

  /** `dateOfBirth.split('-').map(Number)` destructured into three parts;
      `None` when a part is missing, `NaN` or zero (`!year || !month || !day`). */
  function BirthDateParts(dob: string): (p: Option<BirthParts>)
    ensures p.Some? ==> p.value.year != 0 && p.value.month != 0 && p.value.day != 0
    ensures p.Some? ==> |Split(dob, '-')| >= 3
  {
    var parts := Split(dob, '-');
    if |parts| < 3 then None
    else
      var y, m, d := ParseNumber(parts[0]), ParseNumber(parts[1]), ParseNumber(parts[2]);
      if y.Some? && m.Some? && d.Some? && y.value != 0 && m.value != 0 && d.value != 0
      then Some(BirthParts(y.value, m.value, d.value))
      else None
  }

  /** `member.firestoreId || member.id` inside a template string. */
  function MemberKey(m: Member): (k: string)
    ensures m.firestoreId != "" ==> k == m.firestoreId
    ensures m.firestoreId == "" ==> k == IdToString(m.id)
  {
    if m.firestoreId != "" then m.firestoreId else IdToString(m.id)
  }

  /** `member.firestoreId || member.id` as a value. */
  function MemberRef(m: Member): (r: Id)
    ensures m.firestoreId != "" ==> r == Str(m.firestoreId)
    ensures m.firestoreId == "" ==> r == m.id
  {
    if m.firestoreId != "" then Str(m.firestoreId) else m.id
  }

  /** `member.nickname || member.firstName`. */
  function DisplayName(m: Member): (n: string)
    ensures m.nickname != "" ==> n == m.nickname
    ensures m.nickname == "" ==> n == m.firstName
  {
    if m.nickname != "" then m.nickname else m.firstName
  }

  /** `birthday-${member.firestoreId || member.id}-${currentYear}`. */
  function BirthdayId(m: Member, currentYear: int): string {
    "birthday-" + MemberKey(m) + "-" + IntToString(currentYear)
  }

  /** The event pushed for member `m` whose date of birth has parts `p`. */
  function BirthdayEvent(m: Member, p: BirthParts, currentYear: int): (e: Event)
    ensures e.id == Str(BirthdayId(m, currentYear)) && e.firestoreId == None && e.IsVirtual()
    ensures e.date == FormatDate(Date(currentYear, p.month, p.day))
    ensures e.kind == Birthday(DisplayName(m), currentYear - p.year)
    ensures e.memberId == Some(MemberRef(m))
    ensures e.title == DisplayName(m) + "'s Birthday"
    ensures e.description == FullName(m) + " turns " + IntToString(currentYear - p.year) + " years old!"
    ensures e.eventType == "celebration" && e.time == "06:00" && e.location == ""
    ensures e.attendees == 0 && e.icon == "Cake"
    ensures e.overrideOf == None && !e.isOverride && !e.isCancelled
  {
    var turningAge := currentYear - p.year;
    Event(
      Str(BirthdayId(m, currentYear)),
      None,
      DisplayName(m) + "'s Birthday",
      "celebration",
      FormatDate(Date(currentYear, p.month, p.day)),
      "06:00",
      "",
      FullName(m) + " turns " + IntToString(turningAge) + " years old!",
      0,
      "Cake",
      None,
      false,
      false,
      Some(MemberRef(m)),
      Birthday(DisplayName(m), turningAge))
  }

  /** What the `forEach` callback contributes for one member: nothing when
      the date of birth is missing or unusable or the event is overridden. */
  function BirthdayOf(m: Member, currentYear: int, stored: seq<Event>): Option<Event> {
    if m.dateOfBirth.None? || m.dateOfBirth.value == "" then None
    else match BirthDateParts(m.dateOfBirth.value)
      case None => None
      case Some(p) =>
        if Overridden(stored, BirthdayId(m, currentYear)) then None
        else Some(BirthdayEvent(m, p, currentYear))
  }

  function BirthdayValue(currentYear: int, stored: seq<Event>): Member -> Option<Event> {
    (m: Member) => BirthdayOf(m, currentYear, stored)
  }

  /** The value of `birthdayEvents` for the loaded `members`. */
  function Birthdays(members: Option<seq<Member>>, currentYear: int, stored: seq<Event>): seq<Event> {
    if members.None? || |members.value| == 0 then []
    else Collect(members.value, BirthdayValue(currentYear, stored))
  }

  /** `birthdayEvents`: the loop over the members, in their order. */
  method BirthdayEvents(members: Option<seq<Member>>, currentYear: int, stored: seq<Event>)
      returns (events: seq<Event>)
    ensures events == Birthdays(members, currentYear, stored)
  {
    if members.None? || |members.value| == 0 {
      return [];
    }
    var ms := members.value;
    ghost var f := BirthdayValue(currentYear, stored);
    events := [];
    for i := 0 to |ms|
      invariant events == Collect(ms[..i], f)
    {
      BirthdayStep(ms, i, currentYear, stored);
      var member := ms[i];
      if member.dateOfBirth.None? || member.dateOfBirth.value == "" {
        continue;
      }
      var parts := BirthDateParts(member.dateOfBirth.value);
      if parts.None? {
        continue;
      }
      var virtualId := BirthdayId(member, currentYear);
      var hasOverride := Overridden(stored, virtualId);
      if hasOverride {
        continue;
      }
      events := events + [BirthdayEvent(member, parts.value, currentYear)];
    }
    assert ms[..|ms|] == ms;
  }

  lemma BirthdayStep(ms: seq<Member>, i: int, currentYear: int, stored: seq<Event>)
    requires 0 <= i < |ms|
    ensures Collect(ms[..i + 1], BirthdayValue(currentYear, stored))
            == Collect(ms[..i], BirthdayValue(currentYear, stored))
               + (if BirthdayOf(ms[i], currentYear, stored).Some?
                  then [BirthdayOf(ms[i], currentYear, stored).value] else [])
  {
    assert ms[..i + 1] == ms[..i] + [ms[i]];
    CollectSnoc(ms[..i], ms[i], BirthdayValue(currentYear, stored));
  }

  /** Every birthday event belongs to a listed member with a usable date
      of birth and no override. */
  lemma BirthdaysSound(members: Option<seq<Member>>, currentYear: int, stored: seq<Event>, e: Event)
    requires e in Birthdays(members, currentYear, stored)
    ensures members.Some?
    ensures exists k, p :: (0 <= k < |members.value|
              && members.value[k].dateOfBirth.Some?
              && BirthDateParts(members.value[k].dateOfBirth.value) == Some(p)
              && !Overridden(stored, BirthdayId(members.value[k], currentYear))
              && e == BirthdayEvent(members.value[k], p, currentYear))
  {
    var ms := members.value;
    CollectSound(ms, BirthdayValue(currentYear, stored), e);
    var k :| 0 <= k < |ms| && BirthdayValue(currentYear, stored)(ms[k]) == Some(e);
    var p := BirthDateParts(ms[k].dateOfBirth.value).value;
    assert ms[k].dateOfBirth.Some? && BirthDateParts(ms[k].dateOfBirth.value) == Some(p)
           && !Overridden(stored, BirthdayId(ms[k], currentYear))
           && e == BirthdayEvent(ms[k], p, currentYear);
  }

  /** Every listed member with a usable date of birth and no override has
      a birthday event. */
  lemma BirthdaysComplete(ms: seq<Member>, currentYear: int, stored: seq<Event>, k: int, p: BirthParts)
    requires 0 <= k < |ms| && ms[k].dateOfBirth.Some?
    requires BirthDateParts(ms[k].dateOfBirth.value) == Some(p)
    requires !Overridden(stored, BirthdayId(ms[k], currentYear))
    ensures BirthdayEvent(ms[k], p, currentYear) in Birthdays(Some(ms), currentYear, stored)
  {
    CollectComplete(ms, BirthdayValue(currentYear, stored), k);
  }

  /** An overridden birthday is left out whatever the date of birth. */
  lemma OverriddenBirthdayOmitted(ms: seq<Member>, currentYear: int, stored: seq<Event>, m: Member, p: BirthParts)
    requires Overridden(stored, BirthdayId(m, currentYear))
    ensures BirthdayEvent(m, p, currentYear) !in Birthdays(Some(ms), currentYear, stored)
  {
    if BirthdayEvent(m, p, currentYear) in Birthdays(Some(ms), currentYear, stored) {
      BirthdaysSound(Some(ms), currentYear, stored, BirthdayEvent(m, p, currentYear));
    }
  }

  /** A digit string holds no `-`. */
  lemma DigitsHaveNoDash(s: string)
    requires AllDigits(s)
    ensures '-' !in s
  {
  }

  /** `Number` reads back a non-empty digit string. */
  lemma ParseDigits(s: string)
    requires AllDigits(s) && s != []
    ensures ParseNumber(s) == Some(DigitsValue(s))
  {
    assert IsDigit(s[0]) && IsDigit(s[|s| - 1]);
    TrimOfTrimmed(s);
  }

  /** A date of birth stored as `YYYY-MM-DD` splits into its year, month
      and day. */
  lemma BirthDatePartsOfIsoDate(b: Date)
    requires ValidDate(b) && 1000 <= b.year <= 9999
    ensures BirthDateParts(FormatDate(b)) == Some(BirthParts(b.year, b.month, b.day))
  {
    var y := IntToString(b.year);
    var m := Pad2(IntToString(b.month));
    var d := Pad2(IntToString(b.day));
    FourDigitYear(b.year);
    PaddedTwoDigits(b.month);
    PaddedTwoDigits(b.day);
    hide IntToString, Pad2, AllDigits, DigitsValue;
    JoinDate(y, m, d);
    PartsOfDashed(y, m, d);
  }

  lemma JoinDate(y: string, m: string, d: string)
    ensures Join([y, m, d], "-") == y + "-" + m + "-" + d
  {
    JoinCons(m, [d], "-");
    JoinCons(y, [m, d], "-");
    assert [y] + [m, d] == [y, m, d] && [m] + [d] == [m, d];
  }

  /** Three digit strings joined by dashes split back into their values. */
  lemma PartsOfDashed(y: string, m: string, d: string)
    requires AllDigits(y) && AllDigits(m) && AllDigits(d) && y != [] && m != [] && d != []
    requires DigitsValue(y) != 0 && DigitsValue(m) != 0 && DigitsValue(d) != 0
    ensures BirthDateParts(Join([y, m, d], "-")) == Some(BirthParts(DigitsValue(y), DigitsValue(m), DigitsValue(d)))
  {
    DigitsHaveNoDash(y);
    DigitsHaveNoDash(m);
    DigitsHaveNoDash(d);
    SplitJoin([y, m, d], '-');
    ParseDigits(y);
    ParseDigits(m);
    ParseDigits(d);
  }

  /** For a date of birth `b` the event lies on `b`'s month and day of the
      current year, and the age it announces is the age reached that day. */
  lemma BirthdayOnAnniversary(m: Member, b: Date, currentYear: int)
    requires ValidDate(b) && 1000 <= b.year <= 9999
    requires ValidDate(Date(currentYear, b.month, b.day)) && 1000 <= currentYear <= 9999
    ensures ParseIsoDate(BirthdayEvent(m, BirthParts(b.year, b.month, b.day), currentYear).date)
            == Some(Date(currentYear, b.month, b.day))
    ensures BirthdayEvent(m, BirthParts(b.year, b.month, b.day), currentYear).kind.turningAge
            == AgeOn(b, Date(currentYear, b.month, b.day))
  {
    ParseFormatDate(Date(currentYear, b.month, b.day));
    AgeIncrementsOnBirthday(b, currentYear);
  }

  /** `getBirthdaysForMonth(year, month)` shows a member's birthday exactly
      in the month of birth of the current year. */
  lemma BirthdayInMonth(ms: seq<Member>, currentYear: int, stored: seq<Event>, k: int, b: Date,
                        year: int, month: int)
    requires 0 <= k < |ms| && ms[k].dateOfBirth == Some(FormatDate(b))
    requires ValidDate(b) && 1000 <= b.year <= 9999
    requires ValidDate(Date(currentYear, b.month, b.day)) && 1000 <= currentYear <= 9999
    requires !Overridden(stored, BirthdayId(ms[k], currentYear))
    ensures BirthdayEvent(ms[k], BirthParts(b.year, b.month, b.day), currentYear)
            in EventsInMonth(Birthdays(Some(ms), currentYear, stored), year, month)
            <==> year == currentYear && b.month == month + 1
  {
    var e := BirthdayEvent(ms[k], BirthParts(b.year, b.month, b.day), currentYear);
    var events := Birthdays(Some(ms), currentYear, stored);
    BirthDatePartsOfIsoDate(b);
    BirthdaysComplete(ms, currentYear, stored, k, BirthParts(b.year, b.month, b.day));
    FormattedDateInMonth(e, Date(currentYear, b.month, b.day), year, month);
    if year == currentYear && b.month == month + 1 {
      var j :| 0 <= j < |events| && events[j] == e;
    }
  }

  /** The `days` argument of `getUpcomingBirthdays` when none is given. */
  const DefaultUpcomingDays: int := 30

  /** `getUpcomingBirthdays(days)` with today's local date passed in: the
      birthdays from today through `days` days later, soonest first. */
  function UpcomingBirthdays(events: seq<Event>, today: Date, days: int): (r: seq<Event>)
    requires ValidDate(today)
    ensures multiset(r) == multiset(Filter(events, WithinWindow(today, days)))
    ensures forall k :: 0 <= k < |r| ==> r[k] in events && InWindow(r[k], today, days)
    ensures forall k :: 0 <= k < |events| && InWindow(events[k], today, days) ==> events[k] in r
    ensures AllKeyed(r, EventDateValue) && KeyAscending(r, EventDateValue)
  {
    var inWindow := Filter(events, WithinWindow(today, days));
    WindowKeyed(events, today, days);
    var r := SortByDate(inWindow);
    PermutedWindow(events, today, days, r);
    r
  }

  /** Every event inside the window has a date that parses. */
  lemma WindowKeyed(events: seq<Event>, today: Date, days: int)
    requires ValidDate(today)
    ensures AllKeyed(Filter(events, WithinWindow(today, days)), EventDateValue)
  {
    var inWindow := Filter(events, WithinWindow(today, days));
    forall k | 0 <= k < |inWindow|
      ensures EventDateValue(inWindow[k]).Some?
    {
      assert WithinWindow(today, days)(inWindow[k]);
    }
  }

  /** A permutation of the events inside the window holds exactly them. */
  lemma PermutedWindow(events: seq<Event>, today: Date, days: int, r: seq<Event>)
    requires ValidDate(today)
    requires multiset(r) == multiset(Filter(events, WithinWindow(today, days)))
    ensures forall k :: 0 <= k < |r| ==> r[k] in events && InWindow(r[k], today, days)
    ensures forall k :: 0 <= k < |events| && InWindow(events[k], today, days) ==> events[k] in r
  {
    var w := WithinWindow(today, days);
    PermutedFilter(events, w, r);
    assert forall e :: w(e) == InWindow(e, today, days);
  }

  /** `todaysBirthdays`: the events dated on today's (UTC) calendar date. */
  function TodaysBirthdays(events: seq<Event>, today: Date): (r: seq<Event>)
    ensures forall k :: 0 <= k < |r| ==> r[k] in events && r[k].date == FormatDate(today)
    ensures forall k :: 0 <= k < |events| && events[k].date == FormatDate(today) ==> events[k] in r
  {
    Filter(events, (e: Event) => e.date == FormatDate(today))
  }

  /** A member's birthday is among today's exactly when today is that
      member's month and day in the current year. */
  lemma BirthdayToday(ms: seq<Member>, currentYear: int, stored: seq<Event>, k: int, b: Date, today: Date)
    requires 0 <= k < |ms| && ms[k].dateOfBirth == Some(FormatDate(b))
    requires ValidDate(b) && 1000 <= b.year <= 9999
    requires ValidDate(Date(currentYear, b.month, b.day)) && 1000 <= currentYear <= 9999
    requires ValidDate(today) && 1000 <= today.year <= 9999
    requires !Overridden(stored, BirthdayId(ms[k], currentYear))
    ensures BirthdayEvent(ms[k], BirthParts(b.year, b.month, b.day), currentYear)
            in TodaysBirthdays(Birthdays(Some(ms), currentYear, stored), today)
            <==> today == Date(currentYear, b.month, b.day)
  {
    var anniversary := Date(currentYear, b.month, b.day);
    var e := BirthdayEvent(ms[k], BirthParts(b.year, b.month, b.day), currentYear);
    var events := Birthdays(Some(ms), currentYear, stored);
    BirthDatePartsOfIsoDate(b);
    BirthdaysComplete(ms, currentYear, stored, k, BirthParts(b.year, b.month, b.day));
    ParseFormatDate(anniversary);
    ParseFormatDate(today);
    if today == anniversary {
      var j :| 0 <= j < |events| && events[j] == e;
    }
  }
}
