# uechurch core, modelled in Dafny

The uechurch application keeps a church's member directory, its event
calendar, meeting minutes and attendance. Most of it is Vue and Firestore
wiring. The parts modelled here are the in-memory computations underneath
it. Each becomes deterministic once "today" and "the current year" are
passed in as parameters.

- **Virtual calendar events.** The weekly Sunday service and the Wednesday
  prayer meeting are generated for one year (`RecurringEvents`). Birthday
  events are derived from members' birth dates (`BirthdayEvents`). Both
  drop any virtual id that a stored event names in `overrideOf`. The
  stored events come from `EventsService.NormalizeEvent`.
- **Household clustering.** `FamilyGroups` runs a breadth-first search
  over the `relatives` links in both directions. It keeps the clusters
  that touch the filtered members, adds singletons for members without
  relatives, and orders the groups with the comparators of `MemberSorting`.
  The members come from `MembersService.NormalizeMember`.
- **Text transformers.**
  - `Markdown` is the line-driven Markdown-to-HTML converter, with its
    list stack and table flag.
  - `Export` and `Csv` hold the CSV export. `Csv` quotes fields as in
    section 2 of RFC 4180 and reads them back.
  - `Minutes` is the offline meeting-minutes formatter.
- **Member directory.**
  - `MemberFilters`: search, tag, status, sex and civil-status filters, and
    tag toggling (class `FilterState`).
  - `MemberForm`: add-member validation, next-id choice, record building
    and form reset (class `MemberFormState`).
  - `MemberUtils`: labels, avatar URL and age.
- **Calendar and lists.**
  - `Calendar`: the 42-cell month grid, date formatting and month
    navigation (class `CalendarState`).
  - `EventFilters`: event search, type filter and the upcoming window.
  - `Attendance`: attendance aggregation.
- **Toasts.** `Toasts.ToastQueue` is the notification queue, with strictly
  increasing ids and removal by id.

Support modules:
- `Wrappers`: `Option`, and `Presence` (missing, `null` or a value).
- `Strings`: the JavaScript string operations the core uses, on `seq<char>`. `Number` and `parseInt` are read for integers only; see "Left out".
- `Seqs`: filtering, collecting and subsequences.
- `Sorting`: a stable insertion sort standing for `Array.prototype.sort`.
- `Dates`: proleptic Gregorian `(year, month, day)` dates with day
  numbers and weekdays.

Modelling conventions:
- A JavaScript `Date` is a calendar date `(year, month, day)` counted as
  day numbers from 0001-01-01. Local time is assumed to agree with the
  calendar dates written in the data.
- `Array.prototype.sort` is stable, so it is modelled by one fixed stable
  sort, `Sorting.SortWith`. When the comparator is consistent, the stable
  result is the only one possible.
- `localeCompare` is lexicographic comparison of character codes, applied
  to lower-cased strings.
- A stored document has fields that may be missing, `null` or present
  (`Presence`). JavaScript `||` fallbacks are written out with their
  falsy cases.

## Model

| member | source | states |
|---|---|---|
| Dates.DaysInMonth | src/composables/useCalendar.js:46-50 | a month has 28 to 31 days, and February has 29 exactly in leap years (divisible by 4 and not by 100, or by 400) |
| Dates.DaysBeforeNextMonth | src/composables/useCalendar.js:46-50 | the day before the first of month m+1 is the last day of month m: the day counts chain month by month |
| Dates.DaysBeforeNextYear | src/composables/useRecurringEvents.js:18-19 | a year spans exactly its 365 or 366 days in the day numbering |
| Dates.DayOfWeek | src/composables/useCalendar.js:53-57 | the weekday, as `getDay()` numbers it, is between 0 (Sunday) and 6 |
| Dates.NextDay | src/composables/useRecurringEvents.js:24 | `setDate(getDate() + 1)` yields a valid date |
| Dates.NextDayNumber | src/composables/useRecurringEvents.js:24 | the next day is exactly one day number later |
| Dates.PrevDayNumber | src/composables/useCalendar.js:66-71 | the previous day is one day number earlier, and the next day of the previous day is the day itself |
| Dates.NextDayWeekday | src/composables/useRecurringEvents.js:23-25 | stepping one day advances the weekday by one, wrapping Saturday to Sunday |
| Dates.AddDaysNumber | src/composables/useBirthdayEvents.js:74-75 | adding n days moves the day number by exactly n, in either direction |
| Dates.NextWeek | src/composables/useRecurringEvents.js:57 | `setDate(getDate() + 7)` lands seven day numbers later, on the same weekday |
| Dates.MakeDate | src/composables/useCalendar.js:60-110 | a `new Date(y, m, d)` whose month or day overflows still denotes a valid calendar date |
| Dates.MakeDateInRange | src/composables/useCalendar.js:82-91 | with month and day in range, `new Date(y, m, d)` is that date (month counted from 0) |
| Dates.DayZeroIsLastDay | src/composables/useCalendar.js:46-50 | day 0 of the following month is the last day of the month |
| Dates.AddDaysWithinMonth | src/composables/useCalendar.js:82-91 | adding days that stay within the month only changes the day field |
| Dates.SameWeekdayApart | src/composables/useRecurringEvents.js:28-58 | two distinct dates on the same weekday are at least seven days apart |
| Dates.InYear | src/composables/useRecurringEvents.js:18-19 | a date lies in year y exactly when its day number lies between those of Jan 1 and Dec 31 of y |
| Dates.DayNumberWithinYear | src/composables/useRecurringEvents.js:28 | a date's day number lies within its own year's span |
| Dates.DayNumberOrder | src/composables/useRecurringEvents.js:28 | comparing dates as `Date` objects agrees with comparing (year, month, day) lexicographically |
| Dates.DayNumberInjective | src/composables/useRecurringEvents.js:28 | distinct valid dates have distinct day numbers |
| Dates.ParseIsoDate | src/composables/useBirthdayEvents.js:71-82 | a successful parse of `YYYY-MM-DD` text gives a valid calendar date |
| Dates.DateValue | src/composables/useEventFilters.js:37-50 | the numeric value of a date string exists exactly when it parses, and is its day number |
| Dates.PaddedTwoDigits | src/composables/useCalendar.js:17-22 | `padStart(2, '0')` of 1..99 is two digits reading back as the number |
| Dates.FourDigitYear | src/composables/useCalendar.js:17-22 | a year from 1000 to 9999 prints as four digits reading back as the year |
| Dates.ParseFormatDate | src/composables/useCalendar.js:17-22 | parsing the formatted `YYYY-MM-DD` text of a valid date gives the date back |
| Dates.PrevDay | src/composables/useCalendar.js:62-66 | the day before a valid date is a valid date |
| Dates.AddDays | src/composables/useBirthdayEvents.js:74-75 | `setDate(getDate() + n)` gives a valid date |
| Dates.EndOfYear | src/composables/useRecurringEvents.js:19 | `new Date(y, 11, 31)` is December 31 of year `y` |
| Sorting.SortWith | src/composables/useMemberSorting.js:10-24 | sorting a copy returns a permutation of the input, of the same length |
| Sorting.SortSorted | src/composables/useMemberSorting.js:10-24 | with a consistent comparator the sorted copy is ordered: no later element compares smaller than an earlier one |
| Sorting.SortOfSorted | src/composables/useMemberSorting.js:10-24 | sorting an already ordered sequence changes nothing (stability) |
| Sorting.AllTiesKeepOrder | src/composables/useMemberSorting.js:12 | a comparator that reports 0 for every pair leaves the order unchanged |
| Sorting.SortByKey | src/api/eventsService.js:46-50 | sorting by a numeric key gives a sequence whose keys ascend |
| Sorting.SortByKeyDirected | src/composables/useMemberSorting.js:19-22 | sorting by a key and negating for descending order gives ascending or descending keys |
| Sorting.SortByTextDirected | src/composables/useMemberSorting.js:13-22 | sorting by `localeCompare` of a text key gives ascending keys, or descending ones when negated |
| Sorting.SortedNegated | src/composables/useMemberSorting.js:22 | sorted under the negated comparator means exactly the reversed order under the original |
| Sorting.SortStringsDistinct | src/composables/useMemberFilters.js:12-20 | a default `sort()` of distinct strings keeps the same strings and orders them strictly |
| Sorting.SameElements | src/composables/useMemberSorting.js:10 | a permutation has the same elements as the input |
| MembersService.StringOr | src/api/membersService.js:21-30 | `field \|\| fallback`: a non-empty string is kept; missing, null or empty gives the fallback |
| MembersService.StringOrNull | src/api/membersService.js:25 | `field \|\| null`: a non-empty string is kept, and anything else becomes null |
| MembersService.NormalizeId | src/api/membersService.js:19 | the id is a truthy `data.id`, else a non-zero `parseInt` of the document id, else the raw document id |
| MembersService.NormalizeMember | src/api/membersService.js:17-37 | each field takes its stored value or its default: sex "Male", civil status "Single", a null age when 0 or missing. `relatives` is always an object, `{}` when missing. `tags` is `[]` when not an array. `isMember` defaults to true only when absent; a stored value, null included, is kept. `firestoreId` is the document id |
| MembersService.NumericDocumentId | src/api/membersService.js:19 | a member document without `id` whose document id is a non-zero number gets that number as id |
| MembersService.NormalizeDocs | src/api/membersService.js:61-64 | each document becomes its normalised member, in snapshot order |
| MembersService.ProcessSnapshot | src/api/membersService.js:60-66 | snapshot members are a permutation of the normalised documents, ascending by numeric id when every id is numeric |
| MembersService.Delivered | src/api/membersService.js:60-78 | a snapshot delivers its members, and a subscription error delivers the empty list |
| MembersService.MemberUpdatePayload | src/api/membersService.js:99-102 | the payload holds every entry that is not `firestoreId` and not undefined, nothing else |
| MembersService.MemberUpdatePayloadOrder | src/api/membersService.js:99-102 | the payload keeps the entries in their original order |
| EventsService.BoolOrFalse | src/api/eventsService.js:28-29 | `flag \|\| false` is true exactly when the stored flag is true |
| EventsService.NormalizeEvent | src/api/eventsService.js:14-32 | the id falls back to the document id, and `firestoreId` is the document id. Defaults are type "worship", time "09:00", attendees 0 and icon "Calendar". `overrideOf` defaults to null, and `isOverride` and `isCancelled` to false |
| EventsService.PlainDocumentIsNoOverride | src/api/eventsService.js:27-29 | an event document without override fields normalises to one that overrides nothing and is not cancelled |
| EventsService.NormalizeEventDocs | src/api/eventsService.js:41-44 | each document becomes its normalised event, in snapshot order |
| EventsService.SortByDate | src/api/eventsService.js:46-50 | the sort by date is a permutation, ascending by date when every date parses |
| EventsService.ProcessEventSnapshot | src/api/eventsService.js:40-51 | snapshot events are a permutation of the normalised documents, in ascending date order |
| EventsService.DeliveredEvents | src/api/eventsService.js:38-57 | a snapshot delivers its events, and a subscription error delivers the empty list |
| EventsService.EventUpdatePayload | src/api/eventsService.js:76 | the update payload holds every entry except `firestoreId`, and no other entry |
| EventsService.EventsInMonth | src/composables/useRecurringEvents.js:125-130 | the month query returns exactly the events whose date falls in the given year and 0-based month |
| EventsService.FormattedDateInMonth | src/composables/useRecurringEvents.js:125-130 | an event dated by `YYYY-MM-DD` text is in (year, month) exactly when its date has that year and month + 1 |
| EventsService.InWindowRange | src/composables/useBirthdayEvents.js:71-82 | an event is in the window exactly when its date parses and lies between today and today + days, both inclusive |
| RecurringEvents.WeeklyDates | src/composables/useRecurringEvents.js:22-58 | the walk from `first` in steps of seven days, up to and including `last`, holds only valid dates |
| RecurringEvents.WeekdayOccurrence | src/composables/useRecurringEvents.js:4-7 | the occurrence is ceil(day / 7): the week of the month the day falls in, between 1 and 5 for days 1 to 31 |
| RecurringEvents.Weekday | src/composables/useRecurringEvents.js:23 | each series has a weekday: Sunday (0) for the service, Wednesday (3) for the prayer meeting |
| RecurringEvents.ExpectedAttendees | src/composables/useRecurringEvents.js:11 | the expected attendance is the number of members, or 0 when there is no member list |
| RecurringEvents.Occurrence | src/composables/useRecurringEvents.js:29-53 | an occurrence's id is the series prefix followed by its date, and its date is the padded `YYYY-MM-DD` text. It is virtual with no `firestoreId`, and carries the expected attendance |
| RecurringEvents.DaysUntil | src/composables/useRecurringEvents.js:23-25 | the forward distance between two weekdays is under 7, and 0 exactly when they coincide |
| RecurringEvents.FirstWeekday | src/composables/useRecurringEvents.js:22-25 | the day-by-day search stops at the first date on or after Jan 1 with the wanted weekday |
| RecurringEvents.WeeklyDatesAt | src/composables/useRecurringEvents.js:28-58 | the k-th date of the weekly walk is 7k days after the first, not after Dec 31, and on the same weekday |
| RecurringEvents.WeeklyDatesNext | src/composables/useRecurringEvents.js:57 | consecutive dates of the walk are one `+7` step apart |
| RecurringEvents.WeeklyDatesCount | src/composables/useRecurringEvents.js:28 | the walk has (last - first) / 7 + 1 dates, or none when it starts after the end |
| RecurringEvents.WeeklyDatesComplete | src/composables/useRecurringEvents.js:28-58 | every date between first and last on the first date's weekday is visited |
| RecurringEvents.GenerateSeries | src/composables/useRecurringEvents.js:13-61 | the two loops (find the first weekday, then step a week at a time up to Dec 31) emit exactly the series' events for the year |
| RecurringEvents.EmitWeekly | src/composables/useRecurringEvents.js:27-58 | stepping a week at a time from the first weekday while on or before the end date pushes exactly the qualifying, non-overridden occurrence of each visited date, in date order |
| RecurringEvents.RecurringEvents | src/composables/useRecurringEvents.js:120-122 | all Sunday services come first, followed by all prayer meetings |
| RecurringEvents.SeriesDatesExact | src/composables/useRecurringEvents.js:18-28 | the dates visited are exactly the dates of the current year on the series' weekday |
| RecurringEvents.SeriesSpacing | src/composables/useRecurringEvents.js:57 | consecutive visited dates are exactly 7 days apart |
| RecurringEvents.SeriesCount | src/composables/useRecurringEvents.js:18-28 | a year has 52 or 53 dates on any given weekday |
| RecurringEvents.NoOverridesAllSundays | src/composables/useRecurringEvents.js:28-58 | with no override stored, every Sunday of the year has its service event |
| RecurringEvents.NoOverridesCount | src/composables/useRecurringEvents.js:18-58 | with no override stored, there is one service event per Sunday of the year: as many as the visited Sundays, which is 52 or 53 |
| RecurringEvents.SeriesEmits | src/composables/useRecurringEvents.js:36-38 | an occurrence that qualifies and is not overridden is emitted |
| RecurringEvents.SeriesEventFacts | src/composables/useRecurringEvents.js:80-92 | every emitted event is the occurrence of a date in the year on the right weekday whose id is not overridden. A prayer meeting is never on days 1 to 7 |
| RecurringEvents.OverrideSuppresses | src/composables/useRecurringEvents.js:36-37 | a qualifying occurrence is emitted exactly when no stored event's `overrideOf` names its id |
| RecurringEvents.OccurrenceDate | src/composables/useRecurringEvents.js:29-33 | the id and date text determine the date: different dates in a year give different events |
| RecurringEvents.OccurrenceInMonth | src/composables/useRecurringEvents.js:125-130 | an emitted occurrence is in the month query exactly when its year and month match |
| BirthdayEvents.BirthDateParts | src/composables/useBirthdayEvents.js:23-24 | a birth date yields parts only when it splits on `-` into at least three segments whose numbers are all non-zero |
| BirthdayEvents.MemberKey | src/composables/useBirthdayEvents.js:27 | the id key is `firestoreId` when it is non-empty, and otherwise the member's id |
| BirthdayEvents.MemberRef | src/composables/useBirthdayEvents.js:53 | the event's `memberId` is `firestoreId \|\| id` |
| BirthdayEvents.DisplayName | src/composables/useBirthdayEvents.js:37 | the name shown is the nickname when present, else the first name |
| BirthdayEvents.BirthdayEvent | src/composables/useBirthdayEvents.js:26-56 | the event has id `birthday-<key>-<year>` and is dated `currentYear-MM-DD`. Its turning age is the current year minus the birth year. It is titled with the display name, and is a virtual 06:00 celebration |
| BirthdayEvents.BirthdayEvents | src/composables/useBirthdayEvents.js:7-60 | the `forEach` loop pushes exactly the events that the specification function produces, in member order |
| BirthdayEvents.BirthdaysSound | src/composables/useBirthdayEvents.js:19-31 | every birthday event comes from a member with a parseable birth date whose id is not overridden. An empty or missing list gives none |
| BirthdayEvents.BirthdaysComplete | src/composables/useBirthdayEvents.js:19-56 | every member with a parseable, non-overridden birth date has its event |
| BirthdayEvents.OverriddenBirthdayOmitted | src/composables/useBirthdayEvents.js:30-31 | an event whose id some stored `overrideOf` names is never emitted |
| BirthdayEvents.BirthDatePartsOfIsoDate | src/composables/useBirthdayEvents.js:23-24 | a stored `YYYY-MM-DD` birth date yields its own year, month and day |
| BirthdayEvents.PartsOfDashed | src/composables/useBirthdayEvents.js:23-24 | three non-zero digit segments joined by `-` parse to their numbers |
| BirthdayEvents.BirthdayOnAnniversary | src/composables/useBirthdayEvents.js:26-34 | the event falls on the birthday in the current year, and its turning age is the age reached that day |
| BirthdayEvents.BirthdayInMonth | src/composables/useBirthdayEvents.js:63-68 | a member's birthday is among the month's events exactly when the month is the birth month of the current year |
| BirthdayEvents.UpcomingBirthdays | src/composables/useBirthdayEvents.js:71-84 | the upcoming list holds exactly the events dated in [today, today + days], ascending by date |
| BirthdayEvents.PermutedWindow | src/composables/useBirthdayEvents.js:71-84 | any permutation of the filtered events holds exactly the in-window events |
| BirthdayEvents.TodaysBirthdays | src/composables/useBirthdayEvents.js:87-90 | today's birthdays are exactly the events whose date text equals today's |
| BirthdayEvents.BirthdayToday | src/composables/useBirthdayEvents.js:87-90 | a member's birthday event is in today's list exactly when today is their birthday in the current year |
| FamilyGroups.LastIndex | src/composables/useFamilyGroups.js:12 | `new Map(members.map(m => [m.id, m]))` keeps the last member with each id: the index found holds the id, no later entry does, and -1 means no entry does |
| FamilyGroups.Lookup | src/composables/useFamilyGroups.js:23 | the map lookup finds a member with that id, the last one in the list, and finds none exactly when no member has it |
| FamilyGroups.Enqueue | src/composables/useFamilyGroups.js:28-31 | adding a linked, unvisited id to `family` and the queue keeps the search invariant: distinct ids, each reached by a link from an earlier one, all within the finite set of ids in play |
| FamilyGroups.FamilyBound | src/composables/useFamilyGroups.js:18-32 | the visited set never outgrows the ids named by the members, so each id is enqueued at most once and the search ends even on cyclic `relatives` |
| FamilyGroups.FollowRelatives | src/composables/useFamilyGroups.js:27-32 | after the loop over the current member's own relatives, every relative id is in `family`, earlier entries are kept, and the search invariant holds |
| FamilyGroups.FollowReferrers | src/composables/useFamilyGroups.js:34-43 | after the loop over all members, every member whose `relatives` names the current id is in `family`; the search uses the whole member list, not only the filtered one |
| FamilyGroups.ReferrerLinked | src/composables/useFamilyGroups.js:36-39 | a member that names the current id is linked to it, and is an id in play |
| FamilyGroups.Household | src/composables/useFamilyGroups.js:18-44 | the search from a member returns distinct ids starting with that member, closed under links in both directions, each reached from the start |
| FamilyGroups.HouseholdLeast | src/composables/useFamilyGroups.js:18-44 | the household is the least closed set: it lies within every link-closed set of ids that holds the start |
| FamilyGroups.LinkedSymmetric | src/api/membersService.js:31 | when every member has a `relatives` object, a link from a to an existing member b implies a link from b to a |
| FamilyGroups.ReachBack | src/composables/useFamilyGroups.js:27-43 | with `relatives` objects everywhere, a closed set holding any existing member of a household also holds its start |
| FamilyGroups.GroupIdsMembership | src/composables/useFamilyGroups.js:55-58 | an id is grouped exactly when some group has a member with that id |
| FamilyGroups.GroupIdsPermuted | src/composables/useFamilyGroups.js:73-87 | reordering the groups changes no group membership |
| FamilyGroups.DisjointSnoc | src/composables/useFamilyGroups.js:55-59 | a new group sharing no id with earlier groups keeps the groups pairwise disjoint |
| FamilyGroups.DisjointPermuted | src/composables/useFamilyGroups.js:73-87 | sorting the groups keeps them disjoint |
| FamilyGroups.ResolveSound | src/composables/useFamilyGroups.js:46-48 | each resolved member comes from `family`, taken from the filtered map first and the full map otherwise |
| FamilyGroups.ResolveComplete | src/composables/useFamilyGroups.js:46-48 | every id in the family that some member carries is resolved; ids with no member are silently dropped |
| FamilyGroups.FamilyMembersCover | src/composables/useFamilyGroups.js:46-57 | the group built from a family holds every id of the family that resolves |
| FamilyGroups.FamilyFresh | src/composables/useFamilyGroups.js:16-59 | a household searched from an unprocessed member shares no id with earlier groups, as long as members carry `relatives` objects |
| FamilyGroups.ClosedUnion | src/composables/useFamilyGroups.js:59 | marking a closed household as processed keeps the processed set closed |
| FamilyGroups.KeepFamily | src/composables/useFamilyGroups.js:52-60 | pushing a retained household, with its first member's id as group id, and marking its ids processed, preserves the grouping invariant |
| FamilyGroups.DropFamily | src/composables/useFamilyGroups.js:52-54 | when a searched household is not kept, the filtered member it started from has no `relatives` value |
| FamilyGroups.NotRetainedAlone | src/composables/useFamilyGroups.js:54 | a family with a filtered member is dropped only when it is that one member and it has no `relatives` value |
| FamilyGroups.SortFamilyOrdered | src/composables/useFamilyGroups.js:50 | the family members are ordered by `sortFamilyMembers` |
| FamilyGroups.HouseholdMembers | src/composables/useFamilyGroups.js:46-50 | the group's members are a permutation of the resolved family, in `sortFamilyMembers` order |
| FamilyGroups.KeepStep | src/composables/useFamilyGroups.js:52-60 | a kept household advances the first pass by one filtered member |
| FamilyGroups.DropStep | src/composables/useFamilyGroups.js:52-54 | a dropped household advances the first pass without changing groups or processed ids |
| FamilyGroups.ProcessedStep | src/composables/useFamilyGroups.js:16 | a member already processed is skipped without another search |
| FamilyGroups.GroupHouseholds | src/composables/useFamilyGroups.js:15-61 | after the first pass every group is non-empty, named after its first member, holds a filtered member and is in `sortFamilyMembers` order. Each group is the household of a filtered member: its members are a permutation of the resolved ids of a link-closed set found by the search from that member, and it has more than one member or one with a `relatives` value. Every filtered member is processed or stands alone without `relatives`, and every processed id that resolves is grouped |
| FamilyGroups.HouseholdClosed | src/composables/useFamilyGroups.js:18-48 | a household group is closed under links: when a member of the group is linked to an id that resolves to a member, that member is in the same group, so linked members are never split into two groups |
| FamilyGroups.SecondPassStart | src/composables/useFamilyGroups.js:63 | the state after the first pass starts the singleton pass |
| FamilyGroups.SingletonGrouping | src/composables/useFamilyGroups.js:64-69 | pushing an unprocessed member as a one-member group keeps the grouping invariant |
| FamilyGroups.SingletonStep | src/composables/useFamilyGroups.js:63-71 | an unprocessed member with no or empty `relatives` becomes a singleton group |
| FamilyGroups.SkipStep | src/composables/useFamilyGroups.js:63-71 | any other filtered member adds no group |
| FamilyGroups.AddSingletons | src/composables/useFamilyGroups.js:63-71 | the second pass only appends groups of exactly one filtered member that has no or empty `relatives` |
| FamilyGroups.LeadBirthKey | src/composables/useFamilyGroups.js:84 | a group whose first member has no birth date sorts as the epoch, and an empty date is invalid |
| FamilyGroups.SortGroups | src/composables/useFamilyGroups.js:73-87 | sorting the groups permutes them |
| FamilyGroups.SortGroupsByName | src/composables/useFamilyGroups.js:77-80 | by "name", groups ascend by the lower-cased full name of their first member, or descend when the order is not "asc" |
| FamilyGroups.SortGroupsByAge | src/composables/useFamilyGroups.js:81-82 | by "age", groups ascend by their first member's age, or descend |
| FamilyGroups.SortGroupsByBirth | src/composables/useFamilyGroups.js:83-84 | by "dateOfBirth", with valid dates, groups ascend by their first member's birth date, or descend |
| FamilyGroups.SortGroupsUnknownKey | src/composables/useFamilyGroups.js:76 | any other key compares as 0 and keeps the order |
| FamilyGroups.SortGroupsOrdered | src/composables/useFamilyGroups.js:73-87 | the sorted groups are ordered by the key of their first member in the direction asked |
| FamilyGroups.FamilyGroupsOf | src/composables/useFamilyGroups.js:4-90 | grouping off gives no groups. Otherwise every filtered member is grouped, each group is well formed and in `sortFamilyMembers` order, and the groups are ordered. Each group is either a retained household of a filtered member (a permutation of the resolved ids of a link-closed set found by the search from it) or a single filtered member with no or empty `relatives`. When every member has a `relatives` object, no member is in two groups |
| MemberSorting.AgeKey | src/composables/useMemberSorting.js:18 | a missing age sorts as 0 |
| MemberSorting.BirthKey | src/composables/useMemberSorting.js:20 | a missing or empty birth date sorts as the epoch |
| MemberSorting.SortMembers | src/composables/useMemberSorting.js:9-25 | the sorted copy is a permutation of the input |
| MemberSorting.SortMembersByName | src/composables/useMemberSorting.js:13-16 | by "name", members ascend by lower-cased full name, and descending order is the mirror image |
| MemberSorting.SortMembersByAge | src/composables/useMemberSorting.js:17-18 | by "age", members ascend by age (missing as 0), or descend |
| MemberSorting.SortMembersByBirth | src/composables/useMemberSorting.js:19-20 | by "dateOfBirth", with valid dates, members ascend by birth date, or descend |
| MemberSorting.SortMembersUnknownKey | src/composables/useMemberSorting.js:12 | an unknown key keeps the input order |
| MemberSorting.SortFamilyMembers | src/composables/useMemberSorting.js:28-47 | the sorted family is a permutation of the input |
| MemberSorting.SortFamilyByName | src/composables/useMemberSorting.js:33-36 | by "name", family members ascend by full name |
| MemberSorting.SortFamilyByAge | src/composables/useMemberSorting.js:37-39 | by "age", the oldest comes first, whatever `sortOrder` says |
| MemberSorting.SortFamilyByBirth | src/composables/useMemberSorting.js:40-41 | by "dateOfBirth", with valid dates, family members ascend by birth date |
| MemberSorting.SortFamilyUnknownKey | src/composables/useMemberSorting.js:32 | an unknown key keeps the input order |
| Markdown.IndentLevel | src/utils/markdownUtils.js:18-21 | the indent level is the leading white space halved and rounded down |
| Markdown.SeparatorIsNoRow | src/utils/markdownUtils.js:30-36 | a separator line such as `\|---\|` is never a table row |
| Markdown.ClassifyTable | src/utils/markdownUtils.js:79-102 | the line classifier meets the table tests exactly: a trimmed line is taken as a row iff `isTableRow` holds, and as a separator iff `isTableSeparator` holds |
| Markdown.NotHeading | src/utils/markdownUtils.js:50-79 | a line that starts with `\|` never matches a heading pattern, so table rows are not taken as headings |
| Markdown.NextLine | src/utils/markdownUtils.js:53-55 | each step moves forward by one line, or by two when a heading swallows the blank line after it, and never past the end |
| Markdown.ExpectedStep | src/utils/markdownUtils.js:38-154 | emitting one line's tokens and then the rest of the document gives the same content as the document from that line |
| Markdown.Snoc | src/utils/markdownUtils.js:14-16 | pushing one entry onto `processedLines` updates the open-list stack, the open-table flag and the visible content by exactly that entry |
| Markdown.CloseListsToLevel | src/utils/markdownUtils.js:23-28 | the stack is cut down to `targetLevel` lists, and one closing tag of the right kind is emitted for each list popped, innermost first. The table state and the content stay the same |
| Markdown.ClosersCons | src/utils/markdownUtils.js:24-27 | the outermost list is closed last |
| Markdown.Repeat | src/utils/markdownUtils.js:117-123 | the lists opened are `n` lists, all of the item's kind |
| Markdown.OpenListsToLevel | src/utils/markdownUtils.js:117-123 | lists of the item's kind are opened until `level + 1` are open; the tags stay balanced |
| Markdown.ListItem | src/utils/markdownUtils.js:112-143 | after a bullet or numbered item, exactly `indentLevel + 1` lists are open: the outer ones are kept and the rest are new lists of the item's kind. The content gains exactly the item |
| Markdown.TableRow | src/utils/markdownUtils.js:84-96 | a table row appends exactly a `<tr>`, its cells as `<th>` for a header row or as `<td>`, and `</tr>`, and nothing else; the table stays open and the list state is unchanged |
| Markdown.CellTokensAt | src/utils/markdownUtils.js:89-95 | cell `k` of a row holds the `k`-th non-empty cell text |
| Markdown.EmitRow | src/utils/markdownUtils.js:79-96 | a row line appends `<table>` only when no table is open, then its row, and nothing else |
| Markdown.EmitLine | src/utils/markdownUtils.js:49-153 | headings, rules and text lines close every open list; rows, separators and blank lines keep the lists; items leave `indentLevel + 1` lists open. A row appends exactly `<table>` when none is open, then the row; a separator appends nothing; no other line emits a table token |
| Markdown.EndTableUnless | src/utils/markdownUtils.js:43-47 | an open table is closed exactly when the line is neither a row nor a separator |
| Markdown.ProcessLine | src/utils/markdownUtils.js:38-154 | one pass of the loop emits exactly that line's tokens and moves to the next line; a row line appends exactly `<table>` when none is open and then its row, a separator appends nothing, and the table tokens advance as `TableExpected` says; the table is open afterwards iff the line is a row, or a separator inside an open table |
| Markdown.TableExpectedStep | src/utils/markdownUtils.js:43-102 | one line's table tokens followed by the rest of the text's table tokens are the table tokens from that line on |
| Markdown.RenderLines | src/utils/markdownUtils.js:38-162 | after the final closes, every `<ul>`/`<ol>` is closed in the right order and no table is left open; the content is every line's tokens in order; the table tokens are exactly `TableExpected`: a `<table>` before the first row of each run of rows and separators, `</table>` at the first other line or at the end |
| Markdown.RowRun | src/utils/markdownUtils.js:43-96 | a run of consecutive row lines lies in one table: one `<table>` before the first row unless a table is already open, then the rows, with no `</table>` or second `<table>` until the run ends |
| Markdown.RowTokens | src/utils/markdownUtils.js:84-96 | the tokens of a run of rows are row brackets and cells only |
| Markdown.MarkdownToHtml | src/utils/markdownUtils.js:2-173 | empty input gives `""`; input holding both `<` and `>` is returned unchanged; any other input is split on newlines and rendered with balanced tags, one table per run of rows, then inline formatting is applied |
| Export.Optional | src/utils/exportUtils.js:24-44 | a filter applied only when it is set is the same as one filter that passes everything when it is unset |
| Export.Stages | src/utils/exportUtils.js:20-47 | `applyFilters` is the tag, member-status, sex and civil-status filters applied in that order |
| Export.FourFilters | src/utils/exportUtils.js:20-47 | four filters in a row keep exactly the members that pass all four |
| Export.ApplyFiltersIsFilter | src/utils/exportUtils.js:20-47 | `applyFilters` is a single filter by the combined test |
| Export.ApplyFiltersKeeps | src/utils/exportUtils.js:20-47 | the result keeps the input order, and a member is in it iff it is in the input and passes every set filter |
| Export.ValueOrder | src/utils/exportUtils.js:74-76 | the comparison gives -1, 0 or 1. Two texts compare as equal only when they are equal, and two numbers by their values. A number and a text compare as JavaScript's `<` and `>` do: the text is converted with `Number`, and a text that is not a number makes both tests false |
| Export.MixedIdOrder | src/utils/exportUtils.js:74-76 | example: the number 5 sorts before the text "12", and a number and the text "x" compare as equal |
| Export.ValueOrderAntisymmetric | src/utils/exportUtils.js:74-76 | swapping the two values negates the comparison |
| Export.ValueOrderTransitive | src/utils/exportUtils.js:74-76 | on values of one kind, the comparison is transitive |
| Export.ExportOrderConsistent | src/utils/exportUtils.js:53-77 | when every sort value has the same kind, the `sortMembers` comparator is a consistent total preorder, in either direction |
| Export.ExportSort | src/utils/exportUtils.js:50-80 | the sorted list is a permutation of the input; when the key values share one kind, it ascends for "asc" and descends otherwise |
| Export.SortedDirection | src/utils/exportUtils.js:74-76 | a list sorted by the comparator ascends by the key for "asc" and descends for any other order |
| Export.KindOfKey | src/utils/exportUtils.js:56-72 | for the name, date and text keys, every member's sort value is text, so the sort is well defined |
| Export.UnknownKeyKeepsOrder | src/utils/exportUtils.js:69-71 | a key no member has gives `""` for everyone, so the stable sort keeps the input order |
| Export.FieldIndex | src/utils/exportUtils.js:2-17 | every field has a position among the 14 available fields |
| Export.AvailableFields | src/utils/exportUtils.js:2-17 | there are 14 available fields, in their declared order |
| Export.LabelPlain | src/utils/exportUtils.js:125-127 | no column label holds a comma, a quote or a newline, so the unescaped header joins into a valid CSV record |
| Export.PlainLetters | src/utils/exportUtils.js:103 | text of letters and spaces needs no quoting |
| Export.FieldText | src/utils/exportUtils.js:88-99 | "Is Member" is "Yes" exactly when `isMember` is true and "No" otherwise; a missing date of birth or age is written as `""`; tags are joined with ", " |
| Export.Labels | src/utils/exportUtils.js:125-127 | the header has one label for each exported column, in column order |
| Export.Values | src/utils/exportUtils.js:86-109 | a member's row has one value per exported column |
| Export.ValuesAt | src/utils/exportUtils.js:86-109 | the value in column `k` is the text of that column's field |
| Export.Available | src/utils/exportUtils.js:2-17 | every field of the model is one of the available fields |
| Export.ColumnsNonEmpty | src/utils/exportUtils.js:86-87 | at least one column is exported iff at least one field is selected |
| Export.MemberToCsvRow | src/utils/exportUtils.js:83-112 | the row is the selected fields' values, in the order of the available fields, each escaped, joined by commas |
| Export.SnocValues | src/utils/exportUtils.js:86-109 | handling one more field appends exactly that field's escaped value |
| Export.Records | src/utils/exportUtils.js:130 | there is one record per exported member |
| Export.RecordsWidth | src/utils/exportUtils.js:130 | every record has one value per column |
| Export.RecordsAt | src/utils/exportUtils.js:130 | record `i` is the values of member `i` |
| Export.CsvRows | src/utils/exportUtils.js:130 | the rows are the CSV encodings of the members' records, in export order |
| Export.EncodedRows | src/utils/exportUtils.js:130 | rows that each encode their member's record are the encoding of all records |
| Export.ExportToCsv | src/utils/exportUtils.js:115-133 | the text is the header and the members' records, filtered when asked and then sorted, encoded as CSV lines joined by newlines; when a field is selected, parsing the text gives back exactly the header and the records |
| Export.DataToExport | src/utils/exportUtils.js:117-122 | the exported members are the filtered list when current filters are used and the whole list otherwise, then sorted |
| Export.CsvText | src/utils/exportUtils.js:125-133 | joining the plain header with the rows is the CSV encoding of the header and the records, and it parses back when there is a column |
| Export.CsvLines | src/utils/exportUtils.js:133 | the header line followed by the rows is the encoding of the header record followed by the member records |
| Export.NonEmptyRecords | src/utils/exportUtils.js:125-130 | with a column selected, no record of the file is empty |
| Export.ReadBack | src/utils/exportUtils.js:133 | CSV text built from records that are not empty parses back to those records |
| Export.HeaderPlain | src/utils/exportUtils.js:125-127 | the header needs no escaping: joining the labels gives their CSV encoding |
| Csv.DoubleQuotes | src/utils/exportUtils.js:104 | doubling quotes never shortens a value, and a value without quotes is unchanged |
| Csv.Escape | src/utils/exportUtils.js:102-107 | a value with no comma, quote or newline is written as it is; any other value is wrapped in quotes |
| Csv.EscapeAll | src/utils/exportUtils.js:86-109 | each value is escaped on its own, one output per value |
| Csv.EscapeAllSnoc | src/utils/exportUtils.js:86-109 | escaping one more value appends exactly its escaped form |
| Csv.EscapeAllPlain | src/utils/exportUtils.js:103 | values that need no quoting are written unchanged |
| Csv.EncodeRecords | src/utils/exportUtils.js:130 | one CSV line per record |
| Csv.EncodeRecordsAt | src/utils/exportUtils.js:130 | line `i` encodes record `i` |
| Csv.ParseQuoted | src/utils/exportUtils.js:104 | reading a quoted field, with `""` standing for one quote as in section 2 of RFC 4180, always consumes input |
| Csv.ParseBare | src/utils/exportUtils.js:106 | an unquoted field runs up to the next comma or newline, and nothing is lost |
| Csv.ParseField | src/utils/exportUtils.js:102-107 | reading one field never grows the input |
| Csv.BareRoundTrip | src/utils/exportUtils.js:103-106 | a value written without quotes reads back as itself, up to the next separator |
| Csv.QuotedRoundTrip | src/utils/exportUtils.js:103-104 | a value written with its quotes doubled and a closing quote reads back as itself |
| Csv.FieldRoundTrip | src/utils/exportUtils.js:102-107 | every escaped value, followed by a separator or the end, reads back as the original value |
| Csv.QuotedField | src/utils/exportUtils.js:104 | a field that starts with a quote is read as a quoted field |
| Csv.BareField | src/utils/exportUtils.js:106 | a field without quotes is read as a bare field |
| Csv.RecordRoundTrip | src/utils/exportUtils.js:111 | an encoded record, followed by a newline or the end, reads back as its values |
| Csv.RoundTrip | src/utils/exportUtils.js:130-133 | the newline-joined encoding of non-empty records parses back to exactly those records, including values holding commas, quotes or newlines |
| Csv.JoinRecords | src/utils/exportUtils.js:133 | joining two or more lines is the first line, a newline and the join of the rest |
| Minutes.NonEmptyOnlyIsFilter | src/utils/minutesEnhancer.js:90 | dropping empty lines is a filter that keeps the lines of length at least one |
| Minutes.TrimTwice | src/utils/minutesEnhancer.js:89-90 | trimming is idempotent, so trimming the notes first changes no line |
| Minutes.CleanLinesShape | src/utils/minutesEnhancer.js:89-90 | every clean line is non-empty and already trimmed; the lines keep the notes' order, and a text is a clean line iff it is a non-empty trimmed line of the notes |
| Minutes.LinesTrimmed | src/utils/minutesEnhancer.js:90 | every kept line is non-empty and trimmed |
| Minutes.LinesMembers | src/utils/minutesEnhancer.js:90 | a text is kept iff it is non-empty and is some input line trimmed |
| Minutes.BucketIsFirstMatch | src/utils/minutesEnhancer.js:102-121 | a line goes to the first bucket whose cue it matches, tried as decision, action, key point; a line matching none is discussion |
| Minutes.BucketedSnoc | src/utils/minutesEnhancer.js:98-122 | handling one more line appends it to its own bucket and to no other |
| Minutes.SortLines | src/utils/minutesEnhancer.js:93-122 | each of the four lists holds exactly the lines of its bucket, in note order |
| Minutes.BucketsPartition | src/utils/minutesEnhancer.js:98-122 | the four lists together are a permutation of the lines: every line lands in exactly one list |
| Minutes.ClassPartition | src/utils/minutesEnhancer.js:98-122 | splitting by any four-way classification loses and duplicates no line |
| Minutes.OneBucket | src/utils/minutesEnhancer.js:98-122 | a line of the notes is in its own bucket and in no other |
| Minutes.StripBullet | src/utils/minutesEnhancer.js:139 | removing a leading `-`, `•` or `*` with its spaces leaves a suffix; a line without a bullet is unchanged |
| Minutes.StripLabel | src/utils/minutesEnhancer.js:159 | removing a leading label with its colon and spaces leaves a suffix; a line without a label is unchanged |
| Minutes.DecisionLabelDropped | src/utils/minutesEnhancer.js:159 | a decision starting with "decision:" or "decided:", in any case, loses that label; any other decision is only trimmed |
| Minutes.TrimStartTrim | src/utils/minutesEnhancer.js:139 | trimming after trimming the start is the same as trimming |
| Minutes.Take | src/utils/minutesEnhancer.js:129-130 | `slice(0, n)` keeps the first `n` entries, or all of them when there are fewer |
| Minutes.Shorten | src/utils/minutesEnhancer.js:129-130 | text of at most 200 characters is kept; longer text becomes its first 200 characters and "..."; the result is empty iff the text is |
| Minutes.JoinTake | src/utils/minutesEnhancer.js:129-130 | the join of the first `n` lines is a prefix of the join of all lines |
| Minutes.PrefixExtend | src/utils/minutesEnhancer.js:129-130 | a prefix stays a prefix when both are extended on the left |
| Minutes.JoinNonEmpty | src/utils/minutesEnhancer.js:128-132 | a join whose first part is non-empty is non-empty |
| Minutes.SummaryFromLines | src/utils/minutesEnhancer.js:128-132 | the summary is drawn from the start of the discussion lines, or of the key points when there is no discussion. It is the fallback sentence exactly when both lists are empty, and otherwise the shortened text |
| Minutes.HeadHtml | src/utils/minutesEnhancer.js:136-180 | every section starts with a heading |
| Minutes.SectionHtml | src/utils/minutesEnhancer.js:135-181 | the discussion and key-point sections are left out exactly when they have no lines; decisions and action items are always present; a section with lines opens a list under its heading |
| Minutes.AppendItems | src/utils/minutesEnhancer.js:137-141 | the items are appended in order, each cleaned and wrapped in `<li>` |
| Minutes.AppendSection | src/utils/minutesEnhancer.js:135-181 | one section's HTML is appended |
| Minutes.EnhanceWithSimpleModel | src/utils/minutesEnhancer.js:87-184 | the formatted minutes are the minutes of the clean lines of the notes |
| Minutes.FormatLines | src/utils/minutesEnhancer.js:124-183 | the output is the summary, then the discussion, key-point, decision and action sections, in that order |
| Minutes.SectionsPresent | src/utils/minutesEnhancer.js:125-181 | the output starts with the summary heading and paragraph, always holds the decision and action headings, and opens a discussion or key-point list whenever that bucket has lines |
| Minutes.FiveParts | src/utils/minutesEnhancer.js:125-181 | the five parts of the output nest as the appends build them |
| Minutes.ContainsPart | src/utils/minutesEnhancer.js:125-181 | text that starts a part of the output occurs in the output |
| Minutes.EnhanceWithHF | src/utils/minutesEnhancer.js:13-78 | missing or blank notes are refused with "No notes provided to enhance"; otherwise a non-empty reply from the service is returned, and any failure or empty reply falls back to the local formatter |
| MemberFilters.AddNew | src/composables/useMemberFilters.js:16 | adding a tag the set lacks keeps it duplicate-free and adds exactly that tag |
| MemberFilters.AllTags | src/composables/useMemberFilters.js:12-20 | the list holds every tag of every member and nothing else, each once, in strictly increasing order of code points |
| MemberFilters.InactiveIsDefault | src/composables/useMemberFilters.js:70-77 | no filter is active iff the filters equal the initial state; an empty-string sex or civil status counts as active |
| MemberFilters.Stages | src/composables/useMemberFilters.js:23-67 | the filtered list is the search, then the tag, status, sex and civil-status filters, in that order |
| MemberFilters.SearchStep | src/composables/useMemberFilters.js:27-37 | the search runs only for a non-empty query and matches the lower-cased query in the name, nickname, contact number, address or occupation |
| MemberFilters.TagStep | src/composables/useMemberFilters.js:40-45 | with tags selected, a member is kept iff it has one of them |
| MemberFilters.StatusStep | src/composables/useMemberFilters.js:48-52 | a set member status keeps exactly the members with that status |
| MemberFilters.SexStep | src/composables/useMemberFilters.js:55-57 | a non-empty sex keeps exactly the members of that sex |
| MemberFilters.CivilStatusStep | src/composables/useMemberFilters.js:60-64 | a non-empty civil status keeps exactly the members with that status |
| MemberFilters.StagesCombined | src/composables/useMemberFilters.js:40-64 | the four filters are one filter by their conjunction |
| MemberFilters.SearchThenFilters | src/composables/useMemberFilters.js:23-67 | the search followed by the filters is one filter by the combined test |
| MemberFilters.FilteredIsFilter | src/composables/useMemberFilters.js:23-67 | `filteredMembers` is a single filter by the combined test |
| MemberFilters.FilteredKeeps | src/composables/useMemberFilters.js:23-67 | the filtered list keeps the directory's order, and a member is in it iff it is in the directory and passes the search and every set filter |
| MemberFilters.NothingSetShowsAll | src/composables/useMemberFilters.js:4-9 | with no query and the initial filters, every member is shown in order |
| MemberFilters.IndexOf | src/composables/useMemberFilters.js:91 | `indexOf` gives -1 iff the tag is absent, and otherwise the first position holding it |
| MemberFilters.ToggleFlips | src/composables/useMemberFilters.js:90-97 | toggling flips whether that tag is selected, leaves every other tag as it was and keeps the tags duplicate-free |
| MemberFilters.ToggleTwice | src/composables/useMemberFilters.js:90-97 | toggling a tag twice restores the selected set, and restores the list exactly when the tag was not selected |
| MemberFilters.FilterState.constructor | src/composables/useMemberFilters.js:4-9 | filters start empty: no tags, and no status, sex or civil status |
| MemberFilters.FilterState.ClearFilters | src/composables/useMemberFilters.js:80-87 | the filters return to the initial state, so none is active |
| MemberFilters.FilterState.ToggleTag | src/composables/useMemberFilters.js:90-97 | only the tag list changes: the tag is removed when present and appended otherwise |
| MemberForm.Missing | src/composables/useMemberForm.js:32-38 | nothing is missing iff the member can be added; the missing fields come in the order first name, last name, gender |
| MemberForm.MissingMembers | src/composables/useMemberForm.js:34-36 | a required field is listed iff it is blank: a first or last name that trims to empty, or an empty gender |
| MemberForm.SubsequenceOfChoices | src/composables/useMemberForm.js:33-36 | the three optional pushes keep the fields' fixed order |
| MemberForm.RequiredLabels | src/composables/useMemberForm.js:39 | one label per missing field, each the label of that field, in order |
| MemberForm.Tooltip | src/composables/useMemberForm.js:26-40 | the tooltip is empty iff the form can be submitted; otherwise it is "Please fill in: " followed by the labels of the missing fields joined with ", " |
| MemberForm.MaxId | src/composables/useMemberForm.js:59 | the largest numeric id, counting text ids through `parseInt` and unreadable ones as 0, and never below 0 |
| MemberForm.NextIdFresh | src/composables/useMemberForm.js:58-60 | the new id is at least 1, above every member's numeric id, and one more than the largest |
| MemberForm.KeyIndex | src/composables/useMemberForm.js:62-78 | the record's properties are 15 keys in declaration order |
| MemberForm.KeyIndexAt | src/composables/useMemberForm.js:62-78 | each position names its own key |
| MemberForm.KeyAtInjective | src/composables/useMemberForm.js:62-78 | no key appears twice in the record |
| MemberForm.FieldValues | src/composables/useMemberForm.js:62-78 | the record's values, one per key in declaration order |
| MemberForm.Assemble | src/composables/useMemberForm.js:62-78 | pairs each key with its value, in order |
| MemberForm.DropUndefined | src/composables/useMemberForm.js:81-85 | the loop keeps exactly the properties that are defined, plus `image` whatever its value, in order |
| MemberForm.NullImage | src/composables/useMemberForm.js:88-90 | only the image changes, and it becomes `null` |
| MemberForm.KeptField | src/composables/useMemberForm.js:81-85 | a property that survives has the value the literal gave it |
| MemberForm.CleanedNoUndefined | src/composables/useMemberForm.js:81-90 | after the clean-up no property is undefined |
| MemberForm.CleanedKeeps | src/composables/useMemberForm.js:81-85 | every defined property other than the image survives |
| MemberForm.CleanedImage | src/composables/useMemberForm.js:81-90 | the image survives, as `null` when it was reset |
| MemberForm.CleanedHasKey | src/composables/useMemberForm.js:81-85 | a property other than the image is present iff it was defined |
| MemberForm.RecordHasNoUndefined | src/composables/useMemberForm.js:81-90 | the saved record has no undefined property |
| MemberForm.RecordKeeps | src/composables/useMemberForm.js:62-85 | each defined property of the literal is in the record with its value |
| MemberForm.RecordHasKey | src/composables/useMemberForm.js:81-85 | a property other than the image is in the record iff the literal defined it |
| MemberForm.RecordImage | src/composables/useMemberForm.js:77-90 | the record's image is the literal's, or `null` when the literal's is undefined |
| MemberForm.RecordFields | src/composables/useMemberForm.js:62-90 | the record matches the literal property by property |
| MemberForm.MatchedFields | src/composables/useMemberForm.js:62-90 | a record matching the literal carries each defined required property with its value |
| MemberForm.MatchedOptional | src/composables/useMemberForm.js:68-73 | a matching record has the date of birth, age, address, contact and occupation properties exactly when the literal defines them |
| MemberForm.LiteralNames | src/composables/useMemberForm.js:62-67 | the new id, the trimmed names, the nickname falling back to the first name, and the sex as entered |
| MemberForm.LiteralDefaults | src/composables/useMemberForm.js:70-77 | civil status falls back to "Single", relatives start empty, and tags, member status and image come from the form |
| MemberForm.LiteralOptional | src/composables/useMemberForm.js:68-73 | the date of birth, address, contact number and occupation are undefined exactly when empty after trimming, and the age is the computed age |
| MemberForm.RecordNames | src/composables/useMemberForm.js:62-67 | the saved record holds the new id, the trimmed names, the nickname or first name, and the sex |
| MemberForm.RecordDefaults | src/composables/useMemberForm.js:70-90 | the saved record holds the civil status or "Single", empty relatives, the form's tags and status, and the image or `null` |
| MemberForm.RecordOptionalFields | src/composables/useMemberForm.js:55-85 | the date of birth and the age are saved iff a date was entered, and the address, contact number and occupation iff non-blank; the age saved is the age on the given day |
| MemberForm.BuildMemberRecord | src/composables/useMemberForm.js:55-90 | the method builds the record the literal and the clean-up describe |
| MemberForm.MemberFormState.constructor | src/composables/useMemberForm.js:7-23 | the dialog is closed and the draft holds the initial values |
| MemberForm.MemberFormState.CalculateAge | src/composables/useMemberForm.js:43-47 | with a date of birth, only the draft's age changes, to the age on the given day; without one, nothing changes |
| MemberForm.MemberFormState.AddMember | src/composables/useMemberForm.js:50-120 | an incomplete draft changes nothing and saves nothing. A complete one yields the record with the next id; after a successful save the form is reset, the dialog closes and "`first last` added" is shown; a failure keeps the form and shows the failure notice |
| MemberForm.MemberFormState.Finish | src/composables/useMemberForm.js:92-119 | on success the form resets and closes with the added notice; on failure only the failure notice is shown |
| MemberUtils.FullName | src/utils/memberUtils.js:2-4 | the full name is the first name, one space, then the last name |
| MemberUtils.FullNameFirstWord | src/utils/memberUtils.js:2-4 | when the first name has no space, splitting the full name at spaces gives the first name first |
| MemberUtils.Utf8 | src/utils/memberUtils.js:13-15 | a character encodes as one to four bytes, and an ASCII character as itself |
| Strings.HexValue | src/utils/memberUtils.js:13-15 | a hexadecimal digit has a value below 16 |
| MemberUtils.HexRoundTrip | src/utils/memberUtils.js:13-15 | the digit written for a value reads back as that value |
| MemberUtils.PercentBytes | src/utils/memberUtils.js:13-15 | each byte becomes three characters, `%` and two hexadecimal digits |
| MemberUtils.EncodeChar | src/utils/memberUtils.js:13-15 | an unreserved character stays as it is; any other becomes `%XX` for each of its UTF-8 bytes |
| MemberUtils.EncodeUriComponent | src/utils/memberUtils.js:13-15 | text of unreserved characters only is unchanged |
| MemberUtils.DecodeEscape | src/utils/memberUtils.js:13-15 | a `%XX` escape reads back as its byte |
| MemberUtils.DecodePercentBytes | src/utils/memberUtils.js:13-15 | escaped bytes read back as those bytes |
| MemberUtils.EncodeUriComponentDecodes | src/utils/memberUtils.js:13-15 | percent-decoding the encoded text gives back the text's UTF-8 bytes |
| MemberUtils.EncodeUriComponentAlphabet | src/utils/memberUtils.js:13-15 | the encoded text holds only unreserved characters and `%`, so it is safe in a query string |
| MemberUtils.PercentBytesAlphabet | src/utils/memberUtils.js:13-15 | escaped bytes hold only `%` and hexadecimal digits |
| MemberUtils.AvatarUrl | src/utils/memberUtils.js:6-16 | a non-empty custom image is used as it is; otherwise the avatar service's link is seeded with the encoded nickname, or the full name when there is no nickname |
| MemberUtils.AvatarSeedDecodes | src/utils/memberUtils.js:12-15 | a generated link starts with the service's base, and its seed decodes back to the nickname, or the full name |
| MemberUtils.SexIcon | src/utils/memberUtils.js:18-20 | the icon is ♂ iff the sex is "Male", and ♀ otherwise |
| MemberUtils.Lookup | src/utils/memberUtils.js:38 | a known key with a non-empty label gives its label; an unknown key is returned as it is |
| MemberUtils.RelativeLabelCapitalises | src/utils/memberUtils.js:28-39 | the seven known relations are capitalised; anything else is returned unchanged |
| MemberUtils.FamilyRoleLabelIdentity | src/utils/memberUtils.js:41-53 | every family role label is the role itself |
| MemberUtils.CalculateAgeFromDate | src/utils/memberUtils.js:55-65 | an empty date gives `undefined`, an unreadable one `NaN`, and a valid one the whole years to the given day |
| MemberUtils.AgeNonNegative | src/utils/memberUtils.js:59-63 | a birth date not after today gives an age of at least 0 |
| MemberUtils.AgeIncrementsOnBirthday | src/utils/memberUtils.js:59-63 | the age goes up by one on each birthday, and on it equals the year difference |
| Calendar.FormatDateShape | src/composables/useCalendar.js:17-22 | for four-digit years the key is `YYYY-MM-DD`: ten characters, dashes at 4 and 7, and digit groups that read back as the year, month and day |
| Calendar.IsTodaySameKey | src/composables/useCalendar.js:25-32 | a date is today iff its date key equals today's |
| Calendar.FirstHoliday | src/composables/useCalendar.js:37 | `find` gives no position iff no holiday has the key, and otherwise the first position that has it |
| Calendar.HolidayForDateFirst | src/composables/useCalendar.js:35-38 | a date has no holiday iff none is listed on its key; otherwise the holiday is the first one listed on that date |
| Calendar.MonthStart | src/composables/useCalendar.js:56 | `new Date(y, m, 1)` is a valid first of a month, with `m` carried into the year |
| Calendar.MonthStartIndex | src/composables/useCalendar.js:56 | the month index carries overflowing and negative months into the year |
| Calendar.MonthLength | src/composables/useCalendar.js:46-50 | a month has 28 to 31 days |
| Calendar.MonthStartNext | src/composables/useCalendar.js:46-50 | the next month starts one month length after this one |
| Calendar.MakeDateAt | src/composables/useCalendar.js:73-104 | `new Date(y, m, d)` is the valid date `d - 1` days after the month's first |
| Calendar.DayZero | src/composables/useCalendar.js:49 | day 0 of a month is the last day of the month before |
| Calendar.FirstDayOfMonth | src/composables/useCalendar.js:53-57 | the weekday is between 0, Sunday, and 6 |
| Calendar.DaysInMonthOfGregorian | src/composables/useCalendar.js:46-50 | `daysInMonth` is the Gregorian month length: February has 29 days iff the year is a leap year, April, June, September and November have 30, the rest 31 |
| Calendar.FirstDayOfMonthWeekday | src/composables/useCalendar.js:53-57 | `firstDayOfMonth` is the weekday of the month's first day |
| Calendar.DaysInPrevMonthLength | src/composables/useCalendar.js:62-66 | `daysInPrevMonth` is the length of the month before |
| Calendar.CalendarDays | src/composables/useCalendar.js:60-110 | the grid always has 42 cells, and cell `k` is the `k`-th day of the grid |
| Calendar.LeadingCell | src/composables/useCalendar.js:69-79 | a leading cell shows a day of the previous month, not marked current, with its real date |
| Calendar.MonthCell | src/composables/useCalendar.js:82-92 | a middle cell shows a day of the month, marked current |
| Calendar.TrailingCell | src/composables/useCalendar.js:95-107 | a trailing cell shows a day of the next month, not marked current |
| Calendar.GridCell | src/composables/useCalendar.js:60-110 | every cell holds a valid date whose day is the number it shows; cells are consecutive days; a cell is marked current iff its date lies in the displayed month |
| Calendar.GridWeekday | src/composables/useCalendar.js:60-110 | cell `k` falls on weekday `k % 7`, so each column of the grid is one weekday |
| Calendar.ColumnWeekday | src/composables/useCalendar.js:60-110 | a day placed `k` cells from the Sunday before the month's first falls on weekday `k % 7` |
| Calendar.WeekShift | src/composables/useCalendar.js:69 | moving to the start of a week keeps the offset's weekday |
| Calendar.DashSplit | src/composables/useCalendar.js:114 | two `year-month` keys are equal only when both parts are |
| Calendar.NatToStringInjective | src/composables/useCalendar.js:114 | different numbers have different decimal texts |
| Calendar.DigitsHaveNoDash | src/composables/useCalendar.js:114 | a decimal text holds no dash |
| Calendar.MonthKeySame | src/composables/useCalendar.js:114-128 | two dates have the same month key iff they share year and month |
| Calendar.ShiftedLands | src/composables/useCalendar.js:117-120 | `setMonth` keeps the day when the target month is long enough, and otherwise carries the excess into the month after |
| Calendar.NextMoves | src/composables/useCalendar.js:119-130 | "next" always moves: it lands on the same day a month on, or two months on when the target month is too short |
| Calendar.PrevMoves | src/composables/useCalendar.js:117-130 | "prev" goes back one month when that month is long enough for the day; otherwise the shifted date falls back in the current month and the date stays unchanged |
| Calendar.CalendarState.constructor | src/composables/useCalendar.js:5 | the calendar starts on the given day |
| Calendar.CalendarState.NavigateMonth | src/composables/useCalendar.js:113-131 | "prev" and "next" move the date by one month when the month actually changes; any other direction changes nothing |
| Calendar.CalendarState.GoToToday | src/composables/useCalendar.js:178-180 | the date becomes the given day |
| EventFilters.FilteredEvents | src/composables/useEventFilters.js:8-22 | a blank query returns all events; otherwise the result holds exactly the events whose title, location, type or description contains the lower-cased query |
| EventFilters.FilteredKeepsOrder | src/composables/useEventFilters.js:14-21 | the search keeps the events' order |
| EventFilters.SearchIgnoresCase | src/composables/useEventFilters.js:13-19 | the search does not depend on the query's case |
| EventFilters.TitleMatchFound | src/composables/useEventFilters.js:16 | an event whose title contains the query, ignoring case, is found |
| EventFilters.EventTypesSnoc | src/composables/useEventFilters.js:27-31 | one more event adds its type to the set, unless the type is empty |
| EventFilters.AllEventTypes | src/composables/useEventFilters.js:25-33 | every non-empty event type once, and nothing else, in strictly increasing order of code points |
| EventFilters.Candidates | src/composables/useEventFilters.js:42-55 | an event is a candidate iff it matches the search, is dated from today to the end of the window, and has a selected type when types are selected |
| EventFilters.CandidatesFacts | src/composables/useEventFilters.js:42-55 | the search, window and type filters applied in turn keep exactly the candidates |
| EventFilters.UpcomingEvents | src/composables/useEventFilters.js:36-60 | at most 10 events, a sub-multiset of the candidates, in ascending date order; a candidate left out means 10 were shown, none later than it |
| EventFilters.UpcomingAreSoonest | src/composables/useEventFilters.js:36-60 | the shown events are a sub-multiset of the input, so none is repeated beyond its count; every shown event passes the search, window and type filters, and every passing event not shown is preceded by 10 events no later than it |
| EventFilters.Soonest | src/composables/useEventFilters.js:57-59 | sorting by date and keeping the first 10 gives the earliest events, in order, a sub-multiset of the candidates |
| EventFilters.UpcomingFacts | src/composables/useEventFilters.js:42-59 | facts about the candidates carry over to the events and the filters |
| EventFilters.CandidatesKeyed | src/composables/useEventFilters.js:46-49 | every candidate has a readable date |
| EventFilters.SoonestKept | src/composables/useEventFilters.js:57-59 | the first 10 of a date-sorted permutation are a sub-multiset of the candidates, and any candidate not among them is no earlier than each of them |
| Attendance.IsPastOrTodayDays | src/composables/useAttendance.js:28-35 | an empty date is never past; a readable date is past or today iff it is not after today |
| Attendance.FindEvent | src/composables/useAttendance.js:56-58 | no event is found iff no event's `firestoreId \|\| id` equals the record's event id; the found event is the first one with that key |
| Attendance.AttendanceRowSource | src/composables/useAttendance.js:52-70 | a record becomes an "event" row iff it names an event that exists, and then expects that event's attendees; otherwise it is an "attendance" row with its own expected count. The id, date, attendees and total are the record's |
| Attendance.MinuteRow | src/composables/useAttendance.js:75-90 | a minutes row counts as many attendees as the minutes list, with their date |
| Attendance.EventRow | src/composables/useAttendance.js:100-116 | an event row has no attendees and a total of 0, and expects the event's planned attendees |
| Attendance.RecordsByEventId | src/composables/useAttendance.js:44-49 | the map's keys are exactly the non-empty event ids of the records |
| Attendance.AttendanceRows | src/composables/useAttendance.js:52-70 | one row per attendance record, in order |
| Attendance.MinuteRows | src/composables/useAttendance.js:73-92 | one row per minutes document dated today or earlier, in order |
| Attendance.EventRows | src/composables/useAttendance.js:95-119 | one row per event dated today or earlier that has no attendance record, in order |
| Attendance.AggregatedAttendance | src/composables/useAttendance.js:38-127 | the overview is the record rows, then the minutes rows, then the event rows, sorted newest first |
| Attendance.InSorted | src/composables/useAttendance.js:122-126 | sorting loses and adds no row |
| Attendance.EveryRecordListed | src/composables/useAttendance.js:52-70 | every attendance record appears in the overview |
| Attendance.AttendanceRowsNotMinutes | src/composables/useAttendance.js:62 | record rows never claim to come from minutes |
| Attendance.EventRowsFromEvents | src/composables/useAttendance.js:113 | event rows come from events |
| Attendance.MinuteRowsListed | src/composables/useAttendance.js:72-92 | a minutes row is in the overview iff some minutes document dated today or earlier produced it |
| Attendance.MinuteRowsOfMinutes | src/composables/useAttendance.js:73-92 | the minutes rows are exactly the rows of minutes dated today or earlier |
| Attendance.MinuteRowsTotal | src/composables/useAttendance.js:84-85 | on a minutes row the total is the number of attendees listed |
| Attendance.EventRowsListed | src/composables/useAttendance.js:95-119 | a past event without an attendance record is in the overview, and every event row comes from such an event |
| Attendance.NoDuplicateEventRows | src/composables/useAttendance.js:94-99 | no more event rows than events, and none for an event that has an attendance record |
| Attendance.NewestFirstOrder | src/composables/useAttendance.js:122-126 | with readable dates, the overview is in non-increasing date order |
| Toasts.FindIndex | src/composables/useToast.js:29 | `findIndex` gives -1 iff no toast has the id, and otherwise the first toast with it |
| Toasts.RemoveUnknown | src/composables/useToast.js:30-32 | removing an id no toast has changes nothing |
| Toasts.RemoveIsFilter | src/composables/useToast.js:28-33 | with ids increasing, the splice at the found index removes every toast with that id and keeps the others in order |
| Toasts.NoLaterId | src/composables/useToast.js:28-33 | with ids increasing, no later toast repeats an id |
| Toasts.SplitFilter | src/composables/useToast.js:31 | dropping the one toast with the id leaves the toasts before and after it |
| Toasts.RemoveKeepsOrder | src/composables/useToast.js:28-33 | removal keeps the ids increasing and bounded, and shortens the list by one exactly when the id was present |
| Toasts.SpliceKeepsOrder | src/composables/useToast.js:31 | splicing one toast out keeps the ids increasing and bounded |
| Toasts.AppendKeepsOrder | src/composables/useToast.js:9-16 | pushing a toast with a fresh, larger id keeps the ids increasing |
| Toasts.DropSecondLast | src/composables/useToast.js:28-33 | removing a toast lower in the list keeps the toast pushed after it |
| Toasts.ToastQueue.constructor | src/composables/useToast.js:4-5 | the queue starts empty with the counter at 0 |
| Toasts.ToastQueue.AddToast | src/composables/useToast.js:8-26 | the id is the counter plus one and larger than every earlier id; the toast is appended with the type "info" and the duration 3000 when they are omitted; removal is scheduled iff the duration is positive |
| Toasts.ToastQueue.RemoveToast | src/composables/useToast.js:28-33 | exactly the toast with the id leaves the queue, the others keep their order, and the counter is unchanged |
| Toasts.ToastQueue.Success | src/composables/useToast.js:36 | adds a toast of type "success" |
| Toasts.ToastQueue.Error | src/composables/useToast.js:37 | adds a toast of type "error" |
| Toasts.ToastQueue.Warning | src/composables/useToast.js:38 | adds a toast of type "warning" |
| Toasts.ToastQueue.Info | src/composables/useToast.js:39 | adds a toast of type "info" |
| Toasts.AddTwiceRemoveFirst | src/composables/useToast.js:8-33 | example: after adding two toasts and removing the first, only the second of the new ones is shown, after the earlier toasts |
| Strings.TrimStart | src/utils/minutesEnhancer.js:139 | `trimStart` removes exactly the leading white space |
| Strings.TrimEnd | src/utils/minutesEnhancer.js:139 | `trimEnd` removes exactly the trailing white space |
| Strings.Trim | src/utils/minutesEnhancer.js:89-90 | a trimmed text neither starts nor ends with white space |
| Strings.TrimOfTrimmed | src/utils/minutesEnhancer.js:89-90 | trimming text without white space at either end changes nothing |
| Strings.TrimEmpty | src/composables/useEventFilters.js:9 | a text trims to empty iff it is all white space |
| Strings.LeadingWhitespace | src/utils/markdownUtils.js:19 | `^(\s*)` matches exactly the leading white space |
| Strings.ToLower | src/composables/useMemberFilters.js:28 | lower-casing maps each character on its own, ASCII capitals to small letters, and keeps the length |
| Strings.ContainsAt | src/composables/useMemberFilters.js:31 | `includes` holds iff the text occurs at some position |
| Strings.ToLowerIdempotent | src/composables/useEventFilters.js:13 | lower-casing twice is lower-casing once |
| Strings.ToLowerBlank | src/composables/useEventFilters.js:9-13 | a query is blank iff its lower-cased form is |
| Strings.IndexOfChar | src/composables/useMemberFilters.js:91 | `indexOf` gives -1 iff the character is absent, and otherwise its first position |
| Strings.Split | src/utils/markdownUtils.js:13 | `split` gives at least one part, and no part holds the separator |
| Strings.TrimAll | src/utils/minutesEnhancer.js:90 | `map(line => line.trim())` trims each line in place |
| Strings.NonEmptyOnly | src/utils/minutesEnhancer.js:90 | `filter(line => line.length > 0)` keeps exactly the non-empty lines |
| Strings.JoinSplit | src/utils/markdownUtils.js:13 | joining the parts of a split with the separator gives back the text |
| Strings.SplitJoin | src/utils/exportUtils.js:133 | splitting a join of parts free of the separator gives back the parts |
| Strings.NatToString | src/composables/useCalendar.js:18-21 | a number's decimal text is a non-empty run of digits |
| Strings.NatToStringValue | src/composables/useCalendar.js:18-21 | a number's decimal text reads back as the number |
| Strings.Pad2 | src/composables/useCalendar.js:19-20 | `padStart(2, '0')` gives at least two characters |
| Strings.ParseNumber | src/composables/useBirthdayEvents.js:23 | `Number` reads a trimmed run of digits as its value, and blank text as 0 |
| Strings.DigitPrefix | src/composables/useMemberForm.js:59 | the longest run of leading digits |
| Strings.ParseIntPrefix | src/composables/useMemberForm.js:59 | `parseInt` reads a run of digits as its value, and a `0x` or `0X` prefix followed by hexadecimal digits as their hexadecimal value |
| Strings.ParseIntHexExample | src/composables/useMemberForm.js:59 | example: `parseInt("0x1A")` is 26 |
| Strings.ParseIntDecimalExample | src/composables/useMemberForm.js:59 | example: `parseInt("12abc")` is 12: the digits before the first non-digit |
| Strings.UnsignedPrefix | src/composables/useMemberForm.js:59 | the unsigned part of `parseInt`: a run of decimal digits, or hexadecimal digits after `0x`, and nothing after a bare `0x` |
| Seqs.FilterSubMultiset | src/utils/exportUtils.js:25-28 | `filter` never repeats an entry beyond its count in the input |
| Strings.Compare | src/composables/useMemberFilters.js:19 | the default sort order gives -1, 0 or 1, and 0 only for equal texts |
| Strings.CompareAntisymmetric | src/composables/useMemberFilters.js:19 | swapping the texts negates the comparison |
| Strings.CompareTransitive | src/composables/useMemberFilters.js:19 | the comparison is transitive |
| Seqs.Filter | src/utils/exportUtils.js:25-28 | `filter` keeps exactly the entries that pass, and no more than the input has |
| Seqs.FilterMembership | src/utils/exportUtils.js:25-28 | an entry is kept iff it is in the input and passes |
| Seqs.FilterIsSubsequence | src/utils/exportUtils.js:25-28 | `filter` keeps the input order |
| Seqs.FilterTwice | src/utils/exportUtils.js:20-47 | two filters in a row are one filter by both tests |
| Seqs.Collect | src/composables/useAttendance.js:73-92 | a `forEach` that pushes a row for some entries gives at most one row per entry |
| Seqs.CollectSound | src/composables/useAttendance.js:73-92 | every row pushed comes from some entry |
| Seqs.CollectComplete | src/composables/useAttendance.js:73-92 | every entry that yields a row has it pushed |
| Seqs.CollectAllSome | src/composables/useRecurringEvents.js:37-54 | when every entry yields a row, exactly one row is pushed per entry |
| Seqs.DistinctPermutation | src/composables/useMemberFilters.js:19 | sorting distinct entries keeps them distinct |

## Left out

- Time zones and JavaScript `Date` parsing: dates are calendar dates, and `new Date('YYYY-MM-DD')` is read as the date written, with no UTC shift. `toISOString` in `todaysBirthdays` is taken to give the local date. `YYYY-MM-DD` text that names no real day, such as the birthday date "2026-02-29" for a member born on February 29 in a non-leap year, is not a date in the model, as in engines that give Invalid Date for it. V8 rolls such text over to March 1, so there `BirthdayInMonth`, `UpcomingBirthdays` and `EventsService.InWindowRange` can differ on it.
- `localeCompare` is lexicographic order of character codes after ASCII lower-casing. Unicode collation and case folding beyond ASCII are not modelled.
- Clocks: "today", the current year and `new Date()` are parameters. The `createdAt`/`updatedAt` stamps of attendance rows are not modelled.
- The toast `setTimeout` callback: `AddToast` reports whether a removal is scheduled; the later removal is what `RemoveToast` does.
- Firestore (`onSnapshot`, `addDoc`, `updateDoc`, `deleteDoc`, `getDocs`), `batchUpdateMembers` and the other CRUD wrappers in the service files are foreign library calls. The snapshot handlers are modelled, with the documents as input; so is the payload filtering.
- The save in `addMember` is a foreign call; its outcome is the `saved` parameter.
- The holiday list is a JSON asset; it is a parameter of `Calendar.HolidayForDate`.
- `currentMonth` uses `toLocaleDateString`, which is locale formatting and is not modelled.
- `handleCalendarWheel`, with its debounce timers and DOM events, is not modelled.
- The Blob and anchor download at the end of `exportToCSV` is DOM I/O; the model stops at the CSV text.
- The inline emphasis regexes of `markdownToHtml` are the `inline` parameter of `Markdown.MarkdownToHtml`, an uninterpreted post-pass.
- The network path of `enhanceMinutesWithHF` is left out: the service's reply is a parameter, and every failure ends in the local formatter. The `enhanceMinutesWithOpenAI` stub is left out as well.
- The `overriddenDates` set in `useBirthdayEvents.js` is built but never read, so it is not modelled.
- `src/api/enhance.js` is an HTTP handler around a hosted model; it is not part of this model.
- `minutesService.js`, `attendanceService.js`, `prayerConcernsService.js`, `useEvents.js`, `useMembers.js`, `useMinutes.js`, `usePrayerConcerns.js`, `useTheme.js`, `useInlineEdit.js`, `useEventForm.js`, `usePresetForm.js`, the router and the Vite configuration are subscription wiring, DOM, configuration or form resets; they are not part of this model.
- `getSexIconColor` only picks one of two CSS class strings; it is not modelled.
- Members are records with string fields. A JavaScript `undefined` first or last name, which would print as "undefined" in `getFullName`, is not modelled.
- Dates.MakeDate: its contract states only that the result is a valid date. The carrying of months and days is stated by `Dates.MakeDateInRange`, `Dates.DayZeroIsLastDay`, `Calendar.MakeDateAt` and `Calendar.ShiftedLands`.
- Csv.Escape: its contract states only when a value is quoted. The exact text is pinned down by `Csv.FieldRoundTrip`, which reads every escaped value back.
- Csv.EscapeAll: its contract states only the length; `Export.SnocValues` and `Csv.EscapeAllSnoc` give the entries.
- Csv.EncodeRecords: its contract states only the length; `Csv.EncodeRecordsAt` gives each line.
- Export.Values: its contract states only the length; `Export.ValuesAt` gives each value.
- Export.Records: its contract states only the length; `Export.RecordsAt` gives each record.
- Export.ExportSort: ascending and descending order are proved only when every sort value has one kind, text or number. `Export.KindOfKey` shows this for the name, age, date and text keys. For `id`, numeric and text ids may be mixed. `Export.ValueOrder` then compares as JavaScript's `<` does, converting the text, but that mixed order need not be transitive, so only the permutation is claimed there.
- Strings.ParseNumber: `Number` is read for integers only: an optional sign and decimal digits after trimming, with blank text as 0. Decimal fractions ("1.5"), exponents ("1e2"), `0x`/`0o`/`0b` prefixes and `Infinity` become "not a number". This affects the birth-date fields read by `BirthdayEvents.BirthDateParts` and the text-to-number conversion of `Export.ValueOrder`.
- Strings.ParseIntPrefix: `parseInt` without a radix is read for decimal digits and `0x` hexadecimal. Other radices are not modelled, since the code never passes one.
- Strings.ToLower: `toLowerCase` is modelled for ASCII letters only. JavaScript also lowers non-ASCII capitals ("PEÑA" becomes "peña"), and a few characters lower-case to more than one code unit ("İ"), which changes the length. This reaches every member and event search (`MemberFilters.SearchStep`, `EventFilters.FilteredEvents`), the minutes cues and labels (`Minutes.BucketIsFirstMatch`, `Minutes.StripLabel`) and the name keys of `MemberSorting` and `FamilyGroups`.
- Minutes.Shorten: lengths and `substring` count characters (Unicode scalar values), where JavaScript counts UTF-16 code units. Text with characters above U+FFFF is cut at a different place, and the `length > 100` key-point cue counts such characters once instead of twice. A cut inside a surrogate pair, which JavaScript can produce, cannot be written as a Dafny string.
- MemberFilters.AllTags: the default `sort()` orders by UTF-16 code units; the model orders by code points. The two orders differ only when a character above U+FFFF is compared with one in U+E000–U+FFFF.
- EventFilters.AllEventTypes: ordered by code points, not by the UTF-16 code units of the default `sort()`; the two differ only when a character above U+FFFF is compared with one in U+E000–U+FFFF.
- MemberUtils.Lookup: the label tables are modelled as maps. In JavaScript they are object literals, so a key such as "constructor", "toString" or "__proto__" finds a member inherited from `Object.prototype`, and `labels[relation] || relation` then returns that member, not the key. The model does not represent such values.
- MemberUtils.RelativeLabelCapitalises: "unknown keys are returned unchanged" holds for keys that are not properties of `Object.prototype`; for those keys `getRelativeLabel` returns the inherited member, which is not modelled.
- MemberUtils.FamilyRoleLabelIdentity: the identity holds for roles that are not properties of `Object.prototype`; for those, `getFamilyRoleLabel` returns the inherited member, which is not modelled.
