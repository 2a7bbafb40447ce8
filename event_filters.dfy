/** The event list filters (src/composables/useEventFilters.js): the text
    search, the list of event types present, and the capped list of
    upcoming events. `today` is passed in for `new Date()`. */
module EventFilters {
  import opened Wrappers
  import opened Strings
  import opened Seqs
  import opened Sorting
  import opened Dates
  import opened EventsService

  /** The initial value of `upcomingDaysFilter`. */
  const DefaultUpcomingDays: int := 7

  /** `.slice(0, 10)`: the most upcoming events shown. */
  const UpcomingLimit: int := 10

  /** The search matches the title, location, type or description. */
  predicate MatchesQuery(e: Event, query: string) {
    Mentions(e.title, query) || Mentions(e.location, query)
    || Mentions(e.eventType, query) || Mentions(e.description, query)
  }

  function QueryTest(query: string): Event -> bool {
    (e: Event) => MatchesQuery(e, query)
  }

  /** `filteredEvents`: everything for a blank search; otherwise the events
      mentioning the lower-cased, untrimmed query, in their order. */
  function FilteredEvents(events: seq<Event>, searchQuery: string): (r: seq<Event>)
    ensures Trim(searchQuery) == [] ==> r == events
    ensures Trim(searchQuery) != [] ==>
      (forall k :: 0 <= k < |r| ==> r[k] in events && MatchesQuery(r[k], ToLower(searchQuery)))
      && (forall k :: 0 <= k < |events| && MatchesQuery(events[k], ToLower(searchQuery)) ==> events[k] in r)
  {
    if Trim(searchQuery) == [] then events
    else Filter(events, QueryTest(ToLower(searchQuery)))
  }

  /** The search keeps the events in their original order. */
  lemma FilteredKeepsOrder(events: seq<Event>, searchQuery: string)
    ensures IsSubsequence(FilteredEvents(events, searchQuery), events)
  {
    if Trim(searchQuery) == [] {
      assert FilteredEvents(events, searchQuery) == events;
      FilterAll(events, (e: Event) => true);
      FilterIsSubsequence(events, (e: Event) => true);
    } else {
      FilterIsSubsequence(events, QueryTest(ToLower(searchQuery)));
    }
  }

  /** The search ignores the case of the query. */
  lemma SearchIgnoresCase(events: seq<Event>, searchQuery: string)
    ensures FilteredEvents(events, ToLower(searchQuery)) == FilteredEvents(events, searchQuery)
  {
    ToLowerBlank(searchQuery);
    ToLowerIdempotent(searchQuery);
  }

  /** An event whose title holds the query, ignoring case, is found. */
  lemma TitleMatchFound(events: seq<Event>, searchQuery: string, k: int, at: int)
    requires 0 <= k < |events| && Trim(searchQuery) != []
    requires OccursAt(ToLower(events[k].title), ToLower(searchQuery), at)
    ensures events[k] in FilteredEvents(events, searchQuery)
  {
    ContainsAt(ToLower(events[k].title), ToLower(searchQuery));
  }

  /** The non-empty `type` values of `events`. */
  function EventTypes(events: seq<Event>): set<string> {
    set k | 0 <= k < |events| && events[k].eventType != "" :: events[k].eventType
  }

  lemma EventTypesSnoc(events: seq<Event>, i: int)
    requires 0 <= i < |events|
    ensures EventTypes(events[..i + 1])
            == EventTypes(events[..i]) + (if events[i].eventType != "" then {events[i].eventType} else {})
  {
    var before, after := events[..i], events[..i + 1];
    assert forall k :: 0 <= k < i ==> after[k] == before[k];
    assert after[i] == events[i];
  }

  /** `allEventTypes`: each non-empty `type` once, in code-unit order. */
  method AllEventTypes(events: seq<Event>) returns (types: seq<string>)
    ensures Elements(types) == EventTypes(events)
    ensures forall i, j :: 0 <= i < j < |types| ==> Compare(types[i], types[j]) < 0
  {
    var typeSet: seq<string> := [];
    for i := 0 to |events|
      invariant Distinct(typeSet)
      invariant Elements(typeSet) == EventTypes(events[..i])
    {
      EventTypesSnoc(events, i);
      if events[i].eventType != "" && events[i].eventType !in typeSet {
        typeSet := typeSet + [events[i].eventType];
      }
    }
    assert events[..|events|] == events;
    types := SortStrings(typeSet);
    SortStringsDistinct(typeSet);
  }

  /** `eventTypeFilter.value.includes(event.type)`. */
  function TypeTest(eventTypeFilter: seq<string>): Event -> bool {
    (e: Event) => e.eventType in eventTypeFilter
  }

  /** What `upcomingEvents` asks of an event before the cap: it passes the
      search when there is one, lies in the window, and has a selected type
      when any are selected. (`!event.date` needs no test of its own: an
      empty date does not parse.) */
  predicate Upcoming(e: Event, searchQuery: string, eventTypeFilter: seq<string>, days: int, today: Date)
    requires ValidDate(today)
  {
    (Trim(searchQuery) != [] ==> MatchesQuery(e, ToLower(searchQuery)))
    && InWindow(e, today, days)
    && (|eventTypeFilter| > 0 ==> e.eventType in eventTypeFilter)
  }

  /** The list `upcomingEvents` sorts: the search, then the window, then
      the type filter, each keeping order. */
  function Candidates(events: seq<Event>, searchQuery: string, eventTypeFilter: seq<string>,
                      days: int, today: Date): (r: seq<Event>)
    requires ValidDate(today)
    ensures forall e :: e in r <==> e in events && Upcoming(e, searchQuery, eventTypeFilter, days, today)
    ensures multiset(r) <= multiset(events)
  {
    var eventsList := if Trim(searchQuery) != [] then FilteredEvents(events, searchQuery) else events;
    var inWindow := Filter(eventsList, WithinWindow(today, days));
    var typed := if |eventTypeFilter| > 0 then Filter(inWindow, TypeTest(eventTypeFilter)) else inWindow;
    CandidatesFacts(events, searchQuery, eventTypeFilter, days, today, eventsList, inWindow, typed);
    typed
  }

  lemma CandidatesFacts(events: seq<Event>, searchQuery: string, eventTypeFilter: seq<string>,
                        days: int, today: Date, eventsList: seq<Event>, inWindow: seq<Event>, typed: seq<Event>)
    requires ValidDate(today)
    requires eventsList == if Trim(searchQuery) != [] then FilteredEvents(events, searchQuery) else events
    requires inWindow == Filter(eventsList, WithinWindow(today, days))
    requires typed == if |eventTypeFilter| > 0 then Filter(inWindow, TypeTest(eventTypeFilter)) else inWindow
    ensures forall e :: e in typed <==> e in events && Upcoming(e, searchQuery, eventTypeFilter, days, today)
    ensures multiset(typed) <= multiset(events)
  {
    FilterSubMultiset(inWindow, TypeTest(eventTypeFilter));
    FilterSubMultiset(eventsList, WithinWindow(today, days));
    if Trim(searchQuery) != [] {
      FilterSubMultiset(events, QueryTest(ToLower(searchQuery)));
    }
    forall e: Event
      ensures e in typed <==> e in events && Upcoming(e, searchQuery, eventTypeFilter, days, today)
    {
      FilterMembership(inWindow, TypeTest(eventTypeFilter), e);
      FilterMembership(eventsList, WithinWindow(today, days), e);
      if Trim(searchQuery) != [] {
        FilterMembership(events, QueryTest(ToLower(searchQuery)), e);
      }
    }
  }

  /** `upcomingEvents`: the ten soonest candidates, soonest first. */
  function UpcomingEvents(events: seq<Event>, searchQuery: string, eventTypeFilter: seq<string>,
                          days: int, today: Date): (r: seq<Event>)
    requires ValidDate(today)
    ensures |r| <= UpcomingLimit
    ensures multiset(r) <= multiset(Candidates(events, searchQuery, eventTypeFilter, days, today))
    ensures forall k :: 0 <= k < |r| ==> r[k] in Candidates(events, searchQuery, eventTypeFilter, days, today)
    ensures AllKeyed(r, EventDateValue) && KeyAscending(r, EventDateValue)
    ensures forall e :: (e in Candidates(events, searchQuery, eventTypeFilter, days, today) && e !in r
            ==> |r| == UpcomingLimit && EventDateValue(e).Some?
                && forall i :: 0 <= i < |r| ==> EventDateValue(r[i]).value <= EventDateValue(e).value)
  {
    CandidatesKeyed(events, searchQuery, eventTypeFilter, days, today);
    Soonest(Candidates(events, searchQuery, eventTypeFilter, days, today))
  }

  /** The upcoming list in terms of the events themselves: each one shown
      qualifies, and a qualifying event is left out only when ten events no
      later than it are shown. */
  lemma UpcomingAreSoonest(events: seq<Event>, searchQuery: string, eventTypeFilter: seq<string>,
                           days: int, today: Date)
    requires ValidDate(today)
    ensures var r := UpcomingEvents(events, searchQuery, eventTypeFilter, days, today);
      multiset(r) <= multiset(events)
      && (forall k :: 0 <= k < |r| ==> r[k] in events && Upcoming(r[k], searchQuery, eventTypeFilter, days, today))
      && (forall e :: (e in events && Upcoming(e, searchQuery, eventTypeFilter, days, today) && e !in r
            ==> |r| == UpcomingLimit && EventDateValue(e).Some?
                && forall i :: 0 <= i < |r| ==> EventDateValue(r[i]).value <= EventDateValue(e).value))
  {
    // The contracts of the two calls are all the proof needs.
    hide *;
    var r := UpcomingEvents(events, searchQuery, eventTypeFilter, days, today);
    UpcomingFacts(events, searchQuery, eventTypeFilter, days, today,
                  Candidates(events, searchQuery, eventTypeFilter, days, today), r);
  }

  /** `.sort(by date).slice(0, 10)`. */
  function Soonest(candidates: seq<Event>): (r: seq<Event>)
    requires AllKeyed(candidates, EventDateValue)
    ensures |r| <= UpcomingLimit
    ensures multiset(r) <= multiset(candidates)
    ensures forall k :: 0 <= k < |r| ==> r[k] in candidates
    ensures AllKeyed(r, EventDateValue) && KeyAscending(r, EventDateValue)
    ensures forall e :: (e in candidates && e !in r
            ==> |r| == UpcomingLimit && EventDateValue(e).Some?
                && forall i :: 0 <= i < |r| ==> EventDateValue(r[i]).value <= EventDateValue(e).value)
  {
    var sorted := SortByDate(candidates);
    var n := if |sorted| < UpcomingLimit then |sorted| else UpcomingLimit;
    SoonestKept(candidates, sorted, n, sorted[..n]);
    sorted[..n]
  }

  /** What holds of the candidates carries over to the list cut from them. */
  lemma UpcomingFacts(events: seq<Event>, searchQuery: string, eventTypeFilter: seq<string>,
                      days: int, today: Date, candidates: seq<Event>, r: seq<Event>)
    requires ValidDate(today)
    requires candidates == Candidates(events, searchQuery, eventTypeFilter, days, today)
    requires forall k :: 0 <= k < |r| ==> r[k] in candidates
    requires forall e :: (e in candidates && e !in r
            ==> |r| == UpcomingLimit && EventDateValue(e).Some?
                && forall i :: 0 <= i < |r| ==> EventDateValue(r[i]).value <= EventDateValue(e).value)
    ensures forall k :: 0 <= k < |r| ==> r[k] in events && Upcoming(r[k], searchQuery, eventTypeFilter, days, today)
    ensures forall e :: (e in events && Upcoming(e, searchQuery, eventTypeFilter, days, today) && e !in r
            ==> |r| == UpcomingLimit && EventDateValue(e).Some?
                && forall i :: 0 <= i < |r| ==> EventDateValue(r[i]).value <= EventDateValue(e).value)
  {
    forall k | 0 <= k < |r|
      ensures r[k] in events && Upcoming(r[k], searchQuery, eventTypeFilter, days, today)
    {
      assert r[k] in candidates;
    }
    forall e | e in events && Upcoming(e, searchQuery, eventTypeFilter, days, today) && e !in r
      ensures |r| == UpcomingLimit && EventDateValue(e).Some?
      ensures forall i :: 0 <= i < |r| ==> EventDateValue(r[i]).value <= EventDateValue(e).value
    {
      assert e in candidates;
    }
  }

  /** Every candidate has a date that parses. */
  lemma CandidatesKeyed(events: seq<Event>, searchQuery: string, eventTypeFilter: seq<string>, days: int, today: Date)
    requires ValidDate(today)
    ensures AllKeyed(Candidates(events, searchQuery, eventTypeFilter, days, today), EventDateValue)
  {
    var c := Candidates(events, searchQuery, eventTypeFilter, days, today);
    forall k | 0 <= k < |c| ensures EventDateValue(c[k]).Some? {
      assert c[k] in c;
    }
  }

  /** Cutting a date-sorted permutation of `candidates` after `n` keeps
      the `n` soonest. */
  lemma SoonestKept(candidates: seq<Event>, sorted: seq<Event>, n: int, r: seq<Event>)
    requires multiset(sorted) == multiset(candidates)
    requires AllKeyed(sorted, EventDateValue) && KeyAscending(sorted, EventDateValue)
    requires n == if |sorted| < UpcomingLimit then |sorted| else UpcomingLimit
    requires r == sorted[..n]
    ensures |r| <= UpcomingLimit
    ensures multiset(r) <= multiset(candidates)
    ensures forall k :: 0 <= k < |r| ==> r[k] in candidates
    ensures AllKeyed(r, EventDateValue) && KeyAscending(r, EventDateValue)
    ensures forall e :: (e in candidates && e !in r
            ==> |r| == UpcomingLimit && EventDateValue(e).Some?
                && forall i :: 0 <= i < |r| ==> EventDateValue(r[i]).value <= EventDateValue(e).value)
  {
    PrefixMembers(candidates, sorted, n, r);
    PrefixAscending(sorted, n, r);
    PrefixSoonest(candidates, sorted, n, r);
  }

  lemma PrefixMembers(candidates: seq<Event>, sorted: seq<Event>, n: int, r: seq<Event>)
    requires multiset(sorted) == multiset(candidates)
    requires 0 <= n <= |sorted| && r == sorted[..n]
    ensures multiset(r) <= multiset(candidates)
    ensures forall k :: 0 <= k < |r| ==> r[k] in candidates
  {
    assert sorted == r + sorted[n..];
    forall k | 0 <= k < |r|
      ensures r[k] in candidates
    {
      assert r[k] == sorted[k];
      assert sorted[k] in multiset(candidates);
    }
  }

  lemma PrefixAscending(sorted: seq<Event>, n: int, r: seq<Event>)
    requires AllKeyed(sorted, EventDateValue) && KeyAscending(sorted, EventDateValue)
    requires 0 <= n <= |sorted| && r == sorted[..n]
    ensures AllKeyed(r, EventDateValue) && KeyAscending(r, EventDateValue)
  {
    assert AllKeyed(r, EventDateValue) by {
      forall k | 0 <= k < |r| ensures EventDateValue(r[k]).Some? {
        assert r[k] == sorted[k];
      }
    }
    forall i, j | 0 <= i < j < |r| ensures EventDateValue(r[i]).value <= EventDateValue(r[j]).value {
      assert r[i] == sorted[i] && r[j] == sorted[j];
    }
  }

  lemma PrefixSoonest(candidates: seq<Event>, sorted: seq<Event>, n: int, r: seq<Event>)
    requires multiset(sorted) == multiset(candidates)
    requires AllKeyed(sorted, EventDateValue) && KeyAscending(sorted, EventDateValue)
    requires n == if |sorted| < UpcomingLimit then |sorted| else UpcomingLimit
    requires r == sorted[..n]
    ensures forall e :: (e in candidates && e !in r
            ==> |r| == UpcomingLimit && EventDateValue(e).Some?
                && forall i :: 0 <= i < |r| ==> EventDateValue(r[i]).value <= EventDateValue(e).value)
  {
    forall e | e in candidates && e !in r
      ensures |r| == UpcomingLimit && EventDateValue(e).Some?
      ensures forall i :: 0 <= i < |r| ==> EventDateValue(r[i]).value <= EventDateValue(e).value
    {
      assert e in multiset(sorted);
      var j :| 0 <= j < |sorted| && sorted[j] == e;
      assert j >= n;
      forall i | 0 <= i < |r| ensures EventDateValue(r[i]).value <= EventDateValue(e).value {
        assert r[i] == sorted[i];
      }
    }
  }


}
