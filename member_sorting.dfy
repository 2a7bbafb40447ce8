/** The member list orderings (src/composables/useMemberSorting.js). Each
    sorts a fresh copy with a comparator chosen by a sort key; the input is
    a value and is never changed. */
module MemberSorting {
  import opened Wrappers
  import opened Strings
  import opened Sorting
  import opened Dates
  import opened MembersService
  import opened MemberUtils

  /** `${firstName} ${lastName}`.toLowerCase(). */
  function NameKey(m: Member): string {
    ToLower(FullName(m))
  }

  /** `m.age || 0`. */
  function AgeKey(m: Member): (k: int)
    ensures m.age.None? ==> k == 0
    ensures m.age.Some? ==> k == m.age.value
  {
    if m.age.Some? then m.age.value else 0
  }

  function AgeValue(m: Member): Option<int> {
    Some(AgeKey(m))
  }

  /** `new Date(m.dateOfBirth || 0)` as a day number; `None` is NaN. A
      missing date of birth stands for 1970-01-01. */
  function BirthKey(m: Member): (k: Option<int>)
    ensures (m.dateOfBirth.None? || m.dateOfBirth == Some("")) ==> k == Some(DayNumber(Epoch))
  {
    if m.dateOfBirth.None? || m.dateOfBirth.value == "" then Some(DayNumber(Epoch))
    else DateValue(m.dateOfBirth.value)
  }

  /** The comparison of `sortMembers` before the direction is applied. */
  function KeyComparison(sortBy: string, a: Member, b: Member): int {
    if sortBy == "name" then Compare(NameKey(a), NameKey(b))
    else if sortBy == "age" then AgeKey(a) - AgeKey(b)
    else if sortBy == "dateOfBirth" then NumericOrder(BirthKey(a), BirthKey(b))
    else 0
  }

  /** The comparator of `sortMembers`: descending is the negation of ascending. */
  function MemberOrder(sortBy: string, sortOrder: string, a: Member, b: Member): int {
    var c := KeyComparison(sortBy, a, b);
    if sortOrder == "asc" then c else -c
  }

  /** The comparator `sortMembers` passes to `sort`. */
  function MemberComparator(sortBy: string, sortOrder: string): (Member, Member) -> int {
    (a: Member, b: Member) => MemberOrder(sortBy, sortOrder, a, b)
  }

  /** `sortMembers(members)` with the current `sortBy` and `sortOrder`: a
      sorted copy holding the same members. */
  function SortMembers(members: seq<Member>, sortBy: string, sortOrder: string): (r: seq<Member>)
    ensures multiset(r) == multiset(members)
  {
    SortWith(members, MemberComparator(sortBy, sortOrder))
  }

  /** By name: ascending or descending by the lower-cased full name. */
  lemma SortMembersByName(members: seq<Member>, sortOrder: string)
    ensures var r := SortMembers(members, "name", sortOrder);
      (sortOrder == "asc" ==> forall i, j :: 0 <= i < j < |r| ==> Compare(NameKey(r[i]), NameKey(r[j])) <= 0)
      && (sortOrder != "asc" ==> forall i, j :: 0 <= i < j < |r| ==> Compare(NameKey(r[j]), NameKey(r[i])) <= 0)
  {
    SortByTextDirected(members, MemberComparator("name", sortOrder), NameKey, sortOrder == "asc");
  }

  /** By age: ascending or descending by `age || 0`. */
  lemma SortMembersByAge(members: seq<Member>, sortOrder: string)
    ensures var r := SortMembers(members, "age", sortOrder);
      (sortOrder == "asc" ==> forall i, j :: 0 <= i < j < |r| ==> AgeKey(r[i]) <= AgeKey(r[j]))
      && (sortOrder != "asc" ==> forall i, j :: 0 <= i < j < |r| ==> AgeKey(r[i]) >= AgeKey(r[j]))
  {
    var cmp := MemberComparator("age", sortOrder);
    var ascending := sortOrder == "asc";
    assert forall a, b :: cmp(a, b) == if ascending then NumericOrder(AgeValue(a), AgeValue(b))
                                      else -NumericOrder(AgeValue(a), AgeValue(b));
    SortByKeyDirected(members, cmp, AgeValue, ascending);
  }

  /** By date of birth, when every date parses: ascending or descending by
      day, a missing date counting as 1970-01-01. */
  lemma SortMembersByBirth(members: seq<Member>, sortOrder: string)
    requires AllKeyed(members, BirthKey)
    ensures var r := SortMembers(members, "dateOfBirth", sortOrder);
      AllKeyed(r, BirthKey)
      && (sortOrder == "asc" ==> KeyAscending(r, BirthKey))
      && (sortOrder != "asc" ==> KeyDescending(r, BirthKey))
  {
    SortByKeyDirected(members, MemberComparator("dateOfBirth", sortOrder), BirthKey, sortOrder == "asc");
  }

  /** Any other sort key compares every pair as equal and keeps the order. */
  lemma SortMembersUnknownKey(members: seq<Member>, sortBy: string, sortOrder: string)
    requires sortBy != "name" && sortBy != "age" && sortBy != "dateOfBirth"
    ensures SortMembers(members, sortBy, sortOrder) == members
  {
    AllTiesKeepOrder(members, MemberComparator(sortBy, sortOrder));
  }

  /** The comparison of `sortFamilyMembers`; "age" puts the oldest first. */
  function FamilyOrder(familyMemberSort: string, a: Member, b: Member): int {
    if familyMemberSort == "name" then Compare(NameKey(a), NameKey(b))
    else if familyMemberSort == "age" then AgeKey(b) - AgeKey(a)
    else if familyMemberSort == "dateOfBirth" then NumericOrder(BirthKey(a), BirthKey(b))
    else 0
  }

  /** The comparator `sortFamilyMembers` passes to `sort`. */
  function FamilyComparator(familyMemberSort: string): (Member, Member) -> int {
    (a: Member, b: Member) => FamilyOrder(familyMemberSort, a, b)
  }

  /** `sortFamilyMembers(familyMembers)` with the current
      `familyMemberSort`; there is no direction. */
  function SortFamilyMembers(familyMembers: seq<Member>, familyMemberSort: string): (r: seq<Member>)
    ensures multiset(r) == multiset(familyMembers)
  {
    SortWith(familyMembers, FamilyComparator(familyMemberSort))
  }

  /** Family members by name: ascending by the lower-cased full name. */
  lemma SortFamilyByName(familyMembers: seq<Member>)
    ensures var r := SortFamilyMembers(familyMembers, "name");
      forall i, j :: 0 <= i < j < |r| ==> Compare(NameKey(r[i]), NameKey(r[j])) <= 0
  {
    SortByTextDirected(familyMembers, FamilyComparator("name"), NameKey, true);
  }

  /** Family members by age: the oldest first. */
  lemma SortFamilyByAge(familyMembers: seq<Member>)
    ensures var r := SortFamilyMembers(familyMembers, "age");
      forall i, j :: 0 <= i < j < |r| ==> AgeKey(r[i]) >= AgeKey(r[j])
  {
    var cmp := FamilyComparator("age");
    assert forall a, b :: cmp(a, b) == -NumericOrder(AgeValue(a), AgeValue(b));
    SortByKeyDirected(familyMembers, cmp, AgeValue, false);
  }

  /** Family members by date of birth, when every date parses: the oldest
      first. */
  lemma SortFamilyByBirth(familyMembers: seq<Member>)
    requires AllKeyed(familyMembers, BirthKey)
    ensures var r := SortFamilyMembers(familyMembers, "dateOfBirth");
      AllKeyed(r, BirthKey) && KeyAscending(r, BirthKey)
  {
    SortByKeyDirected(familyMembers, FamilyComparator("dateOfBirth"), BirthKey, true);
  }

  /** Any other family sort keeps the order. */
  lemma SortFamilyUnknownKey(familyMembers: seq<Member>, familyMemberSort: string)
    requires familyMemberSort != "name" && familyMemberSort != "age" && familyMemberSort != "dateOfBirth"
    ensures SortFamilyMembers(familyMembers, familyMemberSort) == familyMembers
  {
    AllTiesKeepOrder(familyMembers, FamilyComparator(familyMemberSort));
  }
}
