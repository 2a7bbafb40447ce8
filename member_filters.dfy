/** The member directory filters (src/composables/useMemberFilters.js):
    the tags present, the search and filter pipeline, and the filter state
    with its clear and tag-toggle operations. */
module MemberFilters {
  import opened Wrappers
  import opened Strings
  import opened Seqs
  import opened Sorting
  import opened MembersService
  import opened MemberUtils
  import Export

  // The tags present.

  /** The tags of all members. */
  function TagsOf(members: seq<Member>): set<string> {
    if members == [] then {} else TagsOf(members[..|members| - 1]) + Elements(members[|members| - 1].tags)
  }

  lemma AddNew(tagSet: seq<string>, tag: string)
    requires Distinct(tagSet) && tag !in tagSet
    ensures Distinct(tagSet + [tag])
    ensures Elements(tagSet + [tag]) == Elements(tagSet) + {tag}
  {
  }

  /** `allTags`: every tag of every member once, in code-unit order. */
  method AllTags(members: seq<Member>) returns (allTags: seq<string>)
    ensures Elements(allTags) == TagsOf(members)
    ensures forall i, j :: 0 <= i < j < |allTags| ==> Compare(allTags[i], allTags[j]) < 0
  {
    var tagSet: seq<string> := [];
    for i := 0 to |members|
      invariant Distinct(tagSet)
      invariant Elements(tagSet) == TagsOf(members[..i])
    {
      var tags := members[i].tags;
      for j := 0 to |tags|
        invariant Distinct(tagSet)
        invariant Elements(tagSet) == TagsOf(members[..i]) + Elements(tags[..j])
      {
        assert Elements(tags[..j + 1]) == Elements(tags[..j]) + {tags[j]} by {
          assert tags[..j + 1] == tags[..j] + [tags[j]];
        }
        if tags[j] !in tagSet {
          AddNew(tagSet, tags[j]);
          tagSet := tagSet + [tags[j]];
        }
      }
      assert tags[..|tags|] == tags;
      assert members[..i + 1][..i] == members[..i];
    }
    assert members[..|members|] == members;
    allTags := SortStrings(tagSet);
    SortStringsDistinct(tagSet);
  }

  // The filter pipeline.

  /** The filter state; `None` is `null`, the value a filter has when it is
      not set. */
  datatype Filters = Filters(tags: seq<string>, isMember: Option<bool>, sex: Option<string>, civilStatus: Option<string>)

  /** The initial state, which `clearFilters` restores. */
  function Defaults(): Filters {
    Filters([], None, None, None)
  }

  /** `hasActiveFilters`: some filter differs from its initial value. The
      search text does not count. */
  predicate HasActiveFilters(filters: Filters) {
    |filters.tags| > 0 || filters.isMember.Some? || filters.sex.Some? || filters.civilStatus.Some?
  }

  /** No filter is active exactly in the initial state. */
  lemma InactiveIsDefault(filters: Filters)
    ensures !HasActiveFilters(filters) <==> filters == Defaults()
  {
  }

  /** The search matches the full name, nickname, contact number, address
      or occupation, ignoring the case of the member's fields. */
  predicate MatchesSearch(m: Member, query: string) {
    Mentions(FullName(m), query) || Mentions(m.nickname, query) || Mentions(m.contactNumber, query)
    || Mentions(m.address, query) || Mentions(m.occupation, query)
  }

  function SearchTest(query: string): Member -> bool {
    (m: Member) => MatchesSearch(m, query)
  }

  /** A sex or civil status filter narrows only when it holds a non-empty
      text: `if (filters.value.sex)`. */
  predicate Narrows(value: Option<string>) {
    value.Some? && value.value != ""
  }

  /** `filteredMembers`: the search when the query is not empty, then each
      filter that is set, in turn. */
  function FilteredMembers(members: seq<Member>, searchQuery: string, filters: Filters): seq<Member> {
    var bySearch := if searchQuery != "" then Filter(members, SearchTest(ToLower(searchQuery))) else members;
    var byTags := if |filters.tags| > 0 then Filter(bySearch, Export.TagTest(filters.tags)) else bySearch;
    var byStatus := if filters.isMember.Some? then Filter(byTags, Export.StatusTest(filters.isMember.value)) else byTags;
    var bySex := if Narrows(filters.sex) then Filter(byStatus, Export.SexTest(filters.sex.value)) else byStatus;
    if Narrows(filters.civilStatus) then Filter(bySex, Export.CivilStatusTest(filters.civilStatus.value)) else bySex
  }

  /** A member is kept when it passes the search and every filter that
      narrows. */
  predicate Kept(m: Member, searchQuery: string, filters: Filters) {
    && (searchQuery != "" ==> MatchesSearch(m, ToLower(searchQuery)))
    && (|filters.tags| > 0 ==> Export.SharesTag(m, filters.tags))
    && (filters.isMember.Some? ==> m.isMember == filters.isMember)
    && (Narrows(filters.sex) ==> m.sex == filters.sex.value)
    && (Narrows(filters.civilStatus) ==> m.civilStatus == filters.civilStatus.value)
  }

  function KeptTest(searchQuery: string, filters: Filters): Member -> bool {
    (m: Member) => Kept(m, searchQuery, filters)
  }

  function SearchStage(searchQuery: string): Member -> bool {
    (m: Member) => searchQuery == "" || MatchesSearch(m, ToLower(searchQuery))
  }

  function TagStage(filters: Filters): Member -> bool {
    (m: Member) => |filters.tags| == 0 || Export.SharesTag(m, filters.tags)
  }

  function StatusStage(filters: Filters): Member -> bool {
    (m: Member) => filters.isMember.None? || m.isMember == filters.isMember
  }

  function SexStage(filters: Filters): Member -> bool {
    (m: Member) => !Narrows(filters.sex) || m.sex == filters.sex.value
  }

  function CivilStatusStage(filters: Filters): Member -> bool {
    (m: Member) => !Narrows(filters.civilStatus) || m.civilStatus == filters.civilStatus.value
  }

  /** The four filters after the search, each as a filter with its stage's test. */
  function FilterStages(s: seq<Member>, filters: Filters): seq<Member> {
    Filter(Filter(Filter(Filter(s, TagStage(filters)), StatusStage(filters)), SexStage(filters)), CivilStatusStage(filters))
  }

  lemma Stages(members: seq<Member>, searchQuery: string, filters: Filters)
    ensures FilteredMembers(members, searchQuery, filters) == FilterStages(Filter(members, SearchStage(searchQuery)), filters)
  {
    hide Filter, ToLower, MatchesSearch, Export.SharesTag, SearchTest, SearchStage, TagStage, StatusStage, SexStage,
      CivilStatusStage, Export.TagTest, Export.StatusTest, Export.SexTest, Export.CivilStatusTest;
    var bySearch := if searchQuery != "" then Filter(members, SearchTest(ToLower(searchQuery))) else members;
    SearchStep(members, searchQuery);
    var byTags := if |filters.tags| > 0 then Filter(bySearch, Export.TagTest(filters.tags)) else bySearch;
    TagStep(bySearch, filters);
    var byStatus := if filters.isMember.Some? then Filter(byTags, Export.StatusTest(filters.isMember.value)) else byTags;
    StatusStep(byTags, filters);
    var bySex := if Narrows(filters.sex) then Filter(byStatus, Export.SexTest(filters.sex.value)) else byStatus;
    SexStep(byStatus, filters);
    CivilStatusStep(bySex, filters);
  }

  lemma SearchStep(s: seq<Member>, searchQuery: string)
    ensures (if searchQuery != "" then Filter(s, SearchTest(ToLower(searchQuery))) else s) == Filter(s, SearchStage(searchQuery))
  {
    Export.Optional(s, searchQuery != "", SearchTest(ToLower(searchQuery)), SearchStage(searchQuery));
  }

  lemma TagStep(s: seq<Member>, filters: Filters)
    ensures (if |filters.tags| > 0 then Filter(s, Export.TagTest(filters.tags)) else s) == Filter(s, TagStage(filters))
  {
    Export.Optional(s, |filters.tags| > 0, Export.TagTest(filters.tags), TagStage(filters));
  }

  lemma StatusStep(s: seq<Member>, filters: Filters)
    ensures (if filters.isMember.Some? then Filter(s, Export.StatusTest(filters.isMember.value)) else s)
      == Filter(s, StatusStage(filters))
  {
    if filters.isMember.Some? {
      Export.Optional(s, true, Export.StatusTest(filters.isMember.value), StatusStage(filters));
    } else {
      Export.Optional(s, false, Export.StatusTest(false), StatusStage(filters));
    }
  }

  lemma SexStep(s: seq<Member>, filters: Filters)
    ensures (if Narrows(filters.sex) then Filter(s, Export.SexTest(filters.sex.value)) else s) == Filter(s, SexStage(filters))
  {
    if Narrows(filters.sex) {
      Export.Optional(s, true, Export.SexTest(filters.sex.value), SexStage(filters));
    } else {
      Export.Optional(s, false, Export.SexTest(""), SexStage(filters));
    }
  }

  lemma CivilStatusStep(s: seq<Member>, filters: Filters)
    ensures (if Narrows(filters.civilStatus) then Filter(s, Export.CivilStatusTest(filters.civilStatus.value)) else s)
      == Filter(s, CivilStatusStage(filters))
  {
    if Narrows(filters.civilStatus) {
      Export.Optional(s, true, Export.CivilStatusTest(filters.civilStatus.value), CivilStatusStage(filters));
    } else {
      Export.Optional(s, false, Export.CivilStatusTest(""), CivilStatusStage(filters));
    }
  }

  /** The four filters after the search pass everything a member passes
      them all. */
  function FilterTest(filters: Filters): Member -> bool {
    (m: Member) => TagStage(filters)(m) && StatusStage(filters)(m) && SexStage(filters)(m) && CivilStatusStage(filters)(m)
  }

  lemma StagesCombined(s: seq<Member>, filters: Filters)
    ensures FilterStages(s, filters) == Filter(s, FilterTest(filters))
  {
    Export.FourFilters(s, TagStage(filters), StatusStage(filters), SexStage(filters), CivilStatusStage(filters),
                       FilterTest(filters));
  }

  lemma SearchThenFilters(members: seq<Member>, searchQuery: string, filters: Filters)
    ensures Filter(Filter(members, SearchStage(searchQuery)), FilterTest(filters)) == Filter(members, KeptTest(searchQuery, filters))
  {
    forall m ensures KeptTest(searchQuery, filters)(m) == (SearchStage(searchQuery)(m) && FilterTest(filters)(m)) {
      assert TagStage(filters)(m) == (|filters.tags| > 0 ==> Export.SharesTag(m, filters.tags));
      assert StatusStage(filters)(m) == (filters.isMember.Some? ==> m.isMember == filters.isMember);
    }
    FilterBoth(members, SearchStage(searchQuery), FilterTest(filters), KeptTest(searchQuery, filters));
  }

  /** The pipeline keeps exactly the members that pass the search and the
      filters, in their original order. */
  lemma FilteredIsFilter(members: seq<Member>, searchQuery: string, filters: Filters)
    ensures FilteredMembers(members, searchQuery, filters) == Filter(members, KeptTest(searchQuery, filters))
  {
    Stages(members, searchQuery, filters);
    StagesCombined(Filter(members, SearchStage(searchQuery)), filters);
    SearchThenFilters(members, searchQuery, filters);
  }

  /** `filteredMembers` is an order-preserving subsequence of the members,
      and a member is in it exactly when it passes the search and every
      filter that narrows. */
  lemma FilteredKeeps(members: seq<Member>, searchQuery: string, filters: Filters, m: Member)
    ensures IsSubsequence(FilteredMembers(members, searchQuery, filters), members)
    ensures m in FilteredMembers(members, searchQuery, filters) <==> m in members && Kept(m, searchQuery, filters)
  {
    FilteredIsFilter(members, searchQuery, filters);
    FilterIsSubsequence(members, KeptTest(searchQuery, filters));
    FilterMembership(members, KeptTest(searchQuery, filters), m);
  }

  /** With no search and no filter set, every member is shown. */
  lemma NothingSetShowsAll(members: seq<Member>)
    ensures FilteredMembers(members, "", Defaults()) == members
  {
  }

  // Toggling a tag.

  /** `tags.indexOf(tag)`. */
  function IndexOf(tags: seq<string>, tag: string): (r: int)
    ensures -1 <= r < |tags|
    ensures r == -1 <==> tag !in tags
    ensures r >= 0 ==> tags[r] == tag && tag !in tags[..r]
  {
    if tags == [] then -1
    else if tags[0] == tag then 0
    else
      var k := IndexOf(tags[1..], tag);
      assert k >= 0 ==> tags[1..][..k] == tags[1..k + 1];
      if k == -1 then -1 else k + 1
  }

  /** The tags after `toggleTag(tag)`: the first occurrence spliced out,
      or the tag pushed when it is absent. */
  function Toggled(tags: seq<string>, tag: string): seq<string> {
    var index := IndexOf(tags, tag);
    if index > -1 then tags[..index] + tags[index + 1..] else tags + [tag]
  }

  /** On tags without repeats, a toggle flips the presence of the tag,
      leaves every other tag as it was, and keeps the tags without repeats. */
  lemma ToggleFlips(tags: seq<string>, tag: string)
    requires Distinct(tags)
    ensures tag in Toggled(tags, tag) <==> tag !in tags
    ensures forall t :: t != tag ==> (t in Toggled(tags, tag) <==> t in tags)
    ensures Distinct(Toggled(tags, tag))
  {
    var index := IndexOf(tags, tag);
    var r := Toggled(tags, tag);
    if index > -1 {
      assert r == tags[..index] + tags[index + 1..];
      forall t ensures t in r <==> t in tags && t != tag {
        if t in tags {
          var k :| 0 <= k < |tags| && tags[k] == t;
          if k < index {
            assert r[k] == t;
          } else if k > index {
            assert r[k - 1] == t;
          }
        }
        if t in r {
          var k :| 0 <= k < |r| && r[k] == t;
          if k < index {
            assert tags[k] == t;
          } else {
            assert tags[k + 1] == t;
          }
        }
      }
      forall i, j | 0 <= i < j < |r| ensures r[i] != r[j] {
        var i' := if i < index then i else i + 1;
        var j' := if j < index then j else j + 1;
        assert r[i] == tags[i'] && r[j] == tags[j'];
      }
    }
  }

  /** Toggling a tag twice restores the set of tags; from a state without
      the tag it restores the list itself. */
  lemma ToggleTwice(tags: seq<string>, tag: string)
    requires Distinct(tags)
    ensures Elements(Toggled(Toggled(tags, tag), tag)) == Elements(tags)
    ensures tag !in tags ==> Toggled(Toggled(tags, tag), tag) == tags
  {
    ToggleFlips(tags, tag);
    ToggleFlips(Toggled(tags, tag), tag);
    if tag !in tags {
      var once := tags + [tag];
      assert IndexOf(once, tag) == |tags| by {
        assert once[|tags|] == tag && once[..|tags|] == tags;
      }
      assert once[..|tags|] == tags;
    }
  }

  /** The filter state of one directory view. */
  class FilterState {
    var filters: Filters

    /** The tag filter never holds a tag twice. */
    ghost predicate Valid()
      reads this
    {
      Distinct(filters.tags)
    }

    constructor()
      ensures filters == Defaults() && Valid()
    {
      filters := Defaults();
    }

    /** `clearFilters`: every filter back to its initial value, after which
        none is active. */
    method ClearFilters()
      modifies this
      ensures filters == Defaults()
      ensures !HasActiveFilters(filters) && Valid()
    {
      filters := Filters([], None, None, None);
    }

    /** `toggleTag`: the tag spliced out of the tag filter when present,
        pushed otherwise; the other filters are untouched. */
    method ToggleTag(tag: string)
      modifies this
      ensures filters == old(filters).(tags := Toggled(old(filters.tags), tag))
      ensures old(Valid()) ==> Valid()
      ensures old(Valid()) ==> (tag in filters.tags <==> tag !in old(filters.tags))
    {
      if old(Valid()) {
        ToggleFlips(filters.tags, tag);
      }
      var index := IndexOf(filters.tags, tag);
      if index > -1 {
        filters := filters.(tags := filters.tags[..index] + filters.tags[index + 1..]);
      } else {
        filters := filters.(tags := filters.tags + [tag]);
      }
    }
  }
}
