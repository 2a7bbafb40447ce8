/** Household clustering (src/composables/useFamilyGroups.js): a
    breadth-first search over the `relatives` links of all members, in
    both directions, grouping the filtered members into households. */
module FamilyGroups {
  import opened Wrappers
  import opened Seqs
  import opened Sorting
  import opened Strings
  import opened Dates
  import opened MembersService
  import opened MemberSorting

  /** The position of the last member with that id, or -1. */
  function LastIndex(ms: seq<Member>, id: Id): (k: int)
    ensures -1 <= k < |ms|
    ensures k >= 0 ==> ms[k].id == id && forall j :: k < j < |ms| ==> ms[j].id != id
    ensures k < 0 <==> forall j :: 0 <= j < |ms| ==> ms[j].id != id
  {
    if ms == [] then -1
    else if ms[|ms| - 1].id == id then |ms| - 1
    else LastIndex(ms[..|ms| - 1], id)
  }

  /** `new Map(list.map(m => [m.id, m])).get(id)`: the last member with
      that id, since a later entry overwrites an earlier one. */
  function Lookup(ms: seq<Member>, id: Id): (r: Option<Member>)
    ensures r.Some? ==> r.value in ms && r.value.id == id
    ensures r.None? <==> forall k :: 0 <= k < |ms| ==> ms[k].id != id
    ensures r.Some? ==> exists k :: 0 <= k < |ms| && ms[k] == r.value && forall j :: k < j < |ms| ==> ms[j].id != id
  {
    var k := LastIndex(ms, id);
    if k < 0 then None else Some(ms[k])
  }

  /** Some entry of the `relatives` object names `id`. */
  predicate Names(rels: seq<Relative>, id: Id) {
    exists e :: 0 <= e < |rels| && rels[e].memberId == id
  }

  /** Some member with id `b` lists `a` among its relatives. */
  predicate Refers(members: seq<Member>, b: Id, a: Id) {
    exists k :: 0 <= k < |members| && members[k].id == b
      && members[k].relatives.Some? && Names(members[k].relatives.value, a)
  }

  /** While `a` is taken from the queue, `b` is enqueued: `a` is a member
      with a `relatives` value, and either `a` names `b` or a member with
      id `b` names `a`. */
  predicate Linked(members: seq<Member>, a: Id, b: Id) {
    var cur := Lookup(members, a);
    cur.Some? && cur.value.relatives.Some?
    && (Names(cur.value.relatives.value, b) || Refers(members, b, a))
  }

  /** Every id linked from an id of `family` is in `family`. */
  ghost predicate NeighboursIn(members: seq<Member>, a: Id, family: seq<Id>) {
    forall b :: Linked(members, a, b) ==> b in family
  }

  ghost predicate Closed(members: seq<Member>, family: seq<Id>) {
    forall a :: a in family ==> NeighboursIn(members, a, family)
  }

  /** Every id after the first was enqueued while an earlier one was
      dequeued. */
  predicate Discovered(members: seq<Member>, family: seq<Id>, parent: seq<int>) {
    |parent| == |family|
    && forall k :: 0 < k < |family| ==> 0 <= parent[k] < k && Linked(members, family[parent[k]], family[k])
  }

  /** Every id the search can meet: the start, the member ids and the ids
      named in `relatives`. */
  ghost function Universe(members: seq<Member>, start: Id): set<Id> {
    {start} + (set k | 0 <= k < |members| :: members[k].id)
    + (set k, e | 0 <= k < |members| && members[k].relatives.Some? && 0 <= e < |members[k].relatives.value|
        :: members[k].relatives.value[e].memberId)
  }

  /** The state of the search: `family` in insertion order, the queue its
      suffix after `head` ids were taken, the first `done` of which have
      had all their links followed. */
  ghost predicate SearchState(members: seq<Member>, start: Id, family: seq<Id>, parent: seq<int>,
                              queue: seq<Id>, head: int, done: int)
  {
    0 <= done <= head <= |family| && queue == family[head..]
    && |family| > 0 && family[0] == start && Distinct(family)
    && Discovered(members, family, parent)
    && (forall j :: 0 <= j < done ==> NeighboursIn(members, family[j], family))
    && (forall x :: x in family ==> x in Universe(members, start))
  }

  /** `family.add(id); queue.push(id)` for an id found from `family[head - 1]`. */
  lemma Enqueue(members: seq<Member>, start: Id, family: seq<Id>, parent: seq<int>,
                queue: seq<Id>, head: int, done: int, id: Id)
    requires SearchState(members, start, family, parent, queue, head, done)
    requires done < head && Linked(members, family[head - 1], id) && id !in family
    requires id in Universe(members, start)
    ensures SearchState(members, start, family + [id], parent + [head - 1], queue + [id], head, done)
  {
    var f := family + [id];
    assert f[head..] == queue + [id];
    assert forall k :: 0 <= k < |family| ==> f[k] == family[k];
    forall j | 0 <= j < done ensures NeighboursIn(members, f[j], f) {
      assert NeighboursIn(members, family[j], family);
    }
  }

  lemma {:induction false} DistinctCard<T>(s: seq<T>)
    requires Distinct(s)
    ensures |Elements(s)| == |s|
    decreases |s|
  {
    if s != [] {
      var init := s[..|s| - 1];
      assert Distinct(init) by {
        forall i, j | 0 <= i < j < |init| ensures init[i] != init[j] {
          assert init[i] == s[i] && init[j] == s[j];
        }
      }
      DistinctCard(init);
      assert s == init + [s[|s| - 1]];
      assert Elements(s) == Elements(init) + {s[|s| - 1]};
      assert s[|s| - 1] !in Elements(init);
    }
  }

  lemma {:induction false} SubsetCard<T>(a: set<T>, b: set<T>)
    requires a <= b
    ensures |a| <= |b|
    decreases |b|
  {
    if a != {} {
      var x :| x in a;
      SubsetCard(a - {x}, b - {x});
    }
  }

  /** A family of distinct ids inside the universe is no larger than it. */
  lemma FamilyBound(members: seq<Member>, start: Id, family: seq<Id>)
    requires Distinct(family) && forall x :: x in family ==> x in Universe(members, start)
    ensures |family| <= |Universe(members, start)|
  {
    DistinctCard(family);
    SubsetCard(Elements(family), Universe(members, start));
  }

  /** The ids a member names lie in the universe. */
  lemma NamedInUniverse(members: seq<Member>, start: Id, k: int, e: int)
    requires 0 <= k < |members| && members[k].relatives.Some? && 0 <= e < |members[k].relatives.value|
    ensures members[k].relatives.value[e].memberId in Universe(members, start)
  {
  }

  /** The `Object.entries(current.relatives).forEach` loop: enqueue every
      named id not yet in the family. */
  method FollowRelatives(members: seq<Member>, start: Id, family0: seq<Id>, ghost parent0: seq<int>,
                         queue0: seq<Id>, ghost head: int, ghost done: int, currentId: Id, current: Member)
      returns (family: seq<Id>, ghost parent: seq<int>, queue: seq<Id>)
    requires SearchState(members, start, family0, parent0, queue0, head, done)
    requires done < head && family0[head - 1] == currentId
    requires Lookup(members, currentId) == Some(current) && current.relatives.Some?
    ensures SearchState(members, start, family, parent, queue, head, done)
    ensures |family| >= |family0| && family[..|family0|] == family0
    ensures forall e :: 0 <= e < |current.relatives.value| ==> current.relatives.value[e].memberId in family
  {
    var rels := current.relatives.value;
    family, parent, queue := family0, parent0, queue0;
    var k :| 0 <= k < |members| && members[k] == current;
    for e := 0 to |rels|
      invariant SearchState(members, start, family, parent, queue, head, done)
      invariant |family| >= |family0| && family[..|family0|] == family0
      invariant forall e' :: 0 <= e' < e ==> rels[e'].memberId in family
    {
      var relativeId := rels[e];
      if relativeId.memberId !in family {
        assert Names(rels, relativeId.memberId);
        assert family[head - 1] == currentId;
        NamedInUniverse(members, start, k, e);
        Enqueue(members, start, family, parent, queue, head, done, relativeId.memberId);
        family, parent, queue := family + [relativeId.memberId], parent + [head - 1], queue + [relativeId.memberId];
      }
    }
  }

  /** The `members.value.forEach` loop: enqueue every member that names
      `currentId` and is not yet in the family. */
  method FollowReferrers(members: seq<Member>, start: Id, family0: seq<Id>, ghost parent0: seq<int>,
                         queue0: seq<Id>, ghost head: int, ghost done: int, currentId: Id, current: Member)
      returns (family: seq<Id>, ghost parent: seq<int>, queue: seq<Id>)
    requires SearchState(members, start, family0, parent0, queue0, head, done)
    requires done < head && family0[head - 1] == currentId
    requires Lookup(members, currentId) == Some(current) && current.relatives.Some?
    ensures SearchState(members, start, family, parent, queue, head, done)
    ensures |family| >= |family0| && family[..|family0|] == family0
    ensures forall b :: Refers(members, b, currentId) ==> b in family
  {
    hide Lookup, Universe, Linked, Discovered, Distinct, NeighboursIn;
    family, parent, queue := family0, parent0, queue0;
    for k := 0 to |members|
      invariant SearchState(members, start, family, parent, queue, head, done)
      invariant |family| >= |family0| && family[..|family0|] == family0
      invariant forall k' :: 0 <= k' < k && members[k'].relatives.Some? && Names(members[k'].relatives.value, currentId)
                  ==> members[k'].id in family
    {
      var m := members[k];
      if m.relatives.Some? {
        var rels := m.relatives.value;
        for e := 0 to |rels|
          invariant SearchState(members, start, family, parent, queue, head, done)
          invariant |family| >= |family0| && family[..|family0|] == family0
          invariant forall k' :: 0 <= k' < k && members[k'].relatives.Some? && Names(members[k'].relatives.value, currentId)
                      ==> members[k'].id in family
          invariant (exists e' :: 0 <= e' < e && rels[e'].memberId == currentId) ==> m.id in family
        {
          if rels[e].memberId == currentId && m.id !in family {
            assert Names(rels, currentId);
            ReferrerLinked(members, start, currentId, current, k);
            assert family[head - 1] == currentId;
            Enqueue(members, start, family, parent, queue, head, done, m.id);
            family, parent, queue := family + [m.id], parent + [head - 1], queue + [m.id];
          }
        }
      }
    }
    forall b | Refers(members, b, currentId) ensures b in family {
      var k :| 0 <= k < |members| && members[k].id == b
        && members[k].relatives.Some? && Names(members[k].relatives.value, currentId);
    }
  }

  /** A member that names the current id is linked from it. */
  lemma ReferrerLinked(members: seq<Member>, start: Id, currentId: Id, current: Member, k: int)
    requires Lookup(members, currentId) == Some(current) && current.relatives.Some?
    requires 0 <= k < |members| && members[k].relatives.Some? && Names(members[k].relatives.value, currentId)
    ensures Linked(members, currentId, members[k].id)
    ensures members[k].id in Universe(members, start)
  {
    assert Refers(members, members[k].id, currentId);
  }

  /** The search from `start`: the ids met, in the order they were added to
      the `family` set. */
  method Household(members: seq<Member>, start: Id) returns (family: seq<Id>, ghost parent: seq<int>)
    ensures |family| >= 1 && family[0] == start && Distinct(family)
    ensures Closed(members, family)
    ensures Discovered(members, family, parent)
  {
    family, parent := [start], [0];
    var queue := [start];
    ghost var head, done := 0, 0;
    ghost var universe := Universe(members, start);
    FamilyBound(members, start, family);
    while |queue| > 0
      invariant SearchState(members, start, family, parent, queue, head, done)
      invariant done == head
      invariant |family| <= |universe|
      decreases |universe| - |family|, |queue|
    {
      ghost var size := |family|;
      var currentId := queue[0];
      queue := queue[1..];
      head := head + 1;
      var current := Lookup(members, currentId);
      if current.Some? && current.value.relatives.Some? {
        family, parent, queue := FollowRelatives(members, start, family, parent, queue, head, done, currentId, current.value);
        ghost var mid := family;
        family, parent, queue := FollowReferrers(members, start, family, parent, queue, head, done, currentId, current.value);
        assert family[..|mid|] == mid;
        assert forall e :: 0 <= e < |current.value.relatives.value| ==> current.value.relatives.value[e].memberId in family;
      }
      assert family[done] == currentId;
      assert NeighboursIn(members, family[done], family);
      done := done + 1;
      FamilyBound(members, start, family);
    }
    assert done == |family|;
  }

  /** No id is closed off from the set: every link from inside stays inside. */
  ghost predicate ClosedSet(members: seq<Member>, ids: set<Id>) {
    forall a, b :: a in ids && Linked(members, a, b) ==> b in ids
  }

  /** A family found by the search is the smallest set that contains its
      start and is closed under the links. */
  lemma HouseholdLeast(members: seq<Member>, family: seq<Id>, parent: seq<int>, ids: set<Id>)
    requires |family| > 0 && Discovered(members, family, parent)
    requires family[0] in ids && ClosedSet(members, ids)
    ensures forall x :: x in family ==> x in ids
  {
    forall k | 0 <= k < |family| ensures family[k] in ids {
      ReachedFromStart(members, family, parent, ids, k);
    }
  }

  lemma {:induction false} ReachedFromStart(members: seq<Member>, family: seq<Id>, parent: seq<int>, ids: set<Id>, k: int)
    requires 0 <= k < |family| && Discovered(members, family, parent)
    requires family[0] in ids && ClosedSet(members, ids)
    ensures family[k] in ids
    decreases k
  {
    if k > 0 {
      ReachedFromStart(members, family, parent, ids, parent[k]);
    }
  }

  /** The member ids are distinct and every member carries a `relatives`
      value (normalisation always supplies one). */
  predicate MembersConsistent(members: seq<Member>) {
    (forall i, j :: 0 <= i < j < |members| ==> members[i].id != members[j].id)
    && (forall k :: 0 <= k < |members| ==> members[k].relatives.Some?)
  }

  /** ... and every filtered member's id is a member id. */
  predicate Consistent(members: seq<Member>, filtered: seq<Member>) {
    MembersConsistent(members)
    && forall k :: 0 <= k < |filtered| ==> Lookup(members, filtered[k].id).Some?
  }

  /** Between members, a link in one direction is a link in the other. */
  lemma LinkedSymmetric(members: seq<Member>, a: Id, b: Id)
    requires MembersConsistent(members)
    requires Linked(members, a, b) && Lookup(members, b).Some?
    ensures Linked(members, b, a)
  {
    var ma := Lookup(members, a).value;
    var mb := Lookup(members, b).value;
    var ka :| 0 <= ka < |members| && members[ka] == ma;
    var kb :| 0 <= kb < |members| && members[kb] == mb;
    assert mb.relatives.Some?;
    if Names(ma.relatives.value, b) {
      assert Refers(members, a, b);
    } else {
      var k :| 0 <= k < |members| && members[k].id == b
        && members[k].relatives.Some? && Names(members[k].relatives.value, a);
      assert k == kb;
    }
  }

  /** Walking the discovery links backwards: a family member that lies in a
      closed set drags the start of the search into it. */
  lemma {:induction false} ReachBack(members: seq<Member>, family: seq<Id>, parent: seq<int>, ids: set<Id>, k: int)
    requires MembersConsistent(members)
    requires 0 <= k < |family| && Discovered(members, family, parent)
    requires ClosedSet(members, ids) && family[k] in ids && Lookup(members, family[k]).Some?
    ensures family[0] in ids
    decreases k
  {
    if k > 0 {
      var p := parent[k];
      LinkedSymmetric(members, family[p], family[k]);
      assert family[p] in ids;
      ReachBack(members, family, parent, ids, p);
    }
  }

  /** A household: `id` is the id of its first member. */
  datatype Group = Group(id: Id, members: seq<Member>)

  /** `new Set(filtered.map(m => m.id))`. */
  function FilteredIds(filtered: seq<Member>): set<Id> {
    set m | m in filtered :: m.id
  }

  function MemberIds(g: Group): set<Id> {
    set x | x in g.members :: x.id
  }

  /** The ids of all members placed in some group. */
  function GroupIds(groups: seq<Group>): set<Id> {
    if groups == [] then {} else GroupIds(groups[..|groups| - 1]) + MemberIds(groups[|groups| - 1])
  }

  lemma {:induction false} GroupIdsMembership(groups: seq<Group>, id: Id)
    ensures id in GroupIds(groups) <==> exists g :: g in groups && id in MemberIds(g)
    decreases |groups|
  {
    if groups != [] {
      var init := groups[..|groups| - 1];
      GroupIdsMembership(init, id);
      assert groups == init + [groups[|groups| - 1]];
      if exists g :: g in groups && id in MemberIds(g) {
        var g :| g in groups && id in MemberIds(g);
        assert g in init || g == groups[|groups| - 1];
      }
    }
  }

  lemma GroupIdsPermuted(a: seq<Group>, b: seq<Group>)
    requires multiset(a) == multiset(b)
    ensures GroupIds(a) == GroupIds(b)
  {
    forall id ensures id in GroupIds(a) <==> id in GroupIds(b) {
      GroupIdsMembership(a, id);
      GroupIdsMembership(b, id);
      assert forall g :: g in a <==> g in multiset(b);
    }
  }

  /** No member id is shared by two groups. */
  predicate Disjoint(groups: seq<Group>) {
    forall i, j :: 0 <= i < j < |groups| ==> MemberIds(groups[i]) !! MemberIds(groups[j])
  }

  lemma DisjointSnoc(groups: seq<Group>, g: Group)
    requires Disjoint(groups) && MemberIds(g) !! GroupIds(groups)
    ensures Disjoint(groups + [g])
  {
    var gs := groups + [g];
    forall i, j | 0 <= i < j < |gs| ensures MemberIds(gs[i]) !! MemberIds(gs[j]) {
      if j == |groups| {
        forall id | id in MemberIds(gs[i]) ensures id in GroupIds(groups) {
          GroupIdsMembership(groups, id);
          assert gs[i] in groups;
        }
      }
    }
  }

  /** What every group is: non-empty, named after its first member, holding
      a filtered member, and made of members that exist. */
  predicate WellFormedGroup(g: Group, members: seq<Member>, filtered: seq<Member>) {
    g.members != [] && g.id == g.members[0].id
    && (exists x :: x in g.members && x.id in FilteredIds(filtered))
    && (forall x :: x in g.members ==> x in filtered || x in members)
  }

  lemma DisjointPermuted(a: seq<Group>, b: seq<Group>, members: seq<Member>, filtered: seq<Member>)
    requires multiset(a) == multiset(b) && Disjoint(a)
    requires forall g :: g in a ==> WellFormedGroup(g, members, filtered)
    ensures Disjoint(b)
  {
    assert Distinct(a) by {
      forall i, j | 0 <= i < j < |a| ensures a[i] != a[j] {
        assert a[i] in a && a[j] in a;
        assert a[i].members[0].id in MemberIds(a[i]);
        assert a[i].members[0].id !in MemberIds(a[j]);
      }
    }
    DistinctPermutation(a, b);
    forall i, j | 0 <= i < j < |b| ensures MemberIds(b[i]) !! MemberIds(b[j]) {
      assert b[i] in multiset(a) && b[j] in multiset(a);
      var p :| 0 <= p < |a| && a[p] == b[i];
      var q :| 0 <= q < |a| && a[q] == b[j];
      assert p != q;
    }
  }

  /** `filteredMap.get(id) || allMemberMap.get(id)`. */
  function ResolveId(members: seq<Member>, filtered: seq<Member>): Id -> Option<Member> {
    (id: Id) => if Lookup(filtered, id).Some? then Lookup(filtered, id) else Lookup(members, id)
  }

  /** `Array.from(family).map(...).filter(Boolean)`. */
  function Resolve(members: seq<Member>, filtered: seq<Member>, family: seq<Id>): seq<Member> {
    Collect(family, ResolveId(members, filtered))
  }

  lemma ResolveSound(members: seq<Member>, filtered: seq<Member>, family: seq<Id>, x: Member)
    requires x in Resolve(members, filtered, family)
    ensures x.id in family && ResolveId(members, filtered)(x.id) == Some(x)
    ensures x in filtered || x in members
  {
    CollectSound(family, ResolveId(members, filtered), x);
  }

  lemma ResolveComplete(members: seq<Member>, filtered: seq<Member>, family: seq<Id>, id: Id)
    requires id in family && ResolveId(members, filtered)(id).Some?
    ensures ResolveId(members, filtered)(id).value in Resolve(members, filtered, family)
  {
    var j :| 0 <= j < |family| && family[j] == id;
    CollectComplete(family, ResolveId(members, filtered), j);
  }

  /** `hasFilteredMember && (length > 1 || (length === 1 && relatives))`. */
  predicate Retained(familyMembers: seq<Member>, filtered: seq<Member>) {
    (exists k :: 0 <= k < |familyMembers| && familyMembers[k].id in FilteredIds(filtered))
    && (|familyMembers| > 1 || (|familyMembers| == 1 && familyMembers[0].relatives.Some?))
  }

  /** The filtered entry for `id` has no `relatives` value. */
  predicate Unrelated(filtered: seq<Member>, id: Id) {
    var m := Lookup(filtered, id);
    m.Some? && m.value.relatives.None?
  }

  /** What both passes keep: well-formed groups, a closed `processed` set
      that covers every grouped id and every resolvable processed id, and
      disjoint groups when the members are consistent. */
  ghost predicate GroupingState(members: seq<Member>, filtered: seq<Member>, groups: seq<Group>, processed: set<Id>) {
    (forall g :: g in groups ==> WellFormedGroup(g, members, filtered))
    && GroupIds(groups) <= processed
    && (forall id :: id in processed && ResolveId(members, filtered)(id).Some? ==> id in GroupIds(groups))
    && (Consistent(members, filtered) ==> Disjoint(groups))
  }

  /** `x` is the entry found for one of the ids of `family`. */
  predicate FromFamily(members: seq<Member>, filtered: seq<Member>, family: seq<Id>, x: Member) {
    x.id in family && (x in filtered || x in members) && ResolveId(members, filtered)(x.id) == Some(x)
  }

  /** Every member of a resolved family is the entry found for one of its ids. */
  lemma FamilyMemberFacts(members: seq<Member>, filtered: seq<Member>, family: seq<Id>, familyMembers: seq<Member>)
    requires multiset(familyMembers) == multiset(Resolve(members, filtered, family))
    ensures forall x :: x in familyMembers ==> FromFamily(members, filtered, family, x)
  {
    forall x | x in familyMembers ensures FromFamily(members, filtered, family, x) {
      assert x in multiset(Resolve(members, filtered, family));
      ResolveSound(members, filtered, family, x);
    }
  }

  /** Every id of the family that resolves is the id of a family member. */
  lemma FamilyMembersCover(members: seq<Member>, filtered: seq<Member>, family: seq<Id>, g: Group, id: Id)
    requires multiset(g.members) == multiset(Resolve(members, filtered, family))
    requires id in family && ResolveId(members, filtered)(id).Some?
    ensures id in MemberIds(g)
  {
    ResolveComplete(members, filtered, family, id);
    var x := ResolveId(members, filtered)(id).value;
    assert x in multiset(g.members);
    assert x in g.members && x.id == id;
  }

  /** Under consistency, a new family shares no id with an earlier group. */
  lemma FamilyFresh(members: seq<Member>, filtered: seq<Member>, groups: seq<Group>, processed: set<Id>,
                    family: seq<Id>, parent: seq<int>, g: Group)
    requires Consistent(members, filtered) && GroupIds(groups) <= processed && ClosedSet(members, processed)
    requires |family| > 0 && family[0] !in processed && Discovered(members, family, parent)
    requires forall x :: x in g.members ==> FromFamily(members, filtered, family, x)
    ensures MemberIds(g) !! GroupIds(groups)
  {
    forall id | id in MemberIds(g) ensures id !in processed {
      var x :| x in g.members && x.id == id;
      var k :| 0 <= k < |family| && family[k] == id;
      assert Lookup(members, id).Some? by {
        if x in filtered {
          var j :| 0 <= j < |filtered| && filtered[j] == x;
        } else {
          var j :| 0 <= j < |members| && members[j] == x;
        }
      }
      if id in processed {
        ReachBack(members, family, parent, processed, k);
      }
    }
  }

  lemma ClosedUnion(members: seq<Member>, processed: set<Id>, family: seq<Id>)
    requires ClosedSet(members, processed) && Closed(members, family)
    ensures ClosedSet(members, processed + Elements(family))
  {
    forall a, b | a in processed + Elements(family) && Linked(members, a, b) ensures b in processed + Elements(family) {
      if a !in processed {
        assert NeighboursIn(members, a, family);
      }
    }
  }

  /** A family the first pass keeps extends the state. */
  lemma KeepFamily(members: seq<Member>, filtered: seq<Member>, groups: seq<Group>, processed: set<Id>,
                   family: seq<Id>, parent: seq<int>, familyMembers: seq<Member>)
    requires GroupingState(members, filtered, groups, processed) && ClosedSet(members, processed)
    requires |family| > 0 && family[0] !in processed && Closed(members, family) && Discovered(members, family, parent)
    requires multiset(familyMembers) == multiset(Resolve(members, filtered, family))
    requires Retained(familyMembers, filtered)
    ensures GroupingState(members, filtered, groups + [Group(familyMembers[0].id, familyMembers)], processed + Elements(family))
    ensures ClosedSet(members, processed + Elements(family))
  {
    hide Resolve, ResolveId, Lookup, Closed, Discovered, ClosedSet, Consistent, FromFamily, WellFormedGroup,
      Elements, MemberIds, FilteredIds, Disjoint;
    var g := Group(familyMembers[0].id, familyMembers);
    var gs := groups + [g];
    assert gs[..|groups|] == groups;
    assert GroupIds(gs) == GroupIds(groups) + MemberIds(g);
    FamilyMemberFacts(members, filtered, family, familyMembers);
    KeptWellFormed(members, filtered, groups, family, familyMembers);
    KeptCovers(members, filtered, groups, processed, family, g);
    if Consistent(members, filtered) {
      FamilyFresh(members, filtered, groups, processed, family, parent, g);
      DisjointSnoc(groups, g);
    }
    ClosedUnion(members, processed, family);
  }

  /** The groups with a kept family added are still well formed. */
  lemma KeptWellFormed(members: seq<Member>, filtered: seq<Member>, groups: seq<Group>,
                       family: seq<Id>, familyMembers: seq<Member>)
    requires forall g :: g in groups ==> WellFormedGroup(g, members, filtered)
    requires forall x :: x in familyMembers ==> FromFamily(members, filtered, family, x)
    requires Retained(familyMembers, filtered)
    ensures forall h :: h in groups + [Group(familyMembers[0].id, familyMembers)] ==> WellFormedGroup(h, members, filtered)
  {
    hide ResolveId;
    var g := Group(familyMembers[0].id, familyMembers);
    assert WellFormedGroup(g, members, filtered) by {
      var k :| 0 <= k < |familyMembers| && familyMembers[k].id in FilteredIds(filtered);
      assert familyMembers[k] in g.members;
    }
    forall h | h in groups + [g] ensures WellFormedGroup(h, members, filtered) {
      assert h in groups || h == g;
    }
  }

  /** Every resolvable id of the kept family lies in the new group, and the
      new group holds only ids of the family. */
  lemma KeptCovers(members: seq<Member>, filtered: seq<Member>, groups: seq<Group>, processed: set<Id>,
                   family: seq<Id>, g: Group)
    requires forall id :: id in processed && ResolveId(members, filtered)(id).Some? ==> id in GroupIds(groups)
    requires multiset(g.members) == multiset(Resolve(members, filtered, family))
    requires forall x :: x in g.members ==> FromFamily(members, filtered, family, x)
    ensures MemberIds(g) <= Elements(family)
    ensures forall id :: (id in processed + Elements(family) && ResolveId(members, filtered)(id).Some?
      ==> id in GroupIds(groups) + MemberIds(g))
  {
    hide Resolve, ResolveId;
    forall id | id in processed + Elements(family) && ResolveId(members, filtered)(id).Some?
      ensures id in GroupIds(groups) + MemberIds(g)
    {
      if id !in processed {
        FamilyMembersCover(members, filtered, family, g, id);
      }
    }
  }

  /** A family the first pass drops consists of the unrelated filtered
      member alone. */
  lemma DropFamily(members: seq<Member>, filtered: seq<Member>, family: seq<Id>, familyMembers: seq<Member>, i: int)
    requires 0 <= i < |filtered| && |family| > 0 && family[0] == filtered[i].id
    requires multiset(familyMembers) == multiset(Resolve(members, filtered, family))
    requires !Retained(familyMembers, filtered)
    ensures Unrelated(filtered, filtered[i].id)
  {
    var id := filtered[i].id;
    var x := Lookup(filtered, id).value;
    assert ResolveId(members, filtered)(id) == Some(x);
    ResolveComplete(members, filtered, family, id);
    assert x in multiset(familyMembers);
    assert x.id in FilteredIds(filtered);
    NotRetainedAlone(familyMembers, filtered, x);
  }

  lemma NotRetainedAlone(familyMembers: seq<Member>, filtered: seq<Member>, x: Member)
    requires x in familyMembers && x.id in FilteredIds(filtered) && !Retained(familyMembers, filtered)
    ensures familyMembers == [x] && x.relatives.None?
  {
    var k :| 0 <= k < |familyMembers| && familyMembers[k] == x;
  }

  /** The order `sortFamilyMembers` leaves a household in. */
  predicate FamilyOrdered(r: seq<Member>, familyMemberSort: string) {
    (familyMemberSort == "name" ==> forall i, j :: 0 <= i < j < |r| ==> Compare(NameKey(r[i]), NameKey(r[j])) <= 0)
    && (familyMemberSort == "age" ==> forall i, j :: 0 <= i < j < |r| ==> AgeKey(r[i]) >= AgeKey(r[j]))
    && (familyMemberSort == "dateOfBirth" && AllKeyed(r, BirthKey) ==> KeyAscending(r, BirthKey))
  }

  lemma SortFamilyOrdered(familyMembers: seq<Member>, familyMemberSort: string)
    ensures FamilyOrdered(SortFamilyMembers(familyMembers, familyMemberSort), familyMemberSort)
  {
    var r := SortFamilyMembers(familyMembers, familyMemberSort);
    if familyMemberSort == "name" {
      SortFamilyByName(familyMembers);
    } else if familyMemberSort == "age" {
      SortFamilyByAge(familyMembers);
    } else if familyMemberSort == "dateOfBirth" && AllKeyed(r, BirthKey) {
      forall k | 0 <= k < |familyMembers| ensures BirthKey(familyMembers[k]).Some? {
        assert familyMembers[k] in multiset(r);
        var j :| 0 <= j < |r| && r[j] == familyMembers[k];
      }
      SortFamilyByBirth(familyMembers);
    }
  }

  /** `g` holds exactly the members resolved from `family`, a link-closed
      set of ids that the search found from a filtered member. */
  ghost predicate HouseholdOf(members: seq<Member>, filtered: seq<Member>, g: Group, family: seq<Id>) {
    |family| > 0 && family[0] in FilteredIds(filtered)
    && Closed(members, family) && (exists parent :: Discovered(members, family, parent))
    && multiset(g.members) == multiset(Resolve(members, filtered, family))
  }

  /** A group the first pass keeps: the household of a filtered member,
      with more than one member or one member that has a `relatives` value. */
  ghost predicate KeptHousehold(members: seq<Member>, filtered: seq<Member>, g: Group) {
    Retained(g.members, filtered) && exists family :: HouseholdOf(members, filtered, g, family)
  }

  /** A group the second pass adds: one filtered member without relatives. */
  predicate LoneMember(g: Group, filtered: seq<Member>) {
    |g.members| == 1 && g.members[0] in filtered && NoRelatives(g.members[0])
  }

  /** A household group is closed under the links: a linked id that
      resolves to a member is in the same group. */
  lemma HouseholdClosed(members: seq<Member>, filtered: seq<Member>, g: Group, a: Id, b: Id)
    requires KeptHousehold(members, filtered, g)
    requires a in MemberIds(g) && Linked(members, a, b) && ResolveId(members, filtered)(b).Some?
    ensures b in MemberIds(g)
  {
    var family :| HouseholdOf(members, filtered, g, family);
    var x :| x in g.members && x.id == a;
    assert x in multiset(Resolve(members, filtered, family));
    ResolveSound(members, filtered, family, x);
    assert NeighboursIn(members, a, family);
    FamilyMembersCover(members, filtered, family, g, b);
  }

  /** The state after the first pass has visited `filtered[..i]`. */
  ghost predicate FirstPass(members: seq<Member>, filtered: seq<Member>, familyMemberSort: string, i: int,
                            groups: seq<Group>, processed: set<Id>)
    requires 0 <= i <= |filtered|
  {
    GroupingState(members, filtered, groups, processed) && ClosedSet(members, processed)
    && (forall k :: 0 <= k < i ==> filtered[k].id in processed || Unrelated(filtered, filtered[k].id))
    && (forall g :: g in groups ==> FamilyOrdered(g.members, familyMemberSort))
    && (forall g :: g in groups ==> KeptHousehold(members, filtered, g))
  }

  /** `sortFamilyMembers` applied to the resolved family: a permutation of
      it in household order. */
  function HouseholdMembers(members: seq<Member>, filtered: seq<Member>, family: seq<Id>, familyMemberSort: string): (r: seq<Member>)
    ensures multiset(r) == multiset(Resolve(members, filtered, family))
    ensures FamilyOrdered(r, familyMemberSort)
  {
    SortFamilyOrdered(Resolve(members, filtered, family), familyMemberSort);
    SortFamilyMembers(Resolve(members, filtered, family), familyMemberSort)
  }

  /** A visit of the first pass that keeps the household. */
  lemma KeepStep(members: seq<Member>, filtered: seq<Member>, familyMemberSort: string, i: int,
                 groups: seq<Group>, processed: set<Id>, family: seq<Id>, parent: seq<int>, familyMembers: seq<Member>)
    requires 0 <= i < |filtered| && FirstPass(members, filtered, familyMemberSort, i, groups, processed)
    requires |family| > 0 && family[0] == filtered[i].id && family[0] !in processed
    requires Closed(members, family) && Discovered(members, family, parent)
    requires multiset(familyMembers) == multiset(Resolve(members, filtered, family))
    requires FamilyOrdered(familyMembers, familyMemberSort)
    requires Retained(familyMembers, filtered)
    ensures FirstPass(members, filtered, familyMemberSort, i + 1, groups + [Group(familyMembers[0].id, familyMembers)],
                      processed + Elements(family))
  {
    hide GroupingState, ClosedSet, Unrelated, FamilyOrdered, Resolve, Closed, Discovered, Lookup;
    KeepFamily(members, filtered, groups, processed, family, parent, familyMembers);
    var g := Group(familyMembers[0].id, familyMembers);
    var gs := groups + [g];
    assert filtered[i] in filtered;
    assert HouseholdOf(members, filtered, g, family);
    forall h | h in gs ensures FamilyOrdered(h.members, familyMemberSort) && KeptHousehold(members, filtered, h) {
      assert h in groups || h == g;
    }
  }

  /** A visit of the first pass that drops the household. */
  lemma DropStep(members: seq<Member>, filtered: seq<Member>, familyMemberSort: string, i: int,
                 groups: seq<Group>, processed: set<Id>, family: seq<Id>, familyMembers: seq<Member>)
    requires 0 <= i < |filtered| && FirstPass(members, filtered, familyMemberSort, i, groups, processed)
    requires |family| > 0 && family[0] == filtered[i].id
    requires multiset(familyMembers) == multiset(Resolve(members, filtered, family))
    requires !Retained(familyMembers, filtered)
    ensures FirstPass(members, filtered, familyMemberSort, i + 1, groups, processed)
  {
    DropFamily(members, filtered, family, familyMembers, i);
  }

  /** A visit of the first pass to a member already processed. */
  lemma ProcessedStep(members: seq<Member>, filtered: seq<Member>, familyMemberSort: string, i: int,
                      groups: seq<Group>, processed: set<Id>)
    requires 0 <= i < |filtered| && FirstPass(members, filtered, familyMemberSort, i, groups, processed)
    requires filtered[i].id in processed
    ensures FirstPass(members, filtered, familyMemberSort, i + 1, groups, processed)
  {
  }

  lemma FirstPassStart(members: seq<Member>, filtered: seq<Member>, familyMemberSort: string)
    ensures FirstPass(members, filtered, familyMemberSort, 0, [], {})
  {
  }

  /** The first `filtered.forEach`: search from every filtered member not yet
      processed and keep the household when it qualifies. */
  method GroupHouseholds(members: seq<Member>, filtered: seq<Member>, familyMemberSort: string)
      returns (groups: seq<Group>, processed: set<Id>)
    ensures FirstPass(members, filtered, familyMemberSort, |filtered|, groups, processed)
  {
    FirstPassStart(members, filtered, familyMemberSort);
    hide FirstPass, GroupingState, Closed, Discovered, Resolve, FamilyOrdered, Lookup, Linked, ClosedSet,
      FilteredIds, HouseholdMembers, SortFamilyMembers, Elements, Distinct;
    groups, processed := [], {};
    for i := 0 to |filtered|
      invariant FirstPass(members, filtered, familyMemberSort, i, groups, processed)
    {
      var member := filtered[i];
      if member.id in processed {
        ProcessedStep(members, filtered, familyMemberSort, i, groups, processed);
        continue;
      }
      var family, parent := Household(members, member.id);
      var familyMembers := HouseholdMembers(members, filtered, family, familyMemberSort);
      var hasFilteredMember := exists k | 0 <= k < |familyMembers| :: familyMembers[k].id in FilteredIds(filtered);
      if hasFilteredMember && (|familyMembers| > 1 || (|familyMembers| == 1 && familyMembers[0].relatives.Some?)) {
        KeepStep(members, filtered, familyMemberSort, i, groups, processed, family, parent, familyMembers);
        groups := groups + [Group(familyMembers[0].id, familyMembers)];
        processed := processed + Elements(family);
      } else {
        DropStep(members, filtered, familyMemberSort, i, groups, processed, family, familyMembers);
      }
    }
  }

  /** `!member.relatives || Object.keys(member.relatives).length === 0`. */
  predicate NoRelatives(m: Member) {
    m.relatives.None? || |m.relatives.value| == 0
  }

  /** The state after the second pass has visited `filtered[..i]`: a
      filtered id still unprocessed is unrelated and its last entry is yet
      to come. */
  ghost predicate SecondPass(members: seq<Member>, filtered: seq<Member>, i: int, groups: seq<Group>, processed: set<Id>)
    requires 0 <= i <= |filtered|
  {
    GroupingState(members, filtered, groups, processed)
    && forall k :: 0 <= k < |filtered| ==>
      filtered[k].id in processed || (Unrelated(filtered, filtered[k].id) && LastIndex(filtered, filtered[k].id) >= i)
  }

  lemma SecondPassStart(members: seq<Member>, filtered: seq<Member>, familyMemberSort: string, groups: seq<Group>, processed: set<Id>)
    requires FirstPass(members, filtered, familyMemberSort, |filtered|, groups, processed)
    ensures SecondPass(members, filtered, 0, groups, processed)
  {
    forall k | 0 <= k < |filtered| ensures LastIndex(filtered, filtered[k].id) >= 0 {
    }
  }

  /** `groups.push({ id: member.id, members: [member] }); processed.add(member.id)`
      keeps the grouping state. */
  lemma SingletonGrouping(members: seq<Member>, filtered: seq<Member>, i: int, groups: seq<Group>, processed: set<Id>)
    requires 0 <= i < |filtered| && GroupingState(members, filtered, groups, processed)
    requires filtered[i].id !in processed
    ensures GroupingState(members, filtered, groups + [Group(filtered[i].id, [filtered[i]])], processed + {filtered[i].id})
  {
    var m := filtered[i];
    var g := Group(m.id, [m]);
    var gs := groups + [g];
    assert gs[..|groups|] == groups;
    assert MemberIds(g) == {m.id};
    assert GroupIds(gs) == GroupIds(groups) + {m.id};
    assert m.id in FilteredIds(filtered);
    assert WellFormedGroup(g, members, filtered);
    forall h | h in gs ensures WellFormedGroup(h, members, filtered) {
      assert h in groups || h == g;
    }
    if Consistent(members, filtered) {
      DisjointSnoc(groups, g);
    }
  }

  lemma SingletonStep(members: seq<Member>, filtered: seq<Member>, i: int, groups: seq<Group>, processed: set<Id>)
    requires 0 <= i < |filtered| && SecondPass(members, filtered, i, groups, processed)
    requires filtered[i].id !in processed
    ensures SecondPass(members, filtered, i + 1, groups + [Group(filtered[i].id, [filtered[i]])], processed + {filtered[i].id})
  {
    SingletonGrouping(members, filtered, i, groups, processed);
    var p := processed + {filtered[i].id};
    forall k | 0 <= k < |filtered| && filtered[k].id !in p
      ensures Unrelated(filtered, filtered[k].id) && LastIndex(filtered, filtered[k].id) >= i + 1
    {
      assert LastIndex(filtered, filtered[k].id) != i;
    }
  }

  /** A member the second pass passes over was processed already or has
      relatives, so it is not the last entry of an unprocessed id. */
  lemma SkipStep(members: seq<Member>, filtered: seq<Member>, i: int, groups: seq<Group>, processed: set<Id>)
    requires 0 <= i < |filtered| && SecondPass(members, filtered, i, groups, processed)
    requires !(filtered[i].id !in processed && NoRelatives(filtered[i]))
    ensures SecondPass(members, filtered, i + 1, groups, processed)
  {
    forall k | 0 <= k < |filtered| && filtered[k].id !in processed
      ensures LastIndex(filtered, filtered[k].id) != i
    {
    }
  }

  /** The second `filtered.forEach`: every unprocessed filtered member
      without relatives becomes a group of its own. */
  method AddSingletons(members: seq<Member>, filtered: seq<Member>, groups0: seq<Group>, processed0: set<Id>)
      returns (groups: seq<Group>, processed: set<Id>)
    requires SecondPass(members, filtered, 0, groups0, processed0)
    ensures SecondPass(members, filtered, |filtered|, groups, processed)
    ensures |groups| >= |groups0| && groups[..|groups0|] == groups0
    ensures forall g :: g in groups[|groups0|..] ==> |g.members| == 1 && g.members[0] in filtered && NoRelatives(g.members[0])
  {
    hide SecondPass, GroupingState, Lookup, LastIndex, Unrelated;
    groups, processed := groups0, processed0;
    for i := 0 to |filtered|
      invariant SecondPass(members, filtered, i, groups, processed)
      invariant |groups| >= |groups0| && groups[..|groups0|] == groups0
      invariant forall g :: g in groups[|groups0|..] ==> |g.members| == 1 && g.members[0] in filtered && NoRelatives(g.members[0])
    {
      var member := filtered[i];
      if member.id !in processed && (member.relatives.None? || |member.relatives.value| == 0) {
        SingletonStep(members, filtered, i, groups, processed);
        ghost var before := groups;
        groups := groups + [Group(member.id, [member])];
        processed := processed + {member.id};
        assert groups[|groups0|..] == before[|groups0|..] + [Group(member.id, [member])];
      } else {
        SkipStep(members, filtered, i, groups, processed);
      }
    }
  }

  /** The first member of a group, whose fields `groups.sort` compares. */
  function LeadNameKey(g: Group): string {
    if g.members == [] then "" else NameKey(g.members[0])
  }

  /** `memberA.age - memberB.age`, where a `null` age counts as 0. */
  function LeadAgeKey(g: Group): int {
    if g.members == [] then 0 else AgeKey(g.members[0])
  }

  function LeadAge(g: Group): Option<int> {
    Some(LeadAgeKey(g))
  }

  /** `new Date(memberA.dateOfBirth)`: `null` is the epoch, an empty or
      unparseable string is NaN (`None`). */
  function LeadBirthKey(g: Group): (k: Option<int>)
    ensures g.members != [] && g.members[0].dateOfBirth.None? ==> k == Some(DayNumber(Epoch))
    ensures g.members != [] && g.members[0].dateOfBirth == Some("") ==> k.None?
  {
    if g.members == [] then None
    else if g.members[0].dateOfBirth.None? then Some(DayNumber(Epoch))
    else DateValue(g.members[0].dateOfBirth.value)
  }

  function GroupComparison(sortBy: string, a: Group, b: Group): int {
    if sortBy == "name" then Compare(LeadNameKey(a), LeadNameKey(b))
    else if sortBy == "age" then NumericOrder(LeadAge(a), LeadAge(b))
    else if sortBy == "dateOfBirth" then NumericOrder(LeadBirthKey(a), LeadBirthKey(b))
    else 0
  }

  /** The comparator of `groups.sort`: descending negates ascending. */
  function GroupOrder(sortBy: string, sortOrder: string, a: Group, b: Group): int {
    var c := GroupComparison(sortBy, a, b);
    if sortOrder == "asc" then c else -c
  }

  /** The order `groups.sort` leaves the groups in, by their first members. */
  predicate GroupsOrdered(r: seq<Group>, sortBy: string, sortOrder: string) {
    var ascending := sortOrder == "asc";
    (sortBy == "name" && ascending ==> forall i, j :: 0 <= i < j < |r| ==> Compare(LeadNameKey(r[i]), LeadNameKey(r[j])) <= 0)
    && (sortBy == "name" && !ascending ==> forall i, j :: 0 <= i < j < |r| ==> Compare(LeadNameKey(r[j]), LeadNameKey(r[i])) <= 0)
    && (sortBy == "age" && ascending ==> forall i, j :: 0 <= i < j < |r| ==> LeadAgeKey(r[i]) <= LeadAgeKey(r[j]))
    && (sortBy == "age" && !ascending ==> forall i, j :: 0 <= i < j < |r| ==> LeadAgeKey(r[i]) >= LeadAgeKey(r[j]))
    && (sortBy == "dateOfBirth" && AllKeyed(r, LeadBirthKey) ==>
          (ascending ==> KeyAscending(r, LeadBirthKey)) && (!ascending ==> KeyDescending(r, LeadBirthKey)))
  }

  function GroupComparator(sortBy: string, sortOrder: string): (Group, Group) -> int {
    (a: Group, b: Group) => GroupOrder(sortBy, sortOrder, a, b)
  }

  /** `groups.sort(...)`: a permutation of the groups. */
  function SortGroups(groups: seq<Group>, sortBy: string, sortOrder: string): (r: seq<Group>)
    ensures multiset(r) == multiset(groups)
  {
    SortWith(groups, GroupComparator(sortBy, sortOrder))
  }

  /** Groups by name: the lower-cased full names of their first members,
      ascending or descending. */
  lemma SortGroupsByName(groups: seq<Group>, sortOrder: string)
    ensures var r := SortGroups(groups, "name", sortOrder);
      (sortOrder == "asc" ==> forall i, j :: 0 <= i < j < |r| ==> Compare(LeadNameKey(r[i]), LeadNameKey(r[j])) <= 0)
      && (sortOrder != "asc" ==> forall i, j :: 0 <= i < j < |r| ==> Compare(LeadNameKey(r[j]), LeadNameKey(r[i])) <= 0)
  {
    hide LeadBirthKey;
    SortByTextDirected(groups, GroupComparator("name", sortOrder), LeadNameKey, sortOrder == "asc");
  }

  /** Groups by the age of their first members, a missing age counting as 0. */
  lemma SortGroupsByAge(groups: seq<Group>, sortOrder: string)
    ensures var r := SortGroups(groups, "age", sortOrder);
      (sortOrder == "asc" ==> forall i, j :: 0 <= i < j < |r| ==> LeadAgeKey(r[i]) <= LeadAgeKey(r[j]))
      && (sortOrder != "asc" ==> forall i, j :: 0 <= i < j < |r| ==> LeadAgeKey(r[i]) >= LeadAgeKey(r[j]))
  {
    hide LeadBirthKey;
    SortByKeyDirected(groups, GroupComparator("age", sortOrder), LeadAge, sortOrder == "asc");
  }

  /** Groups by the date of birth of their first members, when every one
      of them parses. */
  lemma SortGroupsByBirth(groups: seq<Group>, sortOrder: string)
    requires AllKeyed(groups, LeadBirthKey)
    ensures var r := SortGroups(groups, "dateOfBirth", sortOrder);
      AllKeyed(r, LeadBirthKey)
      && (sortOrder == "asc" ==> KeyAscending(r, LeadBirthKey))
      && (sortOrder != "asc" ==> KeyDescending(r, LeadBirthKey))
  {
    hide LeadBirthKey;
    SortByKeyDirected(groups, GroupComparator("dateOfBirth", sortOrder), LeadBirthKey, sortOrder == "asc");
  }

  /** An unknown key compares every pair equal and keeps the order. */
  lemma SortGroupsUnknownKey(groups: seq<Group>, sortBy: string, sortOrder: string)
    requires sortBy != "name" && sortBy != "age" && sortBy != "dateOfBirth"
    ensures SortGroups(groups, sortBy, sortOrder) == groups
  {
    hide LeadBirthKey;
    AllTiesKeepOrder(groups, GroupComparator(sortBy, sortOrder));
  }

  lemma SortGroupsOrdered(groups: seq<Group>, sortBy: string, sortOrder: string)
    ensures GroupsOrdered(SortGroups(groups, sortBy, sortOrder), sortBy, sortOrder)
  {
    hide LeadBirthKey;
    var r := SortGroups(groups, sortBy, sortOrder);
    if sortBy == "name" {
      SortGroupsByName(groups, sortOrder);
    } else if sortBy == "age" {
      SortGroupsByAge(groups, sortOrder);
    } else if sortBy == "dateOfBirth" && AllKeyed(r, LeadBirthKey) {
      forall k | 0 <= k < |groups| ensures LeadBirthKey(groups[k]).Some? {
        assert groups[k] in multiset(r);
        var j :| 0 <= j < |r| && r[j] == groups[k];
      }
      SortGroupsByBirth(groups, sortOrder);
    }
  }

  /** `familyGroups`: the filtered members grouped into households, then
      the lone members without relatives, sorted by their first members. */
  method FamilyGroupsOf(members: seq<Member>, filtered: seq<Member>, groupByFamily: bool,
                        familyMemberSort: string, sortBy: string, sortOrder: string)
      returns (groups: seq<Group>)
    ensures !groupByFamily ==> groups == []
    ensures forall g :: g in groups ==> WellFormedGroup(g, members, filtered)
    ensures forall g :: g in groups ==> FamilyOrdered(g.members, familyMemberSort)
    ensures groupByFamily ==> forall k :: 0 <= k < |filtered| ==> filtered[k].id in GroupIds(groups)
    ensures Consistent(members, filtered) ==> Disjoint(groups)
    ensures GroupsOrdered(groups, sortBy, sortOrder)
    ensures forall g :: g in groups ==> KeptHousehold(members, filtered, g) || LoneMember(g, filtered)
  {
    if !groupByFamily {
      return [];
    }
    var households, processed := GroupHouseholds(members, filtered, familyMemberSort);
    SecondPassStart(members, filtered, familyMemberSort, households, processed);
    var all, done := AddSingletons(members, filtered, households, processed);
    groups := SortGroups(all, sortBy, sortOrder);
    SortGroupsOrdered(all, sortBy, sortOrder);
    forall g | g in groups
      ensures WellFormedGroup(g, members, filtered) && FamilyOrdered(g.members, familyMemberSort)
      ensures KeptHousehold(members, filtered, g) || LoneMember(g, filtered)
    {
      assert g in multiset(all);
      var k :| 0 <= k < |all| && all[k] == g;
      if k < |households| {
        assert g in households;
      } else {
        assert g in all[|households|..];
      }
    }
    forall k | 0 <= k < |filtered| ensures filtered[k].id in GroupIds(all) {
      assert Lookup(filtered, filtered[k].id).Some?;
    }
    GroupIdsPermuted(all, groups);
    if Consistent(members, filtered) {
      DisjointPermuted(all, groups, members, filtered);
    }
  }
}
