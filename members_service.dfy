/** The member records of the directory (src/api/membersService.js): the
    stored document, its normalised in-memory shape, the order in which a
    snapshot is delivered and the payload an update sends. */
module MembersService {
  import opened Wrappers
  import opened Strings
  import opened Seqs
  import opened Sorting

  /** A member id is a number for records created by the app and may be a
      string for records keyed by their document id. */
  datatype Id = Num(n: int) | Str(s: string)

  /** One entry `relation: memberId` of a member's `relatives` object, in
      the object's key order. */
  datatype Relative = Relative(relation: string, memberId: Id)

  /** A normalised member. `None` stands for `null`. */
  datatype Member = Member(
    id: Id,
    firestoreId: string,
    firstName: string,
    lastName: string,
    nickname: string,
    sex: string,
    dateOfBirth: Option<string>,
    age: Option<int>,
    civilStatus: string,
    address: string,
    contactNumber: string,
    occupation: string,
    relatives: Option<seq<Relative>>,
    tags: seq<string>,
    isMember: Option<bool>,
    familyRole: string,
    image: Option<string>)

  /** What a stored `tags` field can hold: an array, or some other value. */
  datatype TagsValue = TagList(list: seq<string>) | NotAnArray

  /** A member document as stored: every field may be missing or `null`. */
  datatype RawMember = RawMember(
    id: Presence<Id>,
    firstName: Presence<string>,
    lastName: Presence<string>,
    nickname: Presence<string>,
    sex: Presence<string>,
    dateOfBirth: Presence<string>,
    age: Presence<int>,
    civilStatus: Presence<string>,
    address: Presence<string>,
    contactNumber: Presence<string>,
    occupation: Presence<string>,
    relatives: Presence<seq<Relative>>,
    tags: Presence<TagsValue>,
    isMember: Presence<bool>,
    familyRole: Presence<string>,
    image: Presence<string>)

  /** JavaScript truthiness of an id: `0` and `''` are falsy. */
  predicate IdTruthy(id: Id) {
    match id
    case Num(n) => n != 0
    case Str(s) => s != ""
  }

  /** `String(id)`. */
  function IdToString(id: Id): string {
    match id
    case Num(n) => IntToString(n)
    case Str(s) => s
  }

  /** `field || fallback` for a string field. */
  function StringOr(field: Presence<string>, fallback: string): (r: string)
    ensures field.Present? && field.value != "" ==> r == field.value
    ensures !(field.Present? && field.value != "") ==> r == fallback
  {
    if field.Present? && field.value != "" then field.value else fallback
  }

  /** `field || null` for a string field. */
  function StringOrNull(field: Presence<string>): (r: Option<string>)
    ensures r.Some? <==> field.Present? && field.value != ""
    ensures r.Some? ==> r.value == field.value
  {
    if field.Present? && field.value != "" then Some(field.value) else None
  }

  /** `data.id || parseInt(docId) || docId`. */
  function NormalizeId(raw: Presence<Id>, docId: string): (id: Id)
    ensures raw.Present? && IdTruthy(raw.value) ==> id == raw.value
    ensures (!(raw.Present? && IdTruthy(raw.value)) && ParseIntPrefix(docId).Some?
             && ParseIntPrefix(docId).value != 0) ==> id == Num(ParseIntPrefix(docId).value)
    ensures (!(raw.Present? && IdTruthy(raw.value))
             && (ParseIntPrefix(docId).None? || ParseIntPrefix(docId).value == 0)) ==> id == Str(docId)
  {
    if raw.Present? && IdTruthy(raw.value) then raw.value
    else
      match ParseIntPrefix(docId)
      case Some(n) => if n != 0 then Num(n) else Str(docId)
      case None => Str(docId)
  }

  /** `normalizeMember(data, docId)`. */
  function NormalizeMember(data: RawMember, docId: string): (m: Member)
    ensures m.id == NormalizeId(data.id, docId) && m.firestoreId == docId
    ensures m.firstName == StringOr(data.firstName, "") && m.lastName == StringOr(data.lastName, "")
    ensures m.nickname == StringOr(data.nickname, "") && m.sex == StringOr(data.sex, "Male")
    ensures m.civilStatus == StringOr(data.civilStatus, "Single") && m.familyRole == StringOr(data.familyRole, "")
    ensures m.address == StringOr(data.address, "") && m.contactNumber == StringOr(data.contactNumber, "")
    ensures m.occupation == StringOr(data.occupation, "")
    ensures m.dateOfBirth == StringOrNull(data.dateOfBirth) && m.image == StringOrNull(data.image)
    ensures m.age.Some? <==> data.age.Present? && data.age.value != 0
    ensures m.age.Some? ==> m.age.value == data.age.value
    ensures m.relatives.Some?
    ensures data.relatives.Present? ==> m.relatives == Some(data.relatives.value)
    ensures !data.relatives.Present? ==> m.relatives == Some([])
    ensures data.tags.Present? && data.tags.value.TagList? ==> m.tags == data.tags.value.list
    ensures !(data.tags.Present? && data.tags.value.TagList?) ==> m.tags == []
    ensures data.isMember.Absent? ==> m.isMember == Some(true)
    ensures data.isMember.Null? ==> m.isMember == None
    ensures data.isMember.Present? ==> m.isMember == Some(data.isMember.value)
  {
    Member(
      NormalizeId(data.id, docId),
      docId,
      StringOr(data.firstName, ""),
      StringOr(data.lastName, ""),
      StringOr(data.nickname, ""),
      StringOr(data.sex, "Male"),
      StringOrNull(data.dateOfBirth),
      if data.age.Present? && data.age.value != 0 then Some(data.age.value) else None,
      StringOr(data.civilStatus, "Single"),
      StringOr(data.address, ""),
      StringOr(data.contactNumber, ""),
      StringOr(data.occupation, ""),
      Some(if data.relatives.Present? then data.relatives.value else []),
      if data.tags.Present? && data.tags.value.TagList? then data.tags.value.list else [],
      match data.isMember
      case Absent => Some(true)
      case Null => None
      case Present(b) => Some(b),
      StringOr(data.familyRole, ""),
      StringOrNull(data.image))
  }

  /** A document without an `id` field whose document id is a decimal
      numeral takes that number as its id. */
  lemma NumericDocumentId(data: RawMember, docId: string)
    requires !data.id.Present? && docId != [] && AllDigits(docId) && DigitsValue(docId) != 0
    ensures NormalizeMember(data, docId).id == Num(DigitsValue(docId))
  {
  }

  /** A stored member document together with its document id. */
  datatype MemberDoc = MemberDoc(docId: string, data: RawMember)

  function NormalizeDocs(docs: seq<MemberDoc>): (ms: seq<Member>)
    ensures |ms| == |docs|
    ensures forall k :: 0 <= k < |docs| ==> ms[k] == NormalizeMember(docs[k].data, docs[k].docId)
  {
    if docs == [] then [] else [NormalizeMember(docs[0].data, docs[0].docId)] + NormalizeDocs(docs[1..])
  }

  /** `a.id || 0` used as a number: a string id is converted by `Number`,
      which gives NaN (`None`) for a non-numeric string. */
  function NumericId(id: Id): Option<int> {
    match id
    case Num(n) => Some(n)
    case Str(s) => ParseNumber(s)
  }

  function MemberNumericId(m: Member): Option<int> {
    NumericId(m.id)
  }

  /** `(a.id || 0) - (b.id || 0)`. */
  function SnapshotOrder(a: Member, b: Member): int {
    NumericOrder(NumericId(a.id), NumericId(b.id))
  }

  /** The list a snapshot delivers: the normalised documents sorted by
      numeric id, ascending whenever no id is NaN. */
  function ProcessSnapshot(docs: seq<MemberDoc>): (ms: seq<Member>)
    ensures multiset(ms) == multiset(NormalizeDocs(docs))
    ensures AllKeyed(NormalizeDocs(docs), MemberNumericId) ==>
      AllKeyed(ms, MemberNumericId) && KeyAscending(ms, MemberNumericId)
  {
    var normalized := NormalizeDocs(docs);
    if AllKeyed(normalized, MemberNumericId) then
      SortByKey(normalized, SnapshotOrder, MemberNumericId);
      SortWith(normalized, SnapshotOrder)
    else SortWith(normalized, SnapshotOrder)
  }

  /** What the `onSnapshot` listener hands to its callback. */
  datatype SnapshotEvent = Snapshot(docs: seq<MemberDoc>) | SubscriptionError

  function Delivered(event: SnapshotEvent): (ms: seq<Member>)
    ensures event.SubscriptionError? ==> ms == []
    ensures event.Snapshot? ==> multiset(ms) == multiset(NormalizeDocs(event.docs))
  {
    match event
    case Snapshot(docs) => ProcessSnapshot(docs)
    case SubscriptionError => []
  }

  /** One property of a plain JavaScript object; `Absent` is `undefined`. */
  datatype Entry<V> = Entry(key: string, value: Presence<V>)

  predicate Sendable<V>(e: Entry<V>) {
    e.key != "firestoreId" && !e.value.Absent?
  }

  /** The object `updateMember` sends: all properties but `firestoreId`,
      and none whose value is `undefined`, in their original order. */
  function MemberUpdatePayload<V>(data: seq<Entry<V>>): (payload: seq<Entry<V>>)
    ensures forall k :: 0 <= k < |payload| ==> payload[k].key != "firestoreId" && !payload[k].value.Absent?
    ensures forall k :: 0 <= k < |data| && Sendable(data[k]) ==> data[k] in payload
    ensures forall k :: 0 <= k < |payload| ==> payload[k] in data
  {
    Filter(data, Sendable)
  }

  lemma MemberUpdatePayloadOrder<V>(data: seq<Entry<V>>)
    ensures IsSubsequence(MemberUpdatePayload(data), data)
  {
    FilterIsSubsequence(data, Sendable);
  }
}
