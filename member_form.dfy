/** The add-member form (src/composables/useMemberForm.js): which fields
    are still missing, the next member id, the record written for a new
    member, and the form state around it. */
module MemberForm {
  import opened Wrappers
  import opened Strings
  import opened Seqs
  import opened Dates
  import opened MembersService
  import opened MemberUtils

  /** The `newMember` form. `age` is `None` while it is `null`; `image` is
      `None` while it is `null`. */
  datatype Draft = Draft(
    firstName: string,
    lastName: string,
    nickname: string,
    sex: string,
    dateOfBirth: string,
    age: Option<AgeValue>,
    civilStatus: string,
    address: string,
    contactNumber: string,
    occupation: string,
    tags: seq<string>,
    isMember: bool,
    image: Option<string>)

  /** The form's initial values, which a successful add restores. */
  function EmptyDraft(): Draft {
    Draft("", "", "", "Male", "", None, "Single", "", "", "", [], false, None)
  }

  // Required fields.

  /** `canAddMember`: trimmed first and last name and the sex are filled in. */
  predicate CanAddMember(d: Draft) {
    Trim(d.firstName) != "" && Trim(d.lastName) != "" && d.sex != ""
  }

  /** A required field of the form. */
  datatype Required = FirstName | LastName | Gender

  /** The name the tooltip gives a field. */
  function RequiredLabel(f: Required): string {
    match f
    case FirstName => "First Name"
    case LastName => "Last Name"
    case Gender => "Gender"
  }

  /** Whether the form still lacks a required field. */
  predicate IsMissing(d: Draft, f: Required) {
    match f
    case FirstName => Trim(d.firstName) == ""
    case LastName => Trim(d.lastName) == ""
    case Gender => d.sex == ""
  }

  /** The missing required fields, in form order. */
  function Missing(d: Draft): (missing: seq<Required>)
    ensures missing == [] <==> CanAddMember(d)
    ensures IsSubsequence(missing, [FirstName, LastName, Gender])
  {
    var first: seq<Required> := if IsMissing(d, FirstName) then [FirstName] else [];
    var last: seq<Required> := if IsMissing(d, LastName) then [LastName] else [];
    var gender: seq<Required> := if IsMissing(d, Gender) then [Gender] else [];
    SubsequenceOfChoices(first, last, gender);
    first + last + gender
  }

  /** A field is listed exactly when it is missing. */
  lemma MissingMembers(d: Draft, f: Required)
    ensures f in Missing(d) <==> IsMissing(d, f)
  {
    var first: seq<Required> := if IsMissing(d, FirstName) then [FirstName] else [];
    var last: seq<Required> := if IsMissing(d, LastName) then [LastName] else [];
    var gender: seq<Required> := if IsMissing(d, Gender) then [Gender] else [];
    assert Missing(d) == first + last + gender;
    assert f in first + last + gender <==> f in first || f in last || f in gender;
    match f
    case FirstName =>
      assert f !in last && f !in gender;
    case LastName =>
      assert f !in first && f !in gender;
    case Gender =>
      assert f !in first && f !in last;
  }

  lemma SubsequenceOfChoices(first: seq<Required>, last: seq<Required>, gender: seq<Required>)
    requires first == [] || first == [FirstName]
    requires last == [] || last == [LastName]
    requires gender == [] || gender == [Gender]
    ensures IsSubsequence(first + last + gender, [FirstName, LastName, Gender])
  {
    var full := [FirstName, LastName, Gender];
    var tail2 := full[1..];
    var tail3 := full[2..];
    assert IsSubsequence(gender, tail3) by {
      if gender != [] {
        assert gender[0] == tail3[0] && gender[1..] == [];
      }
    }
    assert IsSubsequence(last + gender, tail2) by {
      if last != [] {
        assert (last + gender)[0] == tail2[0] && (last + gender)[1..] == gender && tail2[1..] == tail3;
      } else {
        assert last + gender == gender && tail2[1..] == tail3;
      }
    }
    if first != [] {
      assert (first + last + gender)[0] == full[0] && (first + last + gender)[1..] == last + gender;
    } else {
      assert first + last + gender == last + gender;
    }
  }

  /** The tooltip names of some fields. */
  function RequiredLabels(fields: seq<Required>): (r: seq<string>)
    ensures |r| == |fields|
    ensures forall k :: 0 <= k < |r| ==> r[k] == RequiredLabel(fields[k])
  {
    if fields == [] then [] else [RequiredLabel(fields[0])] + RequiredLabels(fields[1..])
  }

  /** `addMemberTooltip`: empty when nothing is missing, otherwise the
      missing fields after "Please fill in: ", separated by ", ". */
  function Tooltip(d: Draft): (r: string)
    ensures r == "" <==> CanAddMember(d)
    ensures !CanAddMember(d) ==> r == "Please fill in: " + Join(RequiredLabels(Missing(d)), ", ")
  {
    var missing := Missing(d);
    if |missing| == 0 then "" else
      var text := "Please fill in: " + Join(RequiredLabels(missing), ", ");
      assert |text| > 0;
      text
  }

  // The next id.

  /** The number `typeof m.id === 'number' ? m.id : parseInt(m.id) || 0`. */
  function NumericIdOf(id: Id): int {
    match id
    case Num(n) => n
    case Str(s) => ParseIntPrefix(s).GetOr(0)
  }

  /** `Math.max(...ids, 0)` over the ids of `members`. */
  function MaxId(members: seq<Member>): (r: int)
    ensures r >= 0
    ensures forall k :: 0 <= k < |members| ==> NumericIdOf(members[k].id) <= r
    ensures r == 0 || exists k :: 0 <= k < |members| && NumericIdOf(members[k].id) == r
  {
    if members == [] then 0
    else
      var rest := MaxId(members[1..]);
      var first := NumericIdOf(members[0].id);
      assert forall k :: 1 <= k < |members| ==> members[k] == members[1..][k - 1];
      if first > rest then first else rest
  }

  /** The id `addMember` gives a new member. */
  function NextId(members: seq<Member>): int {
    if |members| > 0 then MaxId(members) + 1 else 1
  }

  /** The next id is positive and exceeds the numeric id of every member,
      and it is the least such number: either 1 or one more than some
      member's id. */
  lemma NextIdFresh(members: seq<Member>)
    ensures NextId(members) >= 1
    ensures forall k :: 0 <= k < |members| ==> NumericIdOf(members[k].id) < NextId(members)
    ensures NextId(members) == 1 || exists k :: 0 <= k < |members| && NumericIdOf(members[k].id) == NextId(members) - 1
  {
  }

  // The record written.

  /** A value of the record `addMember` writes. */
  datatype Value = Text(s: string) | Number(n: int) | NaN | Flag(b: bool) | Tags(list: seq<string>) | RelativesMap(entries: seq<Relative>)

  /** The properties of the record. */
  datatype Key = IdKey | FirstNameKey | LastNameKey | NicknameKey | SexKey | DateOfBirthKey | AgeKey | CivilStatusKey | AddressKey | ContactNumberKey | OccupationKey | RelativesKey | TagsKey | IsMemberKey | ImageKey

  /** The property name in the record. */
  function KeyName(k: Key): string {
    match k
    case IdKey => "id"
    case FirstNameKey => "firstName"
    case LastNameKey => "lastName"
    case NicknameKey => "nickname"
    case SexKey => "sex"
    case DateOfBirthKey => "dateOfBirth"
    case AgeKey => "age"
    case CivilStatusKey => "civilStatus"
    case AddressKey => "address"
    case ContactNumberKey => "contactNumber"
    case OccupationKey => "occupation"
    case RelativesKey => "relatives"
    case TagsKey => "tags"
    case IsMemberKey => "isMember"
    case ImageKey => "image"
  }

  /** The properties in the order the object literal lists them. */
  function KeyAt(i: int): Key
    requires 0 <= i < 15
  {
    [IdKey, FirstNameKey, LastNameKey, NicknameKey, SexKey, DateOfBirthKey, AgeKey, CivilStatusKey, AddressKey, ContactNumberKey, OccupationKey, RelativesKey, TagsKey, IsMemberKey, ImageKey][i]
  }

  /** The position of a property in that order. */
  function KeyIndex(k: Key): (i: int)
    ensures 0 <= i < 15 && KeyAt(i) == k
  {
    match k
    case IdKey => 0
    case FirstNameKey => 1
    case LastNameKey => 2
    case NicknameKey => 3
    case SexKey => 4
    case DateOfBirthKey => 5
    case AgeKey => 6
    case CivilStatusKey => 7
    case AddressKey => 8
    case ContactNumberKey => 9
    case OccupationKey => 10
    case RelativesKey => 11
    case TagsKey => 12
    case IsMemberKey => 13
    case ImageKey => 14
  }

  lemma KeyIndexAt(i: int)
    requires 0 <= i < 15
    ensures KeyIndex(KeyAt(i)) == i
  {
  }

  lemma KeyAtInjective(i: int, j: int)
    requires 0 <= i < 15 && 0 <= j < 15 && KeyAt(i) == KeyAt(j)
    ensures i == j
  {
  }

  /** One property of the record; `Absent` is `undefined`, `Null` is `null`. */
  datatype Field = Field(key: Key, value: Presence<Value>)

  /** `s || undefined` for a string. */
  function OrUndefined(s: string): Presence<Value> {
    if s != "" then Present(Text(s)) else Absent
  }

  /** The age property from `calculateAgeFromDate`. */
  function AgeField(age: AgeValue): Presence<Value> {
    match age
    case Undefined => Absent
    case NotANumber => Present(NaN)
    case Years(n) => Present(Number(n))
  }

  /** The image is kept only when it is a non-empty text. */
  predicate HasImage(d: Draft) {
    d.image.Some? && d.image.value != ""
  }

  function DefaultNickname(d: Draft): string {
    if Trim(d.nickname) != "" then Trim(d.nickname) else Trim(d.firstName)
  }

  function DefaultCivilStatus(d: Draft): string {
    if d.civilStatus != "" then d.civilStatus else "Single"
  }

  /** The `member` object literal, one value per property. */
  datatype Literal = Literal(
    id: Presence<Value>,
    firstName: Presence<Value>,
    lastName: Presence<Value>,
    nickname: Presence<Value>,
    sex: Presence<Value>,
    dateOfBirth: Presence<Value>,
    age: Presence<Value>,
    civilStatus: Presence<Value>,
    address: Presence<Value>,
    contactNumber: Presence<Value>,
    occupation: Presence<Value>,
    relatives: Presence<Value>,
    tags: Presence<Value>,
    isMember: Presence<Value>,
    image: Presence<Value>)

  /** The object literal `addMember` builds from the draft, the new id and
      the computed age. */
  function ObjectLiteral(d: Draft, id: int, age: AgeValue): Literal {
    Literal(
      Present(Number(id)),
      Present(Text(Trim(d.firstName))),
      Present(Text(Trim(d.lastName))),
      Present(Text(DefaultNickname(d))),
      Present(Text(d.sex)),
      OrUndefined(d.dateOfBirth),
      AgeField(age),
      Present(Text(DefaultCivilStatus(d))),
      OrUndefined(Trim(d.address)),
      OrUndefined(Trim(d.contactNumber)),
      OrUndefined(Trim(d.occupation)),
      Present(RelativesMap([])),
      Present(Tags(d.tags)),
      Present(Flag(d.isMember)),
      if HasImage(d) then Present(Text(d.image.value)) else Absent)
  }

  /** The value of property `k` in the literal. */
  function PropertyValue(lit: Literal, k: Key): Presence<Value> {
    match k
    case IdKey => lit.id
    case FirstNameKey => lit.firstName
    case LastNameKey => lit.lastName
    case NicknameKey => lit.nickname
    case SexKey => lit.sex
    case DateOfBirthKey => lit.dateOfBirth
    case AgeKey => lit.age
    case CivilStatusKey => lit.civilStatus
    case AddressKey => lit.address
    case ContactNumberKey => lit.contactNumber
    case OccupationKey => lit.occupation
    case RelativesKey => lit.relatives
    case TagsKey => lit.tags
    case IsMemberKey => lit.isMember
    case ImageKey => lit.image
  }

  /** The values of the properties, in `KeyAt` order. */
  function FieldValues(lit: Literal): (v: seq<Presence<Value>>)
    ensures |v| == 15 && forall i :: 0 <= i < 15 ==> v[i] == PropertyValue(lit, KeyAt(i))
  {
    seq(15, i requires 0 <= i < 15 => PropertyValue(lit, KeyAt(i)))
  }

  /** The properties with their values. */
  function Assemble(v: seq<Presence<Value>>): (r: seq<Field>)
    requires |v| == 15
    ensures |r| == 15 && forall i :: 0 <= i < 15 ==> r[i] == Field(KeyAt(i), v[i])
  {
    seq(15, i requires 0 <= i < 15 => Field(KeyAt(i), v[i]))
  }

  /** The `member` object as built, before its `undefined` properties go. */
  function BuildRecord(lit: Literal): seq<Field> {
    Assemble(FieldValues(lit))
  }

  /** A property survives the clean-up when it is defined or is `image`. */
  predicate KeepsField(f: Field) {
    !f.value.Absent? || f.key == ImageKey
  }

  /** The `forEach` that deletes every `undefined` property but `image`. */
  method DropUndefined(fields: seq<Field>) returns (kept: seq<Field>)
    ensures kept == Filter(fields, KeepsField)
  {
    kept := [];
    for i := 0 to |fields|
      invariant kept == Filter(fields[..i], KeepsField)
    {
      FilterPrefixSnoc(fields, i, KeepsField);
      if KeepsField(fields[i]) {
        kept := kept + [fields[i]];
      }
    }
    assert fields[..|fields|] == fields;
  }

  /** `member.image = null`: the image property set to `null` in place. */
  function NullImage(fields: seq<Field>): (r: seq<Field>)
    ensures |r| == |fields|
    ensures forall k :: 0 <= k < |r| ==> r[k].key == fields[k].key
    ensures forall k :: 0 <= k < |r| && fields[k].key != ImageKey ==> r[k] == fields[k]
    ensures forall k :: 0 <= k < |r| && fields[k].key == ImageKey ==> r[k].value == Null
  {
    seq(|fields|, k requires 0 <= k < |fields| => if fields[k].key == ImageKey then fields[k].(value := Null) else fields[k])
  }

  /** The properties `v` after the clean-up, with the image set to `null`
      when `nullImage` holds. */
  function Cleaned(v: seq<Presence<Value>>, nullImage: bool): seq<Field>
    requires |v| == 15
  {
    var kept := Filter(Assemble(v), KeepsField);
    if nullImage then NullImage(kept) else kept
  }

  /** The literal after the clean-up; the image is set to `null` when the
      draft has none. */
  function RecordOf(lit: Literal): seq<Field> {
    Cleaned(FieldValues(lit), lit.image.Absent?)
  }

  /** The record handed to `addMemberToFirestore`. */
  function NewMemberRecord(d: Draft, id: int, today: Date): seq<Field> {
    RecordOf(ObjectLiteral(d, id, CalculateAgeFromDate(d.dateOfBirth, today)))
  }

  /** The record has some property `key`. */
  predicate HasKey(fields: seq<Field>, key: Key) {
    exists k :: 0 <= k < |fields| && fields[k].key == key
  }

  /** A property that survives the clean-up carries the value listed for
      its key. */
  lemma KeptField(v: seq<Presence<Value>>, f: Field)
    requires |v| == 15 && f in Filter(Assemble(v), KeepsField)
    ensures f == Field(f.key, v[KeyIndex(f.key)]) && KeepsField(f)
  {
    FilterMembership(Assemble(v), KeepsField, f);
    var i :| 0 <= i < 15 && Assemble(v)[i] == f;
    KeyAtInjective(i, KeyIndex(f.key));
  }

  /** No property is `undefined` after the clean-up when the image is set
      to `null` exactly when it is undefined. */
  lemma CleanedNoUndefined(v: seq<Presence<Value>>, nullImage: bool)
    requires |v| == 15 && (nullImage <==> v[14].Absent?)
    ensures forall k :: 0 <= k < |Cleaned(v, nullImage)| ==> !Cleaned(v, nullImage)[k].value.Absent?
  {
    hide Assemble, KeyAt, Filter;
    var kept := Filter(Assemble(v), KeepsField);
    var r := Cleaned(v, nullImage);
    forall k | 0 <= k < |r| ensures !r[k].value.Absent? {
      assert kept[k] in kept;
      KeptField(v, kept[k]);
    }
  }

  /** A defined property other than the image survives the clean-up. */
  lemma CleanedKeeps(v: seq<Presence<Value>>, nullImage: bool, i: int)
    requires |v| == 15 && 0 <= i < 14 && !v[i].Absent?
    ensures Field(KeyAt(i), v[i]) in Cleaned(v, nullImage)
  {
    var kept := Filter(Assemble(v), KeepsField);
    assert Assemble(v)[i] in kept;
    var k :| 0 <= k < |kept| && kept[k] == Assemble(v)[i];
    KeyIndexAt(i);
    assert Cleaned(v, nullImage)[k] == kept[k];
  }

  /** The image survives the clean-up, as `null` when `nullImage` holds. */
  lemma CleanedImage(v: seq<Presence<Value>>, nullImage: bool)
    requires |v| == 15
    ensures Field(ImageKey, if nullImage then Null else v[14]) in Cleaned(v, nullImage)
  {
    var kept := Filter(Assemble(v), KeepsField);
    assert Assemble(v)[14] in kept;
    var k :| 0 <= k < |kept| && kept[k] == Assemble(v)[14];
    assert Cleaned(v, nullImage)[k] == Field(ImageKey, if nullImage then Null else v[14]);
  }

  /** A property other than the image is in the record exactly when its
      value is defined. */
  lemma CleanedHasKey(v: seq<Presence<Value>>, nullImage: bool, i: int)
    requires |v| == 15 && 0 <= i < 14
    ensures HasKey(Cleaned(v, nullImage), KeyAt(i)) <==> !v[i].Absent?
  {
    var kept := Filter(Assemble(v), KeepsField);
    var r := Cleaned(v, nullImage);
    if HasKey(r, KeyAt(i)) {
      var k :| 0 <= k < |r| && r[k].key == KeyAt(i);
      assert kept[k] in kept;
      KeptField(v, kept[k]);
      KeyAtInjective(i, KeyIndex(KeyAt(i)));
      KeyIndexAt(i);
    }
    if !v[i].Absent? {
      CleanedKeeps(v, nullImage, i);
    }
  }

  /** No property of the record is `undefined`. */
  lemma RecordHasNoUndefined(lit: Literal)
    ensures forall k :: 0 <= k < |RecordOf(lit)| ==> !RecordOf(lit)[k].value.Absent?
  {
    assert KeyAt(14) == ImageKey;
    CleanedNoUndefined(FieldValues(lit), lit.image.Absent?);
  }

  /** A defined property other than the image is in the record with its
      value from the literal. */
  lemma RecordKeeps(lit: Literal, k: Key)
    requires k != ImageKey && !PropertyValue(lit, k).Absent?
    ensures Field(k, PropertyValue(lit, k)) in RecordOf(lit)
  {
    assert KeyAt(14) == ImageKey;
    CleanedKeeps(FieldValues(lit), lit.image.Absent?, KeyIndex(k));
  }

  /** A property other than the image is in the record exactly when the
      literal gives it a defined value. */
  lemma RecordHasKey(lit: Literal, k: Key)
    requires k != ImageKey
    ensures HasKey(RecordOf(lit), k) <==> !PropertyValue(lit, k).Absent?
  {
    assert KeyAt(14) == ImageKey;
    CleanedHasKey(FieldValues(lit), lit.image.Absent?, KeyIndex(k));
  }

  /** The image is in the record, as `null` when the literal leaves it
      undefined. */
  lemma RecordImage(lit: Literal)
    ensures Field(ImageKey, if lit.image.Absent? then Null else lit.image) in RecordOf(lit)
  {
    assert KeyAt(14) == ImageKey;
    CleanedImage(FieldValues(lit), lit.image.Absent?);
  }

  /** The image the record carries: the text when there is one, else `null`. */
  function ImageValue(d: Draft): Presence<Value> {
    if HasImage(d) then Present(Text(d.image.value)) else Null
  }

  /** `record` holds exactly the defined properties of `lit` other than
      the image, with their values, and the image as in `RecordImage`. */
  ghost predicate RecordMatches(record: seq<Field>, lit: Literal) {
    (forall k :: k != ImageKey ==> (HasKey(record, k) <==> !PropertyValue(lit, k).Absent?))
    && (forall k :: k != ImageKey && !PropertyValue(lit, k).Absent? ==> Field(k, PropertyValue(lit, k)) in record)
    && Field(ImageKey, if lit.image.Absent? then Null else lit.image) in record
  }

  /** The record of a literal is described by `RecordMatches`. */
  lemma RecordFields(lit: Literal)
    ensures RecordMatches(RecordOf(lit), lit)
  {
    forall k | k != ImageKey
      ensures HasKey(RecordOf(lit), k) <==> !PropertyValue(lit, k).Absent?
    {
      RecordHasKey(lit, k);
    }
    forall k | k != ImageKey && !PropertyValue(lit, k).Absent?
      ensures Field(k, PropertyValue(lit, k)) in RecordOf(lit)
    {
      RecordKeeps(lit, k);
    }
    RecordImage(lit);
  }

  /** Defined properties of a literal are in any record that matches it. */
  lemma MatchedFields(record: seq<Field>, lit: Literal)
    requires RecordMatches(record, lit)
    ensures !lit.id.Absent? ==> Field(IdKey, lit.id) in record
    ensures !lit.firstName.Absent? ==> Field(FirstNameKey, lit.firstName) in record
    ensures !lit.lastName.Absent? ==> Field(LastNameKey, lit.lastName) in record
    ensures !lit.nickname.Absent? ==> Field(NicknameKey, lit.nickname) in record
    ensures !lit.sex.Absent? ==> Field(SexKey, lit.sex) in record
    ensures !lit.age.Absent? ==> Field(AgeKey, lit.age) in record
    ensures !lit.civilStatus.Absent? ==> Field(CivilStatusKey, lit.civilStatus) in record
    ensures !lit.relatives.Absent? ==> Field(RelativesKey, lit.relatives) in record
    ensures !lit.tags.Absent? ==> Field(TagsKey, lit.tags) in record
    ensures !lit.isMember.Absent? ==> Field(IsMemberKey, lit.isMember) in record
  {
    assert PropertyValue(lit, IdKey) == lit.id;
    assert PropertyValue(lit, FirstNameKey) == lit.firstName;
    assert PropertyValue(lit, LastNameKey) == lit.lastName;
    assert PropertyValue(lit, NicknameKey) == lit.nickname;
    assert PropertyValue(lit, SexKey) == lit.sex;
    assert PropertyValue(lit, AgeKey) == lit.age;
    assert PropertyValue(lit, CivilStatusKey) == lit.civilStatus;
    assert PropertyValue(lit, RelativesKey) == lit.relatives;
    assert PropertyValue(lit, TagsKey) == lit.tags;
    assert PropertyValue(lit, IsMemberKey) == lit.isMember;
  }

  /** The optional properties are in a matching record exactly when the
      literal defines them. */
  lemma MatchedOptional(record: seq<Field>, lit: Literal)
    requires RecordMatches(record, lit)
    ensures HasKey(record, DateOfBirthKey) <==> !lit.dateOfBirth.Absent?
    ensures HasKey(record, AgeKey) <==> !lit.age.Absent?
    ensures HasKey(record, AddressKey) <==> !lit.address.Absent?
    ensures HasKey(record, ContactNumberKey) <==> !lit.contactNumber.Absent?
    ensures HasKey(record, OccupationKey) <==> !lit.occupation.Absent?
  {
    assert PropertyValue(lit, DateOfBirthKey) == lit.dateOfBirth;
    assert PropertyValue(lit, AgeKey) == lit.age;
    assert PropertyValue(lit, AddressKey) == lit.address;
    assert PropertyValue(lit, ContactNumberKey) == lit.contactNumber;
    assert PropertyValue(lit, OccupationKey) == lit.occupation;
  }

  lemma LiteralNames(d: Draft, id: int, age: AgeValue)
    ensures ObjectLiteral(d, id, age).id == Present(Number(id))
    ensures ObjectLiteral(d, id, age).firstName == Present(Text(Trim(d.firstName)))
    ensures ObjectLiteral(d, id, age).lastName == Present(Text(Trim(d.lastName)))
    ensures ObjectLiteral(d, id, age).nickname == Present(Text(DefaultNickname(d)))
    ensures ObjectLiteral(d, id, age).sex == Present(Text(d.sex))
  {
  }

  lemma LiteralDefaults(d: Draft, id: int, age: AgeValue)
    ensures ObjectLiteral(d, id, age).civilStatus == Present(Text(DefaultCivilStatus(d)))
    ensures ObjectLiteral(d, id, age).relatives == Present(RelativesMap([]))
    ensures ObjectLiteral(d, id, age).tags == Present(Tags(d.tags))
    ensures ObjectLiteral(d, id, age).isMember == Present(Flag(d.isMember))
    ensures (if ObjectLiteral(d, id, age).image.Absent? then Null else ObjectLiteral(d, id, age).image) == ImageValue(d)
  {
  }

  lemma LiteralOptional(d: Draft, id: int, age: AgeValue)
    ensures ObjectLiteral(d, id, age).dateOfBirth.Absent? <==> d.dateOfBirth == ""
    ensures ObjectLiteral(d, id, age).age == AgeField(age)
    ensures ObjectLiteral(d, id, age).address.Absent? <==> Trim(d.address) == ""
    ensures ObjectLiteral(d, id, age).contactNumber.Absent? <==> Trim(d.contactNumber) == ""
    ensures ObjectLiteral(d, id, age).occupation.Absent? <==> Trim(d.occupation) == ""
  {
  }

  /** The record carries the new id, the trimmed names, the nickname
      falling back to the trimmed first name, and the sex. */
  lemma RecordNames(d: Draft, id: int, age: AgeValue)
    ensures Field(IdKey, Present(Number(id))) in RecordOf(ObjectLiteral(d, id, age))
    ensures Field(FirstNameKey, Present(Text(Trim(d.firstName)))) in RecordOf(ObjectLiteral(d, id, age))
    ensures Field(LastNameKey, Present(Text(Trim(d.lastName)))) in RecordOf(ObjectLiteral(d, id, age))
    ensures Field(NicknameKey, Present(Text(DefaultNickname(d)))) in RecordOf(ObjectLiteral(d, id, age))
    ensures Field(SexKey, Present(Text(d.sex))) in RecordOf(ObjectLiteral(d, id, age))
  {
    RecordFields(ObjectLiteral(d, id, age));
    MatchedFields(RecordOf(ObjectLiteral(d, id, age)), ObjectLiteral(d, id, age));
    LiteralNames(d, id, age);
  }

  /** The record carries the civil status falling back to "Single", empty
      relatives, the tags, the member flag, and the image or `null`. */
  lemma RecordDefaults(d: Draft, id: int, age: AgeValue)
    ensures Field(CivilStatusKey, Present(Text(DefaultCivilStatus(d)))) in RecordOf(ObjectLiteral(d, id, age))
    ensures Field(RelativesKey, Present(RelativesMap([]))) in RecordOf(ObjectLiteral(d, id, age))
    ensures Field(TagsKey, Present(Tags(d.tags))) in RecordOf(ObjectLiteral(d, id, age))
    ensures Field(IsMemberKey, Present(Flag(d.isMember))) in RecordOf(ObjectLiteral(d, id, age))
    ensures Field(ImageKey, ImageValue(d)) in RecordOf(ObjectLiteral(d, id, age))
  {
    RecordFields(ObjectLiteral(d, id, age));
    MatchedFields(RecordOf(ObjectLiteral(d, id, age)), ObjectLiteral(d, id, age));
    LiteralDefaults(d, id, age);
  }

  /** The optional properties are present exactly when their form field is
      filled in; the age is there exactly when a date of birth is, with the
      age computed from it. */
  lemma RecordOptionalFields(d: Draft, id: int, today: Date)
    ensures HasKey(NewMemberRecord(d, id, today), DateOfBirthKey) <==> d.dateOfBirth != ""
    ensures HasKey(NewMemberRecord(d, id, today), AgeKey) <==> d.dateOfBirth != ""
    ensures HasKey(NewMemberRecord(d, id, today), AddressKey) <==> Trim(d.address) != ""
    ensures HasKey(NewMemberRecord(d, id, today), ContactNumberKey) <==> Trim(d.contactNumber) != ""
    ensures HasKey(NewMemberRecord(d, id, today), OccupationKey) <==> Trim(d.occupation) != ""
    ensures d.dateOfBirth != "" ==>
      Field(AgeKey, AgeField(CalculateAgeFromDate(d.dateOfBirth, today))) in NewMemberRecord(d, id, today)
  {
    var age := CalculateAgeFromDate(d.dateOfBirth, today);
    RecordFields(ObjectLiteral(d, id, age));
    MatchedOptional(NewMemberRecord(d, id, today), ObjectLiteral(d, id, age));
    MatchedFields(NewMemberRecord(d, id, today), ObjectLiteral(d, id, age));
    LiteralOptional(d, id, age);
  }

  /** The record `addMember` builds: the literal, its `undefined`
      properties deleted, and the image set to `null` when the draft has
      none. */
  method BuildMemberRecord(d: Draft, id: int, today: Date) returns (member: seq<Field>)
    ensures member == NewMemberRecord(d, id, today)
  {
    var lit := ObjectLiteral(d, id, CalculateAgeFromDate(d.dateOfBirth, today));
    member := DropUndefined(BuildRecord(lit));
    assert lit.image.Absent? <==> d.image.None? || d.image == Some("");
    if d.image.None? || d.image == Some("") {
      member := NullImage(member);
    }
  }

  /** The toast shown after a successful write. */
  function AddedNotice(d: Draft): string {
    Trim(d.firstName) + " " + Trim(d.lastName) + " added"
  }

  /** The toast shown when the write fails. */
  const FailedNotice: string := "Failed to add member. Please try again."

  // The form state.

  /** The form of one directory view and whether it is open. */
  class MemberFormState {
    var showAddMember: bool
    var newMember: Draft

    constructor()
      ensures !showAddMember && newMember == EmptyDraft()
    {
      showAddMember := false;
      newMember := EmptyDraft();
    }

    /** `calculateAge`: the age recomputed when a date of birth is set. */
    method CalculateAge(today: Date)
      modifies this
      ensures old(newMember.dateOfBirth) != "" ==>
        newMember == old(newMember).(age := Some(CalculateAgeFromDate(old(newMember.dateOfBirth), today)))
      ensures old(newMember.dateOfBirth) == "" ==> newMember == old(newMember)
      ensures showAddMember == old(showAddMember)
    {
      if newMember.dateOfBirth != "" {
        newMember := newMember.(age := Some(CalculateAgeFromDate(newMember.dateOfBirth, today)));
      }
    }

    /** `addMember`, with the outcome of the write passed in as `saved`.
        Nothing happens while a required field is missing; otherwise the
        record is written and, when the write succeeds, the form is reset
        and closed. `notice` is the toast text shown. */
    method AddMember(members: seq<Member>, today: Date, saved: bool) returns (record: Option<seq<Field>>, notice: string)
      modifies this
      ensures !CanAddMember(old(newMember)) ==>
        record == None && notice == "" && newMember == old(newMember) && showAddMember == old(showAddMember)
      ensures CanAddMember(old(newMember)) ==> record.Some? && record.value == NewMemberRecord(old(newMember), NextId(members), today)
      ensures CanAddMember(old(newMember)) && saved ==>
        newMember == EmptyDraft() && !showAddMember
        && notice == AddedNotice(old(newMember))
      ensures CanAddMember(old(newMember)) && !saved ==>
        newMember == old(newMember) && showAddMember == old(showAddMember)
        && notice == FailedNotice
    {
      var draft := newMember;
      if !CanAddMember(draft) {
        return None, "";
      }
      var member := BuildMemberRecord(draft, NextId(members), today);
      record := Some(member);
      notice := Finish(saved);
    }

    /** What follows the write: on success the form is reset and closed
        and the member announced, on failure an error is shown. */
    method Finish(saved: bool) returns (notice: string)
      modifies this
      ensures saved ==> newMember == EmptyDraft() && !showAddMember && notice == AddedNotice(old(newMember))
      ensures !saved ==> newMember == old(newMember) && showAddMember == old(showAddMember) && notice == FailedNotice
    {
      if saved {
        notice := AddedNotice(newMember);
        newMember := EmptyDraft();
        showAddMember := false;
      } else {
        notice := FailedNotice;
      }
    }
  }
}
