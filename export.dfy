/** The member export (src/utils/exportUtils.js): the optional filters, the
    sort, the selected columns and the CSV text. */
module Export {
  import opened Wrappers
  import opened Strings
  import opened Seqs
  import opened Sorting
  import opened MembersService
  import opened MemberSorting
  import opened Csv

  // Filters.

  /** The filters of the export dialog. An empty tag list, a `None` member
      status and an empty sex or civil status are filters that are not set. */
  datatype ExportFilters = ExportFilters(tags: seq<string>, isMember: Option<bool>, sex: string, civilStatus: string)

  /** `filters.tags.some(tag => member.tags.includes(tag))`. */
  predicate SharesTag(m: Member, tags: seq<string>) {
    exists t :: t in tags && t in m.tags
  }

  function TagTest(tags: seq<string>): Member -> bool {
    (m: Member) => SharesTag(m, tags)
  }

  function StatusTest(isMember: bool): Member -> bool {
    (m: Member) => m.isMember == Some(isMember)
  }

  function SexTest(sex: string): Member -> bool {
    (m: Member) => m.sex == sex
  }

  function CivilStatusTest(civilStatus: string): Member -> bool {
    (m: Member) => m.civilStatus == civilStatus
  }

  /** A member passes every filter that is set. */
  predicate Passes(filters: ExportFilters, m: Member) {
    && (|filters.tags| > 0 ==> SharesTag(m, filters.tags))
    && (filters.isMember.Some? ==> m.isMember == filters.isMember)
    && (filters.sex != "" ==> m.sex == filters.sex)
    && (filters.civilStatus != "" ==> m.civilStatus == filters.civilStatus)
  }

  function PassTest(filters: ExportFilters): Member -> bool {
    (m: Member) => Passes(filters, m)
  }

  /** `applyFilters`: each filter that is set narrows the result in turn. */
  function ApplyFilters(members: seq<Member>, filters: ExportFilters): seq<Member> {
    var byTags := if |filters.tags| > 0 then Filter(members, TagTest(filters.tags)) else members;
    var byStatus := if filters.isMember.Some? then Filter(byTags, StatusTest(filters.isMember.value)) else byTags;
    var bySex := if filters.sex != "" then Filter(byStatus, SexTest(filters.sex)) else byStatus;
    if filters.civilStatus != "" then Filter(bySex, CivilStatusTest(filters.civilStatus)) else bySex
  }

  /** A filter that is applied only when `active` holds is a filter whose test
      passes everything when it does not. */
  lemma Optional(s: seq<Member>, active: bool, p: Member -> bool, q: Member -> bool)
    requires forall m :: q(m) == (!active || p(m))
    ensures (if active then Filter(s, p) else s) == Filter(s, q)
  {
    if active {
      FilterAgree(s, p, q);
    } else {
      FilterAll(s, q);
    }
  }

  /** The tests of the four filters, each passing everything when its
      filter is not set. */
  function TagStage(filters: ExportFilters): Member -> bool {
    (m: Member) => |filters.tags| == 0 || SharesTag(m, filters.tags)
  }

  function StatusStage(filters: ExportFilters): Member -> bool {
    (m: Member) => filters.isMember.None? || m.isMember == filters.isMember
  }

  function SexStage(filters: ExportFilters): Member -> bool {
    (m: Member) => filters.sex == "" || m.sex == filters.sex
  }

  function CivilStatusStage(filters: ExportFilters): Member -> bool {
    (m: Member) => filters.civilStatus == "" || m.civilStatus == filters.civilStatus
  }

  /** Each step of `applyFilters` is a filter with the stage's test. */
  lemma Stages(members: seq<Member>, filters: ExportFilters)
    ensures ApplyFilters(members, filters)
      == Filter(Filter(Filter(Filter(members, TagStage(filters)), StatusStage(filters)), SexStage(filters)), CivilStatusStage(filters))
  {
    var byTags := if |filters.tags| > 0 then Filter(members, TagTest(filters.tags)) else members;
    Optional(members, |filters.tags| > 0, TagTest(filters.tags), TagStage(filters));
    var byStatus := if filters.isMember.Some? then Filter(byTags, StatusTest(filters.isMember.value)) else byTags;
    Optional(byTags, filters.isMember.Some?, StatusTest(if filters.isMember.Some? then filters.isMember.value else false), StatusStage(filters));
    var bySex := if filters.sex != "" then Filter(byStatus, SexTest(filters.sex)) else byStatus;
    Optional(byStatus, filters.sex != "", SexTest(filters.sex), SexStage(filters));
    Optional(bySex, filters.civilStatus != "", CivilStatusTest(filters.civilStatus), CivilStatusStage(filters));
  }

  /** Four filters in turn are one filter with the conjunction of the tests. */
  lemma FourFilters(s: seq<Member>, p1: Member -> bool, p2: Member -> bool, p3: Member -> bool, p4: Member -> bool,
                    all: Member -> bool)
    requires forall m :: all(m) == (p1(m) && p2(m) && p3(m) && p4(m))
    ensures Filter(Filter(Filter(Filter(s, p1), p2), p3), p4) == Filter(s, all)
  {
    var p12 := (m: Member) => p1(m) && p2(m);
    var p123 := (m: Member) => p12(m) && p3(m);
    FilterBoth(s, p1, p2, p12);
    FilterBoth(s, p12, p3, p123);
    FilterBoth(s, p123, p4, all);
  }

  /** The four filters in turn keep exactly the members that pass them all,
      in their original order. */
  lemma ApplyFiltersIsFilter(members: seq<Member>, filters: ExportFilters)
    ensures ApplyFilters(members, filters) == Filter(members, PassTest(filters))
  {
    Stages(members, filters);
    FourFilters(members, TagStage(filters), StatusStage(filters), SexStage(filters), CivilStatusStage(filters), PassTest(filters));
  }

  /** The export keeps an order-preserving subsequence of the members, and
      a member is kept exactly when it passes every filter that is set. */
  lemma ApplyFiltersKeeps(members: seq<Member>, filters: ExportFilters, m: Member)
    ensures IsSubsequence(ApplyFilters(members, filters), members)
    ensures m in ApplyFilters(members, filters) <==> m in members && Passes(filters, m)
  {
    ApplyFiltersIsFilter(members, filters);
    FilterIsSubsequence(members, PassTest(filters));
    FilterMembership(members, PassTest(filters), m);
  }

  // Sorting.

  /** The value `sortMembers` compares: a string, or a number. */
  datatype SortValue = Text(text: string) | Number(n: int)

  /** `aVal` of `sortMembers` for the key `sortBy`; `a[sortBy] || ""` for
      the keys without a case of their own. An array compares as its
      elements joined by commas, an object as "[object Object]", `false`
      and `null` as `""`, which compares equal to 0. */
  function SortValueOf(sortBy: string, m: Member): SortValue {
    if sortBy == "name" then Text(NameKey(m))
    else if sortBy == "age" then Number(AgeKey(m))
    else if sortBy == "dateOfBirth" then Text(if m.dateOfBirth.Some? then m.dateOfBirth.value else "")
    else if sortBy == "id" then (match m.id case Num(n) => if n == 0 then Text("") else Number(n) case Str(s) => Text(s))
    else if sortBy == "firestoreId" then Text(m.firestoreId)
    else if sortBy == "firstName" then Text(m.firstName)
    else if sortBy == "lastName" then Text(m.lastName)
    else if sortBy == "nickname" then Text(m.nickname)
    else if sortBy == "sex" then Text(m.sex)
    else if sortBy == "civilStatus" then Text(m.civilStatus)
    else if sortBy == "address" then Text(m.address)
    else if sortBy == "contactNumber" then Text(m.contactNumber)
    else if sortBy == "occupation" then Text(m.occupation)
    else if sortBy == "familyRole" then Text(m.familyRole)
    else if sortBy == "image" then Text(if m.image.Some? then m.image.value else "")
    else if sortBy == "tags" then Text(Join(m.tags, ","))
    else if sortBy == "isMember" then Number(if m.isMember == Some(true) then 1 else 0)
    else if sortBy == "relatives" then Text(if m.relatives.Some? then "[object Object]" else "")
    else Text("")
  }

  /** Two numbers as -1, 0 or 1. */
  function NumberOrder(a: int, b: int): int {
    if a < b then -1 else if a > b then 1 else 0
  }

  /** `aVal < bVal` as -1, `aVal > bVal` as 1, and 0 otherwise. A string
      met by a number is converted with `Number`; when that gives NaN both
      comparisons are false. */
  function ValueOrder(x: SortValue, y: SortValue): (c: int)
    ensures -1 <= c <= 1
    ensures x.Text? && y.Text? ==> (c == 0 <==> x.text == y.text)
    ensures x.Number? && y.Number? ==> (c < 0 <==> x.n < y.n) && (c > 0 <==> x.n > y.n)
    ensures x.Number? && y.Text? ==>
      if ParseNumber(y.text).None? then c == 0
      else (c < 0 <==> x.n < ParseNumber(y.text).value) && (c > 0 <==> x.n > ParseNumber(y.text).value)
    ensures x.Text? && y.Number? ==>
      if ParseNumber(x.text).None? then c == 0
      else (c < 0 <==> ParseNumber(x.text).value < y.n) && (c > 0 <==> ParseNumber(x.text).value > y.n)
  {
    match (x, y)
    case (Text(a), Text(b)) => Compare(a, b)
    case (Number(a), Number(b)) => NumberOrder(a, b)
    case (Number(a), Text(b)) => if ParseNumber(b).None? then 0 else NumberOrder(a, ParseNumber(b).value)
    case (Text(a), Number(b)) => if ParseNumber(a).None? then 0 else NumberOrder(ParseNumber(a).value, b)
  }

  /** A number and a text: "12" against 5 puts 5 first, as `<` converts the text. */
  lemma MixedIdOrder()
    ensures ValueOrder(Number(5), Text("12")) == -1
    ensures ValueOrder(Text("12"), Number(5)) == 1
    ensures ValueOrder(Number(5), Text("x")) == 0
  {
    hide ValueOrder, NumberOrder, Trim, TrimStart, TrimEnd;
    assert Trim("12") == "12" by { TrimOfTrimmed("12"); }
    assert AllDigits("12");
    assert DigitsValue("12") == 12 by {
      assert "12"[..1] == "1";
    }
    assert Trim("x") == "x" by { TrimOfTrimmed("x"); }
    assert ParseNumber("x").None?;
  }

  /** The comparator of `sortMembers`: "asc" or, for any other order, its
      mirror image. */
  function ExportOrder(sortBy: string, sortOrder: string, a: Member, b: Member): int {
    var c := ValueOrder(SortValueOf(sortBy, a), SortValueOf(sortBy, b));
    if sortOrder == "asc" then c else -c
  }

  predicate SameKind(x: SortValue, y: SortValue) {
    x.Text? == y.Text?
  }

  /** All sort values of `s` are strings, or all are numbers. */
  predicate OneKind(s: seq<Member>, sortBy: string) {
    forall i, j :: 0 <= i < |s| && 0 <= j < |s| ==> SameKind(SortValueOf(sortBy, s[i]), SortValueOf(sortBy, s[j]))
  }

  /** Every element ordered no later than each element after it. */
  predicate Ascending(s: seq<Member>, sortBy: string) {
    forall i, j :: 0 <= i < j < |s| ==> ValueOrder(SortValueOf(sortBy, s[i]), SortValueOf(sortBy, s[j])) <= 0
  }

  predicate Descending(s: seq<Member>, sortBy: string) {
    forall i, j :: 0 <= i < j < |s| ==> ValueOrder(SortValueOf(sortBy, s[j]), SortValueOf(sortBy, s[i])) <= 0
  }

  lemma ValueOrderAntisymmetric(x: SortValue, y: SortValue)
    ensures ValueOrder(x, y) == -ValueOrder(y, x)
  {
    if x.Text? && y.Text? {
      CompareAntisymmetric(x.text, y.text);
    }
  }

  lemma ValueOrderTransitive(x: SortValue, y: SortValue, z: SortValue)
    requires SameKind(x, y) && SameKind(y, z)
    requires ValueOrder(x, y) <= 0 && ValueOrder(y, z) <= 0
    ensures ValueOrder(x, z) <= 0
  {
    if x.Text? {
      CompareTransitive(x.text, y.text, z.text);
    }
  }

  /** The comparator is consistent on members whose values are of one kind. */
  lemma ExportOrderConsistent(s: seq<Member>, sortBy: string, sortOrder: string)
    requires OneKind(s, sortBy)
    ensures IsComparator((a: Member, b: Member) => ExportOrder(sortBy, sortOrder, a, b), Elements(s))
  {
    hide ValueOrder;
    var cmp := (a: Member, b: Member) => ExportOrder(sortBy, sortOrder, a, b);
    var u := Elements(s);
    forall a, b | a in u && b in u ensures cmp(a, b) == -cmp(b, a) {
      ValueOrderAntisymmetric(SortValueOf(sortBy, a), SortValueOf(sortBy, b));
    }
    forall a, b, c | a in u && b in u && c in u && cmp(a, b) <= 0 && cmp(b, c) <= 0
      ensures cmp(a, c) <= 0
    {
      var i :| 0 <= i < |s| && s[i] == a;
      var j :| 0 <= j < |s| && s[j] == b;
      var k :| 0 <= k < |s| && s[k] == c;
      var x, y, z := SortValueOf(sortBy, a), SortValueOf(sortBy, b), SortValueOf(sortBy, c);
      assert SameKind(x, y) && SameKind(y, z);
      if sortOrder == "asc" {
        ValueOrderTransitive(x, y, z);
      } else {
        ValueOrderAntisymmetric(x, y);
        ValueOrderAntisymmetric(y, z);
        ValueOrderAntisymmetric(x, z);
        ValueOrderTransitive(z, y, x);
      }
    }
  }

  /** `sortMembers` of the export: a sorted copy. */
  function ExportSort(members: seq<Member>, sortBy: string, sortOrder: string): (r: seq<Member>)
    ensures multiset(r) == multiset(members)
    ensures OneKind(members, sortBy) && sortOrder == "asc" ==> Ascending(r, sortBy)
    ensures OneKind(members, sortBy) && sortOrder != "asc" ==> Descending(r, sortBy)
  {
    var cmp := (a: Member, b: Member) => ExportOrder(sortBy, sortOrder, a, b);
    var r := SortWith(members, cmp);
    if OneKind(members, sortBy) then
      ExportOrderConsistent(members, sortBy, sortOrder);
      SortSorted(members, cmp);
      SortedDirection(members, r, sortBy, sortOrder);
      r
    else r
  }

  /** Ordered by the export comparator is ascending for "asc" and
      descending otherwise. */
  lemma SortedDirection(s: seq<Member>, r: seq<Member>, sortBy: string, sortOrder: string)
    requires SortedBy(r, (a: Member, b: Member) => ExportOrder(sortBy, sortOrder, a, b))
    ensures sortOrder == "asc" ==> Ascending(r, sortBy)
    ensures sortOrder != "asc" ==> Descending(r, sortBy)
  {
    if sortOrder != "asc" {
      forall i, j | 0 <= i < j < |r|
        ensures ValueOrder(SortValueOf(sortBy, r[j]), SortValueOf(sortBy, r[i])) <= 0
      {
        ValueOrderAntisymmetric(SortValueOf(sortBy, r[i]), SortValueOf(sortBy, r[j]));
      }
    }
  }

  /** Name, date of birth and the text fields always compare as strings;
      age always as a number. */
  lemma KindOfKey(s: seq<Member>, sortBy: string)
    requires sortBy in {"name", "dateOfBirth", "age", "firstName", "lastName", "nickname", "sex",
                        "civilStatus", "address", "contactNumber", "occupation", "familyRole"}
    ensures OneKind(s, sortBy)
  {
  }

  /** A key the members do not have ties every pair, so the order is kept. */
  lemma UnknownKeyKeepsOrder(members: seq<Member>, sortBy: string, sortOrder: string)
    requires sortBy !in {"name", "age", "dateOfBirth", "id", "firestoreId", "firstName", "lastName",
                         "nickname", "sex", "civilStatus", "address", "contactNumber", "occupation",
                         "familyRole", "image", "tags", "isMember", "relatives"}
    ensures ExportSort(members, sortBy, sortOrder) == members
  {
    AllTiesKeepOrder(members, (a: Member, b: Member) => ExportOrder(sortBy, sortOrder, a, b));
  }

  // Columns.

  /** An entry of `availableFields`. */
  datatype Field =
    | IdField | FirstNameField | LastNameField | NicknameField | SexField
    | DateOfBirthField | AgeField | CivilStatusField | AddressField
    | ContactNumberField | OccupationField | TagsField | IsMemberField | FamilyRoleField

  /** The field at position `i` of `availableFields`. */
  function FieldAt(i: int): Field
    requires 0 <= i < 14
  {
    if i == 0 then IdField else if i == 1 then FirstNameField else if i == 2 then LastNameField
    else if i == 3 then NicknameField else if i == 4 then SexField else if i == 5 then DateOfBirthField
    else if i == 6 then AgeField else if i == 7 then CivilStatusField else if i == 8 then AddressField
    else if i == 9 then ContactNumberField else if i == 10 then OccupationField else if i == 11 then TagsField
    else if i == 12 then IsMemberField else FamilyRoleField
  }

  /** The position of a field in `availableFields`. */
  function FieldIndex(f: Field): (i: int)
    ensures 0 <= i < 14 && FieldAt(i) == f
  {
    match f
    case IdField => 0
    case FirstNameField => 1
    case LastNameField => 2
    case NicknameField => 3
    case SexField => 4
    case DateOfBirthField => 5
    case AgeField => 6
    case CivilStatusField => 7
    case AddressField => 8
    case ContactNumberField => 9
    case OccupationField => 10
    case TagsField => 11
    case IsMemberField => 12
    case FamilyRoleField => 13
  }

  /** `availableFields`, in the column order of the export. */
  function AvailableFields(): (r: seq<Field>)
    ensures |r| == 14
    ensures forall i :: 0 <= i < 14 ==> r[i] == FieldAt(i)
  {
    seq(14, i requires 0 <= i < 14 => FieldAt(i))
  }

  /** The column heading of a field. */
  function Label(f: Field): string {
    match f
    case IdField => "ID"
    case FirstNameField => "First Name"
    case LastNameField => "Last Name"
    case NicknameField => "Nickname"
    case SexField => "Gender"
    case DateOfBirthField => "Date of Birth"
    case AgeField => "Age"
    case CivilStatusField => "Civil Status"
    case AddressField => "Address"
    case ContactNumberField => "Contact Number"
    case OccupationField => "Occupation"
    case TagsField => "Tags"
    case IsMemberField => "Is Member"
    case FamilyRoleField => "Family Role"
  }

  /** No label needs quoting. */
  lemma LabelPlain(f: Field)
    ensures !NeedsQuoting(Label(f))
  {
    match f
    case IdField => PlainLetters("ID");
    case FirstNameField => PlainLetters("First Name");
    case LastNameField => PlainLetters("Last Name");
    case NicknameField => PlainLetters("Nickname");
    case SexField => PlainLetters("Gender");
    case DateOfBirthField => PlainLetters("Date of Birth");
    case AgeField => PlainLetters("Age");
    case CivilStatusField => PlainLetters("Civil Status");
    case AddressField => PlainLetters("Address");
    case ContactNumberField => PlainLetters("Contact Number");
    case OccupationField => PlainLetters("Occupation");
    case TagsField => PlainLetters("Tags");
    case IsMemberField => PlainLetters("Is Member");
    case FamilyRoleField => PlainLetters("Family Role");
  }

  /** Text of letters and spaces needs no quoting. */
  lemma PlainLetters(s: string)
    requires forall i :: 0 <= i < |s| ==> LabelChar(s[i])
    ensures !NeedsQuoting(s)
  {
    forall c | c in s ensures LabelChar(c) {
      var i :| 0 <= i < |s| && s[i] == c;
    }
  }

  predicate LabelChar(c: char) {
    c == ' ' || 'A' <= c <= 'Z' || 'a' <= c <= 'z'
  }

  /** `String(value)` of a field after the special cases: tags joined by
      ", ", the member flag as Yes or No, `null` as the empty string. */
  function FieldText(m: Member, f: Field): (r: string)
    ensures f == IsMemberField ==> (r == "Yes" || r == "No") && (r == "Yes" <==> m.isMember == Some(true))
    ensures f == DateOfBirthField && m.dateOfBirth.None? ==> r == ""
    ensures f == AgeField && m.age.None? ==> r == ""
    ensures f == TagsField ==> r == Join(m.tags, ", ")
  {
    match f
    case IdField => IdToString(m.id)
    case FirstNameField => m.firstName
    case LastNameField => m.lastName
    case NicknameField => m.nickname
    case SexField => m.sex
    case DateOfBirthField => if m.dateOfBirth.Some? then m.dateOfBirth.value else ""
    case AgeField => if m.age.Some? then IntToString(m.age.value) else ""
    case CivilStatusField => m.civilStatus
    case AddressField => m.address
    case ContactNumberField => m.contactNumber
    case OccupationField => m.occupation
    case TagsField => Join(m.tags, ", ")
    case IsMemberField => if m.isMember == Some(true) then "Yes" else "No"
    case FamilyRoleField => m.familyRole
  }

  function IsSelected(selected: set<Field>): Field -> bool {
    (f: Field) => f in selected
  }

  /** The columns: the available fields whose flag is set, in their order. */
  function Columns(selected: set<Field>): seq<Field> {
    Filter(AvailableFields(), IsSelected(selected))
  }

  function Labels(fields: seq<Field>): (r: seq<string>)
    ensures |r| == |fields|
    ensures forall k :: 0 <= k < |r| ==> r[k] == Label(fields[k])
  {
    if fields == [] then [] else Labels(fields[..|fields| - 1]) + [Label(fields[|fields| - 1])]
  }

  /** The values of one member in the given columns. */
  function Values(m: Member, fields: seq<Field>): (r: seq<string>)
    ensures |r| == |fields|
  {
    if fields == [] then [] else Values(m, fields[..|fields| - 1]) + [FieldText(m, fields[|fields| - 1])]
  }

  /** Column `k` of a member's values is the text of field `k`. */
  lemma {:induction false} ValuesAt(m: Member, fields: seq<Field>, k: int)
    requires 0 <= k < |fields|
    ensures Values(m, fields)[k] == FieldText(m, fields[k])
    decreases |fields|
  {
    if k < |fields| - 1 {
      ValuesAt(m, fields[..|fields| - 1], k);
    }
  }

  /** Every field is available. */
  lemma Available(f: Field)
    ensures f in AvailableFields()
  {
    assert AvailableFields()[FieldIndex(f)] == f;
  }

  /** Some column is exported exactly when some field is selected. */
  lemma ColumnsNonEmpty(selected: set<Field>)
    ensures |Columns(selected)| >= 1 <==> selected != {}
  {
    if |Columns(selected)| >= 1 {
      assert Columns(selected)[0] in selected;
    }
    if selected != {} {
      var f :| f in selected;
      Available(f);
      FilterMembership(AvailableFields(), IsSelected(selected), f);
    }
  }

  /** `memberToCSVRow`: the escaped values of the selected fields, in the
      order of `availableFields`, joined by commas. */
  method MemberToCsvRow(m: Member, selected: set<Field>) returns (line: string)
    ensures line == EncodeRecord(Values(m, Columns(selected)))
  {
    var fields := AvailableFields();
    var row: seq<string> := [];
    for k := 0 to |fields|
      invariant row == EscapeAll(Values(m, Filter(fields[..k], IsSelected(selected))))
    {
      var field := fields[k];
      ghost var before := Filter(fields[..k], IsSelected(selected));
      FilterPrefixSnoc(fields, k, IsSelected(selected));
      if field in selected {
        var value := FieldText(m, field);
        row := row + [Escape(value)];
        SnocValues(m, before, field);
      } else {
        assert !IsSelected(selected)(field);
        assert before + [] == before;
      }
    }
    assert fields[..|fields|] == fields;
    line := Join(row, ",");
  }

  lemma SnocValues(m: Member, fields: seq<Field>, f: Field)
    ensures EscapeAll(Values(m, fields + [f])) == EscapeAll(Values(m, fields)) + [Escape(FieldText(m, f))]
  {
    assert (fields + [f])[..|fields|] == fields;
    EscapeAllSnoc(Values(m, fields), FieldText(m, f));
  }

  // The CSV text.

  /** What is exported: the members, filtered when the current filters are
      used, then sorted. */
  function ExportedMembers(members: seq<Member>, useCurrentFilters: bool, filters: ExportFilters,
                           sortBy: string, sortOrder: string): seq<Member> {
    ExportSort(if useCurrentFilters then ApplyFilters(members, filters) else members, sortBy, sortOrder)
  }

  /** The value records of the exported members. */
  function Records(data: seq<Member>, fields: seq<Field>): (r: seq<seq<string>>)
    ensures |r| == |data|
  {
    if data == [] then [] else Records(data[..|data| - 1], fields) + [Values(data[|data| - 1], fields)]
  }

  /** Every record has one value per column. */
  lemma {:induction false} RecordsWidth(data: seq<Member>, fields: seq<Field>)
    ensures forall k :: 0 <= k < |data| ==> |Records(data, fields)[k]| == |fields|
    decreases |data|
  {
    if data != [] {
      RecordsWidth(data[..|data| - 1], fields);
    }
  }

  /** The record of each exported member is its values. */
  lemma {:induction false} RecordsAt(data: seq<Member>, fields: seq<Field>, i: int)
    requires 0 <= i < |data|
    ensures Records(data, fields)[i] == Values(data[i], fields)
    decreases |data|
  {
    if i < |data| - 1 {
      var init := data[..|data| - 1];
      RecordsAt(init, fields, i);
      assert init[i] == data[i];
    }
  }

  /** `dataToExport.map(member => memberToCSVRow(member, config.fields))`. */
  method CsvRows(data: seq<Member>, selected: set<Field>) returns (rows: seq<string>)
    ensures rows == EncodeRecords(Records(data, Columns(selected)))
  {
    // Only equalities between row texts are needed here.
    hide Columns;
    ghost var columns := Columns(selected);
    rows := [];
    for k := 0 to |data|
      invariant |rows| == k
      invariant forall i :: 0 <= i < k ==> rows[i] == EncodeRecord(Values(data[i], columns))
    {
      var row := MemberToCsvRow(data[k], selected);
      rows := rows + [row];
    }
    EncodedRows(data, columns, rows);
  }

  /** One encoded line per member is the encoding of the records. */
  lemma EncodedRows(data: seq<Member>, columns: seq<Field>, rows: seq<string>)
    requires |rows| == |data|
    requires forall i :: 0 <= i < |data| ==> rows[i] == EncodeRecord(Values(data[i], columns))
    ensures rows == EncodeRecords(Records(data, columns))
  {
    var records := Records(data, columns);
    forall i | 0 <= i < |data| ensures rows[i] == EncodeRecords(records)[i] {
      RecordsAt(data, columns, i);
      EncodeRecordsAt(records, i);
    }
  }

  /** The CSV text of `exportToCSV`: the header line, then one line per
      exported member, joined by line feeds. Read back, it gives the column
      labels and then each exported member's values, provided some column
      is selected. */
  method ExportToCsv(members: seq<Member>, useCurrentFilters: bool, filters: ExportFilters,
                     sortBy: string, sortOrder: string, selected: set<Field>) returns (csv: string)
    ensures var data := ExportedMembers(members, useCurrentFilters, filters, sortBy, sortOrder);
      csv == Join(EncodeRecords([Labels(Columns(selected))] + Records(data, Columns(selected))), "\n")
    ensures selected != {} ==>
      var data := ExportedMembers(members, useCurrentFilters, filters, sortBy, sortOrder);
      Parse(csv) == Some([Labels(Columns(selected))] + Records(data, Columns(selected)))
  {
    var dataToExport := DataToExport(members, useCurrentFilters, filters, sortBy, sortOrder);
    var headers := Labels(Columns(selected));
    var rows := CsvRows(dataToExport, selected);
    csv := Join([Join(headers, ",")] + rows, "\n");
    if selected != {} {
      ColumnsNonEmpty(selected);
    }
    CsvText(dataToExport, Columns(selected), rows, csv);
  }

  /** `dataToExport`: the members, filtered when the current filters are
      used, then sorted. */
  method DataToExport(members: seq<Member>, useCurrentFilters: bool, filters: ExportFilters,
                      sortBy: string, sortOrder: string) returns (data: seq<Member>)
    ensures data == ExportedMembers(members, useCurrentFilters, filters, sortBy, sortOrder)
  {
    data := if useCurrentFilters then ApplyFilters(members, filters) else members;
    data := ExportSort(data, sortBy, sortOrder);
  }

  /** The header line and the rows joined by line feeds are the encoded
      records, and read back when some column is selected. */
  lemma CsvText(data: seq<Member>, columns: seq<Field>, rows: seq<string>, csv: string)
    requires rows == EncodeRecords(Records(data, columns))
    requires csv == Join([Join(Labels(columns), ",")] + rows, "\n")
    ensures csv == Join(EncodeRecords([Labels(columns)] + Records(data, columns)), "\n")
    ensures |columns| >= 1 ==> Parse(csv) == Some([Labels(columns)] + Records(data, columns))
  {
    var headers := Labels(columns);
    var values := Records(data, columns);
    HeaderPlain(columns);
    CsvLines(headers, values, rows);
    var records := [headers] + values;
    if |columns| >= 1 {
      RecordsWidth(data, columns);
      NonEmptyRecords(headers, values);
      ReadBack(records, csv);
    }
  }

  /** The header line followed by the rows are the encoded records of the
      labels and the values. */
  lemma CsvLines(headers: seq<string>, values: seq<seq<string>>, rows: seq<string>)
    requires rows == EncodeRecords(values)
    requires EncodeRecord(headers) == Join(headers, ",")
    ensures [Join(headers, ",")] + rows == EncodeRecords([headers] + values)
  {
    var records := [headers] + values;
    assert records[0] == headers && records[1..] == values;
  }

  lemma NonEmptyRecords(headers: seq<string>, values: seq<seq<string>>)
    requires |headers| >= 1
    requires forall k :: 0 <= k < |values| ==> |values[k]| == |headers|
    ensures forall k :: 0 <= k < |[headers] + values| ==> |([headers] + values)[k]| >= 1
  {
  }

  lemma ReadBack(records: seq<seq<string>>, csv: string)
    requires |records| >= 1
    requires forall k :: 0 <= k < |records| ==> |records[k]| >= 1
    requires csv == Join(EncodeRecords(records), "\n")
    ensures Parse(csv) == Some(records)
  {
    RoundTrip(records);
  }


  /** The header line is written without escaping, which is the escaped
      record of the labels, since no label needs quotes. */
  lemma HeaderPlain(fields: seq<Field>)
    ensures EncodeRecord(Labels(fields)) == Join(Labels(fields), ",")
  {
    var labels := Labels(fields);
    forall k | 0 <= k < |labels| ensures !NeedsQuoting(labels[k]) {
      LabelPlain(fields[k]);
    }
    EscapeAllPlain(labels);
  }
}
