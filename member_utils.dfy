/** Display helpers for members (src/utils/memberUtils.js): the full name,
    the avatar URL with `encodeURIComponent`, the sex icon, the two label
    maps and the age computed from a date of birth. */
module MemberUtils {
  import opened Wrappers
  import opened Strings
  import opened Dates
  import opened MembersService

  /** `${firstName} ${lastName}`. */
  function FullName(m: Member): (r: string)
    ensures |r| == |m.firstName| + 1 + |m.lastName|
    ensures r[..|m.firstName|] == m.firstName && r[|m.firstName|] == ' '
    ensures r[|m.firstName| + 1..] == m.lastName
  {
    m.firstName + " " + m.lastName
  }

  /** A first name without spaces is the first word of the full name. */
  lemma FullNameFirstWord(m: Member)
    requires ' ' !in m.firstName
    ensures Split(FullName(m), ' ')[0] == m.firstName
  {
    var r := FullName(m);
    var i := IndexOfChar(r, ' ');
    assert r[|m.firstName|] == ' ';
    assert i == |m.firstName| by {
      assert ' ' !in r[..|m.firstName|];
    }
  }

  // ---- encodeURIComponent -------------------------------------------------

  /** The characters `encodeURIComponent` leaves as they are. */
  predicate Unreserved(c: char) {
    ('A' <= c <= 'Z') || ('a' <= c <= 'z') || ('0' <= c <= '9')
    || c == '-' || c == '_' || c == '.' || c == '!' || c == '~'
    || c == '*' || c == '\'' || c == '(' || c == ')'
  }

  /** The UTF-8 bytes of one Unicode scalar value. */
  function Utf8(c: char): (bytes: seq<int>)
    ensures 1 <= |bytes| <= 4
    ensures forall k :: 0 <= k < |bytes| ==> 0 <= bytes[k] < 256
    ensures c as int < 0x80 ==> bytes == [c as int]
  {
    var n := c as int;
    if n < 0x80 then [n]
    else if n < 0x800 then [0xC0 + n / 64, 0x80 + n % 64]
    else if n < 0x10000 then [0xE0 + n / 4096, 0x80 + (n / 64) % 64, 0x80 + n % 64]
    else [0xF0 + n / 262144, 0x80 + (n / 4096) % 64, 0x80 + (n / 64) % 64, 0x80 + n % 64]
  }

  function Utf8String(s: string): seq<int> {
    if s == [] then [] else Utf8(s[0]) + Utf8String(s[1..])
  }

  function HexDigit(d: int): (c: char)
    requires 0 <= d < 16
  {
    if d < 10 then ('0' as int + d) as char else ('A' as int + d - 10) as char
  }

  lemma HexRoundTrip(d: int)
    requires 0 <= d < 16
    ensures IsHexDigit(HexDigit(d)) && HexValue(HexDigit(d)) == d
  {
  }

  /** `%XX` for each byte, with upper-case hexadecimal digits. */
  function PercentBytes(bytes: seq<int>): (r: string)
    requires forall k :: 0 <= k < |bytes| ==> 0 <= bytes[k] < 256
    ensures |r| == 3 * |bytes|
  {
    if bytes == [] then ""
    else ['%', HexDigit(bytes[0] / 16), HexDigit(bytes[0] % 16)] + PercentBytes(bytes[1..])
  }

  function EncodeChar(c: char): (r: string)
    ensures Unreserved(c) ==> r == [c]
    ensures !Unreserved(c) ==> |r| == 3 * |Utf8(c)|
  {
    if Unreserved(c) then [c] else PercentBytes(Utf8(c))
  }

  /** `encodeURIComponent(s)`. */
  function EncodeUriComponent(s: string): (r: string)
    ensures (forall k :: 0 <= k < |s| ==> Unreserved(s[k])) ==> r == s
  {
    if s == [] then "" else EncodeChar(s[0]) + EncodeUriComponent(s[1..])
  }

  /** Reads `%XX` escapes and plain ASCII characters back into bytes. */
  function PercentDecode(s: string): Option<seq<int>> {
    if s == [] then Some([])
    else if s[0] == '%' then
      if |s| >= 3 && IsHexDigit(s[1]) && IsHexDigit(s[2]) then
        match PercentDecode(s[3..])
        case Some(rest) => Some([16 * HexValue(s[1]) + HexValue(s[2])] + rest)
        case None => None
      else None
    else if (s[0] as int) < 0x80 then
      match PercentDecode(s[1..])
      case Some(rest) => Some([s[0] as int] + rest)
      case None => None
    else None
  }

  lemma DecodeEscape(b: int, tail: string, rest: seq<int>)
    requires 0 <= b < 256 && PercentDecode(tail) == Some(rest)
    ensures PercentDecode(['%', HexDigit(b / 16), HexDigit(b % 16)] + tail) == Some([b] + rest)
  {
    HexRoundTrip(b / 16);
    HexRoundTrip(b % 16);
    var s := ['%', HexDigit(b / 16), HexDigit(b % 16)] + tail;
    assert s[3..] == tail;
  }

  lemma {:induction false} DecodePercentBytes(bytes: seq<int>, tail: string, rest: seq<int>)
    requires forall k :: 0 <= k < |bytes| ==> 0 <= bytes[k] < 256
    requires PercentDecode(tail) == Some(rest)
    ensures PercentDecode(PercentBytes(bytes) + tail) == Some(bytes + rest)
  {
    hide PercentDecode, HexDigit;
    if bytes != [] {
      DecodePercentBytes(bytes[1..], tail, rest);
      var b := bytes[0];
      var t := PercentBytes(bytes[1..]) + tail;
      DecodeEscape(b, t, bytes[1..] + rest);
      assert PercentBytes(bytes) + tail == ['%', HexDigit(b / 16), HexDigit(b % 16)] + t;
      assert bytes + rest == [b] + (bytes[1..] + rest);
    } else {
      assert PercentBytes(bytes) + tail == tail && bytes + rest == rest;
    }
  }

  /** Decoding the escapes of `encodeURIComponent(s)` gives the UTF-8 bytes of `s`. */
  lemma {:induction false} EncodeUriComponentDecodes(s: string)
    ensures PercentDecode(EncodeUriComponent(s)) == Some(Utf8String(s))
  {
    if s != [] {
      EncodeUriComponentDecodes(s[1..]);
      var tail := EncodeUriComponent(s[1..]);
      if Unreserved(s[0]) {
        var e := [s[0]] + tail;
        assert e[1..] == tail;
      } else {
        DecodePercentBytes(Utf8(s[0]), tail, Utf8String(s[1..]));
      }
    }
  }

  /** Every character of an encoded string is unreserved or `%`. */
  lemma {:induction false} EncodeUriComponentAlphabet(s: string)
    ensures forall k :: 0 <= k < |EncodeUriComponent(s)| ==>
      Unreserved(EncodeUriComponent(s)[k]) || EncodeUriComponent(s)[k] == '%'
  {
    if s != [] {
      EncodeUriComponentAlphabet(s[1..]);
      PercentBytesAlphabet(Utf8(s[0]));
      var a := EncodeChar(s[0]);
      var b := EncodeUriComponent(s[1..]);
      forall k | 0 <= k < |a + b| ensures Unreserved((a + b)[k]) || (a + b)[k] == '%' {
        if k >= |a| {
          assert (a + b)[k] == b[k - |a|];
        }
      }
    }
  }

  lemma {:induction false} PercentBytesAlphabet(bytes: seq<int>)
    requires forall k :: 0 <= k < |bytes| ==> 0 <= bytes[k] < 256
    ensures forall k :: 0 <= k < |PercentBytes(bytes)| ==>
      Unreserved(PercentBytes(bytes)[k]) || PercentBytes(bytes)[k] == '%'
  {
    if bytes != [] {
      PercentBytesAlphabet(bytes[1..]);
      var h := ['%', HexDigit(bytes[0] / 16), HexDigit(bytes[0] % 16)];
      var t := PercentBytes(bytes[1..]);
      forall k | 0 <= k < |h + t| ensures Unreserved((h + t)[k]) || (h + t)[k] == '%' {
        if k >= 3 {
          assert (h + t)[k] == t[k - 3];
        }
      }
    }
  }

  // ---- avatar, icon and labels ------------------------------------------

  const AvatarBase := "https://api.dicebear.com/9.x/dylan/svg?seed="

  /** `getAvatarUrl(member)`: the stored image when set, otherwise an avatar
      seeded by the encoded nickname, or by the full name without one. */
  function AvatarUrl(m: Member): (url: string)
    ensures m.image.Some? && m.image.value != "" ==> url == m.image.value
    ensures !(m.image.Some? && m.image.value != "") && m.nickname != "" ==>
      url == AvatarBase + EncodeUriComponent(m.nickname)
    ensures !(m.image.Some? && m.image.value != "") && m.nickname == "" ==>
      url == AvatarBase + EncodeUriComponent(FullName(m))
  {
    if m.image.Some? && m.image.value != "" then m.image.value
    else AvatarBase + EncodeUriComponent(if m.nickname != "" then m.nickname else FullName(m))
  }

  /** A generated avatar URL names its seed unambiguously: the query value
      decodes to the UTF-8 bytes of the nickname or the full name. */
  lemma AvatarSeedDecodes(m: Member)
    requires !(m.image.Some? && m.image.value != "")
    ensures StartsWith(AvatarUrl(m), AvatarBase)
    ensures PercentDecode(AvatarUrl(m)[|AvatarBase|..])
      == Some(Utf8String(if m.nickname != "" then m.nickname else FullName(m)))
  {
    var seed := if m.nickname != "" then m.nickname else FullName(m);
    EncodeUriComponentDecodes(seed);
    assert AvatarUrl(m)[|AvatarBase|..] == EncodeUriComponent(seed);
  }

  /** `getSexIcon(sex)`. */
  function SexIcon(sex: string): (icon: string)
    ensures icon == "♂" <==> sex == "Male"
    ensures icon != "♂" ==> icon == "♀"
  {
    if sex == "Male" then "♂" else "♀"
  }

  const RelativeLabels: map<string, string> := map[
    "brother" := "Brother", "sister" := "Sister", "spouse" := "Spouse",
    "father" := "Father", "mother" := "Mother", "son" := "Son", "daughter" := "Daughter"]

  const FamilyRoleLabels: map<string, string> := map[
    "Father" := "Father", "Mother" := "Mother", "Spouse" := "Spouse", "Child" := "Child",
    "Son" := "Son", "Daughter" := "Daughter", "Brother" := "Brother", "Sister" := "Sister"]

  /** `labels[key] || key`. No label is empty, so the fallback is taken
      exactly for the keys the map does not hold. */
  function Lookup(labels: map<string, string>, key: string): (r: string)
    ensures key in labels && labels[key] != "" ==> r == labels[key]
    ensures key !in labels ==> r == key
  {
    if key in labels && labels[key] != "" then labels[key] else key
  }

  function RelativeLabel(relation: string): string {
    Lookup(RelativeLabels, relation)
  }

  function FamilyRoleLabel(role: string): string {
    Lookup(FamilyRoleLabels, role)
  }

  function UpperChar(c: char): char {
    if 'a' <= c <= 'z' then (c as int - 32) as char else c
  }

  /** A known relation is shown capitalised; any other is shown as given. */
  lemma RelativeLabelCapitalises(relation: string)
    ensures relation in RelativeLabels ==>
      relation != "" && RelativeLabel(relation) == [UpperChar(relation[0])] + relation[1..]
    ensures relation !in RelativeLabels ==> RelativeLabel(relation) == relation
  {
  }

  /** Every family-role label is the role itself: the lookup is the identity. */
  lemma FamilyRoleLabelIdentity(role: string)
    ensures FamilyRoleLabel(role) == role
  {
  }

  // ---- age --------------------------------------------------------------

  /** What `calculateAgeFromDate` returns: `undefined`, `NaN` or a number. */
  datatype AgeValue = Undefined | NotANumber | Years(years: int)

  /** Whole years from `birth` to `today`: the year difference, less one
      while this year's birthday is still ahead. */
  function AgeOn(birth: Date, today: Date): int {
    var age := today.year - birth.year;
    var monthDiff := today.month - birth.month;
    if monthDiff < 0 || (monthDiff == 0 && today.day < birth.day) then age - 1 else age
  }

  /** `calculateAgeFromDate(dateOfBirth)` with today's date passed in. */
  function CalculateAgeFromDate(dateOfBirth: string, today: Date): (r: AgeValue)
    ensures dateOfBirth == "" <==> r.Undefined?
    ensures r.NotANumber? <==> dateOfBirth != "" && ParseIsoDate(dateOfBirth).None?
    ensures r.Years? ==> r.years == AgeOn(ParseIsoDate(dateOfBirth).value, today)
  {
    if dateOfBirth == "" then Undefined
    else match ParseIsoDate(dateOfBirth)
      case None => NotANumber
      case Some(birth) => Years(AgeOn(birth, today))
  }

  /** Someone born no later than today has an age of at least zero. */
  lemma AgeNonNegative(birth: Date, today: Date)
    requires ValidDate(birth) && ValidDate(today) && DayNumber(birth) <= DayNumber(today)
    ensures AgeOn(birth, today) >= 0
  {
    DayNumberOrder(today, birth);
  }

  /** On each birthday the age goes up by exactly one. */
  lemma AgeIncrementsOnBirthday(birth: Date, year: int)
    requires ValidDate(birth) && ValidDate(Date(year, birth.month, birth.day))
    ensures AgeOn(birth, Date(year, birth.month, birth.day))
         == AgeOn(birth, PrevDay(Date(year, birth.month, birth.day))) + 1
    ensures AgeOn(birth, Date(year, birth.month, birth.day)) == year - birth.year
  {
  }
}
