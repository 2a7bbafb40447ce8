/** The CSV text format of the member export (src/utils/exportUtils.js):
    field quoting as in section 2 of RFC 4180 (rules 6 and 7), fields
    separated by `,` and records by `\n`, and a reader for that format,
    against which the writer is proved. */
module Csv {
  import opened Wrappers
  import opened Strings

  /** A field holding a comma, a double quote or a line feed must be quoted. */
  predicate NeedsQuoting(s: string) {
    ',' in s || '"' in s || '\n' in s
  }

  /** `s.replace(/"/g, '""')`: every double quote doubled. */
  function DoubleQuotes(s: string): (r: string)
    ensures |r| >= |s|
    ensures '"' !in s ==> r == s
  {
    if s == [] then []
    else if s[0] == '"' then "\"\"" + DoubleQuotes(s[1..])
    else [s[0]] + DoubleQuotes(s[1..])
  }

  /** The escaping of one value in `memberToCSVRow`. */
  function Escape(s: string): (r: string)
    ensures !NeedsQuoting(s) ==> r == s
    ensures NeedsQuoting(s) ==> |r| >= 2 && r[0] == '"' && r[|r| - 1] == '"'
  {
    if NeedsQuoting(s) then "\"" + DoubleQuotes(s) + "\"" else s
  }

  /** Each value escaped, in order. */
  function EscapeAll(values: seq<string>): (r: seq<string>)
    ensures |r| == |values|
  {
    if values == [] then [] else [Escape(values[0])] + EscapeAll(values[1..])
  }

  lemma {:induction false} EscapeAllSnoc(values: seq<string>, last: string)
    ensures EscapeAll(values + [last]) == EscapeAll(values) + [Escape(last)]
    decreases |values|
  {
    if values == [] {
      assert [] + [last] == [last];
    } else {
      assert (values + [last])[0] == values[0];
      assert (values + [last])[1..] == values[1..] + [last];
      EscapeAllSnoc(values[1..], last);
    }
  }

  /** Values none of which needs quoting are written as they are. */
  lemma {:induction false} EscapeAllPlain(values: seq<string>)
    requires forall k :: 0 <= k < |values| ==> !NeedsQuoting(values[k])
    ensures EscapeAll(values) == values
    decreases |values|
  {
    if values != [] {
      EscapeAllPlain(values[1..]);
    }
  }

  /** One record: the escaped values joined by commas. */
  function EncodeRecord(values: seq<string>): string {
    Join(EscapeAll(values), ",")
  }

  /** A whole text: the encoded records joined by line feeds. */
  function EncodeRecords(records: seq<seq<string>>): (r: seq<string>)
    ensures |r| == |records|
  {
    if records == [] then [] else [EncodeRecord(records[0])] + EncodeRecords(records[1..])
  }

  /** Line `i` of the text is the encoding of record `i`. */
  lemma {:induction false} EncodeRecordsAt(records: seq<seq<string>>, i: int)
    requires 0 <= i < |records|
    ensures EncodeRecords(records)[i] == EncodeRecord(records[i])
    decreases |records|
  {
    if i > 0 {
      EncodeRecordsAt(records[1..], i - 1);
    }
  }

  // The reader.

  /** The rest of a quoted field after its opening quote: the value and
      what follows the closing quote, or `None` when the quote never closes. */
  function ParseQuoted(s: string): (r: Option<(string, string)>)
    ensures r.Some? ==> |r.value.1| < |s|
    decreases |s|
  {
    if s == [] then None
    else if s[0] == '"' then
      if |s| > 1 && s[1] == '"' then
        var inner := ParseQuoted(s[2..]);
        if inner.None? then None else Some(("\"" + inner.value.0, inner.value.1))
      else Some(([], s[1..]))
    else
      var inner := ParseQuoted(s[1..]);
      if inner.None? then None else Some(([s[0]] + inner.value.0, inner.value.1))
  }

  /** An unquoted field: everything up to the next comma or line feed. */
  function ParseBare(s: string): (r: (string, string))
    ensures r.0 + r.1 == s
    ensures ',' !in r.0 && '\n' !in r.0
    ensures r.1 == [] || r.1[0] == ',' || r.1[0] == '\n'
  {
    if s == [] || s[0] == ',' || s[0] == '\n' then ([], s)
    else
      var inner := ParseBare(s[1..]);
      assert [s[0]] + inner.0 + inner.1 == s;
      ([s[0]] + inner.0, inner.1)
  }

  /** One field and the text after it. */
  function ParseField(s: string): (r: Option<(string, string)>)
    ensures r.Some? ==> |r.value.1| <= |s|
  {
    if s != [] && s[0] == '"' then ParseQuoted(s[1..]) else Some(ParseBare(s))
  }

  /** The records of `s`, the first of them starting with the fields
      `current`; `None` when a quoted field is not closed or is followed by
      something other than a separator. */
  function ParseRecords(s: string, current: seq<string>): Option<seq<seq<string>>>
    decreases |s|
  {
    var field := ParseField(s);
    if field.None? then None
    else
      var (value, rest) := field.value;
      if rest == [] then Some([current + [value]])
      else if rest[0] == ',' then ParseRecords(rest[1..], current + [value])
      else if rest[0] == '\n' then
        var more := ParseRecords(rest[1..], []);
        if more.None? then None else Some([current + [value]] + more.value)
      else None
  }

  /** The records of a CSV text. */
  function Parse(s: string): Option<seq<seq<string>>> {
    ParseRecords(s, [])
  }

  // The writer read back.

  /** A value that needs no quotes is read back as it is. */
  lemma {:induction false} BareRoundTrip(v: string, tail: string)
    requires !NeedsQuoting(v)
    requires tail == [] || tail[0] == ',' || tail[0] == '\n'
    ensures ParseBare(v + tail) == (v, tail)
    decreases |v|
  {
    if v != [] {
      assert (v + tail)[0] == v[0] && (v + tail)[1..] == v[1..] + tail;
      assert v[0] in v;
      assert !NeedsQuoting(v[1..]) by {
        forall c | c in v[1..] ensures c in v {
        }
      }
      BareRoundTrip(v[1..], tail);
      assert v[0] != ',' && v[0] != '\n';
      var s := v + tail;
      assert s != [] && s[0] != ',' && s[0] != '\n';
      assert ParseBare(s) == ([s[0]] + ParseBare(s[1..]).0, ParseBare(s[1..]).1);
      assert s[1..] == v[1..] + tail;
      assert ParseBare(s[1..]) == (v[1..], tail);
      assert [s[0]] + v[1..] == v;
    } else {
      assert v + tail == tail;
    }
  }

  /** A doubled-quote body followed by the closing quote is read back as
      the value. */
  lemma {:induction false} QuotedRoundTrip(v: string, tail: string)
    requires tail == [] || tail[0] != '"'
    ensures ParseQuoted(DoubleQuotes(v) + "\"" + tail) == Some((v, tail))
    decreases |v|
  {
    if v == [] {
      assert DoubleQuotes(v) + "\"" + tail == "\"" + tail;
      assert ("\"" + tail)[1..] == tail;
    } else {
      var t := DoubleQuotes(v[1..]) + "\"" + tail;
      QuotedRoundTrip(v[1..], tail);
      UnfoldDoubled(v, tail);
      ReadDoubled(v[0], t, v[1..], tail);
      assert [v[0]] + v[1..] == v;
    }
  }

  /** One character as it appears inside quotes. */
  function Doubled(c: char): string {
    if c == '"' then "\"\"" else [c]
  }

  lemma UnfoldDoubled(v: string, tail: string)
    requires v != []
    ensures DoubleQuotes(v) + "\"" + tail == Doubled(v[0]) + (DoubleQuotes(v[1..]) + "\"" + tail)
  {
    var r := DoubleQuotes(v[1..]);
    assert DoubleQuotes(v) == Doubled(v[0]) + r;
    Regroup(Doubled(v[0]), r, "\"", tail);
  }

  lemma Regroup(a: string, b: string, c: string, d: string)
    ensures a + b + c + d == a + (b + c + d)
  {
  }

  /** Reading a quoted character before the rest of a quoted field. */
  lemma ReadDoubled(c: char, t: string, w: string, tail: string)
    requires ParseQuoted(t) == Some((w, tail))
    ensures ParseQuoted(Doubled(c) + t) == Some(([c] + w, tail))
  {
    var s := Doubled(c) + t;
    if c == '"' {
      assert s[0] == '"' && s[1] == '"' && s[2..] == t;
    } else {
      assert s[0] == c && s[1..] == t;
    }
  }

  /** An escaped value followed by a separator or the end is read back as
      the value. */
  lemma FieldRoundTrip(v: string, tail: string)
    requires tail == [] || tail[0] == ',' || tail[0] == '\n'
    ensures ParseField(Escape(v) + tail) == Some((v, tail))
  {
    if NeedsQuoting(v) {
      var body := DoubleQuotes(v) + "\"" + tail;
      assert Escape(v) + tail == ['"'] + body;
      QuotedField(body);
      QuotedRoundTrip(v, tail);
    } else {
      BareRoundTrip(v, tail);
      BareField(v, tail);
    }
  }

  lemma QuotedField(body: string)
    ensures ParseField(['"'] + body) == ParseQuoted(body)
  {
    assert (['"'] + body)[1..] == body;
  }

  lemma BareField(v: string, tail: string)
    requires '"' !in v && (tail == [] || tail[0] != '"')
    ensures ParseField(v + tail) == Some(ParseBare(v + tail))
  {
    if v != [] {
      assert (v + tail)[0] == v[0] && v[0] in v;
    } else {
      assert v + tail == tail;
    }
  }

  /** Reading one encoded record that ends the text or a line. */
  lemma {:induction false} RecordRoundTrip(values: seq<string>, current: seq<string>, tail: string)
    requires |values| >= 1
    requires tail == [] || tail[0] == '\n'
    ensures ParseRecords(EncodeRecord(values) + tail, current)
      == if tail == [] then Some([current + values])
         else
           var more := ParseRecords(tail[1..], []);
           if more.None? then None else Some([current + values] + more.value)
    decreases |values|
  {
    hide ParseField, EncodeRecord, Escape;
    EncodeRecordCons(values);
    if |values| == 1 {
      FieldRoundTrip(values[0], tail);
      ReadField(Escape(values[0]) + tail, current, values[0], tail);
      assert current + [values[0]] == current + values;
    } else {
      var rest := values[1..];
      var after := EncodeRecord(rest) + tail;
      assert EncodeRecord(values) + tail == Escape(values[0]) + ("," + after);
      FieldRoundTrip(values[0], "," + after);
      ReadField(Escape(values[0]) + ("," + after), current, values[0], "," + after);
      assert ("," + after)[1..] == after;
      RecordRoundTrip(rest, current + [values[0]], tail);
      assert current + [values[0]] + rest == current + values;
    }
  }

  /** A record of one value is that value escaped; a longer one is its first
      value escaped, a comma and the record of the others. */
  lemma EncodeRecordCons(values: seq<string>)
    requires |values| >= 1
    ensures |values| == 1 ==> EncodeRecord(values) == Escape(values[0])
    ensures |values| >= 2 ==> EncodeRecord(values) == Escape(values[0]) + ("," + EncodeRecord(values[1..]))
  {
    var escaped := EscapeAll(values);
    assert escaped == [Escape(values[0])] + EscapeAll(values[1..]);
    if |values| >= 2 {
      JoinCons(Escape(values[0]), EscapeAll(values[1..]), ",");
    }
  }

  /** What the reader does after one field. */
  lemma ReadField(s: string, current: seq<string>, v: string, rest: string)
    requires ParseField(s) == Some((v, rest))
    ensures ParseRecords(s, current)
      == if rest == [] then Some([current + [v]])
         else if rest[0] == ',' then ParseRecords(rest[1..], current + [v])
         else if rest[0] == '\n' then
           var more := ParseRecords(rest[1..], []);
           if more.None? then None else Some([current + [v]] + more.value)
         else None
  {
  }

  /** Records with at least one field each, encoded and joined by line
      feeds, are read back as they were. */
  lemma {:induction false} RoundTrip(records: seq<seq<string>>)
    requires |records| >= 1
    requires forall k :: 0 <= k < |records| ==> |records[k]| >= 1
    ensures Parse(Join(EncodeRecords(records), "\n")) == Some(records)
    decreases |records|
  {
    if |records| == 1 {
      assert Join(EncodeRecords(records), "\n") == EncodeRecord(records[0]) + [];
      RecordRoundTrip(records[0], [], []);
      assert [] + records[0] == records[0];
      assert [records[0]] == records;
    } else {
      var rest := records[1..];
      var restText := Join(EncodeRecords(rest), "\n");
      JoinRecords(records);
      RecordRoundTrip(records[0], [], "\n" + restText);
      assert ("\n" + restText)[1..] == restText;
      RoundTrip(rest);
      assert [] + records[0] == records[0];
      assert [records[0]] + rest == records;
    }
  }

  /** The text of several records is the first record, a line feed and the
      text of the others. */
  lemma JoinRecords(records: seq<seq<string>>)
    requires |records| >= 2
    ensures Join(EncodeRecords(records), "\n")
      == EncodeRecord(records[0]) + ("\n" + Join(EncodeRecords(records[1..]), "\n"))
  {
    var lines := EncodeRecords(records);
    assert lines == [EncodeRecord(records[0])] + EncodeRecords(records[1..]);
    JoinCons(EncodeRecord(records[0]), EncodeRecords(records[1..]), "\n");
  }
}
