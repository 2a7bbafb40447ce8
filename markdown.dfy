/** The note renderer (src/utils/markdownUtils.js): a line-by-line
    conversion of simple markdown to HTML that keeps a stack of open lists
    and an "in table" flag. */
module Markdown {
  import opened Wrappers
  import opened Strings

  datatype ListKind = Ul | Ol

  /** An entry of `processedLines`; `Render` gives its exact text. */
  datatype Token =
    | ListOpen(kind: ListKind)
    | ListClose(kind: ListKind)
    | TableStart
    | TableEnd
    | RowStart
    | RowEnd
    | Cell(header: bool, text: string)
    | Heading(level: nat, text: string)
    | Rule
    | Item(text: string)
    | Paragraph(text: string)
    | Break

  const TableOpen := "<table class=\"min-w-full border-collapse border border-gray-300 dark:border-gray-600 my-4\">"
  const TableClose := "</table>"
  const HeaderCellOpen := "<th class=\"border border-gray-300 dark:border-gray-600 px-4 py-2 bg-gray-100 dark:bg-gray-700 font-semibold text-left\">"
  const DataCellOpen := "<td class=\"border border-gray-300 dark:border-gray-600 px-4 py-2\">"

  function Render(t: Token): string {
    match t
    case ListOpen(kind) => if kind == Ul then "<ul>" else "<ol>"
    case ListClose(kind) => if kind == Ul then "</ul>" else "</ol>"
    case TableStart => TableOpen
    case TableEnd => TableClose
    case RowStart => "<tr>"
    case RowEnd => "</tr>"
    case Cell(header, text) => if header then HeaderCellOpen + text + "</th>" else DataCellOpen + text + "</td>"
    case Heading(level, text) => "<h" + NatToString(level) + ">" + text + "</h" + NatToString(level) + ">"
    case Rule => "<hr>"
    case Item(text) => "<li>" + text + "</li>"
    case Paragraph(text) => "<p>" + text + "</p>"
    case Break => "<br>"
  }

  /** `processedLines.join('')`. */
  function Concat(out: seq<Token>): string {
    if out == [] then "" else Concat(out[..|out| - 1]) + Render(out[|out| - 1])
  }

  /** `line.match(/^(\s*)/)[1].length / 2`, rounded down: two spaces make
      one level. */
  function IndentLevel(line: string): (level: nat)
    ensures 2 * level <= LeadingWhitespace(line) < 2 * level + 2
  {
    LeadingWhitespace(line) / 2
  }

  /** No character that a regular-expression `.` refuses. */
  predicate NoLineBreak(s: string) {
    forall k :: 0 <= k < |s| ==> !IsLineTerminator(s[k])
  }

  /** On a trimmed line, `\s+(.+)$` from position `m`: white space, then
      at least one further character, none of them a line break. */
  predicate RestAfter(t: string, m: nat) {
    m < |t| && IsWhitespace(t[m]) && TrimStart(t[m..]) != [] && NoLineBreak(TrimStart(t[m..]))
  }

  /** `/^###\s+(.+)$/` and its two- and one-hash forms. */
  predicate HeadingMatch(t: string, marker: string) {
    |marker| <= |t| && t[..|marker|] == marker && RestAfter(t, |marker|)
  }

  /** `replace(/^#+\s+/, '')` for a marker of that many hashes. */
  function HeadingText(t: string, n: nat): string
    requires n <= |t|
  {
    TrimStart(t[n..])
  }

  /** `/^\|.+\|$/`. */
  predicate RowShape(t: string) {
    |t| >= 3 && t[0] == '|' && t[|t| - 1] == '|' && NoLineBreak(t[1..|t| - 1])
  }

  /** `/^\|[\s\-:]+\|$/`. */
  predicate SeparatorShape(t: string) {
    |t| >= 3 && t[0] == '|' && t[|t| - 1] == '|'
    && forall k :: 1 <= k < |t| - 1 ==> IsWhitespace(t[k]) || t[k] == '-' || t[k] == ':'
  }

  predicate IsTableRow(line: string) {
    RowShape(Trim(line)) && !SeparatorShape(Trim(line))
  }

  predicate IsTableSeparator(line: string) {
    SeparatorShape(Trim(line))
  }

  /** A separator line is never a row. */
  lemma SeparatorIsNoRow(line: string)
    ensures IsTableSeparator(line) ==> !IsTableRow(line)
  {
  }

  /** `/^[\*\-\+]\s+(.+)$/`. */
  predicate BulletMatch(t: string) {
    |t| > 0 && (t[0] == '*' || t[0] == '-' || t[0] == '+') && RestAfter(t, 1)
  }

  /** `/^(\d+)\.\s+(.+)$/`. */
  predicate NumberedMatch(t: string) {
    var d := DigitPrefix(t);
    d >= 1 && d < |t| && t[d] == '.' && RestAfter(t, d + 1)
  }

  /** The captured item text: what follows the marker and its white space. */
  function ItemText(t: string, m: nat): string
    requires m <= |t|
  {
    TrimStart(t[m..])
  }

  /** `trimmedLine.split('|').map(cell => cell.trim()).filter(cell => cell)`. */
  function Cells(t: string): seq<string> {
    NonEmptyOnly(TrimAll(Split(t, '|')))
  }

  /** `cells.forEach(cell => processedLines.push(...))`: one cell each. */
  function CellTokens(cells: seq<string>, header: bool): (r: seq<Token>)
    ensures |r| == |cells|
  {
    if cells == [] then [] else CellTokens(cells[..|cells| - 1], header) + [Cell(header, cells[|cells| - 1])]
  }

  /** Cell `k` of a row holds the `k`-th cell text. */
  lemma {:induction false} CellTokensAt(cells: seq<string>, header: bool, k: int)
    requires 0 <= k < |cells|
    ensures CellTokens(cells, header)[k] == Cell(header, cells[k])
    decreases |cells|
  {
    if k < |cells| - 1 {
      CellTokensAt(cells[..|cells| - 1], header, k);
    }
  }

  /** The row is a header row when the next line is a separator. */
  predicate HeaderRow(lines: seq<string>, i: int)
    requires 0 <= i < |lines|
  {
    i + 1 < |lines| && IsTableSeparator(Trim(lines[i + 1]))
  }

  /** What a trimmed line is, tried in the order the converter uses. */
  datatype LineForm =
    | HeadingLine(level: nat, text: string)
    | RowLine(cells: seq<string>)
    | SeparatorLine
    | RuleLine
    | BulletLine(text: string)
    | NumberedLine(text: string)
    | TextLine(text: string)
    | BlankLine

  function Classify(t: string): LineForm {
    if HeadingMatch(t, "###") then HeadingLine(3, HeadingText(t, 3))
    else if HeadingMatch(t, "##") then HeadingLine(2, HeadingText(t, 2))
    else if HeadingMatch(t, "#") then HeadingLine(1, HeadingText(t, 1))
    else if IsTableRow(t) then RowLine(Cells(t))
    else if IsTableSeparator(t) then SeparatorLine
    else if t == "---" then RuleLine
    else if BulletMatch(t) then BulletLine(ItemText(t, 1))
    else if NumberedMatch(t) then NumberedLine(ItemText(t, DigitPrefix(t) + 1))
    else if t != "" then TextLine(t)
    else BlankLine
  }

  /** Table rows and separators are classified as such, and nothing else is. */
  lemma ClassifyTable(t: string)
    requires t == Trim(t)
    ensures Classify(t).RowLine? <==> IsTableRow(t)
    ensures Classify(t).SeparatorLine? <==> IsTableSeparator(t)
  {
    if RowShape(t) || SeparatorShape(t) {
      NotHeading(t, "#");
      NotHeading(t, "##");
      NotHeading(t, "###");
    }
    SeparatorIsNoRow(t);
  }

  /** A line that starts with `|` is no heading. */
  lemma NotHeading(t: string, marker: string)
    requires |t| > 0 && t[0] == '|' && |marker| > 0 && marker[0] == '#'
    ensures !HeadingMatch(t, marker)
  {
    if |marker| <= |t| {
      assert t[..|marker|][0] == t[0];
    }
  }

  /** The tokens other than list and table brackets that a line of form
      `form` produces; `header` says whether a row is a header row. */
  function FormTokens(form: LineForm, header: bool): seq<Token> {
    match form
    case HeadingLine(level, text) => [Heading(level, text)]
    case RowLine(cells) => [RowStart] + CellTokens(cells, header) + [RowEnd]
    case SeparatorLine => []
    case RuleLine => [Rule]
    case BulletLine(text) => [Item(text)]
    case NumberedLine(text) => [Item(text)]
    case TextLine(text) => [Paragraph(text)]
    case BlankLine => [Break]
  }

  /** The tokens other than list and table brackets that line `i` produces. */
  function LineTokens(lines: seq<string>, i: int): seq<Token>
    requires 0 <= i < |lines|
  {
    FormTokens(Classify(Trim(lines[i])), HeaderRow(lines, i))
  }

  /** A heading swallows one blank line right after it. */
  function NextLine(lines: seq<string>, i: int): (j: int)
    requires 0 <= i < |lines|
    ensures i < j <= |lines|
  {
    if Classify(Trim(lines[i])).HeadingLine? && i + 1 < |lines| && Trim(lines[i + 1]) == "" then i + 2 else i + 1
  }

  /** The tokens other than list and table brackets of the whole text from
      line `i` on. */
  function Expected(lines: seq<string>, i: int): seq<Token>
    requires 0 <= i <= |lines|
    decreases |lines| - i
  {
    if i == |lines| then [] else LineTokens(lines, i) + Expected(lines, NextLine(lines, i))
  }

  /** Emitting the tokens of line `i` moves the rest of the expected output
      on to the next line. */
  lemma ExpectedStep(lines: seq<string>, i: int, before: seq<Token>, after: seq<Token>)
    requires 0 <= i < |lines| && after == before + LineTokens(lines, i)
    ensures after + Expected(lines, NextLine(lines, i)) == before + Expected(lines, i)
  {
    var tokens, rest := LineTokens(lines, i), Expected(lines, NextLine(lines, i));
    assert Expected(lines, i) == tokens + rest;
    Associative(before, tokens, rest);
  }

  lemma Associative(a: seq<Token>, b: seq<Token>, c: seq<Token>)
    ensures (a + b) + c == a + (b + c)
  {
  }

  /** The list and table brackets. */
  predicate IsBracket(t: Token) {
    t.ListOpen? || t.ListClose? || t.TableStart? || t.TableEnd?
  }

  /** The output without its list and table brackets. */
  function Content(out: seq<Token>): seq<Token> {
    if out == [] then [] else Content(out[..|out| - 1]) + (if IsBracket(out[|out| - 1]) then [] else [out[|out| - 1]])
  }

  /** The tokens that make up tables: their brackets, row brackets and cells. */
  predicate IsTableToken(t: Token) {
    t.TableStart? || t.TableEnd? || t.RowStart? || t.RowEnd? || t.Cell?
  }

  /** The output reduced to its table tokens. */
  function TableView(out: seq<Token>): seq<Token> {
    if out == [] then [] else TableView(out[..|out| - 1]) + (if IsTableToken(out[|out| - 1]) then [out[|out| - 1]] else [])
  }

  /** The table tokens of the text from line `i` on, `open` telling whether
      a table is open: a row opens a table unless one is open, a separator
      changes nothing, any other line closes an open table, and so does the
      end of the text. */
  function TableExpected(lines: seq<string>, i: int, open: bool): seq<Token>
    requires 0 <= i <= |lines|
    decreases |lines| - i
  {
    if i == |lines| then (if open then [TableEnd] else [])
    else
      var t := Trim(lines[i]);
      if IsTableRow(t) then (if open then [] else [TableStart]) + LineTokens(lines, i) + TableExpected(lines, NextLine(lines, i), true)
      else if IsTableSeparator(t) then TableExpected(lines, NextLine(lines, i), open)
      else (if open then [TableEnd] else []) + TableExpected(lines, NextLine(lines, i), false)
  }

  /** Row brackets and cells only: no table opens or closes. */
  predicate RowParts(s: seq<Token>) {
    forall k :: 0 <= k < |s| ==> s[k].RowStart? || s[k].RowEnd? || s[k].Cell?
  }

  /** A row line makes one row and moves on to the line after it. */
  lemma RowLineFacts(lines: seq<string>, i: int)
    requires 0 <= i < |lines| && IsTableRow(Trim(lines[i]))
    ensures NextLine(lines, i) == i + 1
    ensures RowParts(LineTokens(lines, i))
  {
    hide Classify, Trim, IsTableRow, IsTableSeparator, HeaderRow, FormTokens, RowParts;
    var t := Trim(lines[i]);
    TrimOfTrimmed(t);
    ClassifyTable(t);
    FormRowParts(Classify(t), HeaderRow(lines, i));
  }

  /** The tokens of a row are row brackets and cells. */
  lemma FormRowParts(form: LineForm, header: bool)
    requires form.RowLine?
    ensures RowParts(FormTokens(form, header))
  {
    var cells := CellTokens(form.cells, header);
    var r := FormTokens(form, header);
    assert r == [RowStart] + cells + [RowEnd];
    forall k | 0 <= k < |r| ensures r[k].RowStart? || r[k].RowEnd? || r[k].Cell? {
      if 0 < k <= |cells| {
        assert r[k] == cells[k - 1];
        CellTokensAt(form.cells, header, k - 1);
      }
    }
  }


  /** The row tokens of lines `a` up to `b`. */
  function RowTokens(lines: seq<string>, a: int, b: int): (r: seq<Token>)
    requires 0 <= a <= b <= |lines|
    requires forall k :: a <= k < b ==> IsTableRow(Trim(lines[k]))
    ensures RowParts(r)
    decreases b - a
  {
    hide LineTokens, Trim, IsTableRow, RowParts;
    if a == b then []
    else
      RowLineFacts(lines, a);
      RowPartsAppend(LineTokens(lines, a), RowTokens(lines, a + 1, b));
      LineTokens(lines, a) + RowTokens(lines, a + 1, b)
  }

  lemma RowPartsAppend(a: seq<Token>, b: seq<Token>)
    requires RowParts(a) && RowParts(b)
    ensures RowParts(a + b)
  {
    forall k | 0 <= k < |a + b| ensures (a + b)[k].RowStart? || (a + b)[k].RowEnd? || (a + b)[k].Cell? {
      if k >= |a| {
        assert (a + b)[k] == b[k - |a|];
      }
    }
  }

  /** A run of consecutive rows lies in one table: the table opens before
      the first row unless one is open already, and nothing closes it or
      opens another until the run ends. */
  lemma {:induction false} RowRun(lines: seq<string>, a: int, b: int, open: bool)
    requires 0 <= a <= b <= |lines|
    requires forall k :: a <= k < b ==> IsTableRow(Trim(lines[k]))
    ensures TableExpected(lines, a, open)
         == (if open || a == b then [] else [TableStart]) + RowTokens(lines, a, b) + TableExpected(lines, b, open || a < b)
    decreases b - a
  {
    hide LineTokens, NextLine, Trim, IsTableRow, IsTableSeparator, RowParts;
    if a < b {
      RowLineFacts(lines, a);
      RowRun(lines, a + 1, b, true);
      var head := if open then [] else [TableStart];
      var l, r, t := LineTokens(lines, a), RowTokens(lines, a + 1, b), TableExpected(lines, b, true);
      assert TableExpected(lines, a + 1, true) == r + t by {
        assert [] + r == r;
      }
      assert TableExpected(lines, a, open) == head + l + (r + t);
      assert RowTokens(lines, a, b) == l + r;
      Associative(head, l, r);
      Associative(head + l, r, t);
    }
  }

  function ListStep(stack: seq<ListKind>, t: Token): Option<seq<ListKind>> {
    match t
    case ListOpen(kind) => Some(stack + [kind])
    case ListClose(kind) => if stack != [] && stack[|stack| - 1] == kind then Some(stack[..|stack| - 1]) else None
    case Item(_) => if stack != [] then Some(stack) else None
    case _ => Some(stack)
  }

  /** The lists still open after reading `out`, or `None` when a closing
      tag does not match the innermost open list or an item stands outside
      every list. */
  function ListScan(out: seq<Token>): Option<seq<ListKind>> {
    if out == [] then Some([])
    else
      var before := ListScan(out[..|out| - 1]);
      if before.None? then None else ListStep(before.value, out[|out| - 1])
  }

  function TableStep(open: bool, t: Token): Option<bool> {
    match t
    case TableStart => if open then None else Some(true)
    case TableEnd => if open then Some(false) else None
    case RowStart => if open then Some(true) else None
    case RowEnd => if open then Some(true) else None
    case Cell(_, _) => if open then Some(true) else None
    case _ => Some(open)
  }

  /** Whether a table is open after reading `out`, or `None` when a table
      opens inside a table, closes outside one, or part of a row stands
      outside every table. */
  function TableScan(out: seq<Token>): Option<bool> {
    if out == [] then Some(false)
    else
      var before := TableScan(out[..|out| - 1]);
      if before.None? then None else TableStep(before.value, out[|out| - 1])
  }

  lemma Snoc(out: seq<Token>, t: Token)
    ensures ListScan(out + [t]) == (if ListScan(out).None? then None else ListStep(ListScan(out).value, t))
    ensures TableScan(out + [t]) == (if TableScan(out).None? then None else TableStep(TableScan(out).value, t))
    ensures Content(out + [t]) == Content(out) + (if IsBracket(t) then [] else [t])
    ensures TableView(out + [t]) == TableView(out) + (if IsTableToken(t) then [t] else [])
  {
    assert (out + [t])[..|out|] == out;
  }

  /** The closing tags for the lists of `stack`, innermost first. */
  function Closers(stack: seq<ListKind>): seq<Token> {
    if stack == [] then [] else [ListClose(stack[|stack| - 1])] + Closers(stack[..|stack| - 1])
  }

  /** `closeListsToLevel(targetLevel)`: pop and close lists until at most
      `targetLevel` remain. */
  method CloseListsToLevel(out0: seq<Token>, stack0: seq<ListKind>, targetLevel: nat)
      returns (out: seq<Token>, stack: seq<ListKind>)
    requires ListScan(out0) == Some(stack0)
    ensures stack == if |stack0| > targetLevel then stack0[..targetLevel] else stack0
    ensures out == out0 + Closers(stack0[|stack|..])
    ensures ListScan(out) == Some(stack) && TableScan(out) == TableScan(out0)
    ensures Content(out) == Content(out0) && TableView(out) == TableView(out0)
  {
    hide Content, ListScan, TableScan, TableView;
    out, stack := out0, stack0;
    while |stack| > targetLevel
      invariant |stack| <= |stack0| && stack == stack0[..|stack|]
      invariant |stack| >= targetLevel || stack == stack0
      invariant out == out0 + Closers(stack0[|stack|..])
      invariant ListScan(out) == Some(stack) && TableScan(out) == TableScan(out0)
      invariant Content(out) == Content(out0) && TableView(out) == TableView(out0)
    {
      var list := stack[|stack| - 1];
      Snoc(out, ListClose(list));
      ghost var closed := stack0[|stack|..];
      stack := stack[..|stack| - 1];
      out := out + [ListClose(list)];
      assert stack0[|stack|..] == [list] + closed;
      ClosersCons(list, closed);
    }
  }

  lemma {:induction false} ClosersCons(kind: ListKind, rest: seq<ListKind>)
    ensures Closers([kind] + rest) == Closers(rest) + [ListClose(kind)]
    decreases |rest|
  {
    if rest != [] {
      var s := [kind] + rest;
      assert s[..|s| - 1] == [kind] + rest[..|rest| - 1];
      ClosersCons(kind, rest[..|rest| - 1]);
    }
  }

  function Repeat(kind: ListKind, n: nat): (r: seq<ListKind>)
    ensures |r| == n && forall k :: 0 <= k < n ==> r[k] == kind
  {
    if n == 0 then [] else Repeat(kind, n - 1) + [kind]
  }

  /** The `while (listStack.length < indentLevel + 1)` loop: open lists of
      one kind until the item's level exists. */
  method OpenListsToLevel(out0: seq<Token>, stack0: seq<ListKind>, level: nat, kind: ListKind)
      returns (out: seq<Token>, stack: seq<ListKind>)
    requires ListScan(out0) == Some(stack0) && |stack0| <= level + 1
    ensures stack == stack0 + Repeat(kind, level + 1 - |stack0|)
    ensures ListScan(out) == Some(stack) && TableScan(out) == TableScan(out0)
    ensures Content(out) == Content(out0) && TableView(out) == TableView(out0)
  {
    out, stack := out0, stack0;
    while |stack| < level + 1
      invariant |stack0| <= |stack| <= level + 1
      invariant stack == stack0 + Repeat(kind, |stack| - |stack0|)
      invariant ListScan(out) == Some(stack) && TableScan(out) == TableScan(out0)
      invariant Content(out) == Content(out0) && TableView(out) == TableView(out0)
    {
      Snoc(out, ListOpen(kind));
      stack := stack + [kind];
      out := out + [ListOpen(kind)];
    }
  }

  /** A list item at `level`: close the deeper lists, open the missing ones,
      emit the item. Afterwards exactly `level + 1` lists are open. */
  method ListItem(out0: seq<Token>, stack0: seq<ListKind>, level: nat, kind: ListKind, text: string)
      returns (out: seq<Token>, stack: seq<ListKind>)
    requires ListScan(out0) == Some(stack0)
    ensures |stack| == level + 1
    ensures var kept := if |stack0| > level then level else |stack0|;
      stack == stack0[..kept] + Repeat(kind, level + 1 - kept)
    ensures ListScan(out) == Some(stack) && TableScan(out) == TableScan(out0)
    ensures Content(out) == Content(out0) + [Item(text)]
    ensures TableView(out) == TableView(out0)
  {
    out, stack := CloseListsToLevel(out0, stack0, level);
    out, stack := OpenListsToLevel(out, stack, level, kind);
    Snoc(out, Item(text));
    out := out + [Item(text)];
  }

  /** A table row: `<tr>`, one cell per non-empty cell text, `</tr>`. */
  method TableRow(out0: seq<Token>, cells: seq<string>, header: bool) returns (out: seq<Token>)
    requires TableScan(out0) == Some(true)
    ensures out == out0 + ([RowStart] + CellTokens(cells, header) + [RowEnd])
    ensures ListScan(out) == ListScan(out0) && TableScan(out) == Some(true)
    ensures Content(out) == Content(out0) + ([RowStart] + CellTokens(cells, header) + [RowEnd])
    ensures TableView(out) == TableView(out0) + ([RowStart] + CellTokens(cells, header) + [RowEnd])
  {
    hide Content, ListScan, TableScan, TableView, CellTokens;
    Snoc(out0, RowStart);
    out := out0 + [RowStart];
    ghost var start, view := Content(out), TableView(out);
    for k := 0 to |cells|
      invariant out == out0 + [RowStart] + CellTokens(cells[..k], header)
      invariant ListScan(out) == ListScan(out0) && TableScan(out) == Some(true)
      invariant Content(out) == start + CellTokens(cells[..k], header)
      invariant TableView(out) == view + CellTokens(cells[..k], header)
    {
      var cell := Cell(header, cells[k]);
      Snoc(out, cell);
      CellTokensSnoc(cells, k, header);
      out := out + [cell];
    }
    assert cells[..|cells|] == cells;
    Snoc(out, RowEnd);
    out := out + [RowEnd];
  }

  lemma CellTokensSnoc(cells: seq<string>, k: int, header: bool)
    requires 0 <= k < |cells|
    ensures CellTokens(cells[..k + 1], header) == CellTokens(cells[..k], header) + [Cell(header, cells[k])]
  {
    assert cells[..k + 1][..k] == cells[..k];
  }

  /** A row line: open the table unless it is open, then the row. */
  method EmitRow(out0: seq<Token>, inTable0: bool, cells: seq<string>, header: bool) returns (out: seq<Token>)
    requires TableScan(out0) == Some(inTable0)
    ensures out == out0 + (if inTable0 then [] else [TableStart]) + FormTokens(RowLine(cells), header)
    ensures ListScan(out) == ListScan(out0) && TableScan(out) == Some(true)
    ensures Content(out) == Content(out0) + FormTokens(RowLine(cells), header)
    ensures TableView(out) == TableView(out0) + (if inTable0 then [] else [TableStart]) + FormTokens(RowLine(cells), header)
  {
    ghost var row := FormTokens(RowLine(cells), header);
    assert row == [RowStart] + CellTokens(cells, header) + [RowEnd];
    ghost var head: seq<Token> := if inTable0 then [] else [TableStart];
    OpenTable(out0, inTable0);
    hide Content, ListScan, TableScan, TableView, CellTokens, FormTokens, TableStep, ListStep;
    var started := if inTable0 then out0 else out0 + [TableStart];
    out := TableRow(started, cells, header);
    assert out == out0 + head + row;
  }

  /** Opening the table that is not open yet. */
  lemma OpenTable(out0: seq<Token>, inTable0: bool)
    requires TableScan(out0) == Some(inTable0)
    ensures var started := if inTable0 then out0 else out0 + [TableStart];
      && ListScan(started) == ListScan(out0) && TableScan(started) == Some(true)
      && Content(started) == Content(out0)
      && TableView(started) == TableView(out0) + (if inTable0 then [] else [TableStart])
  {
    Snoc(out0, TableStart);
  }

  /** The emitting part of one turn of the line loop, for a line already
      classified as `form`. */
  method EmitLine(out0: seq<Token>, stack0: seq<ListKind>, inTable0: bool,
                  form: LineForm, header: bool, indentLevel: nat)
      returns (out: seq<Token>, listStack: seq<ListKind>, inTable: bool)
    requires ListScan(out0) == Some(stack0) && TableScan(out0) == Some(inTable0)
    ensures ListScan(out) == Some(listStack) && TableScan(out) == Some(inTable)
    ensures Content(out) == Content(out0) + FormTokens(form, header)
    ensures TableView(out) == TableView(out0)
      + (if form.RowLine? then (if inTable0 then [] else [TableStart]) + FormTokens(form, header) else [])
    ensures form.RowLine? ==> out == out0 + (if inTable0 then [] else [TableStart]) + FormTokens(form, header)
    ensures form.SeparatorLine? ==> out == out0
    ensures form.HeadingLine? || form.RuleLine? || form.TextLine? ==> listStack == []
    ensures form.RowLine? || form.SeparatorLine? || form.BlankLine? ==> listStack == stack0
    ensures form.BulletLine? || form.NumberedLine? ==> |listStack| == indentLevel + 1
    ensures inTable == (form.RowLine? || inTable0)
  {
    // The contracts of the emitting steps carry the proof.
    hide Content, ListScan, TableScan, TableView, CellTokens;
    out, listStack, inTable := out0, stack0, inTable0;
    match form
    case HeadingLine(level, text) =>
      out, listStack := CloseListsToLevel(out, listStack, 0);
      Snoc(out, Heading(level, text));
      out := out + [Heading(level, text)];
    case RowLine(cells) =>
      out := EmitRow(out, inTable, cells, header);
      inTable := true;
    case SeparatorLine =>
    case RuleLine =>
      out, listStack := CloseListsToLevel(out, listStack, 0);
      Snoc(out, Rule);
      out := out + [Rule];
    case BulletLine(text) =>
      out, listStack := ListItem(out, listStack, indentLevel, Ul, text);
    case NumberedLine(text) =>
      out, listStack := ListItem(out, listStack, indentLevel, Ol, text);
    case TextLine(text) =>
      out, listStack := CloseListsToLevel(out, listStack, 0);
      Snoc(out, Paragraph(text));
      out := out + [Paragraph(text)];
    case BlankLine =>
      Snoc(out, Break);
      out := out + [Break];
  }

  /** A table that is open ends unless the line is part of it. */
  method EndTableUnless(out0: seq<Token>, inTable0: bool, tableLine: bool) returns (out: seq<Token>, inTable: bool)
    requires TableScan(out0) == Some(inTable0)
    ensures inTable == (inTable0 && tableLine)
    ensures out == if inTable0 && !tableLine then out0 + [TableEnd] else out0
    ensures ListScan(out) == ListScan(out0) && TableScan(out) == Some(inTable)
    ensures Content(out) == Content(out0)
    ensures TableView(out) == TableView(out0) + (if inTable0 && !tableLine then [TableEnd] else [])
  {
    out, inTable := out0, inTable0;
    if inTable && !tableLine {
      Snoc(out, TableEnd);
      out := out + [TableEnd];
      inTable := false;
    }
  }

  /** One turn of the line loop of `markdownToHtml`: close the table when
      the line is no table line, then emit the line; returns the index of
      the next line to read. */
  method ProcessLine(lines: seq<string>, i: int, out0: seq<Token>, stack0: seq<ListKind>, inTable0: bool)
      returns (out: seq<Token>, listStack: seq<ListKind>, inTable: bool, next: int)
    requires 0 <= i < |lines|
    requires ListScan(out0) == Some(stack0) && TableScan(out0) == Some(inTable0)
    ensures ListScan(out) == Some(listStack) && TableScan(out) == Some(inTable)
    ensures Content(out) == Content(out0) + LineTokens(lines, i)
    ensures next == NextLine(lines, i)
    ensures Content(out) + Expected(lines, next) == Content(out0) + Expected(lines, i)
    ensures TableView(out) + TableExpected(lines, next, inTable) == TableView(out0) + TableExpected(lines, i, inTable0)
    ensures IsTableRow(Trim(lines[i])) ==> out == out0 + (if inTable0 then [] else [TableStart]) + LineTokens(lines, i)
    ensures IsTableSeparator(Trim(lines[i])) ==> out == out0
    ensures var form := Classify(Trim(lines[i]));
      && (form.HeadingLine? || form.RuleLine? || form.TextLine? ==> listStack == [])
      && (form.SeparatorLine? || form.BlankLine? ==> listStack == stack0)
      && (form.BulletLine? || form.NumberedLine? ==> |listStack| == IndentLevel(lines[i]) + 1)
    ensures inTable == (IsTableRow(Trim(lines[i])) || (inTable0 && IsTableSeparator(Trim(lines[i]))))
  {
    out, listStack, inTable := out0, stack0, inTable0;
    var line := lines[i];
    var trimmedLine := Trim(line);
    out, inTable := EndTableUnless(out, inTable, IsTableRow(trimmedLine) || IsTableSeparator(trimmedLine));
    var form := Classify(trimmedLine);
    ClassifyTable(trimmedLine);
    var isHeaderRow := i + 1 < |lines| && IsTableSeparator(Trim(lines[i + 1]));
    out, listStack, inTable := EmitLine(out, listStack, inTable, form, isHeaderRow, IndentLevel(line));
    next := if form.HeadingLine? && i + 1 < |lines| && Trim(lines[i + 1]) == "" then i + 2 else i + 1;
    ExpectedStep(lines, i, Content(out0), Content(out));
    TableExpectedStep(lines, i, inTable0, TableView(out0), TableView(out));
  }

  /** Emitting the table tokens of line `i` moves the rest of the expected
      table tokens on to the next line. */
  lemma TableExpectedStep(lines: seq<string>, i: int, open: bool, before: seq<Token>, after: seq<Token>)
    requires 0 <= i < |lines|
    requires var t := Trim(lines[i]);
      after == before
        + (if open && !(IsTableRow(t) || IsTableSeparator(t)) then [TableEnd] else [])
        + (if IsTableRow(t) then (if open then [] else [TableStart]) + LineTokens(lines, i) else [])
    ensures var t := Trim(lines[i]);
      after + TableExpected(lines, NextLine(lines, i), IsTableRow(t) || (open && IsTableSeparator(t)))
        == before + TableExpected(lines, i, open)
  {
    hide LineTokens, NextLine, Trim, IsTableRow, IsTableSeparator;
    var t := Trim(lines[i]);
    var next := NextLine(lines, i);
    if IsTableRow(t) {
      var head := (if open then [] else [TableStart]) + LineTokens(lines, i);
      assert after == before + head;
      assert TableExpected(lines, i, open) == head + TableExpected(lines, next, true);
      Associative(before, head, TableExpected(lines, next, true));
    } else if IsTableSeparator(t) {
      assert after == before;
    } else {
      var head := if open then [TableEnd] else [];
      assert after == before + head;
      Associative(before, head, TableExpected(lines, next, false));
    }
  }

  /** The line loop of `markdownToHtml`, then the closing of the lists and
      the table still open: list tags balance and match, tables open and
      close in turn, and the rest of the output is what the lines say. */
  method RenderLines(lines: seq<string>) returns (out: seq<Token>)
    ensures ListScan(out) == Some([])
    ensures TableScan(out) == Some(false)
    ensures Content(out) == Expected(lines, 0)
    ensures TableView(out) == TableExpected(lines, 0, false)
  {
    ExpectedEnd(lines);
    EmptyOutput();
    hide Content, TableView, ListScan, TableScan, Expected, TableExpected;
    out := [];
    var listStack: seq<ListKind> := [];
    var inTable := false;
    var i := 0;
    while i < |lines|
      invariant 0 <= i <= |lines|
      invariant ListScan(out) == Some(listStack) && TableScan(out) == Some(inTable)
      invariant Content(out) + Expected(lines, i) == Expected(lines, 0)
      invariant TableView(out) + TableExpected(lines, i, inTable) == TableExpected(lines, 0, false)
      decreases |lines| - i
    {
      out, listStack, inTable, i := ProcessLine(lines, i, out, listStack, inTable);
    }
    out, listStack := CloseListsToLevel(out, listStack, 0);
    if inTable {
      Snoc(out, TableEnd);
      out := out + [TableEnd];
    }
  }

  /** At the end of the text nothing more is expected but closing an open table. */
  lemma ExpectedEnd(lines: seq<string>)
    ensures Expected(lines, |lines|) == []
    ensures TableExpected(lines, |lines|, true) == [TableEnd] && TableExpected(lines, |lines|, false) == []
  {
  }

  lemma EmptyOutput()
    ensures Content([]) == [] && TableView([]) == [] && ListScan([]) == Some([]) && TableScan([]) == Some(false)
  {
  }

  /** `markdownToHtml`: empty notes give the empty string, notes that hold
      both `<` and `>` are taken as HTML and returned as they are, and all
      other notes are rendered line by line and then passed through the
      inline-emphasis rewriting `inline`. */
  method MarkdownToHtml(markdown: string, inline: string -> string) returns (html: string, ghost out: seq<Token>)
    ensures markdown == [] ==> html == []
    ensures markdown != [] && '<' in markdown && '>' in markdown ==> html == markdown
    ensures markdown != [] && !('<' in markdown && '>' in markdown) ==>
      && html == inline(Concat(out))
      && ListScan(out) == Some([]) && TableScan(out) == Some(false)
      && Content(out) == Expected(Split(markdown, '\n'), 0)
      && TableView(out) == TableExpected(Split(markdown, '\n'), 0, false)
  {
    out := [];
    if markdown == [] {
      return [], out;
    }
    if '<' in markdown && '>' in markdown {
      return markdown, out;
    }
    var lines := Split(markdown, '\n');
    var tokens := RenderLines(lines);
    out := tokens;
    html := inline(Concat(tokens));
  }
}
