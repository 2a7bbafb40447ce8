/** The offline minutes formatter (src/utils/minutesEnhancer.js): the note
    lines are sorted into decisions, action items, key points and
    discussion by keyword cues, and fixed HTML sections are written for
    them, with a short summary on top. */
module Minutes {
  import opened Wrappers
  import opened Strings
  import opened Seqs

  // The lines.

  /** `lines.map(line => line.trim()).filter(line => line.length > 0)`. */
  function CleanLines(parts: seq<string>): seq<string> {
    NonEmptyOnly(TrimAll(parts))
  }

  /** The lines `enhanceMinutesWithSimpleModel` works on: those of the
      trimmed notes, split on line feeds. */
  function NoteLines(rawNotes: string): seq<string> {
    CleanLines(Split(Trim(rawNotes), '\n'))
  }

  predicate NonBlank(s: string) {
    s != ""
  }

  function NonBlankTest(): string -> bool {
    (s: string) => NonBlank(s)
  }

  lemma {:induction false} NonEmptyOnlyIsFilter(parts: seq<string>)
    ensures NonEmptyOnly(parts) == Filter(parts, NonBlankTest())
    decreases |parts|
  {
    if parts != [] {
      NonEmptyOnlyIsFilter(parts[1..]);
    }
  }

  lemma TrimTwice(s: string)
    ensures Trim(Trim(s)) == Trim(s)
  {
    TrimOfTrimmed(Trim(s));
  }

  /** The processed lines are non-empty and trimmed; they are the trimmed
      input lines that are not blank, in their order. */
  lemma CleanLinesShape(parts: seq<string>)
    ensures forall k :: 0 <= k < |CleanLines(parts)| ==>
      CleanLines(parts)[k] != "" && Trim(CleanLines(parts)[k]) == CleanLines(parts)[k]
    ensures IsSubsequence(CleanLines(parts), TrimAll(parts))
    ensures forall line :: line in CleanLines(parts) <==>
      line != "" && exists k :: 0 <= k < |parts| && Trim(parts[k]) == line
  {
    hide Trim, ToLower;
    LinesTrimmed(parts);
    NonEmptyOnlyIsFilter(TrimAll(parts));
    FilterIsSubsequence(TrimAll(parts), NonBlankTest());
    LinesMembers(parts);
  }

  lemma LinesTrimmed(parts: seq<string>)
    ensures var lines := NonEmptyOnly(TrimAll(parts));
      forall k :: 0 <= k < |lines| ==> lines[k] != "" && Trim(lines[k]) == lines[k]
  {
    hide Trim, ToLower;
    var trimmed := TrimAll(parts);
    var lines := NonEmptyOnly(trimmed);
    forall k | 0 <= k < |lines| ensures lines[k] != "" && Trim(lines[k]) == lines[k] {
      assert lines[k] in trimmed;
      var j :| 0 <= j < |trimmed| && trimmed[j] == lines[k];
      var t := parts[j];
      assert lines[k] == Trim(t);
      TrimTwice(t);
    }
  }

  lemma LinesMembers(parts: seq<string>)
    ensures forall line :: line in NonEmptyOnly(TrimAll(parts)) <==>
      line != "" && exists k :: 0 <= k < |parts| && Trim(parts[k]) == line
  {
    hide Trim, ToLower;
    var trimmed := TrimAll(parts);
    var lines := NonEmptyOnly(trimmed);
    forall line ensures line in lines <==> line != "" && exists k :: 0 <= k < |parts| && Trim(parts[k]) == line {
      if line != "" && exists k :: 0 <= k < |parts| && Trim(parts[k]) == line {
        var k :| 0 <= k < |parts| && Trim(parts[k]) == line;
        assert trimmed[k] == line;
      }
      if line in lines {
        var j :| 0 <= j < |trimmed| && trimmed[j] == line;
        assert Trim(parts[j]) == line;
      }
    }
  }

  // The cues.

  /** Some word of `words` occurs in `s`. */
  predicate ContainsAny(s: string, words: seq<string>) {
    exists k :: 0 <= k < |words| && Contains(s, words[k])
  }

  /** `/follow.?up/`: "follow", at most one character other than a line
      terminator, then "up". */
  predicate FollowUp(s: string) {
    Contains(s, "followup")
    || exists i :: 0 <= i && i + 9 <= |s| && OccursAt(s, "follow", i) && !IsLineTerminator(s[i + 6]) && OccursAt(s, "up", i + 7)
  }

  /** `/^\d+[\.\)]/`: digits, then a full stop or a closing parenthesis. */
  predicate NumberedStart(s: string) {
    var n := DigitPrefix(s);
    0 < n < |s| && (s[n] == '.' || s[n] == ')')
  }

  predicate DecisionCue(lower: string) {
    ContainsAny(lower, ["decided", "decision", "agreed", "approved", "resolved", "concluded"])
    || StartsWith(lower, "decision:") || StartsWith(lower, "decided:")
  }

  predicate ActionCue(lower: string) {
    ContainsAny(lower, ["action", "todo", "task", "assign", "next step", "will do", "need to"])
    || FollowUp(lower)
    || StartsWith(lower, "-") || StartsWith(lower, "\U{2022}")
    || NumberedStart(lower) || Contains(lower, "@") || Contains(lower, "due:")
  }

  predicate KeyPointCue(lower: string) {
    ContainsAny(lower, ["important", "key", "note", "remember", "highlight", "question", "asked"])
    || Contains(lower, "?") || |lower| > 100
  }

  // The buckets.

  datatype Bucket = Decision | Action | KeyPoint | Discussion

  /** The place of a bucket in the order its cue is tried. */
  function Rank(b: Bucket): nat {
    match b
    case Decision => 0
    case Action => 1
    case KeyPoint => 2
    case Discussion => 3
  }

  /** The cue of a bucket; discussion takes everything. */
  predicate Matches(b: Bucket, lower: string) {
    match b
    case Decision => DecisionCue(lower)
    case Action => ActionCue(lower)
    case KeyPoint => KeyPointCue(lower)
    case Discussion => true
  }

  /** The bucket the loop of `enhanceMinutesWithSimpleModel` pushes a line into. */
  function BucketOf(line: string): Bucket {
    var lower := ToLower(line);
    if DecisionCue(lower) then Decision
    else if ActionCue(lower) then Action
    else if KeyPointCue(lower) then KeyPoint
    else Discussion
  }

  /** A line goes to the first bucket, in the order decision, action, key
      point, discussion, whose cue its lower-cased text shows. */
  lemma BucketIsFirstMatch(line: string)
    ensures Matches(BucketOf(line), ToLower(line))
    ensures forall b :: Rank(b) < Rank(BucketOf(line)) ==> !Matches(b, ToLower(line))
  {
  }

  /** The test of membership in bucket `b` under the classification `cls`. */
  function InClass(cls: string -> Bucket, b: Bucket): string -> bool {
    (line: string) => cls(line) == b
  }

  function InBucket(b: Bucket): string -> bool {
    InClass(BucketOf, b)
  }

  /** The lines of one bucket, in their order. */
  function Bucketed(lines: seq<string>, b: Bucket): seq<string> {
    Filter(lines, InBucket(b))
  }

  lemma BucketedSnoc(lines: seq<string>, k: int)
    requires 0 <= k < |lines|
    ensures forall b :: (Bucketed(lines[..k + 1], b)
      == Bucketed(lines[..k], b) + (if BucketOf(lines[k]) == b then [lines[k]] else []))
  {
    forall b ensures Bucketed(lines[..k + 1], b)
      == Bucketed(lines[..k], b) + (if BucketOf(lines[k]) == b then [lines[k]] else [])
    {
      FilterPrefixSnoc(lines, k, InBucket(b));
    }
  }

  /** The `forEach` over the lines: each line pushed onto the array of its bucket. */
  method SortLines(lines: seq<string>)
    returns (decisions: seq<string>, actionItems: seq<string>, discussion: seq<string>, keyPoints: seq<string>)
    ensures decisions == Bucketed(lines, Decision)
    ensures actionItems == Bucketed(lines, Action)
    ensures discussion == Bucketed(lines, Discussion)
    ensures keyPoints == Bucketed(lines, KeyPoint)
  {
    decisions, actionItems, discussion, keyPoints := [], [], [], [];
    for k := 0 to |lines|
      invariant decisions == Bucketed(lines[..k], Decision)
      invariant actionItems == Bucketed(lines[..k], Action)
      invariant discussion == Bucketed(lines[..k], Discussion)
      invariant keyPoints == Bucketed(lines[..k], KeyPoint)
    {
      var line := lines[k];
      BucketedSnoc(lines, k);
      var lowerLine := ToLower(line);
      if DecisionCue(lowerLine) {
        decisions := decisions + [line];
      } else if ActionCue(lowerLine) {
        actionItems := actionItems + [line];
      } else if KeyPointCue(lowerLine) {
        keyPoints := keyPoints + [line];
      } else {
        discussion := discussion + [line];
      }
    }
    assert lines[..|lines|] == lines;
  }

  /** The four buckets together hold every line exactly as often as the
      input does. */
  lemma BucketsPartition(lines: seq<string>)
    ensures multiset(Bucketed(lines, Decision)) + multiset(Bucketed(lines, Action))
      + multiset(Bucketed(lines, KeyPoint)) + multiset(Bucketed(lines, Discussion))
      == multiset(lines)
  {
    ClassPartition(lines, BucketOf);
  }

  lemma {:induction false} ClassPartition(lines: seq<string>, cls: string -> Bucket)
    ensures multiset(Filter(lines, InClass(cls, Decision))) + multiset(Filter(lines, InClass(cls, Action)))
      + multiset(Filter(lines, InClass(cls, KeyPoint))) + multiset(Filter(lines, InClass(cls, Discussion)))
      == multiset(lines)
    decreases |lines|
  {
    if lines != [] {
      var x, rest := lines[0], lines[1..];
      ClassPartition(rest, cls);
      assert multiset(lines) == multiset{x} + multiset(rest) by {
        assert lines == [x] + rest;
      }
      var d := ClassHead(lines, cls, Decision);
      var a := ClassHead(lines, cls, Action);
      var k := ClassHead(lines, cls, KeyPoint);
      var o := ClassHead(lines, cls, Discussion);
      AddToOne(x, cls(x), d, a, k, o);
    }
  }

  /** Adding `x` to the part of one bucket adds it to the sum. */
  lemma AddToOne(x: string, c: Bucket, d: multiset<string>, a: multiset<string>, k: multiset<string>, o: multiset<string>)
    ensures ((if c == Decision then multiset{x} else multiset{}) + d)
      + ((if c == Action then multiset{x} else multiset{}) + a)
      + ((if c == KeyPoint then multiset{x} else multiset{}) + k)
      + ((if c == Discussion then multiset{x} else multiset{}) + o)
      == multiset{x} + (d + a + k + o)
  {
  }

  /** The lines of class `b`: the first line when it is of that class, then
      those of the rest. Returns the multiset of the rest's lines of class `b`. */
  lemma ClassHead(lines: seq<string>, cls: string -> Bucket, b: Bucket) returns (part: multiset<string>)
    requires lines != []
    ensures part == multiset(Filter(lines[1..], InClass(cls, b)))
    ensures multiset(Filter(lines, InClass(cls, b))) == (if cls(lines[0]) == b then multiset{lines[0]} else multiset{}) + part
  {
    part := multiset(Filter(lines[1..], InClass(cls, b)));
  }

  /** A line of the input is in its own bucket and in no other. */
  lemma OneBucket(lines: seq<string>, line: string)
    requires line in lines
    ensures line in Bucketed(lines, BucketOf(line))
    ensures forall b :: b != BucketOf(line) ==> line !in Bucketed(lines, b)
  {
    FilterMembership(lines, InBucket(BucketOf(line)), line);
    forall b | b != BucketOf(line) ensures line !in Bucketed(lines, b) {
      FilterMembership(lines, InBucket(b), line);
    }
  }

  // Cleaning the points.

  predicate IsBullet(c: char) {
    c == '-' || c == '\U{2022}' || c == '*'
  }

  /** A leading `-`, `•` or `*` and the white space after it, removed. */
  function StripBullet(s: string): (r: string)
    ensures |r| <= |s| && r == s[|s| - |r|..]
    ensures !(s != [] && IsBullet(s[0])) ==> r == s
    ensures s != [] && IsBullet(s[0]) ==> |r| < |s| && (r == [] || !IsWhitespace(r[0]))
  {
    if s != [] && IsBullet(s[0]) then TrimStart(s[1..]) else s
  }

  /** `s` starts with `word` and a colon, letters compared case-insensitively. */
  predicate HasLabel(s: string, word: string) {
    StartsWith(ToLower(s), word + ":")
  }

  /** The first label of `labels` that `s` starts with (letters compared
      case-insensitively), its colon and the white space after it, removed. */
  function StripLabel(s: string, labels: seq<string>): (r: string)
    ensures |r| <= |s| && r == s[|s| - |r|..]
    ensures (forall k :: 0 <= k < |labels| ==> !HasLabel(s, labels[k])) ==> r == s
    ensures (exists k :: 0 <= k < |labels| && HasLabel(s, labels[k])) ==> |r| < |s| && (r == [] || !IsWhitespace(r[0]))
    decreases |labels|
  {
    if labels == [] then s
    else if HasLabel(s, labels[0]) then
      LabelFits(s, labels[0]);
      TrimStart(s[|labels[0]| + 1..])
    else
      LabelsTail(s, labels);
      StripLabel(s, labels[1..])
  }

  /** A line that starts with a label is longer than the label and its colon. */
  lemma LabelFits(s: string, word: string)
    requires HasLabel(s, word)
    ensures |word| + 1 <= |s|
  {
  }

  /** When the first label does not match, the rest decide whether one does. */
  lemma LabelsTail(s: string, labels: seq<string>)
    requires labels != [] && !HasLabel(s, labels[0])
    ensures (exists k :: 0 <= k < |labels| && HasLabel(s, labels[k])) <==>
            (exists k :: 0 <= k < |labels[1..]| && HasLabel(s, labels[1..][k]))
  {
    if exists k :: 0 <= k < |labels| && HasLabel(s, labels[k]) {
      var k :| 0 <= k < |labels| && HasLabel(s, labels[k]);
      assert k > 0 && labels[1..][k - 1] == labels[k];
    }
  }

  /** A discussion line or key point as listed. */
  function CleanPoint(point: string): string {
    Trim(StripBullet(point))
  }

  /** A decision as listed: without a `decision:` or `decided:` label. */
  function CleanDecision(decision: string): string {
    Trim(StripLabel(decision, ["decision", "decided"]))
  }

  /** An action item as listed: without an `action:`, `todo:` or `task:`
      label, then without a bullet. */
  function CleanAction(item: string): string {
    Trim(StripBullet(StripLabel(item, ["action", "todo", "task"])))
  }

  /** The label words are dropped from a decision that starts with one. */
  lemma DecisionLabelDropped(decision: string)
    ensures !HasLabel(decision, "decision") && !HasLabel(decision, "decided") ==>
      CleanDecision(decision) == Trim(decision)
    ensures HasLabel(decision, "decision") ==> CleanDecision(decision) == Trim(decision[9..])
    ensures !HasLabel(decision, "decision") && HasLabel(decision, "decided") ==>
      CleanDecision(decision) == Trim(decision[8..])
  {
    var labels := ["decision", "decided"];
    assert labels[0] == "decision" && labels[1] == "decided";
    if HasLabel(decision, "decision") {
      TrimStartTrim(decision[9..]);
    } else if HasLabel(decision, "decided") {
      assert StripLabel(decision, labels) == StripLabel(decision, labels[1..]);
      TrimStartTrim(decision[8..]);
    }
  }

  /** Trimming after dropping leading white space is trimming. */
  lemma TrimStartTrim(s: string)
    ensures Trim(TrimStart(s)) == Trim(s)
  {
    var t := TrimStart(s);
    assert t == [] || !IsWhitespace(t[0]);
    assert TrimStart(t) == t;
  }

  // The summary.

  function Take(s: seq<string>, n: nat): (r: seq<string>)
    ensures |r| == if |s| <= n then |s| else n
    ensures r == s[..|r|]
  {
    if |s| <= n then s else s[..n]
  }

  /** `text.substring(0, 200) + (text.length > 200 ? '...' : '')`. */
  function Shorten(text: string): (r: string)
    ensures |text| <= 200 ==> r == text
    ensures |text| > 200 ==> |r| == 203 && r[..200] == text[..200] && r[200..] == "..."
    ensures r == [] <==> text == []
  {
    if |text| > 200 then text[..200] + "..." else text
  }

  /** The text the summary is cut from: the first three discussion lines,
      or else the first two key points, joined by spaces. */
  function SummarySource(discussion: seq<string>, keyPoints: seq<string>): string {
    if |discussion| > 0 then Join(Take(discussion, 3), " ") else Join(Take(keyPoints, 2), " ")
  }

  const Fallback := "Discussion notes recorded for this agenda item."

  /** The paragraph under "Summary". */
  function SummaryText(discussion: seq<string>, keyPoints: seq<string>): string {
    var text := Shorten(SummarySource(discussion, keyPoints));
    if text != "" then text else Fallback
  }

  /** The first `n` parts joined begin the whole join. */
  lemma {:induction false} JoinTake(parts: seq<string>, n: nat, sep: string)
    requires n >= 1
    ensures StartsWith(Join(parts, sep), Join(Take(parts, n), sep))
    decreases |parts|
  {
    if |parts| > n {
      if n == 1 {
        assert Take(parts, n) == [parts[0]];
        assert Join(parts, sep) == parts[0] + sep + Join(parts[1..], sep);
      } else {
        var t := Take(parts, n);
        assert t[1..] == Take(parts[1..], n - 1);
        JoinTake(parts[1..], n - 1, sep);
        assert Join(t, sep) == parts[0] + sep + Join(t[1..], sep);
        assert Join(parts, sep) == parts[0] + sep + Join(parts[1..], sep);
        PrefixExtend(parts[0] + sep, Join(parts[1..], sep), Join(t[1..], sep));
      }
    }
  }

  lemma PrefixExtend(a: string, s: string, p: string)
    requires StartsWith(s, p)
    ensures StartsWith(a + s, a + p)
  {
    assert (a + s)[..|a + p|] == a + s[..|p|];
  }

  /** A join of parts whose first part is not empty is not empty. */
  lemma JoinNonEmpty(parts: seq<string>, sep: string)
    requires |parts| >= 1 && parts[0] != ""
    ensures Join(parts, sep) != ""
  {
    if |parts| > 1 {
      assert |Join(parts, sep)| >= |parts[0]|;
    }
  }

  /** The summary text begins the discussion lines joined by spaces when
      there are any, and the key points otherwise; it is empty, and the
      fixed sentence is shown instead, exactly when both are empty. */
  lemma SummaryFromLines(discussion: seq<string>, keyPoints: seq<string>)
    requires forall k :: 0 <= k < |discussion| ==> discussion[k] != ""
    requires forall k :: 0 <= k < |keyPoints| ==> keyPoints[k] != ""
    ensures discussion != [] ==> StartsWith(Join(discussion, " "), SummarySource(discussion, keyPoints))
    ensures discussion == [] ==> StartsWith(Join(keyPoints, " "), SummarySource(discussion, keyPoints))
    ensures SummarySource(discussion, keyPoints) == "" <==> discussion == [] && keyPoints == []
    ensures SummaryText(discussion, keyPoints) == Fallback <== discussion == [] && keyPoints == []
    ensures discussion != [] || keyPoints != [] ==>
      SummaryText(discussion, keyPoints) == Shorten(SummarySource(discussion, keyPoints))
  {
    if discussion != [] {
      JoinTake(discussion, 3, " ");
      JoinNonEmpty(Take(discussion, 3), " ");
    } else {
      JoinTake(keyPoints, 2, " ");
      if keyPoints != [] {
        JoinNonEmpty(Take(keyPoints, 2), " ");
      }
    }
  }

  // The HTML.

  function Heading(b: Bucket): string {
    match b
    case Discussion => "Discussion"
    case KeyPoint => "Key Points"
    case Decision => "Decisions"
    case Action => "Action Items"
  }

  /** The list entry of one point of a bucket. */
  function ItemHtml(b: Bucket, point: string): string {
    match b
    case Discussion => "<li>" + CleanPoint(point) + "</li>\n"
    case KeyPoint => "<li><strong>" + CleanPoint(point) + "</strong></li>\n"
    case Decision => "<li>" + CleanDecision(point) + "</li>\n"
    case Action => "<li>" + CleanAction(point) + "</li>\n"
  }

  /** The list entries of the points, in order. */
  function ItemsHtml(b: Bucket, points: seq<string>): string {
    if points == [] then "" else ItemsHtml(b, points[..|points| - 1]) + ItemHtml(b, points[|points| - 1])
  }

  /** The heading line of a section. */
  function HeadHtml(b: Bucket): (r: string)
    ensures |r| > 0
  {
    "<h3>" + Heading(b) + "</h3>\n"
  }

  /** The text a section shows when its bucket is empty. */
  function EmptyHtml(b: Bucket): string {
    match b
    case Decision => "<p><em>No specific decisions were made during this discussion.</em></p>\n\n"
    case Action => "<p><em>No action items were identified during this discussion.</em></p>"
    case _ => ""
  }

  /** The end of a section's list; the list of action items ends the text. */
  function ListEnd(b: Bucket): string {
    if b.Action? then "</ul>" else "</ul>\n\n"
  }

  /** The section of one bucket. Discussion and key points have none when
      empty; decisions and action items then show a fixed sentence. */
  function SectionHtml(b: Bucket, points: seq<string>): (r: string)
    ensures r == "" <==> points == [] && (b.Discussion? || b.KeyPoint?)
    ensures r != "" ==> StartsWith(r, HeadHtml(b))
    ensures points != [] ==> StartsWith(r, HeadHtml(b) + "<ul>\n")
  {
    hide HeadHtml, EmptyHtml, ListEnd, ItemsHtml;
    if points != [] then
      Framed(HeadHtml(b), "<ul>\n", ItemsHtml(b, points) + ListEnd(b));
      HeadHtml(b) + "<ul>\n" + (ItemsHtml(b, points) + ListEnd(b))
    else if b.Decision? || b.Action? then
      Framed(HeadHtml(b), EmptyHtml(b), []);
      HeadHtml(b) + EmptyHtml(b) + []
    else ""
  }

  /** A text made of a non-empty head, a middle and a rest begins with the
      head and with the head and the middle. */
  lemma Framed(head: string, mid: string, rest: string)
    requires head != []
    ensures head + mid + rest != []
    ensures StartsWith(head + mid + rest, head)
    ensures StartsWith(head + mid + rest, head + mid)
  {
    assert (head + mid + rest)[..|head|] == head;
    assert (head + mid + rest)[..|head + mid|] == head + mid;
  }

  /** A text begins with its own beginning, and a prefix of a prefix is one. */
  lemma BeginsWith(a: string, b: string)
    ensures StartsWith(a + b, a)
    ensures forall p :: StartsWith(a, p) ==> StartsWith(a + b, p)
  {
    assert (a + b)[..|a|] == a;
    forall p | StartsWith(a, p) ensures StartsWith(a + b, p) {
      assert (a + b)[..|p|] == a[..|p|];
    }
  }

  /** The text `enhanceMinutesWithSimpleModel` returns. */
  function MinutesHtml(rawNotes: string): string {
    MinutesOf(NoteLines(rawNotes))
  }

  /** The minutes of the processed lines: the summary, then the sections of
      the discussion, the key points, the decisions and the action items. */
  function MinutesOf(lines: seq<string>): string {
    var discussion := Bucketed(lines, Discussion);
    var keyPoints := Bucketed(lines, KeyPoint);
    "<h2>Summary</h2>\n" + SummaryParagraph(SummaryText(discussion, keyPoints))
    + SectionHtml(Discussion, discussion) + SectionHtml(KeyPoint, keyPoints)
    + SectionHtml(Decision, Bucketed(lines, Decision)) + SectionHtml(Action, Bucketed(lines, Action))
  }

  function SummaryParagraph(text: string): string {
    "<p>" + text + "</p>\n\n"
  }

  /** `formatted += ...` for each point of a bucket. */
  method AppendItems(formatted0: string, b: Bucket, points: seq<string>) returns (formatted: string)
    ensures formatted == formatted0 + ItemsHtml(b, points)
  {
    hide ItemHtml;
    formatted := formatted0;
    for k := 0 to |points|
      invariant formatted == formatted0 + ItemsHtml(b, points[..k])
    {
      ItemsSnoc(b, points, k);
      Associative(formatted0, ItemsHtml(b, points[..k]), ItemHtml(b, points[k]));
      formatted := formatted + ItemHtml(b, points[k]);
    }
    assert points[..|points|] == points;
  }

  /** One more point appends exactly its list entry. */
  lemma ItemsSnoc(b: Bucket, points: seq<string>, k: int)
    requires 0 <= k < |points|
    ensures ItemsHtml(b, points[..k + 1]) == ItemsHtml(b, points[..k]) + ItemHtml(b, points[k])
  {
    hide ItemHtml;
    assert points[..k + 1][..k] == points[..k];
  }

  lemma Associative(a: string, b: string, c: string)
    ensures a + b + c == a + (b + c)
  {
  }

  /** One section appended to the text built so far. */
  method AppendSection(formatted0: string, b: Bucket, points: seq<string>) returns (formatted: string)
    ensures formatted == formatted0 + SectionHtml(b, points)
  {
    hide HeadHtml, EmptyHtml, ListEnd, ItemsHtml;
    if |points| > 0 {
      formatted := formatted0 + (HeadHtml(b) + "<ul>\n");
      formatted := AppendItems(formatted, b, points);
      formatted := formatted + ListEnd(b);
      assert formatted == formatted0 + (HeadHtml(b) + "<ul>\n" + (ItemsHtml(b, points) + ListEnd(b)));
    } else if b.Decision? || b.Action? {
      formatted := formatted0 + (HeadHtml(b) + EmptyHtml(b));
      assert HeadHtml(b) + EmptyHtml(b) + [] == HeadHtml(b) + EmptyHtml(b);
    } else {
      formatted := formatted0;
      assert formatted0 + "" == formatted0;
    }
  }

  /** `enhanceMinutesWithSimpleModel`: the lines sorted into buckets, then
      the summary and the four sections appended in turn. */
  method EnhanceWithSimpleModel(rawNotes: string) returns (formatted: string)
    ensures formatted == MinutesHtml(rawNotes)
  {
    var cleanNotes := Trim(rawNotes);
    var lines := CleanLines(Split(cleanNotes, '\n'));
    formatted := FormatLines(lines);
  }

  method FormatLines(lines: seq<string>) returns (formatted: string)
    ensures formatted == MinutesOf(lines)
  {
    var decisions, actionItems, discussion, keyPoints := SortLines(lines);
    formatted := "<h2>Summary</h2>\n";
    var summaryText := Shorten(if |discussion| > 0 then Join(Take(discussion, 3), " ") else Join(Take(keyPoints, 2), " "));
    formatted := formatted + SummaryParagraph(if summaryText != "" then summaryText else Fallback);
    formatted := AppendSection(formatted, Discussion, discussion);
    formatted := AppendSection(formatted, KeyPoint, keyPoints);
    formatted := AppendSection(formatted, Decision, decisions);
    formatted := AppendSection(formatted, Action, actionItems);
  }

  /** The minutes always open with the summary and always hold the
      Decisions and Action Items headings; the Discussion and Key Points
      lists appear when those buckets are not empty. */
  lemma SectionsPresent(lines: seq<string>)
    ensures StartsWith(MinutesOf(lines), "<h2>Summary</h2>\n"
      + SummaryParagraph(SummaryText(Bucketed(lines, Discussion), Bucketed(lines, KeyPoint))))
    ensures Contains(MinutesOf(lines), HeadHtml(Decision))
    ensures Contains(MinutesOf(lines), HeadHtml(Action))
    ensures Bucketed(lines, Discussion) != [] ==> Contains(MinutesOf(lines), HeadHtml(Discussion) + "<ul>\n")
    ensures Bucketed(lines, KeyPoint) != [] ==> Contains(MinutesOf(lines), HeadHtml(KeyPoint) + "<ul>\n")
  {
    hide Bucketed, SummaryText, SummaryParagraph, HeadHtml, ItemsHtml, EmptyHtml, ListEnd;
    var discussion := Bucketed(lines, Discussion);
    var keyPoints := Bucketed(lines, KeyPoint);
    var top := "<h2>Summary</h2>\n" + SummaryParagraph(SummaryText(discussion, keyPoints));
    var d := SectionHtml(Discussion, discussion);
    var p := SectionHtml(KeyPoint, keyPoints);
    var c := SectionHtml(Decision, Bucketed(lines, Decision));
    var a := SectionHtml(Action, Bucketed(lines, Action));
    var html := MinutesOf(lines);
    assert html == top + d + p + c + a;
    FiveParts(top, d, p, c, a);
    ContainsPart(top + d + p, c, a, HeadHtml(Decision));
    ContainsPart(top + d + p + c, a, [], HeadHtml(Action));
    if discussion != [] {
      ContainsPart(top, d, p + c + a, HeadHtml(Discussion) + "<ul>\n");
    }
    if keyPoints != [] {
      ContainsPart(top + d, p, c + a, HeadHtml(KeyPoint) + "<ul>\n");
    }
  }

  lemma FiveParts(top: string, d: string, p: string, c: string, a: string)
    ensures StartsWith(top + d + p + c + a, top)
    ensures top + d + p + c + a == top + d + (p + c + a) == top + d + p + (c + a) == top + d + p + c + a + []
  {
    assert (top + d + p + c + a)[..|top|] == top;
  }

  /** A text that begins a part of a concatenation occurs in it. */
  lemma ContainsPart(before: string, part: string, after: string, sub: string)
    requires StartsWith(part, sub)
    ensures Contains(before + part + after, sub)
  {
    var s := before + part + after;
    assert s[|before|..|before| + |sub|] == part[..|sub|];
    assert OccursAt(s, sub, |before|);
    ContainsAt(s, sub);
  }

  // The entry point.

  /** `enhanceMinutesWithHF`: missing or blank notes are refused before
      anything else. `reply` is the `enhanced` text of a successful call to
      the backend, or `None` for each way the call can fail; every failure
      ends in the local formatter. */
  method EnhanceWithHF(rawNotes: Option<string>, reply: Option<string>) returns (r: Result<string, string>)
    ensures r.Err? <==> rawNotes.None? || Trim(rawNotes.value) == ""
    ensures r.Err? ==> r.error == "No notes provided to enhance"
    ensures r.Ok? && reply.Some? && reply.value != "" ==> r.value == reply.value
    ensures r.Ok? && (reply.None? || reply.value == "") ==> r.value == MinutesHtml(rawNotes.value)
  {
    if rawNotes.None? || rawNotes.value == "" || Trim(rawNotes.value) == "" {
      return Err("No notes provided to enhance");
    }
    if reply.Some? && reply.value != "" {
      return Ok(reply.value);
    }
    var formatted := EnhanceWithSimpleModel(rawNotes.value);
    return Ok(formatted);
  }
}
