/**
 * The diff line validator: which new-file line numbers of a unified diff may
 * carry an inline review comment, and the split of proposed comments into
 * those GitHub will accept and those it would reject.
 */
module PatchParser {
  import opened Wrappers
  import opened Text
  import opened Entities

  // ---------------------------------------------------------------------------
  // Hunk headers: ^@@ -\d+(?:,\d+)? \+(\d+)(?:,\d+)? @@
  // ---------------------------------------------------------------------------

  /** The fields of a hunk header, as the digit strings the pattern matched. */
  datatype HunkHeader = HunkHeader(
    oldStart: string,
    oldCount: Option<string>,
    newStart: string,
    newCount: Option<string>)

  predicate WellFormedHeader(h: HunkHeader) {
    && IsDigitRun(h.oldStart)
    && (h.oldCount.Some? ==> IsDigitRun(h.oldCount.value))
    && IsDigitRun(h.newStart)
    && (h.newCount.Some? ==> IsDigitRun(h.newCount.value))
  }

  function CountText(count: Option<string>): string {
    match count
    case None => ""
    case Some(d) => "," + d
  }

  /** The text a hunk header is written as, up to and including the second `@@`. */
  function HeaderText(h: HunkHeader): string {
    "@@ -" + h.oldStart + CountText(h.oldCount) + " +" + h.newStart + CountText(h.newCount) + " @@"
  }

  /** The optional group `(?:,\d+)?` at the start of `s`, and what follows it. */
  function TakeCount(s: string): (r: (Option<string>, string))
    ensures s == CountText(r.0) + r.1
    ensures r.0.Some? ==> IsDigitRun(r.0.value)
  {
    if s != [] && s[0] == ',' then
      var run := TakeWhile(s[1..], IsDigit);
      if run.0 != "" then
        assert s == "," + run.0 + run.1 by {
          assert s == [','] + s[1..];
        }
        (Some(run.0), run.1)
      else (None, s)
    else (None, s)
  }

  /** `re.match` of the hunk-header pattern against one line. */
  function ParseHunkHeader(line: string): (r: Option<HunkHeader>)
    ensures r.Some? ==> WellFormedHeader(r.value) && StartsWith(line, HeaderText(r.value))
  {
    if !StartsWith(line, "@@ -") then None
    else
      var oldStart := TakeWhile(line[4..], IsDigit);
      var oldCount := TakeCount(oldStart.1);
      if oldStart.0 == "" || !StartsWith(oldCount.1, " +") then None
      else
        var newStart := TakeWhile(oldCount.1[2..], IsDigit);
        var newCount := TakeCount(newStart.1);
        if newStart.0 == "" || !StartsWith(newCount.1, " @@") then None
        else
          var h := HunkHeader(oldStart.0, oldCount.0, newStart.0, newCount.0);
          HeaderPrefix(line, h, oldStart.1, oldCount.1, newStart.1, newCount.1);
          Some(h)
  }

  /** The header text followed by `rest`, associated to the right. */
  lemma HeaderTextPieces(h: HunkHeader, rest: string)
    ensures HeaderText(h) + rest
      == "@@ -" + (h.oldStart + (CountText(h.oldCount) + (" +" + (h.newStart + (CountText(h.newCount) + (" @@" + rest))))))
  {
  }

  lemma HeaderPrefix(line: string, h: HunkHeader, r1: string, r2: string, r3: string, r4: string)
    requires StartsWith(line, "@@ -") && StartsWith(r2, " +") && StartsWith(r4, " @@")
    requires line[4..] == h.oldStart + r1 && r1 == CountText(h.oldCount) + r2
    requires r2[2..] == h.newStart + r3 && r3 == CountText(h.newCount) + r4
    ensures StartsWith(line, HeaderText(h))
  {
    var tail := r4[3..];
    assert r4 == " @@" + tail;
    assert r2 == " +" + r2[2..];
    assert line == "@@ -" + line[4..];
    HeaderTextPieces(h, tail);
    assert line == HeaderText(h) + tail;
  }

  /** A run of digits and an optional count, then a space: the pattern's
      `\d+(?:,\d+)?` takes exactly these. */
  lemma DigitsThenCount(d: string, c: Option<string>, rest: string)
    requires IsDigitRun(d) && (c.Some? ==> IsDigitRun(c.value))
    requires rest != [] && rest[0] == ' '
    ensures TakeWhile(d + (CountText(c) + rest), IsDigit) == (d, CountText(c) + rest)
    ensures TakeCount(CountText(c) + rest) == (c, rest)
  {
    var after := CountText(c) + rest;
    assert after[0] == ',' || after[0] == ' ';
    TakeWhileOfRun(d, after, IsDigit);
    match c
    case None =>
      assert after == rest;
    case Some(digits) =>
      assert after[1..] == digits + rest;
      TakeWhileOfRun(digits, rest, IsDigit);
  }

  lemma ParseFromPieces(line: string, h: HunkHeader, r1: string, r2: string, r3: string, r4: string)
    requires StartsWith(line, "@@ -") && h.oldStart != "" && h.newStart != ""
    requires TakeWhile(line[4..], IsDigit) == (h.oldStart, r1) && TakeCount(r1) == (h.oldCount, r2)
    requires StartsWith(r2, " +") && TakeWhile(r2[2..], IsDigit) == (h.newStart, r3)
    requires TakeCount(r3) == (h.newCount, r4) && StartsWith(r4, " @@")
    ensures ParseHunkHeader(line) == Some(h)
  {
  }

  /** Every well-formed header is read back exactly, whatever follows it. */
  lemma ParseHeaderText(h: HunkHeader, rest: string)
    requires WellFormedHeader(h)
    ensures ParseHunkHeader(HeaderText(h) + rest) == Some(h)
  {
    var r4 := " @@" + rest;
    var r3 := CountText(h.newCount) + r4;
    var r2 := " +" + (h.newStart + r3);
    var r1 := CountText(h.oldCount) + r2;
    var line := HeaderText(h) + rest;
    HeaderTextPieces(h, rest);
    assert line == "@@ -" + (h.oldStart + r1);
    assert line[..4] == "@@ -" && line[4..] == h.oldStart + r1;
    assert r2[..2] == " +" && r2[2..] == h.newStart + r3;
    assert r4[..3] == " @@";
    DigitsThenCount(h.oldStart, h.oldCount, r2);
    DigitsThenCount(h.newStart, h.newCount, r4);
    ParseFromPieces(line, h, r1, r2, r3, r4);
  }

  // ---------------------------------------------------------------------------
  // The line-number scan
  // ---------------------------------------------------------------------------

  /** How the scan reads one line of a patch. */
  datatype LineKind = Hunk(newStart: nat) | Added | Removed | NoNewlineMarker | Context

  function Classify(line: string): LineKind {
    match ParseHunkHeader(line)
    case Some(h) => Hunk(DecimalValue(h.newStart))
    case None =>
      if StartsWith(line, "+") && !StartsWith(line, "+++") then Added
      else if StartsWith(line, "-") && !StartsWith(line, "---") then Removed
      else if StartsWith(line, "\\") then NoNewlineMarker
      else Context
  }

  /** The new-file line counter after one line; 0 means "no hunk yet". */
  function Step(current: nat, kind: LineKind): nat {
    match kind
    case Hunk(n) => n
    case Added => if current == 0 then 0 else current + 1
    case Context => if current == 0 then 0 else current + 1
    case Removed => current
    case NoNewlineMarker => current
  }

  /** Whether a line with the counter at `current` contributes `current`. */
  predicate Collects(current: nat, kind: LineKind) {
    current != 0 && (kind.Added? || kind.Removed?)
  }

  /** The counter just before line `i` is read. */
  function CounterAt(lines: seq<string>, i: nat): nat
    requires i <= |lines|
  {
    if i == 0 then 0 else Step(CounterAt(lines, i - 1), Classify(lines[i - 1]))
  }

  /** Line `i` is an added or removed line read inside a hunk. */
  predicate CollectedLine(lines: seq<string>, i: nat)
    requires i < |lines|
  {
    Collects(CounterAt(lines, i), Classify(lines[i]))
  }

  /** The counter values of the collected lines among the first `n`. */
  function CollectedBefore(lines: seq<string>, n: nat): set<int>
    requires n <= |lines|
  {
    set i | 0 <= i < n && CollectedLine(lines, i) :: CounterAt(lines, i) as int
  }

  /** The line numbers a patch allows comments on. */
  function PatchLineSet(patch: string): set<int> {
    if patch == "" then {}
    else
      var lines := Split(patch, '\n');
      CollectedBefore(lines, |lines|)
  }

  /** Reading line `i` moves the counter by `Step` and adds the counter to
      the collected set exactly when the line `Collects`. */
  lemma ScanStep(lines: seq<string>, i: nat, current: nat, kind: LineKind)
    requires i < |lines| && current == CounterAt(lines, i) && kind == Classify(lines[i])
    ensures CounterAt(lines, i + 1) == Step(current, kind)
    ensures CollectedBefore(lines, i + 1)
         == CollectedBefore(lines, i) + (if Collects(current, kind) then {current as int} else {})
  {
  }

  /** `parse_patch_line_numbers`: scans the patch line by line. */
  method ParsePatchLineNumbers(patch: string) returns (validLines: set<int>)
    ensures validLines == PatchLineSet(patch)
  {
    validLines := {};
    if patch == "" {
      return;
    }
    var currentLine: nat := 0;
    var lines := Split(patch, '\n');
    for i := 0 to |lines|
      invariant currentLine == CounterAt(lines, i)
      invariant validLines == CollectedBefore(lines, i)
    {
      var line := lines[i];
      ScanStep(lines, i, currentLine, Classify(line));
      var header := ParseHunkHeader(line);
      if header.Some? {
        currentLine := DecimalValue(header.value.newStart);
        continue;
      }
      if currentLine == 0 {
        continue;
      }
      if StartsWith(line, "+") && !StartsWith(line, "+++") {
        assert Classify(line) == Added;
        validLines := validLines + {currentLine};
        currentLine := currentLine + 1;
      } else if StartsWith(line, "-") && !StartsWith(line, "---") {
        assert Classify(line) == Removed;
        validLines := validLines + {currentLine};
      } else if !StartsWith(line, "\\") {
        assert Classify(line) == Context;
        currentLine := currentLine + 1;
      } else {
        assert Classify(line) == NoNewlineMarker;
      }
    }
  }

  // ---------------------------------------------------------------------------
  // What the scan guarantees
  // ---------------------------------------------------------------------------

  /** The new-start of the last hunk header among the first `i` lines. */
  function LastHunkStart(lines: seq<string>, i: nat): Option<nat>
    requires i <= |lines|
  {
    if i == 0 then None
    else match Classify(lines[i - 1])
      case Hunk(n) => Some(n)
      case _ => LastHunkStart(lines, i - 1)
  }

  /** Outside a hunk (before the first header, or after a header whose new
      start is 0) the counter is 0; inside one it never drops below the
      hunk's new start. */
  lemma {:induction false} CounterWithinHunk(lines: seq<string>, i: nat)
    requires i <= |lines|
    ensures LastHunkStart(lines, i).None? ==> CounterAt(lines, i) == 0
    ensures LastHunkStart(lines, i).Some? ==>
      var s := LastHunkStart(lines, i).value;
      (s == 0 ==> CounterAt(lines, i) == 0) && s <= CounterAt(lines, i)
  {
    if i > 0 {
      CounterWithinHunk(lines, i - 1);
    }
  }

  /** Every collected line lies inside a hunk with a non-zero new start, and
      its number is at least 1 and at least that hunk's new start. */
  lemma CollectedLinesInsideHunks(lines: seq<string>, i: nat)
    requires i < |lines| && CollectedLine(lines, i)
    ensures LastHunkStart(lines, i).Some?
    ensures 1 <= LastHunkStart(lines, i).value <= CounterAt(lines, i)
  {
    CounterWithinHunk(lines, i);
  }

  /** Every line number a patch allows is at least 1. */
  lemma PatchLinesPositive(patch: string)
    ensures forall n | n in PatchLineSet(patch) :: n >= 1
  {
    if patch != "" {
      var lines := Split(patch, '\n');
      forall i | 0 <= i < |lines| && CollectedLine(lines, i)
        ensures CounterAt(lines, i) >= 1
      {
        CollectedLinesInsideHunks(lines, i);
      }
    }
  }

  /** A patch without any hunk header (the empty patch among them) allows no line. */
  lemma NoHeaderNoLines(patch: string)
    requires forall i | 0 <= i < |Split(patch, '\n')| :: !Classify(Split(patch, '\n')[i]).Hunk?
    ensures PatchLineSet(patch) == {}
  {
    var lines := Split(patch, '\n');
    forall i | 0 <= i <= |lines| ensures LastHunkStart(lines, i).None? {
      NoHeaderBefore(lines, i);
    }
    forall i | 0 <= i < |lines| ensures !CollectedLine(lines, i) {
      CounterWithinHunk(lines, i);
    }
  }

  lemma {:induction false} NoHeaderBefore(lines: seq<string>, i: nat)
    requires i <= |lines|
    requires forall k | 0 <= k < |lines| :: !Classify(lines[k]).Hunk?
    ensures LastHunkStart(lines, i).None?
  {
    if i > 0 {
      NoHeaderBefore(lines, i - 1);
    }
  }

  const ExamplePatch: string :=
    "@@ -1,2 +1,3 @@" + "\n" + (" context" + "\n" + ("+added line" + "\n" + (" another" + "\n" + "")))
  const ExampleLines: seq<string> := ["@@ -1,2 +1,3 @@", " context", "+added line", " another", ""]

  lemma ExampleSplit()
    ensures Split(ExamplePatch, '\n') == ExampleLines
  {
    SplitFiveLines("@@ -1,2 +1,3 @@", " context", "+added line", " another", "");
  }

  lemma SplitFiveLines(a: string, b: string, c: string, d: string, e: string)
    requires '\n' !in a && '\n' !in b && '\n' !in c && '\n' !in d && '\n' !in e
    ensures Split(a + "\n" + (b + "\n" + (c + "\n" + (d + "\n" + e))), '\n') == [a, b, c, d, e]
  {
    SplitNoSeparator(e, '\n');
    SplitAfterPiece(d, '\n', e);
    SplitAfterPiece(c, '\n', d + "\n" + e);
    SplitAfterPiece(b, '\n', c + "\n" + (d + "\n" + e));
    SplitAfterPiece(a, '\n', b + "\n" + (c + "\n" + (d + "\n" + e)));
  }

  lemma ExampleHeader()
    ensures Classify(ExampleLines[0]) == Hunk(1)
  {
    var h := HunkHeader("1", Some("2"), "1", Some("3"));
    assert HeaderText(h) + "" == ExampleLines[0];
    ClassifyHeader(ExampleLines[0], h, "");
    assert DecimalValue("1") == 1 by {
      assert "1"[..0] == "";
    }
  }

  /** A line that starts with a well-formed header is a hunk header line,
      setting the counter to the header's new start. */
  lemma ClassifyHeader(line: string, h: HunkHeader, rest: string)
    requires WellFormedHeader(h) && line == HeaderText(h) + rest
    ensures Classify(line) == Hunk(DecimalValue(h.newStart))
  {
    ParseHeaderText(h, rest);
  }

  /** A line whose first character differs from the pattern's is no header. */
  lemma NotAHeader(line: string)
    requires line == [] || line[0] != '@'
    ensures ParseHunkHeader(line).None?
  {
    if line != [] {
      assert |line| >= 4 ==> line[..4][0] == line[0];
    }
  }

  lemma ExampleBodyLines()
    ensures Classify(ExampleLines[1]) == Context
    ensures Classify(ExampleLines[2]) == Added
    ensures Classify(ExampleLines[3]) == Context
    ensures Classify(ExampleLines[4]) == Context
  {
    var lines := ExampleLines;
    NotAHeader(lines[1]);
    NotAHeader(lines[2]);
    NotAHeader(lines[3]);
    NotAHeader(lines[4]);
    assert lines[2][..1] == "+";
    assert lines[2][..3] != "+++" by {
      assert lines[2][1] == 'a';
    }
    assert !StartsWith(lines[1], "+") && !StartsWith(lines[1], "-") && !StartsWith(lines[1], "\\") by {
      assert lines[1][0] == ' ';
    }
    assert !StartsWith(lines[3], "+") && !StartsWith(lines[3], "-") && !StartsWith(lines[3], "\\") by {
      assert lines[3][0] == ' ';
    }
  }

  lemma ExampleCounters()
    ensures forall i | 0 <= i < |ExampleLines| :: CollectedLine(ExampleLines, i) <==> i == 2
    ensures CounterAt(ExampleLines, 2) == 2
  {
    ExampleHeader();
    ExampleBodyLines();
    CountersOfOneAddition(ExampleLines);
  }

  /** A hunk starting at new line 1 followed by a context line, an added line
      and two more context lines collects the added line only, as line 2. */
  lemma CountersOfOneAddition(lines: seq<string>)
    requires |lines| == 5 && Classify(lines[0]) == Hunk(1)
    requires Classify(lines[1]) == Context && Classify(lines[2]) == Added
    requires Classify(lines[3]) == Context && Classify(lines[4]) == Context
    ensures forall i | 0 <= i < |lines| :: CollectedLine(lines, i) <==> i == 2
    ensures CounterAt(lines, 2) == 2
  {
    assert CounterAt(lines, 1) == 1;
    assert CounterAt(lines, 2) == 2;
    assert CounterAt(lines, 3) == 3;
    assert CounterAt(lines, 4) == 4;
  }

  /** The worked example: one hunk starting at new line 1, a context line
      (line 1), an added line (line 2) and a context line (line 3). */
  lemma ExampleOneAddedLine()
    ensures PatchLineSet(ExamplePatch) == {2}
  {
    ExampleSplit();
    ExampleCounters();
    assert CollectedBefore(ExampleLines, |ExampleLines|) == {2};
  }

  // ---------------------------------------------------------------------------
  // Splitting comments into valid and invalid
  // ---------------------------------------------------------------------------

  /** A comment is valid when its line is an int in the line set of its file's
      patch; a file missing from `patches` has the empty set. */
  predicate IsValidComment(c: Comment, patches: map<string, string>) {
    c.line.Some? && c.path in patches && c.line.value in PatchLineSet(patches[c.path])
  }

  /** The comments whose validity is `valid`, in their original order. */
  function CommentsWhere(comments: seq<Comment>, patches: map<string, string>, valid: bool): seq<Comment> {
    if comments == [] then []
    else
      var last := comments[|comments| - 1];
      CommentsWhere(comments[..|comments| - 1], patches, valid)
        + (if IsValidComment(last, patches) == valid then [last] else [])
  }

  /** The line set of every file, built one patch at a time. */
  method ValidLinesByFile(patches: map<string, string>) returns (byFile: map<string, set<int>>)
    ensures byFile.Keys == patches.Keys
    ensures forall f | f in patches :: byFile[f] == PatchLineSet(patches[f])
  {
    byFile := map[];
    var remaining := patches.Keys;
    while remaining != {}
      invariant remaining <= patches.Keys
      invariant byFile.Keys == patches.Keys - remaining
      invariant forall f | f in byFile :: byFile[f] == PatchLineSet(patches[f])
      decreases remaining
    {
      var f :| f in remaining;
      var lines := ParsePatchLineNumbers(patches[f]);
      byFile := byFile[f := lines];
      remaining := remaining - {f};
    }
  }

  /** `filter_comments_by_valid_lines`. */
  method FilterCommentsByValidLines(comments: seq<Comment>, patches: map<string, string>)
    returns (valid: seq<Comment>, invalid: seq<Comment>)
    ensures valid == CommentsWhere(comments, patches, true)
    ensures invalid == CommentsWhere(comments, patches, false)
  {
    var byFile := ValidLinesByFile(patches);
    valid, invalid := [], [];
    for i := 0 to |comments|
      invariant valid == CommentsWhere(comments[..i], patches, true)
      invariant invalid == CommentsWhere(comments[..i], patches, false)
    {
      var comment := comments[i];
      var fileLines := if comment.path in byFile then byFile[comment.path] else {};
      assert comments[..i + 1][..i] == comments[..i];
      if comment.line.Some? && comment.line.value in fileLines {
        valid := valid + [comment];
      } else {
        invalid := invalid + [comment];
      }
    }
    assert comments[..|comments|] == comments;
  }

  /** Every comment lands in exactly one of the two lists: the lengths add up
      and, counted with multiplicity, the two lists hold the input. */
  lemma PartitionIsTotal(comments: seq<Comment>, patches: map<string, string>)
    ensures |CommentsWhere(comments, patches, true)| + |CommentsWhere(comments, patches, false)| == |comments|
    ensures multiset(CommentsWhere(comments, patches, true)) + multiset(CommentsWhere(comments, patches, false))
         == multiset(comments)
  {
    PartitionKeepsComments(comments, patches);
    var v, w := CommentsWhere(comments, patches, true), CommentsWhere(comments, patches, false);
    assert |multiset(v) + multiset(w)| == |multiset(v)| + |multiset(w)|;
  }

  lemma {:induction false} PartitionKeepsComments(comments: seq<Comment>, patches: map<string, string>)
    ensures multiset(CommentsWhere(comments, patches, true)) + multiset(CommentsWhere(comments, patches, false))
         == multiset(comments)
  {
    if comments != [] {
      var init := comments[..|comments| - 1];
      var last := comments[|comments| - 1];
      PartitionKeepsComments(init, patches);
      var v, w := CommentsWhere(init, patches, true), CommentsWhere(init, patches, false);
      var keep := IsValidComment(last, patches);
      assert multiset(comments) == multiset(init) + multiset{last} by {
        assert comments == init + [last];
      }
      assert CommentsWhere(comments, patches, true) == v + (if keep then [last] else []) by {
        assert comments == init + [last];
        CommentsWhereSnoc(init, last, patches, true);
      }
      assert CommentsWhere(comments, patches, false) == w + (if keep then [] else [last]) by {
        assert comments == init + [last];
        CommentsWhereSnoc(init, last, patches, false);
      }
      if keep {
        assert multiset(v + [last]) == multiset(v) + multiset{last};
      } else {
        assert multiset(w + [last]) == multiset(w) + multiset{last};
      }
    }
  }

  /** One more comment goes to the end of exactly the list its validity picks. */
  lemma CommentsWhereSnoc(init: seq<Comment>, last: Comment, patches: map<string, string>, valid: bool)
    ensures CommentsWhere(init + [last], patches, valid)
         == CommentsWhere(init, patches, valid) + (if IsValidComment(last, patches) == valid then [last] else [])
  {
    assert (init + [last])[..|init|] == init;
  }

  /** A comment is in the valid list iff it is an input comment that is valid,
      and in the invalid list iff it is an input comment that is not. */
  lemma {:induction false} CommentsWhereMembers(comments: seq<Comment>, patches: map<string, string>, valid: bool, c: Comment)
    ensures c in CommentsWhere(comments, patches, valid) <==> c in comments && IsValidComment(c, patches) == valid
  {
    if comments != [] {
      var init := comments[..|comments| - 1];
      CommentsWhereMembers(init, patches, valid, c);
      assert comments == init + [comments[|comments| - 1]];
    }
  }

  /** The split keeps order: the lists of a concatenation are the
      concatenations of the lists. */
  lemma {:induction false} CommentsWhereAppend(a: seq<Comment>, b: seq<Comment>, patches: map<string, string>, valid: bool)
    ensures CommentsWhere(a + b, patches, valid) == CommentsWhere(a, patches, valid) + CommentsWhere(b, patches, valid)
    decreases |b|
  {
    if b != [] {
      var initB := b[..|b| - 1];
      assert (a + b)[..|a + b| - 1] == a + initB;
      assert (a + b)[|a + b| - 1] == b[|b| - 1];
      CommentsWhereAppend(a, initB, patches, valid);
    } else {
      assert a + b == a;
    }
  }

  /** A comment on the added line of the worked example is valid; one on
      line 99 of the same file is not; one on a file without a patch is not. */
  lemma ExampleClassification()
    ensures var patches := map["a.py" := ExamplePatch];
      && IsValidComment(Comment("a.py", Some(2), ""), patches)
      && !IsValidComment(Comment("a.py", Some(99), ""), patches)
      && !IsValidComment(Comment("b.py", Some(2), ""), patches)
  {
    ExampleOneAddedLine();
  }
}
