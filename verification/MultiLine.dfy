/** How SimpleIni writes a value and reads it back (simpleini/SimpleIni.h): the text as it is, or, if it has line breaks or
    white space at an end, as lines between `<<<END_OF_TEXT` and `END_OF_TEXT`.  Strings are the characters before the
    terminating NUL. */
module MultiLine {
  import opened CombatEvents

  type chr = u8
  type text = seq<chr>

  const LF: chr := 10
  const CR: chr := 13

  predicate IsNewLineChar(c: chr) {
    c == LF || c == CR
  }

  predicate IsSpace(c: chr) {
    c == 32 || c == 9 || c == CR || c == LF
  }

  /** `END_OF_TEXT` */
  function EndTag(): text {
    [69, 78, 68, 95, 79, 70, 95, 84, 69, 88, 84]
  }

  function TagPrefix(): text {
    [60, 60, 60]
  }

  // ----- Comparing without case

  function LoCase(c: chr): chr {
    if c < 65 || c > 90 then c else c + 32
  }

  /** The source's `char` is signed. */
  function Signed(c: chr): int {
    if c < 128 then c else c - 256
  }

  /** `SI_GenericNoCase`, the order that `IsLess` uses. */
  predicate Less(a: text, b: text) {
    if a == [] || b == [] then b != []
    else if LoCase(a[0]) != LoCase(b[0]) then Signed(LoCase(a[0])) < Signed(LoCase(b[0]))
    else Less(a[1..], b[1..])
  }

  function Fold(a: text): text {
    if a == [] then [] else [LoCase(a[0])] + Fold(a[1..])
  }

  predicate Same(a: text, b: text) {
    !Less(a, b) && !Less(b, a)
  }

  /** Two strings that are not less than each other are equal up to the case of ASCII letters. */
  lemma {:induction false} SameMeansEqualFolded(a: text, b: text)
    ensures Same(a, b) <==> Fold(a) == Fold(b)
  {
    if a != [] && b != [] {
      SameMeansEqualFolded(a[1..], b[1..]);
      assert Fold(a)[0] == LoCase(a[0]) && Fold(b)[0] == LoCase(b[0]);
      assert Fold(a)[1..] == Fold(a[1..]) && Fold(b)[1..] == Fold(b[1..]);
    }
  }

  lemma SameItself(a: text)
    ensures Same(a, a)
  {
    SameMeansEqualFolded(a, a);
  }

  /** Equal, or the same ASCII letter in the other case. */
  predicate SameLetter(c: chr, d: chr) {
    c == d || (65 <= c <= 90 && d == c + 32) || (97 <= c <= 122 && d == c - 32)
  }

  lemma LoCaseMeans(c: chr, d: chr)
    ensures LoCase(c) == LoCase(d) <==> SameLetter(c, d)
    ensures LoCase(c) == c <==> !(65 <= c <= 90)
  {
  }

  lemma {:induction false} FoldAt(a: text)
    ensures |Fold(a)| == |a| && forall k :: 0 <= k < |a| ==> Fold(a)[k] == LoCase(a[k])
  {
    if a != [] {
      FoldAt(a[1..]);
      hide LoCase;
    }
  }

  lemma FoldMeans(a: text, b: text)
    ensures Fold(a) == Fold(b) <==> |a| == |b| && forall k :: 0 <= k < |a| ==> SameLetter(a[k], b[k])
  {
    FoldAt(a);
    FoldAt(b);
    hide Fold, LoCase, SameLetter;
    if |a| == |b| {
      forall k | 0 <= k < |a| ensures SameLetter(a[k], b[k]) <==> Fold(a)[k] == Fold(b)[k] {
        LoCaseMeans(a[k], b[k]);
      }
    }
  }

  /** The strings agree up to case before place `k`, where the first one ends or has the smaller character. */
  ghost predicate FirstLess(a: text, b: text, k: nat) {
    && k <= |a| && k < |b| && (forall j :: 0 <= j < k ==> LoCase(a[j]) == LoCase(b[j]))
    && (k == |a| || Signed(LoCase(a[k])) < Signed(LoCase(b[k])))
  }

  lemma FirstLessRest(a: text, b: text, k: nat)
    requires a != [] && b != [] && LoCase(a[0]) == LoCase(b[0])
    ensures FirstLess(a, b, k + 1) <==> FirstLess(a[1..], b[1..], k)
    ensures !FirstLess(a, b, 0)
  {
    hide LoCase, Signed;
    if FirstLess(a[1..], b[1..], k) {
      forall j | 0 <= j < k + 1 ensures LoCase(a[j]) == LoCase(b[j]) {
        if j > 0 {
          assert a[1..][j - 1] == a[j] && b[1..][j - 1] == b[j];
        }
      }
    }
    if FirstLess(a, b, k + 1) {
      forall j | 0 <= j < k ensures LoCase(a[1..][j]) == LoCase(b[1..][j]) {
        assert a[1..][j] == a[j + 1] && b[1..][j] == b[j + 1];
      }
    }
  }

  lemma {:induction false} LessMeans(a: text, b: text)
    ensures Less(a, b) <==> exists k :: FirstLess(a, b, k)
  {
    hide LoCase, Signed;
    if a == [] {
      assert b != [] ==> FirstLess(a, b, 0);
    } else if b != [] && LoCase(a[0]) == LoCase(b[0]) {
      LessMeans(a[1..], b[1..]);
      if k: nat :| FirstLess(a[1..], b[1..], k) {
        FirstLessRest(a, b, k);
      }
      if k: nat :| FirstLess(a, b, k) {
        FirstLessRest(a, b, if k == 0 then 0 else k - 1);
        assert FirstLess(a[1..], b[1..], k - 1);
      }
    } else if b != [] {
      assert Signed(LoCase(a[0])) < Signed(LoCase(b[0])) ==> FirstLess(a, b, 0);
      forall k: nat ensures FirstLess(a, b, k) ==> k == 0 {
      }
    }
  }

  // ----- Writing

  /** Where the first line ends, for the writer: at a line feed. */
  function LineFeedAt(s: text): (k: nat)
    ensures k <= |s| && (k < |s| ==> s[k] == LF) && forall j :: 0 <= j < k ==> s[j] != LF
  {
    if s == [] || s[0] == LF then 0 else 1 + LineFeedAt(s[1..])
  }

  /** `OutputMultiLineText` of a string that is not empty. */
  function PrintLines(s: text, nl: text): text
    decreases |s|
  {
    var k := LineFeedAt(s);
    if k == |s| then s + nl else s[..k] + nl + PrintLines(s[k + 1..], nl)
  }

  /** `OutputMultiLineText` */
  function Printed(s: text, nl: text): text {
    if s == [] then [] else PrintLines(s, nl)
  }

  predicate IsMultiLineData(s: text) {
    s != [] && (IsSpace(s[0]) || (exists k :: 0 <= k < |s| && IsNewLineChar(s[k])) || IsSpace(s[|s| - 1]))
  }

  /** What `Save` writes for a value after the `=`, with `nl` the system's line break. */
  function Saved(s: text, nl: text): text {
    (if IsMultiLineData(s) then TagPrefix() + EndTag() + nl + Printed(s, nl) + EndTag() else s) + nl
  }

  /** The text with its line feeds as the system's line breaks. */
  function Expanded(s: text, nl: text): text {
    if s == [] then [] else (if s[0] == LF then nl else [s[0]]) + Expanded(s[1..], nl)
  }

  lemma {:induction false} ExpandedLine(s: text, nl: text)
    ensures var k := LineFeedAt(s);
            Expanded(s, nl) == if k == |s| then s else s[..k] + nl + Expanded(s[k + 1..], nl)
  {
    if s != [] && s[0] != LF {
      ExpandedLine(s[1..], nl);
      var k := LineFeedAt(s);
      assert s == [s[0]] + s[1..];
      if k < |s| {
        assert s[..k] == [s[0]] + s[1..][..k - 1] && s[1..][k..] == s[k + 1..];
      }
    }
  }

  lemma Regrouped<T>(a: seq<T>, b: seq<T>, c: seq<T>)
    ensures a + (b + c) == (a + b) + c
  {
  }

  lemma {:induction false} PrintLinesMeans(s: text, nl: text)
    ensures PrintLines(s, nl) == Expanded(s, nl) + nl
    decreases |s|
  {
    var k := LineFeedAt(s);
    ExpandedLine(s, nl);
    if k < |s| {
      PrintLinesMeans(s[k + 1..], nl);
      hide Expanded, LineFeedAt;
      Regrouped(s[..k] + nl, Expanded(s[k + 1..], nl), nl);
    }
  }

  /** Written as lines is what is not empty and has a blank or a line break at an end, or a line break anywhere. */
  ghost predicate NeedsLines(s: text) {
    && |s| > 0
    && (s[0] == 32 || s[0] == 9 || s[|s| - 1] == 32 || s[|s| - 1] == 9 || exists k :: 0 <= k < |s| && (s[k] == 10 || s[k] == 13))
  }

  /** What is written: the text on its line, or between `<<<END_OF_TEXT` and `END_OF_TEXT`. */
  lemma SavedMeans(s: text, nl: text)
    ensures Saved(s, nl) ==
            if NeedsLines(s) then
              [60, 60, 60, 69, 78, 68, 95, 79, 70, 95, 84, 69, 88, 84] + nl + Expanded(s, nl) + nl + [69, 78, 68, 95, 79, 70, 95, 84, 69, 88, 84] + nl
            else s + nl
  {
    NeedsLinesMeans(s);
    PrintLinesMeans(s, nl);
    assert TagPrefix() + EndTag() == [60, 60, 60, 69, 78, 68, 95, 79, 70, 95, 84, 69, 88, 84];
    hide PrintLines, Expanded, IsMultiLineData, NeedsLines;
    if s != [] {
      assert TagPrefix() + EndTag() + nl + Printed(s, nl) + EndTag() == TagPrefix() + EndTag() + nl + Expanded(s, nl) + nl + EndTag();
    }
  }

  lemma NeedsLinesMeans(s: text)
    ensures IsMultiLineData(s) <==> NeedsLines(s)
    ensures IsMultiLineData(s) ==> s != []
  {
    if IsMultiLineData(s) {
      assert IsNewLineChar(s[0]) ==> s[0] == 10 || s[0] == 13;
      assert s[|s| - 1] == 10 || s[|s| - 1] == 13 || s[|s| - 1] == 32 || s[|s| - 1] == 9 || !IsSpace(s[|s| - 1]);
    }
    if NeedsLines(s) && exists k :: 0 <= k < |s| && (s[k] == 10 || s[k] == 13) {
      var k :| 0 <= k < |s| && (s[k] == 10 || s[k] == 13);
      assert IsNewLineChar(s[k]);
    }
  }

  predicate IsLineBreak(nl: text) {
    nl == [LF] || nl == [CR, LF]
  }

  // ----- Reading lines up to the tag

  /** Where the first line ends, for the reader. */
  function LineEnd(s: text): (k: nat)
    ensures k <= |s| && (k < |s| ==> IsNewLineChar(s[k])) && forall j :: 0 <= j < k ==> !IsNewLineChar(s[j])
  {
    if s == [] || IsNewLineChar(s[0]) then 0 else 1 + LineEnd(s[1..])
  }

  /** `SkipNewLine`: where the line after the break at `k` starts. */
  function SkipNewLine(s: text, k: nat): (n: nat)
    requires k < |s|
    ensures k < n <= |s|
  {
    if s[k] == CR && k + 1 < |s| && s[k + 1] == LF then k + 2 else k + 1
  }

  /** Reading from a line's start: the text collected, up to and including the line break before the tag; whether the tag was
      found; and how much was read. */
  datatype Lines = Lines(collected: text, found: bool, consumed: nat)

  function ReadLines(s: text, tag: text): (r: Lines)
    ensures r.consumed <= |s|
    decreases |s|
  {
    var k := LineEnd(s);
    if Same(s[..k], tag) then Lines([], true, if k < |s| then SkipNewLine(s, k) else k)
    else if k == |s| then Lines(s, false, |s|)
    else
      var next := SkipNewLine(s, k);
      var rest := ReadLines(s[next..], tag);
      Lines(s[..k] + [LF] + rest.collected, rest.found, next + rest.consumed)
  }

  /** What `LoadMultiLineText` makes of the string from the first line on: no value when nothing was read; and when the first
      line is the tag, that line is put back, so the value runs on to the end of the string. */
  function Load(s: text, tag: text): (r: (Option<text>, nat))
    ensures r.1 <= |s|
  {
    var r := ReadLines(s, tag);
    if !r.found then (Some(r.collected), r.consumed)
    else if r.collected == [] then (if LineEnd(s) == 0 then None else Some(s), if LineEnd(s) == 0 then 0 else r.consumed)
    else (Some(r.collected[..|r.collected| - 1]), r.consumed)
  }

  predicate TagFirst(s: text, tag: text) {
    Same(s[..LineEnd(s)], tag)
  }

  /** The lines before the tag, or all lines if there is no tag. */
  function LinesBefore(s: text, tag: text): seq<text>
    decreases |s|
  {
    var k := LineEnd(s);
    if Same(s[..k], tag) then []
    else if k == |s| then [s]
    else [s[..k]] + LinesBefore(s[SkipNewLine(s, k)..], tag)
  }

  /** Lines with a line feed between each two. */
  function Join(lines: seq<text>): text {
    if lines == [] then [] else if |lines| == 1 then lines[0] else lines[0] + [LF] + Join(lines[1..])
  }

  lemma {:induction false} CollectedJoin(s: text, tag: text)
    ensures var r, lines := ReadLines(s, tag), LinesBefore(s, tag);
            && (TagFirst(s, tag) <==> lines == [])
            && (lines == [] ==> r.found && r.collected == [])
            && (lines != [] ==> r.collected == Join(lines) + if r.found then [LF] else [])
    decreases |s|
  {
    var k := LineEnd(s);
    hide Same, LineEnd;
    if !Same(s[..k], tag) && k < |s| {
      var rest := s[SkipNewLine(s, k)..];
      CollectedJoin(rest, tag);
      assert LinesBefore(s, tag)[1..] == LinesBefore(rest, tag);
      var r := ReadLines(rest, tag);
      if LinesBefore(rest, tag) != [] {
        assert s[..k] + [LF] + r.collected == s[..k] + [LF] + Join(LinesBefore(rest, tag)) + if r.found then [LF] else [];
      }
    }
  }

  /** The loader gives the lines before the tag if and only if there is any line before it. */
  lemma LinesLoaded(s: text, tag: text)
    ensures Load(s, tag).0 == Some(Join(LinesBefore(s, tag))) <==> !TagFirst(s, tag)
    ensures TagFirst(s, tag) ==> Load(s, tag).0 == if LineEnd(s) == 0 then None else Some(s)
  {
    CollectedJoin(s, tag);
    var r, lines := ReadLines(s, tag), LinesBefore(s, tag);
    hide Same, LineEnd, ReadLines, LinesBefore;
    assert TagFirst(s, tag) && LineEnd(s) > 0 ==> s != [] && Join(lines) == [] by {
      assert LineEnd(s) <= |s|;
    }
    assert Join(lines) + [] == Join(lines);
    if lines != [] && r.found {
      assert (Join(lines) + [LF])[..|Join(lines) + [LF]| - 1] == Join(lines);
    }
  }

  // ----- Round trip of the lines

  ghost predicate NoCr(s: text) {
    forall k :: 0 <= k < |s| ==> s[k] != CR
  }

  /** Some line of `s` would be taken for the end tag. */
  predicate HasTagLine(s: text, tag: text)
    decreases |s|
  {
    var k := LineFeedAt(s);
    Same(s[..k], tag) || (k < |s| && HasTagLine(s[k + 1..], tag))
  }

  /** What comes after the text in the file: the tag's line and whatever follows. */
  function Ending(nl: text, after: text): text {
    EndTag() + nl + after
  }

  /** A line without line breaks, followed by one. */
  lemma {:induction false} LineEndAt(line: text, rest: text)
    requires rest != [] && IsNewLineChar(rest[0]) && forall k :: 0 <= k < |line| ==> !IsNewLineChar(line[k])
    ensures LineEnd(line + rest) == |line|
  {
    assert (line + rest)[|line|] == rest[0];
    assert forall k :: 0 <= k < |line| ==> (line + rest)[k] == line[k];
  }

  lemma BreakAfterLine(line: text, nl: text, rest: text)
    requires IsLineBreak(nl) && forall k :: 0 <= k < |line| ==> !IsNewLineChar(line[k])
    ensures var s := line + nl + rest;
            LineEnd(s) == |line| && |line| < |s| && SkipNewLine(s, |line|) == |line| + |nl|
            && s[..|line|] == line && s[|line| + |nl|..] == rest
  {
    var s := line + nl + rest;
    assert s == line + (nl + rest);
    LineEndAt(line, nl + rest);
    assert s[|line|] == nl[0];
    assert |nl| == 2 ==> s[|line| + 1] == nl[1];
  }

  lemma TagHasNoBreak()
    ensures forall k :: 0 <= k < |EndTag()| ==> !IsNewLineChar(EndTag()[k]) && EndTag()[k] != 0
  {
  }

  lemma ReadEnding(nl: text, after: text)
    requires IsLineBreak(nl)
    ensures ReadLines(Ending(nl, after), EndTag()) == Lines([], true, |EndTag()| + |nl|)
  {
    TagHasNoBreak();
    SameItself(EndTag());
    hide Same, EndTag, ReadLines;
    ReadTagLine(EndTag(), nl, after, EndTag());
  }

  /** One step of reading what the writer printed. */
  lemma ReadPrintedLine(line: text, nl: text, rest: text, tag: text)
    requires IsLineBreak(nl) && !Same(line, tag) && forall k :: 0 <= k < |line| ==> !IsNewLineChar(line[k])
    ensures var r := ReadLines(rest, tag);
            ReadLines(line + nl + rest, tag) == Lines(line + [LF] + r.collected, r.found, |line| + |nl| + r.consumed)
  {
    BreakAfterLine(line, nl, rest);
    hide Same, LineEnd, SkipNewLine, IsNewLineChar;
  }

  lemma FirstLineHasNoBreak(s: text)
    requires NoCr(s)
    ensures forall k :: 0 <= k < LineFeedAt(s) ==> !IsNewLineChar(s[..LineFeedAt(s)][k])
  {
  }

  lemma {:induction false} ReadPrinted(s: text, nl: text, after: text)
    requires IsLineBreak(nl) && NoCr(s) && !HasTagLine(s, EndTag())
    ensures ReadLines(PrintLines(s, nl) + Ending(nl, after), EndTag())
            == Lines(s + [LF], true, |PrintLines(s, nl)| + |EndTag()| + |nl|)
    decreases |s|
  {
    hide ReadLines, IsLineBreak, Same, EndTag, Ending, LineFeedAt, IsNewLineChar;
    var k := LineFeedAt(s);
    FirstLineHasNoBreak(s);
    var ending := Ending(nl, after);
    if k == |s| {
      ReadEnding(nl, after);
      assert s[..k] == s;
      ReadPrintedLine(s, nl, ending, EndTag());
      assert s + [LF] + [] == s + [LF];
    } else {
      var rest := s[k + 1..];
      ReadPrinted(rest, nl, after);
      ReadPrintedLine(s[..k], nl, PrintLines(rest, nl) + ending, EndTag());
      Joined(s[..k], nl, PrintLines(rest, nl), ending);
      assert s[..k] + [LF] + (rest + [LF]) == s + [LF];
    }
  }

  lemma Joined(a: text, b: text, c: text, d: text)
    ensures (a + b + c) + d == a + b + (c + d)
  {
  }

  /** Reading never yields a carriage return. */
  lemma {:induction false} ReadNoCr(s: text, tag: text)
    ensures NoCr(ReadLines(s, tag).collected)
    decreases |s|
  {
    var k := LineEnd(s);
    hide Same;
    if !Same(s[..k], tag) && k < |s| {
      ReadNoCr(s[SkipNewLine(s, k)..], tag);
    }
  }

  /** A line that looks like the tag ends the text early. */
  lemma {:induction false} TagLineCutsShort(s: text, nl: text, after: text)
    requires IsLineBreak(nl) && NoCr(s) && HasTagLine(s, EndTag())
    ensures var r := ReadLines(PrintLines(s, nl) + Ending(nl, after), EndTag());
            r.found && |r.collected| <= |s|
    decreases |s|
  {
    hide ReadLines, IsLineBreak, Same, EndTag, Ending, LineFeedAt, IsNewLineChar;
    var k := LineFeedAt(s);
    FirstLineHasNoBreak(s);
    var ending := Ending(nl, after);
    var line := s[..k];
    if k < |s| {
      Joined(line, nl, PrintLines(s[k + 1..], nl), ending);
    } else {
      assert line == s;
    }
    var rest := if k < |s| then PrintLines(s[k + 1..], nl) + ending else ending;
    assert PrintLines(s, nl) + ending == line + nl + rest;
    if Same(line, EndTag()) {
      ReadTagLine(line, nl, rest, EndTag());
    } else {
      ReadPrintedLine(line, nl, rest, EndTag());
      TagLineCutsShort(s[k + 1..], nl, after);
    }
  }

  lemma ReadTagLine(line: text, nl: text, rest: text, tag: text)
    requires IsLineBreak(nl) && Same(line, tag) && forall k :: 0 <= k < |line| ==> !IsNewLineChar(line[k])
    ensures ReadLines(line + nl + rest, tag) == Lines([], true, |line| + |nl|)
  {
    BreakAfterLine(line, nl, rest);
    hide Same, LineEnd, SkipNewLine, IsNewLineChar;
  }

  lemma {:induction false} PrintedLonger(s: text, nl: text)
    requires IsLineBreak(nl)
    ensures |PrintLines(s, nl)| > |s|
    decreases |s|
  {
    var k := LineFeedAt(s);
    if k < |s| {
      PrintedLonger(s[k + 1..], nl);
    }
  }

  /** Reading the printed lines gives the text back, and stops right behind the tag's line, if and only if the text has no
      carriage return and no line that looks like the tag. */
  lemma LinesRoundTrip(s: text, nl: text, after: text)
    requires IsLineBreak(nl) && s != []
    ensures Load(Printed(s, nl) + Ending(nl, after), EndTag()) == (Some(s), |Printed(s, nl)| + |EndTag()| + |nl|)
            <==> NoCr(s) && !HasTagLine(s, EndTag())
    ensures Load(Printed(s, nl) + Ending(nl, after), EndTag()).0 == Some(s) ==> NoCr(s) && !HasTagLine(s, EndTag())
  {
    hide ReadLines, PrintLines, HasTagLine, EndTag, IsLineBreak, LineEnd, Ending;
    var whole := PrintLines(s, nl) + Ending(nl, after);
    PrintedLonger(s, nl);
    assert |whole| > |s|;
    if !NoCr(s) {
      ReadNoCr(whole, EndTag());
    } else if HasTagLine(s, EndTag()) {
      TagLineCutsShort(s, nl, after);
    } else {
      ReadPrinted(s, nl, after);
      assert (s + [LF])[..|s + [LF]| - 1] == s;
    }
  }

  // ----- A value on its line

  function LeadingSpaces(s: text): (v: nat)
    ensures v <= |s|
  {
    if s != [] && IsSpace(s[0]) && !IsNewLineChar(s[0]) then 1 + LeadingSpaces(s[1..]) else 0
  }

  function TrimRight(s: text): text {
    if s != [] && IsSpace(s[|s| - 1]) then TrimRight(s[..|s| - 1]) else s
  }

  predicate IsMultiLineTag(s: text) {
    TagPrefix() <= s
  }

  /** What `FindEntry` makes of the string behind the `=`: the value, and how much of the string it took. */
  function FindValue(s: text): (Option<text>, nat) {
    var v := LeadingSpaces(s);
    var e := v + LineEnd(s[v..]);
    var next := if e < |s| then SkipNewLine(s, e) else e;
    var value := TrimRight(s[v..e]);
    if IsMultiLineTag(value) then
      var (text, n) := Load(s[next..], value[3..]);
      (text, next + n)
    else (Some(value), next)
  }

  /** Whether a value survives being saved and loaded: lines must not look like the end tag or hold carriage returns, and a
      single line must not look like a start tag. */
  ghost predicate Survives(s: text) {
    if IsMultiLineData(s) then NoCr(s) && !HasTagLine(s, EndTag()) else !IsMultiLineTag(s)
  }

  ghost predicate PlainLine(s: text) {
    && (forall k :: 0 <= k < |s| ==> !IsNewLineChar(s[k]))
    && (s != [] ==> !IsSpace(s[0]) && !IsSpace(s[|s| - 1]))
  }

  /** A line without white space at its ends, behind at most one space, is found as it is. */
  lemma PlainLineFound(spaces: text, line: text, nl: text, rest: text)
    requires (spaces == [] || spaces == [32]) && PlainLine(line) && IsLineBreak(nl)
    ensures var s := spaces + line + nl + rest;
            var n := |spaces| + |line| + |nl|;
            && n <= |s| && s[n..] == rest
            && FindValue(s) == if IsMultiLineTag(line) then (Load(rest, line[3..]).0, n + Load(rest, line[3..]).1) else (Some(line), n)
  {
    hide Load, LineEnd, LeadingSpaces, SkipNewLine, IsMultiLineTag, TrimRight, IsLineBreak, PlainLine;
    SpacesSkipped(spaces, line, nl, rest);
    LineBounds(spaces, line, nl, rest);
    NothingTrimmed(line);
  }

  lemma NothingTrimmed(line: text)
    requires PlainLine(line)
    ensures TrimRight(line) == line
  {
  }

  lemma LineBounds(spaces: text, line: text, nl: text, rest: text)
    requires PlainLine(line) && IsLineBreak(nl)
    ensures var s := spaces + line + nl + rest;
            var v := |spaces|;
            var e := v + |line|;
            && e + |nl| <= |s| && LineEnd(s[v..]) == |line| && s[v..e] == line && SkipNewLine(s, e) == e + |nl| && s[e + |nl|..] == rest
  {
    var s, v := spaces + line + nl + rest, |spaces|;
    var e := v + |line|;
    BreakAfterLine(line, nl, rest);
    hide LineEnd, PlainLine;
    assert s[v..] == line + nl + rest;
    assert s[e] == nl[0] && (|nl| == 2 ==> s[e + 1] == nl[1]);
  }

  lemma SpacesSkipped(spaces: text, line: text, nl: text, rest: text)
    requires (spaces == [] || spaces == [32]) && PlainLine(line) && IsLineBreak(nl)
    ensures LeadingSpaces(spaces + line + nl + rest) == |spaces|
  {
    var s := spaces + line + nl + rest;
    var behind := line + nl + rest;
    assert LeadingSpaces(behind) == 0 by {
      assert line != [] ==> behind[0] == line[0];
      assert line == [] ==> behind[0] == nl[0];
    }
    if spaces == [] {
      assert s == behind;
    } else {
      assert s[0] == 32 && s[1..] == behind;
    }
  }

  ghost predicate Blank(s: text) {
    forall k :: 0 <= k < |s| ==> s[k] == 32 || s[k] == 9
  }

  lemma {:induction false} BlanksSkipped(blanks: text, s: text)
    requires Blank(blanks)
    ensures LeadingSpaces(blanks + s) == |blanks| + LeadingSpaces(s)
  {
    if blanks == [] {
      assert blanks + s == s;
    } else {
      BlanksSkipped(blanks[1..], s);
      assert (blanks + s)[0] == blanks[0] && (blanks + s)[1..] == blanks[1..] + s;
    }
  }

  lemma {:induction false} BlanksTrimmed(line: text, blanks: text)
    requires PlainLine(line) && Blank(blanks)
    ensures TrimRight(line + blanks) == line
    decreases |blanks|
  {
    if blanks == [] {
      assert line + blanks == line;
    } else {
      BlanksTrimmed(line, blanks[..|blanks| - 1]);
      assert (line + blanks)[..|line + blanks| - 1] == line + blanks[..|blanks| - 1];
      assert (line + blanks)[|line + blanks| - 1] == blanks[|blanks| - 1];
    }
  }

  /** Blanks around a value do not belong to it. */
  lemma BlanksAroundValue(before: text, line: text, behind: text, nl: text, rest: text)
    requires Blank(before) && PlainLine(line) && line != [] && Blank(behind) && IsLineBreak(nl)
    ensures var s := before + (line + behind + nl + rest);
            var n := |before| + |line| + |behind| + |nl|;
            && n <= |s| && s[n..] == rest
            && FindValue(s) == if IsMultiLineTag(line) then (Load(rest, line[3..]).0, n + Load(rest, line[3..]).1) else (Some(line), n)
  {
    hide Load, LineEnd, LeadingSpaces, SkipNewLine, IsMultiLineTag, TrimRight, IsLineBreak, PlainLine, Blank;
    BlanksSkipped(before, line + behind + nl + rest);
    StartsPlain(line, behind + nl + rest);
    assert line + (behind + nl + rest) == line + behind + nl + rest;
    ValueEnds(before, line, behind, nl, rest);
    BlanksTrimmed(line, behind);
  }

  lemma StartsPlain(line: text, rest: text)
    requires PlainLine(line) && line != []
    ensures LeadingSpaces(line + rest) == 0
  {
    assert (line + rest)[0] == line[0];
  }

  lemma ValueEnds(before: text, line: text, behind: text, nl: text, rest: text)
    requires PlainLine(line) && Blank(behind) && IsLineBreak(nl)
    ensures var s := before + (line + behind + nl + rest);
            var v := |before|;
            var e := v + |line| + |behind|;
            && e + |nl| <= |s| && LineEnd(s[v..]) == |line| + |behind| && s[v..e] == line + behind
            && SkipNewLine(s, e) == e + |nl| && s[e + |nl|..] == rest
  {
    var whole := line + behind;
    var s, v := before + (whole + nl + rest), |before|;
    var e := v + |whole|;
    assert forall k :: 0 <= k < |whole| ==> !IsNewLineChar(whole[k]);
    BreakAfterLine(whole, nl, rest);
    hide LineEnd, PlainLine, Blank;
    assert s[v..] == whole + nl + rest;
    assert s[e] == nl[0] && (|nl| == 2 ==> s[e + 1] == nl[1]);
  }

  lemma StartTagIsPlain()
    ensures PlainLine(TagPrefix() + EndTag()) && IsMultiLineTag(TagPrefix() + EndTag()) && (TagPrefix() + EndTag())[3..] == EndTag()
  {
  }

  /** Behind a line that is taken for a start tag, something is read or the value is lost. */
  lemma LoadTakesMore(rest: text, tag: text, s: text)
    requires |s| >= 3
    ensures Load(rest, tag) != (Some(s), 0)
  {
    hide Same;
    var r := ReadLines(rest, tag);
    if rest != [] {
      var k := LineEnd(rest);
      assert r.found || r.consumed > 0;
      assert k < |rest| ==> SkipNewLine(rest, k) > 0;
    }
  }

  /** Saving a value and loading it gives the value back, and the loader goes on right behind it, exactly for the values that
      survive; this holds for every value, both kinds of line breaks and whatever follows in the file. */
  lemma SavedRoundTrip(s: text, spaces: text, nl: text, after: text)
    requires (spaces == [] || spaces == [32]) && IsLineBreak(nl)
    ensures FindValue(spaces + Saved(s, nl) + after) == (Some(s), |spaces| + |Saved(s, nl)|) <==> Survives(s)
  {
    hide FindValue, Load, EndTag, HasTagLine, PrintLines, NoCr, IsLineBreak, IsNewLineChar, IsSpace;
    if IsMultiLineData(s) {
      var startTag := TagPrefix() + EndTag();
      StartTagIsPlain();
      var rest := Printed(s, nl) + Ending(nl, after);
      SavedLines(s, spaces, nl, after);
      PlainLineFound(spaces, startTag, nl, rest);
      LinesRoundTrip(s, nl, after);
    } else {
      SingleIsPlain(s);
      assert spaces + Saved(s, nl) + after == spaces + s + nl + after;
      PlainLineFound(spaces, s, nl, after);
      if IsMultiLineTag(s) {
        LoadTakesMore(after, s[3..], s);
      }
    }
  }

  lemma SavedLines(s: text, spaces: text, nl: text, after: text)
    requires IsMultiLineData(s)
    ensures spaces + Saved(s, nl) + after == spaces + (TagPrefix() + EndTag()) + nl + (Printed(s, nl) + Ending(nl, after))
    ensures |Saved(s, nl)| == |TagPrefix() + EndTag()| + |nl| + |Printed(s, nl)| + |EndTag()| + |nl|
  {
    hide EndTag, TagPrefix, Printed, IsMultiLineData;
  }

  lemma SingleIsPlain(s: text)
    requires !IsMultiLineData(s)
    ensures PlainLine(s)
  {
  }

  /** `<<<A`, then `A`, then `k=v` */
  function NoLinesBetweenTags(): text {
    [60, 60, 60, 65, LF, 65, LF, 107, 61, 118]
  }

  function TagA(): text { [60, 60, 60, 65] }

  function RestA(): text { [65, LF, 107, 61, 118] }

  lemma TagAIsPlain()
    ensures PlainLine(TagA()) && IsMultiLineTag(TagA()) && |TagA()| == 4 && TagA()[3..] == [65] && IsLineBreak([LF])
    ensures !IsMultiLineData(TagA())
  {
  }

  lemma NoLinesParts()
    ensures NoLinesBetweenTags() == [] + TagA() + [LF] + RestA() && NoLinesBetweenTags()[5..] == RestA()
  {
  }

  /** Between a start tag and its end tag right behind it there are no lines; the value found is the end tag and all that follows. */
  lemma NoLinesGiveTheRest()
    ensures LinesBefore(NoLinesBetweenTags()[5..], [65]) == [] && Join([]) == []
    ensures FindValue(NoLinesBetweenTags()) == (Some([65, LF, 107, 61, 118]), 7)
  {
    hide *;
    TagAIsPlain();
    NoLinesParts();
    TagThenRest();
    RestAIs();
    PlainLineFound([], TagA(), [LF], RestA());
  }

  /** The value `<<<A`, which is a single line, does not survive: it is read as the empty text at the end of a file, and otherwise as
      what follows it. */
  lemma StartTagAsValueIsLost()
    ensures !IsMultiLineData(TagA()) && !Survives(TagA())
    ensures FindValue(Saved(TagA(), [LF])) == (Some([]), 5)
    ensures FindValue(Saved(TagA(), [LF]) + RestA()) == (Some(RestA()), 7)
  {
    hide *;
    TagAIsPlain();
    TagASaved();
    PlainLineFound([], TagA(), [LF], []);
    NothingLoaded([65]);
    PlainLineFound([], TagA(), [LF], RestA());
    RestAIs();
    TagThenRest();
  }

  lemma TagASaved()
    ensures !Survives(TagA())
    ensures Saved(TagA(), [LF]) == [] + TagA() + [LF] + [] && Saved(TagA(), [LF]) + RestA() == [] + TagA() + [LF] + RestA()
  {
    TagAIsPlain();
    hide TagA, RestA, IsMultiLineData;
    assert Saved(TagA(), [LF]) == TagA() + [LF];
  }

  lemma RestAIs()
    ensures RestA() == [65, LF, 107, 61, 118]
  {
  }

  lemma NothingLoaded(tag: text)
    requires tag != []
    ensures Load([], tag) == (Some([]), 0)
  {
  }

  lemma TagThenRest()
    ensures IsLineBreak([LF]) && Join([]) == []
    ensures LinesBefore([65, LF, 107, 61, 118], [65]) == [] && Load([65, LF, 107, 61, 118], [65]) == (Some([65, LF, 107, 61, 118]), 2)
  {
    var rest := [65, LF, 107, 61, 118];
    SameItself([65]);
    assert rest == [65] + [LF] + [107, 61, 118];
    BreakAfterLine([65], [LF], [107, 61, 118]);
    ReadTagLine([65], [LF], [107, 61, 118], [65]);
    hide ReadLines, LineEnd, Same;
  }
}
