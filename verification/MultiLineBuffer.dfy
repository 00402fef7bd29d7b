/** SimpleIni's loader on its character buffer, with the pointers as indices: values are cut out and compacted in place
    (simpleini/SimpleIni.h). */
module MultiLineBuffer {
  import opened CombatEvents
  import opened MultiLine

  /** The string at index `i`: the characters before the next NUL. */
  function CString(b: text, i: nat): text
    requires i <= |b|
    decreases |b| - i
  {
    if i == |b| || b[i] == 0 then [] else [b[i]] + CString(b, i + 1)
  }

  lemma {:induction false} CStringIs(b: text, i: nat, j: nat)
    requires i <= j < |b| && b[j] == 0 && forall k :: i <= k < j ==> b[k] != 0
    ensures CString(b, i) == b[i..j]
    decreases j - i
  {
    if i < j {
      CStringIs(b, i + 1, j);
      assert b[i..j] == [b[i]] + b[i + 1..j];
    }
  }

  /** The next NUL from `i` on is at `z`. */
  ghost predicate EndsAt(b: text, i: nat, z: nat) {
    i <= z < |b| && b[z] == 0 && forall k :: i <= k < z ==> b[k] != 0
  }

  /** `IsLess` of two strings in the buffer. */
  method IsLess(b: array<chr>, i: nat, j: nat, ghost zi: nat, ghost zj: nat) returns (less: bool)
    requires EndsAt(b[..], i, zi) && EndsAt(b[..], j, zj)
    ensures less == Less(CString(b[..], i), CString(b[..], j))
  {
    ghost var s := b[..];
    var x, y := i, j;
    while b[x] != 0 && b[y] != 0
      invariant i <= x <= zi && j <= y <= zj
      invariant Less(CString(s, i), CString(s, j)) == Less(CString(s, x), CString(s, y))
      decreases zi - x
    {
      assert CString(s, x) == [s[x]] + CString(s, x + 1) && CString(s, y) == [s[y]] + CString(s, y + 1);
      assert CString(s, x)[1..] == CString(s, x + 1) && CString(s, y)[1..] == CString(s, y + 1);
      var cmp := Signed(LoCase(b[x])) - Signed(LoCase(b[y]));
      if cmp != 0 {
        return cmp < 0;
      }
      x, y := x + 1, y + 1;
    }
    return b[y] != 0;
  }

  /** The line's end: the next line break, or the end of the data. */
  method FindLineEnd(b: array<chr>, start: nat, ghost z: nat) returns (e: nat)
    requires EndsAt(b[..], start, z)
    ensures start <= e <= z && e - start == LineEnd(b[start..z])
  {
    e := start;
    while b[e] != 0 && !IsNewLineChar(b[e])
      invariant start <= e <= z
      invariant forall k :: start <= k < e ==> !IsNewLineChar(b[k])
      decreases z - e
    {
      e := e + 1;
    }
    LineEndIs(b[start..z], e - start);
  }

  lemma LineEndIs(s: text, k: nat)
    requires k <= |s| && (k < |s| ==> IsNewLineChar(s[k])) && forall j :: 0 <= j < k ==> !IsNewLineChar(s[j])
    ensures LineEnd(s) == k
  {
  }

  method SkipBreak(b: array<chr>, p: nat, ghost start: nat, ghost z: nat) returns (next: nat)
    requires start <= p < z < b.Length && b[z] == 0
    ensures p < next <= z && next - start == SkipNewLine(b[start..z], p - start)
  {
    next := p + if b[p] == CR && b[p + 1] == LF then 2 else 1;
  }

  /** Moves the line `[r, e)` down to `w`, and ends both with a NUL. */
  method PlaceLine(b: array<chr>, w: nat, r: nat, e: nat) returns (endOfLine: chr)
    requires w <= r <= e < b.Length
    modifies b
    ensures endOfLine == old(b[e]) && b[e] == 0 && b[w + (e - r)] == 0
    ensures b[w..w + (e - r)] == old(b[r..e])
    ensures b[..w] == old(b[..w]) && b[e + 1..] == old(b[e + 1..])
  {
    ghost var was := b[..];
    var n := e - r;
    if w < r {
      for k := 0 to n
        invariant forall i :: 0 <= i < w ==> b[i] == was[i]
        invariant forall i :: w <= i < w + k ==> b[i] == was[r + (i - w)]
        invariant forall i :: r + k <= i < b.Length ==> b[i] == was[i]
      {
        b[w + k] := b[r + k];
      }
      b[w + n] := 0;
    }
    endOfLine := b[e];
    b[e] := 0;
  }

  // ----- `LoadMultiLineText`

  ghost function Rest(was: text, r: nat, z: nat, tag: text): Lines
    requires r <= z <= |was|
  {
    ReadLines(was[r..z], tag)
  }

  ghost predicate NoZero(s: text) {
    forall k :: 0 <= k < |s| ==> s[k] != 0
  }

  /** Read up to `r`, written up to `w`: never past what was read, and never before the value's start. */
  ghost predicate Cursors(b: text, was: text, start: nat, w: nat, r: nat, z: nat) {
    && |b| == |was| && start <= w <= r <= z < |was| && EndsAt(was, start, z)
    && b[..start] == was[..start] && b[r..] == was[r..]
    && (w == start <==> r == start)
    && NoZero(b[start..w])
  }

  /** The text written so far and that of the lines to come make up the whole. */
  ghost predicate Accounted(done: text, was: text, start: nat, r: nat, z: nat, tag: text) {
    && start <= r <= z <= |was|
    && done + Rest(was, r, z, tag).collected == Rest(was, start, z, tag).collected
    && Rest(was, start, z, tag).found == Rest(was, r, z, tag).found
    && Rest(was, start, z, tag).consumed == r - start + Rest(was, r, z, tag).consumed
  }

  /** The state at the start of a line. */
  ghost predicate AtLine(b: text, was: text, start: nat, w: nat, r: nat, z: nat, tag: text) {
    Cursors(b, was, start, w, r, z) && Accounted(b[start..w], was, start, r, z, tag)
  }

  /** What `PlaceLine` did to the buffer. */
  ghost predicate Placed(after: text, before: text, w: nat, r: nat, e: nat) {
    && |after| == |before| && w <= r <= e < |before|
    && after[..w] == before[..w] && after[w..w + (e - r)] == before[r..e] && after[w + (e - r)] == 0 && after[e] == 0
    && after[e + 1..] == before[e + 1..]
  }

  lemma LineInPlace(after: text, before: text, was: text, start: nat, w: nat, r: nat, e: nat, z: nat)
    requires Cursors(before, was, start, w, r, z) && Placed(after, before, w, r, e) && e <= z
    ensures EndsAt(after, w, w + (e - r)) && CString(after, w) == was[r..e]
  {
    hide Rest;
    var n := e - r;
    forall k | w <= k < w + n ensures after[k] == was[r + (k - w)] && after[k] != 0 {
      assert after[k] == after[w..w + n][k - w] == before[r..e][k - w] == before[r..][k - w];
    }
    CStringIs(after, w, w + n);
    assert after[w..w + n] == was[r..e];
  }

  lemma TagUntouched(after: text, was: text, tag: nat, tagEnd: nat, start: nat, z: nat)
    requires EndsAt(was, tag, tagEnd) && tagEnd <= start <= z < |was| == |after| && (tagEnd == start ==> start == z)
    requires after[..start] == was[..start] && (start == z ==> after[z] == 0)
    ensures EndsAt(after, tag, tagEnd) && CString(after, tag) == CString(was, tag)
  {
    forall k | tag <= k < tagEnd ensures after[k] == was[k] {
      assert after[k] == after[..start][k] == was[..start][k];
    }
    if tagEnd < start {
      assert after[tagEnd] == after[..start][tagEnd] == was[..start][tagEnd];
    }
    CStringIs(was, tag, tagEnd);
    CStringIs(after, tag, tagEnd);
    assert after[tag..tagEnd] == was[tag..tagEnd];
  }

  /** Where the next line starts, or the end of the data. */
  ghost function After(was: text, start: nat, e: nat, z: nat): (next: nat)
    requires start <= e <= z <= |was|
    ensures e <= next <= z && (e < z ==> e < next)
  {
    if e < z then start + SkipNewLine(was[start..z], e - start) else e
  }

  /** How reading goes on from the line `[r, e)`. */
  lemma OneLine(was: text, r: nat, e: nat, z: nat, tag: text)
    requires r <= e <= z <= |was| && e - r == LineEnd(was[r..z])
    ensures var next := After(was, r, e, z);
            Rest(was, r, z, tag) ==
            if Same(was[r..e], tag) then Lines([], true, next - r)
            else if e == z then Lines(was[r..e], false, z - r)
            else
              var rest := Rest(was, next, z, tag);
              Lines(was[r..e] + [LF] + rest.collected, rest.found, next - r + rest.consumed)
  {
    hide Same, LineEnd, SkipNewLine, ReadLines;
    Slice(was, r, z, r, e);
    Slice(was, r, z, After(was, r, e, z), z);
    Unfolded(was[r..z], tag);
  }

  lemma Unfolded(s: text, tag: text)
    ensures var k := LineEnd(s);
            ReadLines(s, tag) ==
            if Same(s[..k], tag) then Lines([], true, if k < |s| then SkipNewLine(s, k) else k)
            else if k == |s| then Lines(s, false, |s|)
            else
              var next := SkipNewLine(s, k);
              var rest := ReadLines(s[next..], tag);
              Lines(s[..k] + [LF] + rest.collected, rest.found, next + rest.consumed)
  {
    hide Same, LineEnd, SkipNewLine;
  }

  /** The buffer after the line has been kept: the break is put back, and a line feed ends the moved line. */
  ghost function Kept(after: text, was: text, w: nat, r: nat, e: nat): text
    requires w <= r <= e < |after| == |was|
  {
    after[e := was[e]][w + (e - r) := LF]
  }

  lemma KeptFrame(after: text, before: text, was: text, start: nat, w: nat, r: nat, e: nat, next: nat)
    requires |was| == |before| && start <= w && Placed(after, before, w, r, e) && e < next <= |was|
    requires before[..start] == was[..start] && before[r..] == was[r..]
    ensures var b := Kept(after, was, w, r, e); b[..start] == was[..start] && b[next..] == was[next..] && b[..w] == before[..w]
  {
    var b := Kept(after, was, w, r, e);
    assert b[..w] == after[..w];
    assert b[..start] == b[..w][..start] && before[..start] == before[..w][..start];
    assert b[next..] == after[next..] == after[e + 1..][next - e - 1..];
    assert before[next..] == before[e + 1..][next - e - 1..];
    assert before[next..] == before[r..][next - r..] && was[next..] == was[r..][next - r..];
  }

  lemma KeptLine(after: text, before: text, was: text, w: nat, r: nat, e: nat)
    requires |was| == |before| && Placed(after, before, w, r, e) && before[r..] == was[r..]
    ensures var b := Kept(after, was, w, r, e); b[w..w + (e - r) + 1] == was[r..e] + [LF]
  {
    var b, n := Kept(after, was, w, r, e), e - r;
    assert b[w..w + n] == after[w..w + n];
    assert before[r..e] == before[r..][..n] && was[r..e] == was[r..][..n];
    assert b[w..w + n + 1] == b[w..w + n] + [b[w + n]];
  }

  lemma Parts(b: text, before: text, start: nat, w: nat, m: nat, line: text)
    requires start <= w <= m <= |b| && w <= |before| && b[..w] == before[..w] && b[w..m] == line
    ensures b[start..m] == before[start..w] + line
  {
    assert b[start..m] == b[start..w] + b[w..m];
    assert b[start..w] == b[..w][start..] && before[start..w] == before[..w][start..];
  }

  lemma NextAccounted(done: text, was: text, start: nat, r: nat, e: nat, z: nat, tag: text)
    requires Accounted(done, was, start, r, z, tag) && r <= e < z && e - r == LineEnd(was[r..z]) && !Same(was[r..e], tag)
    ensures Accounted(done + (was[r..e] + [LF]), was, start, After(was, r, e, z), z, tag)
  {
    OneLine(was, r, e, z, tag);
    hide Rest, LineEnd, Same, After;
    Grouped(done, was[r..e] + [LF], Rest(was, After(was, r, e, z), z, tag).collected);
  }

  lemma NextCursors(after: text, before: text, was: text, start: nat, w: nat, r: nat, e: nat, z: nat)
    requires Cursors(before, was, start, w, r, z) && Placed(after, before, w, r, e) && e < z
    ensures var b, m := Kept(after, was, w, r, e), w + (e - r) + 1;
            Cursors(b, was, start, m, After(was, r, e, z), z) && b[start..m] == before[start..w] + (was[r..e] + [LF])
  {
    var b, m, next := Kept(after, was, w, r, e), w + (e - r) + 1, After(was, r, e, z);
    var line := was[r..e] + [LF];
    KeptFrame(after, before, was, start, w, r, e, next);
    KeptLine(after, before, was, w, r, e);
    Parts(b, before, start, w, m, line);
    assert NoZero(was[r..e]) && NoZero(line);
    hide Kept, After, Placed;
    assert NoZero(before[start..w] + line);
  }

  lemma NextLine(after: text, before: text, was: text, start: nat, w: nat, r: nat, e: nat, z: nat, tag: text)
    requires AtLine(before, was, start, w, r, z, tag) && Placed(after, before, w, r, e) && e < z && e - r == LineEnd(was[r..z])
    requires !Same(was[r..e], tag)
    ensures AtLine(Kept(after, was, w, r, e), was, start, w + (e - r) + 1, After(was, r, e, z), z, tag)
  {
    NextCursors(after, before, was, start, w, r, e, z);
    NextAccounted(before[start..w], was, start, r, e, z, tag);
    hide Cursors, Accounted, Kept, After, Placed, Same, LineEnd;
  }

  lemma Grouped(a: text, b: text, c: text)
    ensures a + b + c == a + (b + c)
  {
  }

  /** How the loader leaves the buffer: the value's string starts at `start`, what is behind `next` is as it was, and so is what is
      before the value, except that the character right before it becomes a NUL exactly if the first line is the tag and not empty;
      without a value, only the first character is changed. */
  ghost predicate Loaded(b: text, was: text, start: nat, z: nat, tag: text, ok: bool, next: nat) {
    && 0 < start <= z < |was| == |b|
    && (var (value, n) := Load(was[start..z], tag);
        && ok == value.Some? && next == start + n
        && (ok ==> CString(b, start) == value.value && b[next..] == was[next..]))
    && (!ok ==> b == was[start := 0])
    && b[..start - 1] == was[..start - 1]
    && b[start - 1] == if LineEnd(was[start..z]) > 0 && TagFirst(was[start..z], tag) then 0 else was[start - 1]
  }

  lemma Prefixes(b: text, was: text, n: nat, m: nat)
    requires n <= m <= |b| && m <= |was| && b[..m] == was[..m]
    ensures b[..n] == was[..n]
  {
    assert b[..n] == b[..m][..n] && was[..n] == was[..m][..n];
  }

  lemma Suffixes(b: text, was: text, n: nat, m: nat)
    requires n <= m <= |b| == |was| && b[n..] == was[n..]
    ensures b[m..] == was[m..]
  {
    assert b[m..] == b[n..][m - n..] && was[m..] == was[n..][m - n..];
  }

  lemma BeforeValue(b: text, was: text, start: nat)
    requires 0 < start <= |b| == |was| && b[..start] == was[..start]
    ensures b[..start - 1] == was[..start - 1] && b[start - 1] == was[start - 1]
  {
    Prefixes(b, was, start - 1, start);
    assert b[start - 1] == b[..start][start - 1] && was[start - 1] == was[..start][start - 1];
  }

  lemma StringAt(b: text, start: nat, m: nat, value: text)
    requires start <= m < |b| && b[start..m] == value && NoZero(value) && b[m] == 0
    ensures CString(b, start) == value
  {
    assert forall k :: start <= k < m ==> b[k] == b[start..m][k - start];
    CStringIs(b, start, m);
  }

  lemma LoadToEnd(done: text, was: text, start: nat, r: nat, z: nat, tag: text)
    requires Accounted(done, was, start, r, z, tag) && z - r == LineEnd(was[r..z]) && !Same(was[r..z], tag)
    ensures Load(was[start..z], tag) == (Some(done + was[r..z]), z - start)
  {
    OneLine(was, r, z, z, tag);
    hide LineEnd, Same, ReadLines;
  }

  lemma LoadToTag(done: text, was: text, start: nat, r: nat, e: nat, z: nat, tag: text)
    requires Accounted(done, was, start, r, z, tag) && r <= e <= z && e - r == LineEnd(was[r..z]) && Same(was[r..e], tag) && done != []
    ensures Load(was[start..z], tag) == (Some(done[..|done| - 1]), After(was, r, e, z) - start)
  {
    OneLine(was, r, e, z, tag);
    assert done + [] == done;
    hide LineEnd, Same, ReadLines, After;
  }

  /** After a line that is not the tag, the first line was not the tag. */
  lemma NotTagFirst(done: text, was: text, start: nat, r: nat, e: nat, z: nat, tag: text)
    requires Accounted(done, was, start, r, z, tag) && r <= e <= z && e - r == LineEnd(was[r..z])
    requires done != [] || (r == start && !Same(was[r..e], tag))
    ensures !TagFirst(was[start..z], tag)
  {
    if done == [] {
      Slice(was, r, z, r, e);
    }
    hide LineEnd, Same;
  }

  /** The data ends with the line. */
  lemma LoadedAtEnd(after: text, before: text, was: text, start: nat, w: nat, r: nat, z: nat, tag: text)
    requires AtLine(before, was, start, w, r, z, tag) && Placed(after, before, w, r, z) && z - r == LineEnd(was[r..z])
    requires !Same(was[r..z], tag) && 0 < start
    ensures Loaded(after, was, start, z, tag, true, z)
  {
    LoadToEnd(before[start..w], was, start, r, z, tag);
    NotTagFirst(before[start..w], was, start, r, z, z, tag);
    EndString(after, before, was, start, w, r, z);
    hide Accounted, LineEnd, Same, CString, Load, TagFirst;
    Prefixes(after, before, start, w);
    BeforeValue(after, was, start);
    Suffixes(before, was, r, z + 1);
    assert after[z..] == [after[z]] + after[z + 1..] && was[z..] == [was[z]] + was[z + 1..];
  }

  lemma EndString(after: text, before: text, was: text, start: nat, w: nat, r: nat, z: nat)
    requires Cursors(before, was, start, w, r, z) && Placed(after, before, w, r, z)
    ensures CString(after, start) == before[start..w] + was[r..z]
  {
    var n, line := z - r, was[r..z];
    assert after[w..w + n] == line by {
      assert before[r..z] == before[r..][..n] && was[r..z] == was[r..][..n];
    }
    Parts(after, before, start, w, w + n, line);
    assert NoZero(line);
    assert NoZero(before[start..w] + line);
    StringAt(after, start, w + n, before[start..w] + line);
  }

  ghost function Cut(after: text, w: nat, e: nat, endOfLine: chr): text
    requires 0 < w <= |after| && e < |after|
  {
    after[w - 1 := 0][e := endOfLine]
  }

  lemma CutFrame(after: text, before: text, was: text, w: nat, r: nat, e: nat, z: nat, next: nat)
    requires |was| == |before| && 0 < w && Placed(after, before, w, r, e) && before[r..] == was[r..] && e <= z < |was| && was[z] == 0
    requires e <= next <= z && (e < z ==> e < next)
    ensures var b := Cut(after, w, e, was[e]); b[next..] == was[next..] && b[..w - 1] == before[..w - 1] && b[w - 1] == 0 && |b| == |was|
  {
    var b := Cut(after, w, e, was[e]);
    Suffixes(before, was, r, e + 1);
    assert b[e + 1..] == after[e + 1..];
    assert b[e..] == [was[e]] + b[e + 1..] && was[e..] == [was[e]] + was[e + 1..];
    Suffixes(b, was, e, next);
    assert b[..w - 1] == after[..w - 1];
    Prefixes(after, before, w - 1, w);
  }

  /** The tag comes after some lines: the line break before it becomes the value's end. */
  lemma LoadedAtTag(after: text, before: text, was: text, start: nat, w: nat, r: nat, e: nat, z: nat, tag: text)
    requires AtLine(before, was, start, w, r, z, tag) && Placed(after, before, w, r, e) && e <= z && e - r == LineEnd(was[r..z])
    requires Same(was[r..e], tag) && 0 < start < w
    ensures Loaded(Cut(after, w, e, was[e]), was, start, z, tag, true, After(was, r, e, z))
  {
    LoadToTag(before[start..w], was, start, r, e, z, tag);
    NotTagFirst(before[start..w], was, start, r, e, z, tag);
    CutFacts(after, before, was, start, w, r, e, z);
    hide Accounted, LineEnd, Same, Load, After, Placed, CString, Cut, EndsAt, NoZero, TagFirst;
  }

  lemma CutFacts(after: text, before: text, was: text, start: nat, w: nat, r: nat, e: nat, z: nat)
    requires Cursors(before, was, start, w, r, z) && Placed(after, before, w, r, e) && e <= z && 0 < start < w
    ensures var b, next := Cut(after, w, e, was[e]), After(was, r, e, z);
            && |b| == |was| && b[next..] == was[next..] && b[..start - 1] == was[..start - 1] && b[start - 1] == was[start - 1]
            && CString(b, start) == before[start..w][..w - start - 1]
  {
    var b, next := Cut(after, w, e, was[e]), After(was, r, e, z);
    CutFrame(after, before, was, w, r, e, z, next);
    hide After, Placed, CString, Cut, EndsAt;
    Prefixes(b, before, start, w - 1);
    BeforeValue(b, was, start);
    CutString(b, before, start, w);
  }

  lemma CutString(b: text, before: text, start: nat, w: nat)
    requires start < w <= |b| == |before| && b[..w - 1] == before[..w - 1] && NoZero(before[start..w]) && b[w - 1] == 0
    ensures CString(b, start) == before[start..w][..w - start - 1]
  {
    var value := before[start..w][..w - start - 1];
    assert b[start..w - 1] == value by {
      assert b[start..w - 1] == b[..w - 1][start..] && before[start..w - 1] == before[..w - 1][start..];
    }
    StringAt(b, start, w - 1, value);
  }

  /** The first line is the tag: the value is the line and all that follows, and the NUL lands before it. */
  lemma LoadedTagFirst(after: text, was: text, start: nat, e: nat, z: nat, tag: text)
    requires EndsAt(was, start, z) && Placed(after, was, start, start, e) && e <= z && e - start == LineEnd(was[start..z])
    requires Same(was[start..e], tag) && 0 < start
    ensures e == start ==> Loaded(after, was, start, z, tag, false, start)
    ensures e > start ==> Loaded(Cut(after, start, e, was[e]), was, start, z, tag, true, After(was, start, e, z))
  {
    hide Load, LineEnd, Same, CString, Loaded, After, Cut, TagFirst;
    LoadTagFirst(was, start, e, z, tag);
    if e == start {
      NothingLoaded(after, was, start, e, z, tag);
    } else {
      PutBack(after, was, start, e, z);
      WholeLoaded(Cut(after, start, e, was[e]), was, start, e, z, tag);
    }
  }

  lemma LoadTagFirst(was: text, start: nat, e: nat, z: nat, tag: text)
    requires start <= e <= z <= |was| && e - start == LineEnd(was[start..z]) && Same(was[start..e], tag)
    ensures Load(was[start..z], tag)
            == (if e == start then None else Some(was[start..z]), if e == start then 0 else After(was, start, e, z) - start)
    ensures TagFirst(was[start..z], tag)
  {
    OneLine(was, start, e, z, tag);
    assert was[start..z][..e - start] == was[start..e];
    hide LineEnd, Same, ReadLines, After;
  }

  lemma NothingLoaded(after: text, was: text, start: nat, e: nat, z: nat, tag: text)
    requires EndsAt(was, start, z) && Placed(after, was, start, start, e) && 0 < start && Load(was[start..z], tag) == (None, 0)
    requires e == start && LineEnd(was[start..z]) == 0
    ensures Loaded(after, was, start, z, tag, false, start)
  {
    BeforeValue(after, was, start);
    assert after == after[..start] + [after[start]] + after[start + 1..];
    assert was[start := 0] == was[..start] + [0] + was[start + 1..];
    hide Load, LineEnd, Same, CString;
  }

  /** With the line break back in its place the data is as it was, from the value's start on. */
  lemma PutBack(after: text, was: text, start: nat, e: nat, z: nat)
    requires EndsAt(was, start, z) && Placed(after, was, start, start, e) && start < e <= z && 0 < start
    ensures var b := Cut(after, start, e, was[e]);
            |b| == |was| && b[start..] == was[start..] && b[..start - 1] == was[..start - 1] && b[start - 1] == 0
  {
    var b := Cut(after, start, e, was[e]);
    BeforeValue(after, was, start);
    assert b[start..] == after[start..e] + [was[e]] + after[e + 1..];
    assert was[start..] == was[start..e] + [was[e]] + was[e + 1..];
    assert b[..start - 1] == after[..start - 1];
  }

  lemma WholeLoaded(b: text, was: text, start: nat, e: nat, z: nat, tag: text)
    requires EndsAt(was, start, z) && 0 < start < e <= z && |b| == |was|
    requires b[start..] == was[start..] && b[..start - 1] == was[..start - 1] && b[start - 1] == 0
    requires Load(was[start..z], tag) == (Some(was[start..z]), After(was, start, e, z) - start)
    requires TagFirst(was[start..z], tag) && LineEnd(was[start..z]) > 0
    ensures Loaded(b, was, start, z, tag, true, After(was, start, e, z))
  {
    assert b[z] == b[start..][z - start] == was[start..][z - start];
    assert b[start..z] == was[start..z] by {
      assert b[start..z] == b[start..][..z - start] && was[start..z] == was[start..][..z - start];
    }
    assert NoZero(was[start..z]);
    StringAt(b, start, z, was[start..z]);
    Suffixes(b, was, start, After(was, start, e, z));
    hide Load, LineEnd, Same, CString, After, TagFirst;
  }

  /** `LoadMultiLineText` for a value: the tag is the string at `tag`, the lines start at `data`. */
  method LoadMultiLineText(b: array<chr>, data: nat, tag: nat, ghost tagEnd: nat, ghost z: nat) returns (ok: bool, next: nat)
    requires 0 < data && EndsAt(b[..], data, z) && EndsAt(b[..], tag, tagEnd) && tagEnd <= data && (tagEnd == data ==> data == z)
    modifies b
    ensures Loaded(b[..], old(b[..]), data, z, old(CString(b[..], tag)), ok, next)
  {
    ghost var was, tagText := b[..], CString(b[..], tag);
    hide *;
    var pDataLine, pData := data, data;
    AtFirstLine(was, data, z, tagText);
    while true
      invariant AtLine(b[..], was, data, pDataLine, pData, z, tagText)
      decreases z - pData
    {
      ghost var before := b[..];
      var pCurrLine := pData;
      CursorsOf(before, was, data, pDataLine, pCurrLine, z, tagText);
      var cEndOfLineChar;
      pData, cEndOfLineChar := ReadLine(b, was, data, pDataLine, pCurrLine, z);
      ghost var after := b[..];
      var isTag := IsTagLine(b, was, before, data, pDataLine, pCurrLine, pData, z, tag, tagEnd);
      if isTag {
        ok, next := FinishAtTag(b, was, before, data, pDataLine, pCurrLine, pData, cEndOfLineChar, z, tagText);
        return;
      }
      if cEndOfLineChar == 0 {
        LoadedAtEnd(after, before, was, data, pDataLine, pCurrLine, z, tagText);
        return true, pData;
      }
      pDataLine, pData := KeepLine(b, was, before, data, pDataLine, pCurrLine, pData, cEndOfLineChar, z, tagText);
    }
  }

  /** The part of `LoadMultiLineText` behind its loop, with the tag found in the line `[r, e)`. */
  method FinishAtTag(b: array<chr>, ghost was: text, ghost before: text, start: nat, w: nat, ghost r: nat, e: nat, endOfLine: chr,
                     ghost z: nat, ghost tag: text) returns (ok: bool, next: nat)
    requires AtLine(before, was, start, w, r, z, tag) && Placed(b[..], before, w, r, e) && e <= z && e - r == LineEnd(was[r..z])
    requires Same(was[r..e], tag) && 0 < start && endOfLine == was[e] && (endOfLine == 0 <==> e == z) && b[e] == 0 && b[..][e + 1..] == was[e + 1..]
    modifies b
    ensures Loaded(b[..], was, start, z, tag, ok, next)
  {
    ghost var after := b[..];
    hide *;
    CursorsOf(before, was, start, w, r, z, tag);
    if start == e {
      LoadedTagFirst(after, was, start, e, z, tag);
      return false, start;
    }
    next := CutValue(b, was, w, r, e, endOfLine, z);
    if w == start {
      LoadedTagFirst(after, was, start, e, z, tag);
    } else {
      LoadedAtTag(after, before, was, start, w, r, e, z, tag);
    }
    ok := true;
  }

  lemma AtFirstLine(was: text, data: nat, z: nat, tag: text)
    requires EndsAt(was, data, z)
    ensures AtLine(was, was, data, data, data, z, tag)
  {
    assert was[data..data] + Rest(was, data, z, tag).collected == Rest(was, data, z, tag).collected;
    hide Rest;
  }

  lemma CursorsOf(before: text, was: text, start: nat, w: nat, r: nat, z: nat, tag: text)
    requires AtLine(before, was, start, w, r, z, tag)
    ensures Cursors(before, was, start, w, r, z) && start <= w <= r <= z < |was| == |before| && EndsAt(was, start, z)
    ensures (w == start <==> r == start) && was[z] == 0
    ensures w == start ==> before == was
  {
    hide Accounted;
    if w == start {
      assert before == before[..start] + before[start..] && was == was[..start] + was[start..];
    }
  }

  /** The line at `r`: its end is found and it is moved to where the value goes on. */
  method ReadLine(b: array<chr>, ghost was: text, ghost start: nat, w: nat, r: nat, ghost z: nat) returns (e: nat, endOfLine: chr)
    requires Cursors(b[..], was, start, w, r, z)
    modifies b
    ensures r <= e <= z < |was| && e - r == LineEnd(was[r..z]) && Placed(b[..], old(b[..]), w, r, e)
    ensures endOfLine == was[e] && (endOfLine == 0 <==> e == z) && b[e] == 0 && b[..][e + 1..] == was[e + 1..]
  {
    StillEnds(b[..], was, start, w, r, z);
    ghost var before := b[..];
    e := FindLineEnd(b, r, z);
    endOfLine := PlaceLine(b, w, r, e);
    hide LineEnd, EndsAt;
    assert before[e] == before[r..][e - r] == was[r..][e - r];
    assert endOfLine == 0 <==> e == z by {
      CharAt(was, start, e, z);
    }
    Suffixes(before, was, r, e + 1);
  }

  lemma CharAt(was: text, start: nat, e: nat, z: nat)
    requires EndsAt(was, start, z) && start <= e <= z
    ensures was[e] == 0 <==> e == z
  {
  }

  lemma AfterFromLineEnd(b: text, was: text, r: nat, e: nat, z: nat)
    requires r <= e < z < |was| == |b| && b[e..] == was[e..]
    ensures After(was, r, e, z) == e + SkipNewLine(b[e..z], 0)
  {
    assert b[e..z] == b[e..][..z - e] && was[e..z] == was[e..][..z - e];
    assert was[r..z][e - r] == was[e..z][0];
    assert e + 1 < z ==> was[r..z][e + 1 - r] == was[e..z][1];
  }

  /** Puts the line break back and goes to the next line. */
  method RestoreBreak(b: array<chr>, ghost was: text, ghost r: nat, e: nat, endOfLine: chr, ghost z: nat) returns (next: nat)
    requires r <= e < z < |was| == b.Length && endOfLine == was[e] && was[z] == 0 && b[..][e + 1..] == was[e + 1..]
    modifies b
    ensures b[..] == old(b[..])[e := was[e]] && next == After(was, r, e, z) && e < next
  {
    ghost var after := b[..];
    b[e] := endOfLine;
    assert b[..][e..] == was[e..] by {
      assert b[..][e + 1..] == after[e + 1..];
    }
    AfterFromLineEnd(b[..], was, r, e, z);
    assert b[z] == b[..][e..][z - e] == 0;
    hide After;
    next := SkipBreak(b, e, e, z);
  }

  /** The value ends before the tag; reading goes on behind the tag's line. */
  method CutValue(b: array<chr>, ghost was: text, w: nat, ghost r: nat, e: nat, endOfLine: chr, ghost z: nat) returns (next: nat)
    requires 0 < w <= r <= e <= z < |was| == b.Length && endOfLine == was[e] && (endOfLine == 0 <==> e == z) && was[z] == 0
    requires b[e] == 0 && b[..][e + 1..] == was[e + 1..]
    modifies b
    ensures b[..] == Cut(old(b[..]), w, e, was[e]) && next == After(was, r, e, z)
  {
    ghost var after := b[..];
    b[w - 1] := 0;
    next := e;
    if endOfLine != 0 {
      assert b[..][e + 1..] == after[e + 1..];
      next := RestoreBreak(b, was, r, e, endOfLine, z);
    }
  }

  /** The line stays: its break becomes a line feed behind the moved line. */
  method KeepLine(b: array<chr>, ghost was: text, ghost before: text, ghost start: nat, w: nat, r: nat, e: nat, endOfLine: chr,
                  ghost z: nat, ghost tag: text) returns (w': nat, next: nat)
    requires AtLine(before, was, start, w, r, z, tag) && Placed(b[..], before, w, r, e) && e < z && e - r == LineEnd(was[r..z])
    requires !Same(was[r..e], tag) && endOfLine == was[e] && b[..][e + 1..] == was[e + 1..]
    modifies b
    ensures AtLine(b[..], was, start, w', next, z, tag) && r < next
  {
    ghost var after := b[..];
    assert w <= r <= e;
    hide AtLine, Placed, Same, LineEnd, EndsAt, After;
    NextLine(after, before, was, start, w, r, e, z, tag);
    CursorsOf(before, was, start, w, r, z, tag);
    next := RestoreBreak(b, was, r, e, endOfLine, z);
    w' := w + (e - r);
    b[w'] := LF;
    assert b[..] == Kept(after, was, w, r, e);
    w' := w' + 1;
  }

  lemma StillEnds(before: text, was: text, start: nat, w: nat, r: nat, z: nat)
    requires Cursors(before, was, start, w, r, z)
    ensures EndsAt(before, r, z) && before[r..z] == was[r..z]
  {
    assert before[r..z] == before[r..][..z - r] && was[r..z] == was[r..][..z - r];
    forall k | r <= k <= z ensures before[k] == was[k] {
      assert before[k] == before[r..][k - r] && was[k] == was[r..][k - r];
    }
  }

  method IsTagLine(b: array<chr>, ghost was: text, ghost before: text, ghost start: nat, w: nat, ghost r: nat, ghost e: nat, ghost z: nat,
                   tag: nat, ghost tagEnd: nat) returns (isTag: bool)
    requires Cursors(before, was, start, w, r, z) && Placed(b[..], before, w, r, e) && e <= z
    requires EndsAt(was, tag, tagEnd) && tagEnd <= start && (tagEnd == start ==> start == z)
    ensures isTag == Same(was[r..e], CString(was, tag))
  {
    LineInPlace(b[..], before, was, start, w, r, e, z);
    Prefixes(b[..], before, start, w);
    TagUntouched(b[..], was, tag, tagEnd, start, z);
    var less := IsLess(b, w, tag, w + (e - r), tagEnd);
    var greater := IsLess(b, tag, w, tagEnd, w + (e - r));
    isTag := !less && !greater;
  }

  // ----- The value part of `FindEntry`

  /** How the loader leaves the buffer behind the `=` at `start - 1`. */
  ghost predicate Found(b: text, was: text, start: nat, z: nat, ok: bool, val: nat, next: nat) {
    && start <= z < |was| == |b|
    && (var (value, n) := FindValue(was[start..z]);
        && ok == value.Some?
        && (ok ==> val <= |b| && CString(b, val) == value.value && next == start + n && b[next..] == was[next..]))
  }

  method SkipSpaces(b: array<chr>, start: nat, ghost z: nat) returns (p: nat)
    requires EndsAt(b[..], start, z)
    ensures start <= p <= z && p - start == LeadingSpaces(b[start..z])
  {
    p := start;
    assert b[start..z][0..] == b[start..z];
    while b[p] != 0 && !IsNewLineChar(b[p]) && IsSpace(b[p])
      invariant start <= p <= z
      invariant LeadingSpaces(b[start..z]) == p - start + LeadingSpaces(b[p..z])
      decreases z - p
    {
      assert b[p..z][1..] == b[p + 1..z];
      p := p + 1;
    }
  }

  /** From the line's end backwards, not further than the value's start. */
  method SkipSpacesBack(b: array<chr>, val: nat, e: nat) returns (trail: nat)
    requires val <= e <= b.Length
    ensures val <= trail <= e && b[val..trail] == TrimRight(b[val..e])
  {
    trail := e;
    while trail > val && IsSpace(b[trail - 1])
      invariant val <= trail <= e && TrimRight(b[val..e]) == TrimRight(b[val..trail])
    {
      assert b[val..trail][..trail - val - 1] == b[val..trail - 1];
      trail := trail - 1;
    }
  }

  method IsMultiLineTagAt(b: array<chr>, val: nat, ghost trail: nat) returns (isTag: bool)
    requires EndsAt(b[..], val, trail)
    ensures isTag == IsMultiLineTag(b[val..trail])
  {
    ghost var value := b[val..trail];
    assert forall k :: val <= k < trail ==> b[k] == value[k - val];
    if b[val] != 60 {
      return false;
    }
    if b[val + 1] != 60 {
      return false;
    }
    if b[val + 2] != 60 {
      return false;
    }
    assert value[..3] == TagPrefix();
    return true;
  }

  /** `FindValue` in terms of the indices that the loader computes. */
  lemma ValueLine(was: text, start: nat, z: nat, val: nat, e: nat, next: nat)
    requires start <= val <= e <= next <= z <= |was|
    requires val - start == LeadingSpaces(was[start..z]) && e - val == LineEnd(was[val..z])
    requires next - start == if e < z then SkipNewLine(was[start..z], e - start) else e - start
    ensures var value := TrimRight(was[val..e]);
            FindValue(was[start..z])
            == if IsMultiLineTag(value) then (var (text, n) := Load(was[next..z], value[3..]); (text, next - start + n))
               else (Some(value), next - start)
  {
    hide Load, LeadingSpaces, LineEnd, SkipNewLine, TrimRight, IsMultiLineTag;
    Slice(was, start, z, val, e);
    Slice(was, start, z, val, z);
    Slice(was, start, z, next, z);
  }

  lemma Slice(s: text, a: nat, z: nat, i: nat, j: nat)
    requires a <= i <= j <= z <= |s|
    ensures s[a..z][i - a..j - a] == s[i..j] && s[a..z][i - a..] == s[i..z]
  {
    var t := s[a..z];
    assert |t[i - a..j - a]| == |s[i..j]|;
    forall k | 0 <= k < j - i ensures t[i - a..j - a][k] == s[i..j][k] {
      assert t[i - a + k] == s[i + k];
    }
    assert t[i - a..j - a] == s[i..j];
    assert t[i - a..] == s[i..z];
  }

  /** The value's end is marked: behind the line nothing changes. */
  lemma Marked(was: text, start: nat, z: nat, val: nat, trail: nat, next: nat)
    requires EndsAt(was, start, z) && start <= val <= trail <= next <= z && (trail < next || trail == z)
    ensures var b := was[trail := 0];
            && EndsAt(b, val, trail) && b[val..trail] == was[val..trail] && CString(b, val) == was[val..trail]
            && EndsAt(b, next, z) && b[next..] == was[next..] && b[next..z] == was[next..z]
    ensures trail - val >= 3 ==> EndsAt(was[trail := 0], val + 3, trail) && CString(was[trail := 0], val + 3) == was[val..trail][3..]
  {
    var b := was[trail := 0];
    CStringIs(b, val, trail);
    if trail - val >= 3 {
      CStringIs(b, val + 3, trail);
      assert was[val..trail][3..] == b[val + 3..trail];
    }
  }

  lemma LoadedIsFound(b: text, marked: text, was: text, start: nat, z: nat, data: nat, tag: text, ok: bool, next: nat)
    requires EndsAt(was, start, z) && start <= data <= z && |marked| == |was| && marked[data..] == was[data..] && marked[data..z] == was[data..z]
    requires Loaded(b, marked, data, z, tag, ok, next)
    requires FindValue(was[start..z]) == (Load(was[data..z], tag).0, data - start + Load(was[data..z], tag).1)
    ensures Found(b, was, start, z, ok, data, next)
  {
    hide FindValue, Load, Same, LineEnd, CString;
    if ok {
      Suffixes(marked, was, data, next);
    }
  }

  /** Cuts the value out of its line. */
  method CutLine(b: array<chr>, start: nat, ghost z: nat) returns (val: nat, trail: nat, next: nat)
    requires EndsAt(b[..], start, z)
    modifies b
    ensures start <= val <= trail <= next <= z && (trail < next || trail == z)
    ensures b[..] == old(b[..])[trail := 0]
    ensures var was, value := old(b[..]), old(b[..])[val..trail];
            FindValue(was[start..z])
            == if IsMultiLineTag(value) then (var (text, n) := Load(was[next..z], value[3..]); (text, next - start + n))
               else (Some(value), next - start)
  {
    hide *;
    ghost var was := b[..];
    val := SkipSpaces(b, start, z);
    EndsLater(was, start, val, z);
    next := FindLineEnd(b, val, z);
    var e := next;
    CharAt(was, start, e, z);
    if b[next] != 0 {
      next := SkipBreak(b, next, start, z);
    }
    trail := SkipSpacesBack(b, val, e);
    ValueLine(was, start, z, val, e, next);
    b[trail] := 0;
  }

  lemma EndBounds(was: text, i: nat, z: nat)
    requires EndsAt(was, i, z)
    ensures i <= z < |was| && was[z] == 0
  {
  }

  lemma EndsLater(was: text, start: nat, i: nat, z: nat)
    requires EndsAt(was, start, z) && start <= i <= z
    ensures EndsAt(was, i, z) && z < |was| && was[z] == 0
  {
  }

  method FindValueAt(b: array<chr>, start: nat, ghost z: nat) returns (ok: bool, val: nat, next: nat)
    requires 0 < start && EndsAt(b[..], start, z)
    modifies b
    ensures Found(b[..], old(b[..]), start, z, ok, val, next)
  {
    EndsLater(b[..], start, start, z);
    hide *;
    ghost var was := b[..];
    var trail;
    val, trail, next := CutLine(b, start, z);
    ghost var marked := b[..];
    Marked(was, start, z, val, trail, next);
    var isTag := IsMultiLineTagAt(b, val, trail);
    ok := true;
    if isTag {
      var data := next;
      TagIsLong(was[val..trail]);
      ok, next := LoadLines(b, was, start, next, val + 3, trail, z);
      val := data;
    } else {
      PlainFound(marked, was, start, z, val, trail, next);
    }
  }

  /** Loads the lines behind a start tag. */
  method LoadLines(b: array<chr>, ghost was: text, ghost start: nat, data: nat, tag: nat, ghost tagEnd: nat, ghost z: nat)
    returns (ok: bool, next: nat)
    requires 0 < start <= data && EndsAt(was, start, z) && EndsAt(b[..], data, z) && EndsAt(b[..], tag, tagEnd)
    requires tagEnd <= data && (tagEnd == data ==> data == z) && |was| == b.Length && b[data..] == was[data..] && b[data..z] == was[data..z]
    requires var (text, n) := Load(was[data..z], CString(b[..], tag)); FindValue(was[start..z]) == (text, data - start + n)
    modifies b
    ensures Found(b[..], was, start, z, ok, data, next)
  {
    hide *;
    ghost var marked := b[..];
    EndBounds(marked, data, z);
    EndBounds(marked, tag, tagEnd);
    ok, next := LoadMultiLineText(b, data, tag, tagEnd, z);
    LoadedIsFound(b[..], marked, was, start, z, data, CString(marked, tag), ok, next);
  }

  lemma TagIsLong(value: text)
    requires IsMultiLineTag(value)
    ensures |value| >= 3
  {
  }

  lemma PlainFound(b: text, was: text, start: nat, z: nat, val: nat, trail: nat, next: nat)
    requires start <= val <= trail <= next <= z < |was| == |b| && b[next..] == was[next..] && CString(b, val) == was[val..trail]
    requires FindValue(was[start..z]) == (Some(was[val..trail]), next - start)
    ensures Found(b, was, start, z, true, val, next)
  {
    hide FindValue, CString;
  }

  // ----- `OutputMultiLineText`

  method StringFrom(b: array<chr>, i: nat, ghost z: nat) returns (s: text)
    requires EndsAt(b[..], i, z)
    ensures s == CString(b[..], i)
  {
    var k := i;
    s := [];
    while b[k] != 0
      invariant i <= k <= z && s == b[i..k]
      decreases z - k
    {
      s := s + [b[k]];
      k := k + 1;
    }
    CStringIs(b[..], i, k);
  }

  /** The next line, with a NUL put at its end for the time of its conversion. */
  method ConvertLine(b: array<chr>, p: nat, ghost z: nat) returns (line: text, e: nat, endOfLine: chr)
    requires EndsAt(b[..], p, z)
    modifies b
    ensures b[..] == old(b[..]) && p <= e <= z && line == b[p..e] && endOfLine == b[e]
    ensures (endOfLine == 0 <==> e == z) && (e < z ==> b[e] == LF) && forall k :: p <= k < e ==> b[k] != LF
  {
    ghost var was := b[..];
    e := p;
    while b[e] != 0 && b[e] != LF
      invariant p <= e <= z && forall k :: p <= k < e ==> b[k] != LF
      decreases z - e
    {
      e := e + 1;
    }
    endOfLine := b[e];
    b[e] := 0;
    line := StringFrom(b, p, e);
    CStringIs(b[..], p, e);
    b[e] := endOfLine;
    assert b[..] == was;
  }

  method OutputMultiLineText(b: array<chr>, start: nat, nl: text, ghost z: nat) returns (output: text)
    requires EndsAt(b[..], start, z)
    modifies b
    ensures output == Printed(old(b[start..z]), nl) && b[..] == old(b[..])
  {
    hide *;
    ghost var was := b[..];
    EndBounds(was, start, z);
    output := [];
    var pText := start;
    var cEndOfLineChar := b[pText];
    NothingPrinted(was, start, z, nl);
    while cEndOfLineChar != 0
      invariant start <= pText <= z + 1 && b[..] == was && (cEndOfLineChar != 0 ==> pText <= z)
      invariant Printed(was[start..z], nl) == if cEndOfLineChar != 0 then output + PrintLines(was[pText..z], nl) else output
      decreases z + 1 - pText
    {
      var line, pEndOfLine;
      EndsLater(was, start, pText, z);
      line, pEndOfLine, cEndOfLineChar := ConvertLine(b, pText, z);
      OneMoreLine(was, pText, pEndOfLine, z, nl, output);
      pText := pEndOfLine + 1;
      output := output + line;
      output := output + nl;
    }
  }

  lemma NothingPrinted(was: text, start: nat, z: nat, nl: text)
    requires EndsAt(was, start, z)
    ensures Printed(was[start..z], nl) == if was[start] != 0 then [] + PrintLines(was[start..z], nl) else []
  {
    assert was[start] != 0 ==> was[start..z][0] == was[start];
    hide PrintLines;
  }

  lemma OneMoreLine(was: text, p: nat, e: nat, z: nat, nl: text, output: text)
    requires p <= e <= z < |was| && (e < z ==> was[e] == LF) && forall k :: p <= k < e ==> was[k] != LF
    ensures output + PrintLines(was[p..z], nl)
            == if e < z then output + was[p..e] + nl + PrintLines(was[e + 1..z], nl) else output + was[p..e] + nl
  {
    hide *;
    var rest := if e < z then PrintLines(was[e + 1..z], nl) else [];
    LineFeedIs(was[p..z], e - p);
    Slice(was, p, z, p, e);
    if e < z {
      Slice(was, p, z, e + 1, z);
    }
    PrintOne(was[p..z], e - p, nl);
    Appending(output, was[p..e], nl, rest);
  }

  lemma LineFeedIs(s: text, k: nat)
    requires k <= |s| && (k < |s| ==> s[k] == LF) && forall j :: 0 <= j < k ==> s[j] != LF
    ensures LineFeedAt(s) == k
  {
  }

  lemma PrintOne(s: text, k: nat, nl: text)
    requires LineFeedAt(s) == k
    ensures PrintLines(s, nl) == s[..k] + nl + if k < |s| then PrintLines(s[k + 1..], nl) else []
  {
    hide LineFeedAt;
    if k == |s| {
      assert s[..k] == s;
    }
  }

  lemma Appending(output: text, line: text, nl: text, rest: text)
    ensures output + (line + nl + rest) == output + line + nl + rest
    ensures output + line + nl + [] == output + line + nl
  {
  }

  /** In the buffer: what was saved behind the `=` is found again, with the loader right behind it, exactly if the value
      survives. */
  lemma BufferRoundTrip(b: text, was: text, start: nat, z: nat, ok: bool, val: nat, next: nat, s: text, spaces: text, nl: text, after: text)
    requires Found(b, was, start, z, ok, val, next) && (spaces == [] || spaces == [32]) && IsLineBreak(nl)
    requires was[start..z] == spaces + Saved(s, nl) + after
    ensures (ok && val <= |b| && CString(b, val) == s && next == start + |spaces| + |Saved(s, nl)|) <==> Survives(s)
  {
    hide FindValue, CString, Saved, Survives, IsLineBreak;
    SavedRoundTrip(s, spaces, nl, after);
  }

  /** `=<<<A`, then `A`, then `k=v`, with the other kind of line breaks, and the NUL at its end */
  function EmptyBetweenTags(): text {
    [61, 60, 60, 60, 65, CR, LF, 65, CR, LF, 107, 61, 118, 0]
  }

  /** Reading the lines of this value turns the line feed before them into a NUL. */
  lemma WritesBeforeTheValue(b: text, ok: bool, next: nat)
    requires Loaded(b, EmptyBetweenTags(), 7, 13, [65], ok, next)
    ensures EmptyBetweenTags()[6] == LF && b[6] == 0
  {
    hide EmptyBetweenTags, Load, Same, LineEnd, CString, TagFirst;
    EmptyBetweenFacts();
  }

  lemma EmptyBetweenFacts()
    ensures var was := EmptyBetweenTags();
            |was| == 14 && was[6] == LF && LineEnd(was[7..13]) == 1 && TagFirst(was[7..13], [65])
  {
    assert EmptyBetweenTags()[7..13] == [65] + [CR, LF] + [107, 61, 118];
    SameItself([65]);
    BreakAfterLine([65], [CR, LF], [107, 61, 118]);
    hide Same, LineEnd;
  }
}
