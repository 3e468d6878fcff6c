/**
 Applying a parsed unified diff to a file, line by line
 (src/application/patch-model-provider.ts, applyFilePatch and applyPatchSet).

 The specification says nothing about cursors: a list of hunks fits a source when the source is
 gaps and old sides laid alternately, each old side at its stated line; the result is the same gaps
 with the new sides.
 */
module PatchApply {
  import opened Wrappers
  import opened Text

  type Line = string

  datatype Hunk = Hunk(oldStart: nat, oldCount: nat, newCount: nat, lines: seq<Line>)

  const SPACE := ' '
  const MINUS := '-'
  const PLUS := '+'

  predicate IsContext(line: Line) { line != [] && line[0] == SPACE }
  predicate IsRemoval(line: Line) { line != [] && line[0] == MINUS }
  predicate IsAddition(line: Line) { !IsContext(line) && !IsRemoval(line) }

  /** The line without its marker. */
  function Body(line: Line): Line {
    if line == [] then [] else line[1..]
  }

  function OldSide(lines: seq<Line>): seq<Line> {
    if lines == [] then []
    else if IsAddition(lines[0]) then OldSide(lines[1..])
    else [Body(lines[0])] + OldSide(lines[1..])
  }

  function NewSide(lines: seq<Line>): seq<Line> {
    if lines == [] then []
    else if IsRemoval(lines[0]) then NewSide(lines[1..])
    else [Body(lines[0])] + NewSide(lines[1..])
  }

  function HunkStart(h: Hunk): nat {
    if h.oldStart == 0 then 0 else h.oldStart - 1
  }

  // ----- Specification: gaps and sides -----

  function OldSides(hunks: seq<Hunk>): seq<seq<Line>> {
    if hunks == [] then [] else [OldSide(hunks[0].lines)] + OldSides(hunks[1..])
  }

  function NewSides(hunks: seq<Hunk>): seq<seq<Line>> {
    if hunks == [] then [] else [NewSide(hunks[0].lines)] + NewSides(hunks[1..])
  }

  /** Gaps and sides laid alternately, the last gap closing. */
  function Weave(gaps: seq<seq<Line>>, sides: seq<seq<Line>>): seq<Line> {
    if gaps == [] then []
    else if sides == [] then gaps[0]
    else gaps[0] + sides[0] + Weave(gaps[1..], sides[1..])
  }

  /** Every old side stands where its hunk says, the first gap starting at line `at`. */
  predicate Positioned(at: nat, hunks: seq<Hunk>, gaps: seq<seq<Line>>)
    decreases |hunks|
  {
    && |gaps| == |hunks| + 1
    && (hunks != [] ==>
          && HunkStart(hunks[0]) == at + |gaps[0]|
          && Positioned(at + |gaps[0]| + |OldSide(hunks[0].lines)|, hunks[1..], gaps[1..]))
  }

  /** The source from line `at` on is these gaps around the old sides, each where its hunk says. */
  predicate FitsFrom(source: seq<Line>, at: nat, hunks: seq<Hunk>, gaps: seq<seq<Line>>) {
    at <= |source| && Positioned(at, hunks, gaps) && Weave(gaps, OldSides(hunks)) == source[at..]
  }

  predicate Fits(source: seq<Line>, hunks: seq<Hunk>, gaps: seq<seq<Line>>) {
    FitsFrom(source, 0, hunks, gaps)
  }

  // ----- The same, as one walk down the source -----

  /** The source from line `at` on with the remaining hunks applied. */
  function Patched(source: seq<Line>, at: nat, hunks: seq<Hunk>): Result<seq<Line>>
    requires at <= |source|
    decreases |hunks|
  {
    if hunks == [] then Success(source[at..])
    else
      var start, removed := HunkStart(hunks[0]), OldSide(hunks[0].lines);
      if start < at || start > |source| || !(removed <= source[start..]) then Failure
      else Prepend(source[at..start] + NewSide(hunks[0].lines), Patched(source, start + |removed|, hunks[1..]))
  }

  function Prepend(before: seq<Line>, r: Result<seq<Line>>): Result<seq<Line>> {
    match r
    case Failure => Failure
    case Success(v) => Success(before + v)
  }

  /** A patched source has a fit. */
  lemma {:induction false} PatchedHasFit(source: seq<Line>, at: nat, hunks: seq<Hunk>) returns (gaps: seq<seq<Line>>)
    requires at <= |source| && Patched(source, at, hunks).Success?
    ensures FitsFrom(source, at, hunks, gaps)
    decreases |hunks|
  {
    if hunks == [] {
      gaps := [source[at..]];
    } else {
      var start, removed := HunkStart(hunks[0]), OldSide(hunks[0].lines);
      var gaps' := PatchedHasFit(source, start + |removed|, hunks[1..]);
      gaps := [source[at..start]] + gaps';
      ConsTail(source[at..start], gaps');
      ConsTail(removed, OldSides(hunks[1..]));
      SplitInThree(source, at, start, removed);
    }
  }

  lemma SplitInThree(source: seq<Line>, at: nat, start: nat, removed: seq<Line>)
    requires at <= start <= |source| && removed <= source[start..]
    ensures source[at..] == source[at..start] + removed + source[start + |removed|..]
  {
    assert removed == source[start..][..|removed|];
  }

  /** A source with a fit is patched, and the result has the same gaps around the new sides. */
  lemma {:induction false} FitIsPatched(source: seq<Line>, at: nat, hunks: seq<Hunk>, gaps: seq<seq<Line>>)
    requires FitsFrom(source, at, hunks, gaps)
    ensures Patched(source, at, hunks) == Success(Weave(gaps, NewSides(hunks)))
    decreases |hunks|
  {
    if hunks != [] {
      var start, removed := HunkStart(hunks[0]), OldSide(hunks[0].lines);
      var rest := Weave(gaps[1..], OldSides(hunks[1..]));
      ConsTail(removed, OldSides(hunks[1..]));
      ConsTail(NewSide(hunks[0].lines), NewSides(hunks[1..]));
      CutSource(source, at, gaps[0], removed, rest);
      FitIsPatched(source, start + |removed|, hunks[1..], gaps[1..]);
    }
  }

  lemma CutSource(source: seq<Line>, at: nat, gap: seq<Line>, removed: seq<Line>, rest: seq<Line>)
    requires at <= |source| && source[at..] == gap + removed + rest
    ensures var start := at + |gap|;
            && start + |removed| <= |source| && source[at..start] == gap
            && removed <= source[start..] && source[start + |removed|..] == rest
  {
    CutThree(gap, removed, rest);
    assert |source[at..]| == |gap| + |removed| + |rest|;
    CutAgain(source, at, at + |gap|);
    CutAgain(source, at, at + |gap| + |removed|);
  }

  /** Applying succeeds exactly on the sources the hunks fit. */
  lemma PatchedIffFits(source: seq<Line>, hunks: seq<Hunk>)
    ensures Patched(source, 0, hunks).Success? <==> exists gaps :: Fits(source, hunks, gaps)
  {
    if Patched(source, 0, hunks).Success? {
      var gaps := PatchedHasFit(source, 0, hunks);
      assert Fits(source, hunks, gaps);
    }
    forall gaps | Fits(source, hunks, gaps) ensures Patched(source, 0, hunks).Success? {
      FitIsPatched(source, 0, hunks, gaps);
    }
  }

  // ----- The source's loops -----

  /** The lines of one hunk, checked and applied at the cursor. */
  method ApplyHunkLines(source: seq<Line>, lines: seq<Line>, cursor0: nat)
    returns (r: Result<(seq<Line>, nat)>)
    requires cursor0 <= |source|
    ensures r.Success? <==> OldSide(lines) <= source[cursor0..]
    ensures r.Success? ==> r.value == (NewSide(lines), cursor0 + |OldSide(lines)|)
  {
    var cursor, output := cursor0, [];
    assert lines[0..] == lines;
    for i := 0 to |lines|
      invariant cursor0 <= cursor <= |source|
      invariant OldSide(lines) == source[cursor0..cursor] + OldSide(lines[i..])
      invariant NewSide(lines) == output + NewSide(lines[i..])
    {
      var line := lines[i];
      var value := Body(line);
      SidesSplit(lines, i);
      if IsContext(line) || IsRemoval(line) {
        if cursor >= |source| || source[cursor] != value {
          Mismatch(source, cursor0, cursor, value, OldSide(lines[i + 1..]));
          return Failure;
        }
        PushShifts(source[cursor0..cursor], value, OldSide(lines[i + 1..]));
        SliceGrows(source, cursor0, cursor);
        cursor := cursor + 1;
      }
      if !IsRemoval(line) {
        PushShifts(output, value, NewSide(lines[i + 1..]));
        output := output + [value];
      }
    }
    assert lines[|lines|..] == [];
    EmptyConcat(output);
    EmptyConcat(source[cursor0..cursor]);
    CutAgain(source, cursor0, cursor);
    r := Success((output, cursor));
  }

  lemma SidesSplit(lines: seq<Line>, i: nat)
    requires i < |lines|
    ensures OldSide(lines[i..]) ==
            if IsAddition(lines[i]) then OldSide(lines[i + 1..]) else [Body(lines[i])] + OldSide(lines[i + 1..])
    ensures NewSide(lines[i..]) ==
            if IsRemoval(lines[i]) then NewSide(lines[i + 1..]) else [Body(lines[i])] + NewSide(lines[i + 1..])
  {
    assert lines[i..][0] == lines[i] && lines[i..][1..] == lines[i + 1..];
  }

  lemma Mismatch(source: seq<Line>, cursor0: nat, cursor: nat, value: Line, rest: seq<Line>)
    requires cursor0 <= cursor <= |source|
    requires cursor == |source| || source[cursor] != value
    ensures !(source[cursor0..cursor] + ([value] + rest) <= source[cursor0..])
  {
    var removed := source[cursor0..cursor] + ([value] + rest);
    assert removed[cursor - cursor0] == value;
  }

  /** applyFilePatch on lines. */
  method ApplyFilePatch(source: seq<Line>, hunks: seq<Hunk>) returns (r: Result<seq<Line>>)
    ensures r == Patched(source, 0, hunks)
    ensures r.Success? <==> exists gaps :: Fits(source, hunks, gaps)
    ensures forall gaps :: Fits(source, hunks, gaps) ==> r == Success(Weave(gaps, NewSides(hunks)))
  {
    r := ApplyHunks(source, hunks);
    PatchedIffFits(source, hunks);
    forall gaps | Fits(source, hunks, gaps) ensures Patched(source, 0, hunks) == Success(Weave(gaps, NewSides(hunks))) {
      FitIsPatched(source, 0, hunks, gaps);
    }
  }

  /** The loop over the hunks. */
  method ApplyHunks(source: seq<Line>, hunks: seq<Hunk>) returns (r: Result<seq<Line>>)
    ensures r == Patched(source, 0, hunks)
  {
    var output: seq<Line>, cursor: nat := [], 0;
    assert hunks[0..] == hunks;
    PrependNothing(Patched(source, 0, hunks));
    for n := 0 to |hunks|
      invariant cursor <= |source|
      invariant Patched(source, 0, hunks) == Prepend(output, Patched(source, cursor, hunks[n..]))
    {
      var hunk := hunks[n];
      var hunkStart := HunkStart(hunk);
      assert hunks[n..][0] == hunk && hunks[n..][1..] == hunks[n + 1..];
      if hunkStart < cursor || hunkStart > |source| {
        return Failure;
      }
      var applied := ApplyHunkLines(source, hunk.lines, hunkStart);
      if applied.Failure? {
        return Failure;
      }
      var (added, end) := applied.value;
      PrependTwice(output, source[cursor..hunkStart] + added, Patched(source, end, hunks[n + 1..]));
      output := output + (source[cursor..hunkStart] + added);
      cursor := end;
    }
    assert hunks[|hunks|..] == [];
    r := Success(output + source[cursor..]);
  }

  lemma PrependNothing(r: Result<seq<Line>>)
    ensures Prepend([], r) == r
  {
    if r.Success? { EmptyConcat(r.value); }
  }

  lemma PrependTwice(a: seq<Line>, b: seq<Line>, r: Result<seq<Line>>)
    ensures Prepend(a, Prepend(b, r)) == Prepend(a + b, r)
  {
    if r.Success? { ConcatAssociates(a, b, r.value); }
  }

  // ----- Conservation -----

  function Count(lines: seq<Line>, p: Line -> bool): nat {
    if lines == [] then 0 else (if p(lines[0]) then 1 else 0) + Count(lines[1..], p)
  }

  function Additions(hunks: seq<Hunk>): nat {
    if hunks == [] then 0 else Count(hunks[0].lines, IsAddition) + Additions(hunks[1..])
  }

  function Removals(hunks: seq<Hunk>): nat {
    if hunks == [] then 0 else Count(hunks[0].lines, IsRemoval) + Removals(hunks[1..])
  }

  lemma {:induction false} SideLengths(lines: seq<Line>)
    ensures |NewSide(lines)| - |OldSide(lines)| == Count(lines, IsAddition) - Count(lines, IsRemoval)
  {
    if lines != [] { SideLengths(lines[1..]); }
  }

  /** The output is longer than the source by exactly the additions less the removals. */
  lemma {:induction false} LengthChange(source: seq<Line>, at: nat, hunks: seq<Hunk>)
    requires at <= |source| && Patched(source, at, hunks).Success?
    ensures |Patched(source, at, hunks).value| - (|source| - at) == Additions(hunks) - Removals(hunks)
    decreases |hunks|
  {
    if hunks != [] {
      var start, removed := HunkStart(hunks[0]), OldSide(hunks[0].lines);
      LengthChange(source, start + |removed|, hunks[1..]);
      SideLengths(hunks[0].lines);
    }
  }

  // ----- Reversal -----

  function SwapMarker(line: Line): Line {
    if IsContext(line) then line
    else [if IsRemoval(line) then PLUS else MINUS] + Body(line)
  }

  function SwapLines(lines: seq<Line>): seq<Line> {
    if lines == [] then [] else [SwapMarker(lines[0])] + SwapLines(lines[1..])
  }

  /** The reverse of the hunks: sides exchanged, starts shifted by the growth `shift` so far. */
  function Reversed(hunks: seq<Hunk>, shift: int): seq<Hunk>
  {
    if hunks == [] then []
    else
      var h := hunks[0];
      var start := HunkStart(h) + shift;
      [Hunk(if start >= 0 then start + 1 else 0, h.newCount, h.oldCount, SwapLines(h.lines))] +
      Reversed(hunks[1..], shift + |NewSide(h.lines)| - |OldSide(h.lines)|)
  }

  lemma {:induction false} SwappedSides(lines: seq<Line>)
    ensures OldSide(SwapLines(lines)) == NewSide(lines) && NewSide(SwapLines(lines)) == OldSide(lines)
  {
    if lines != [] {
      SwappedSides(lines[1..]);
      ConsTail(SwapMarker(lines[0]), SwapLines(lines[1..]));
      assert Body(SwapMarker(lines[0])) == Body(lines[0]);
    }
  }

  /** The reverse patch fits the output with the same gaps. */
  lemma {:induction false} ReversedFits(at: nat, hunks: seq<Hunk>, gaps: seq<seq<Line>>, shift: int)
    requires Positioned(at, hunks, gaps) && at + shift >= 0
    ensures Positioned(at + shift, Reversed(hunks, shift), gaps)
    ensures OldSides(Reversed(hunks, shift)) == NewSides(hunks) && NewSides(Reversed(hunks, shift)) == OldSides(hunks)
    decreases |hunks|
  {
    if hunks != [] {
      var h := hunks[0];
      var shift' := shift + |NewSide(h.lines)| - |OldSide(h.lines)|;
      var end := at + |gaps[0]| + |OldSide(h.lines)|;
      SwappedSides(h.lines);
      ReversedFits(end, hunks[1..], gaps[1..], shift');
      assert Reversed(hunks, shift)[1..] == Reversed(hunks[1..], shift');
    }
  }

  /** Whatever a patch turns a source into, the reverse patch turns back into the source. */
  lemma ReverseRestores(source: seq<Line>, hunks: seq<Hunk>)
    requires Patched(source, 0, hunks).Success?
    ensures Patched(Patched(source, 0, hunks).value, 0, Reversed(hunks, 0)) == Success(source)
  {
    var gaps := PatchedHasFit(source, 0, hunks);
    FitIsPatched(source, 0, hunks, gaps);
    ReversedFits(0, hunks, gaps, 0);
    var output := Weave(gaps, NewSides(hunks));
    assert output[0..] == output && source[0..] == source;
    FitIsPatched(output, 0, Reversed(hunks, 0), gaps);
  }

  // ----- Text: lines closed by line feeds -----

  const LF := '\n'

  function Split(text: string): (lines: seq<Line>)
    ensures lines != []
  {
    if text == [] then [[]]
    else
      var rest := Split(text[1..]);
      if text[0] == LF then [[]] + rest else [[text[0]] + rest[0]] + rest[1..]
  }

  function Join(lines: seq<Line>): string {
    if lines == [] then [] else if |lines| == 1 then lines[0] else lines[0] + [LF] + Join(lines[1..])
  }

  predicate NoLineFeeds(lines: seq<Line>) {
    forall k :: 0 <= k < |lines| ==> LF !in lines[k]
  }

  lemma {:induction false} JoinOfSplit(text: string)
    ensures Join(Split(text)) == text && NoLineFeeds(Split(text))
  {
    if text != [] {
      var rest := Split(text[1..]);
      JoinOfSplit(text[1..]);
      if text[0] == LF {
        ConsTail([], rest);
        assert text == [] + [LF] + text[1..];
      } else {
        ConsTail([text[0]] + rest[0], rest[1..]);
        assert text == [text[0]] + text[1..];
        if |rest| > 1 {
          assert [text[0]] + (rest[0] + [LF] + Join(rest[1..])) == ([text[0]] + rest[0]) + [LF] + Join(rest[1..]);
        }
      }
    }
  }

  lemma {:induction false} SplitWithoutLineFeed(line: Line)
    requires LF !in line
    ensures Split(line) == [line]
  {
    if line != [] {
      SplitWithoutLineFeed(line[1..]);
      assert [line[0]] + line[1..] == line;
    }
  }

  lemma {:induction false} SplitAtLineFeed(line: Line, text: string)
    requires LF !in line
    ensures Split(line + [LF] + text) == [line] + Split(text)
  {
    var all := line + [LF] + text;
    if line == [] {
      assert all[0] == LF && all[1..] == text;
    } else {
      assert all[0] == line[0] && all[1..] == line[1..] + [LF] + text;
      SplitAtLineFeed(line[1..], text);
      assert [line[0]] + line[1..] == line;
    }
  }

  lemma {:induction false} SplitOfJoin(lines: seq<Line>)
    requires lines != [] && NoLineFeeds(lines)
    ensures Split(Join(lines)) == lines
  {
    if |lines| == 1 {
      SplitWithoutLineFeed(lines[0]);
    } else {
      assert NoLineFeeds(lines[1..]);
      SplitOfJoin(lines[1..]);
      SplitAtLineFeed(lines[0], Join(lines[1..]));
      assert [lines[0]] + lines[1..] == lines;
    }
  }

  /** The content of a file, patched; a file that does not end with a line feed is refused. */
  function PatchedContent(content: string, hunks: seq<Hunk>): Result<string> {
    if content == [] || content[|content| - 1] != LF then Failure
    else
      match Patched(Split(content[..|content| - 1]), 0, hunks)
      case Failure => Failure
      case Success(lines) => Success(Join(lines) + [LF])
  }

  ghost predicate CleanHunks(hunks: seq<Hunk>) {
    forall k :: 0 <= k < |hunks| ==> NoLineFeeds(hunks[k].lines)
  }

  lemma {:induction false} NewSideClean(lines: seq<Line>)
    requires NoLineFeeds(lines)
    ensures NoLineFeeds(NewSide(lines))
  {
    if lines != [] {
      assert NoLineFeeds(lines[1..]) && LF !in Body(lines[0]);
      NewSideClean(lines[1..]);
    }
  }

  lemma {:induction false} PatchedClean(source: seq<Line>, at: nat, hunks: seq<Hunk>)
    requires at <= |source|
    requires NoLineFeeds(source) && CleanHunks(hunks) && Patched(source, at, hunks).Success?
    ensures NoLineFeeds(Patched(source, at, hunks).value)
    decreases |hunks|
  {
    if hunks != [] {
      var start, removed := HunkStart(hunks[0]), OldSide(hunks[0].lines);
      assert CleanHunks(hunks[1..]);
      NewSideClean(hunks[0].lines);
      PatchedClean(source, start + |removed|, hunks[1..]);
    }
  }

  /** Lines added after the source come out unchanged after the result. */
  lemma {:induction false} PatchedExtends(source: seq<Line>, tail: seq<Line>, at: nat, hunks: seq<Hunk>)
    requires at <= |source| && Patched(source, at, hunks).Success?
    ensures Patched(source + tail, at, hunks) == Success(Patched(source, at, hunks).value + tail)
    decreases |hunks|
  {
    if hunks == [] {
      CutBeforeTail(source, tail, at);
    } else {
      var start, removed := HunkStart(hunks[0]), OldSide(hunks[0].lines);
      PatchedExtends(source, tail, start + |removed|, hunks[1..]);
      CutBeforeTail(source, tail, start);
      assert (source + tail)[at..start] == source[at..start];
      ConcatAssociates(source[at..start] + NewSide(hunks[0].lines), Patched(source, start + |removed|, hunks[1..]).value, tail);
    }
  }

  /** Writing lines and reading them back: a file without lines is read back as one empty line. */
  lemma WrittenLines(lines: seq<Line>)
    requires NoLineFeeds(lines)
    ensures var content := Join(lines) + [LF];
            Split(content[..|content| - 1]) == if lines == [] then [[]] else lines
  {
    assert (Join(lines) + [LF])[..|Join(lines)|] == Join(lines);
    if lines != [] { SplitOfJoin(lines); }
  }

  /**
   On text the reverse patch restores the file if and only if the patched file kept a line. A file
   emptied of its lines is written as one empty line, which the reverse patch leaves behind.
   */
  lemma ReverseRestoresText(content: string, hunks: seq<Hunk>)
    requires CleanHunks(hunks) && PatchedContent(content, hunks).Success?
    ensures PatchedContent(PatchedContent(content, hunks).value, Reversed(hunks, 0)) == Success(content) <==>
            Patched(Split(content[..|content| - 1]), 0, hunks).value != []
  {
    var source := Split(content[..|content| - 1]);
    var output := Patched(source, 0, hunks).value;
    JoinOfSplit(content[..|content| - 1]);
    assert content == Join(source) + [LF];
    ReverseRestores(source, hunks);
    PatchedClean(source, 0, hunks);
    WrittenLines(output);
    if output == [] {
      EmptiedStays(source, Reversed(hunks, 0));
    }
  }

  lemma EmptiedStays(source: seq<Line>, reverse: seq<Hunk>)
    requires NoLineFeeds(source) && source != [] && Patched([], 0, reverse) == Success(source)
    ensures Patched([[]], 0, reverse).Success? && Join(Patched([[]], 0, reverse).value) != Join(source)
  {
    PatchedExtends([], [[]], 0, reverse);
    EmptyConcat<Line>([[]]);
    var longer: seq<Line> := source + [[]];
    assert NoLineFeeds(longer) && |longer| != |source|;
    SplitOfJoin(longer);
    SplitOfJoin(source);
  }

  // ----- Line numbers of empty old sides -----

  /**
   Where the "Diff -u or -U Output Format" section of the POSIX.1-2017 diff utility puts a hunk: an
   empty range is numbered by the line before it, any other by its first line.
   */
  function StandardStart(h: Hunk): int {
    if h.oldCount == 0 then h.oldStart else h.oldStart - 1
  }

  /** The code agrees exactly on hunks at the top of the file or with a non-empty old side. */
  lemma StartsAgree(h: Hunk)
    ensures HunkStart(h) == StandardStart(h) <==> (h.oldStart == 0 <==> h.oldCount == 0)
  {}

  predicate StandardPositioned(at: nat, hunks: seq<Hunk>, gaps: seq<seq<Line>>)
    decreases |hunks|
  {
    && |gaps| == |hunks| + 1
    && (hunks != [] ==>
          && StandardStart(hunks[0]) == at + |gaps[0]|
          && StandardPositioned(at + |gaps[0]| + |OldSide(hunks[0].lines)|, hunks[1..], gaps[1..]))
  }

  /** Empty old sides stand at the top of the file, and only they. */
  predicate EmptyOnlyAtTop(hunks: seq<Hunk>) {
    forall k :: 0 <= k < |hunks| ==> (hunks[k].oldStart == 0 <==> hunks[k].oldCount == 0)
  }

  /** What the code applies is what the standard means on hunks numbered so, and on no others. */
  lemma {:induction false} StandardFitsAgree(at: nat, hunks: seq<Hunk>, gaps: seq<seq<Line>>)
    ensures EmptyOnlyAtTop(hunks) ==> (StandardPositioned(at, hunks, gaps) <==> Positioned(at, hunks, gaps))
    ensures StandardPositioned(at, hunks, gaps) && Positioned(at, hunks, gaps) ==> EmptyOnlyAtTop(hunks)
    decreases |hunks|
  {
    if hunks != [] && |gaps| == |hunks| + 1 {
      StartsAgree(hunks[0]);
      StandardFitsAgree(at + |gaps[0]| + |OldSide(hunks[0].lines)|, hunks[1..], gaps[1..]);
      assert hunks == [hunks[0]] + hunks[1..];
    }
  }

  /** One line inserted after line 1 by the standard is inserted before it by the code. */
  lemma InsertionAfterALineIsEarly()
    ensures var h := Hunk(1, 0, 1, ["+x"]);
            HunkStart(h) == 0 && StandardStart(h) == 1 &&
            Patched(["a", "b"], 0, [h]) == Success(["x", "a", "b"])
  {
    var h, source := Hunk(1, 0, 1, ["+x"]), ["a", "b"];
    assert OldSide(h.lines) == [] && NewSide(h.lines) == ["x"];
    assert Patched(source[0..], 0, []) == Success(source);
    assert source[..0] + ["x"] + source == ["x", "a", "b"];
  }

  // ----- A set of files -----

  datatype FilePatch = FilePatch(path: string, hunks: seq<Hunk>)

  type Files = map<string, string>

  function PatchedFiles(files: Files, patches: seq<FilePatch>): Result<Files> {
    if patches == [] then Success(files)
    else
      var p := patches[0];
      if p.path !in files then Failure
      else
        match PatchedContent(files[p.path], p.hunks)
        case Failure => Failure
        case Success(content) => PatchedFiles(files[p.path := content], patches[1..])
  }

  ghost predicate Names(patches: seq<FilePatch>, path: string) {
    exists k :: 0 <= k < |patches| && patches[k].path == path
  }

  ghost predicate DistinctPaths(patches: seq<FilePatch>) {
    forall i, j :: 0 <= i < j < |patches| ==> patches[i].path != patches[j].path
  }

  /**
   Patching a set of files keeps the set of paths and every file not named; with distinct paths each
   named file is its own patch applied to its own content, and the set fails only if one of them does.
   */
  lemma PatchSetIsFilewise(files: Files, patches: seq<FilePatch>)
    requires DistinctPaths(patches)
    ensures var r := PatchedFiles(files, patches);
            && (r.Success? <==> forall k :: 0 <= k < |patches| ==> Patchable(files, patches[k]))
            && (r.Success? ==>
                  && r.value.Keys == files.Keys
                  && (forall path :: path in files && !Names(patches, path) ==> r.value[path] == files[path])
                  && (forall k :: 0 <= k < |patches| ==> IsPatched(files, r.value, patches[k])))
  {
    PatchSetSucceeds(files, patches);
    if PatchedFiles(files, patches).Success? { PatchSetKeeps(files, patches); PatchSetChanges(files, patches); }
  }

  predicate Patchable(files: Files, p: FilePatch) {
    p.path in files && PatchedContent(files[p.path], p.hunks).Success?
  }

  predicate IsPatched(files: Files, patched: Files, p: FilePatch) {
    p.path in files && p.path in patched && Success(patched[p.path]) == PatchedContent(files[p.path], p.hunks)
  }

  lemma RestIsDistinct(patches: seq<FilePatch>)
    requires DistinctPaths(patches) && patches != []
    ensures DistinctPaths(patches[1..]) && !Names(patches[1..], patches[0].path)
    ensures forall k :: 0 <= k < |patches[1..]| ==> patches[1..][k] == patches[k + 1] && patches[k + 1].path != patches[0].path
  {}

  lemma {:induction false} PatchSetSucceeds(files: Files, patches: seq<FilePatch>)
    requires DistinctPaths(patches)
    ensures PatchedFiles(files, patches).Success? <==> forall k :: 0 <= k < |patches| ==> Patchable(files, patches[k])
  {
    if patches != [] && Patchable(files, patches[0]) {
      var p, rest := patches[0], patches[1..];
      var files' := files[p.path := PatchedContent(files[p.path], p.hunks).value];
      RestIsDistinct(patches);
      PatchSetSucceeds(files', rest);
      assert forall k :: 0 <= k < |rest| ==> (Patchable(files', rest[k]) <==> Patchable(files, patches[k + 1]));
      assert forall k :: 0 < k < |patches| ==> rest[k - 1] == patches[k];
    }
  }

  lemma {:induction false} PatchSetKeeps(files: Files, patches: seq<FilePatch>)
    requires PatchedFiles(files, patches).Success?
    ensures var patched := PatchedFiles(files, patches).value;
            && patched.Keys == files.Keys
            && forall path :: path in files && !Names(patches, path) ==> patched[path] == files[path]
  {
    if patches != [] {
      var p, rest := patches[0], patches[1..];
      var files' := files[p.path := PatchedContent(files[p.path], p.hunks).value];
      PatchSetKeeps(files', rest);
      assert files'.Keys == files.Keys;
      forall path | !Names(patches, path) ensures !Names(rest, path) && path != p.path {
        assert patches[0] == p;
        forall k | 0 <= k < |rest| ensures rest[k].path != path { assert patches[k + 1] == rest[k]; }
      }
    }
  }

  lemma {:induction false} PatchSetChanges(files: Files, patches: seq<FilePatch>)
    requires DistinctPaths(patches) && PatchedFiles(files, patches).Success?
    ensures forall k :: 0 <= k < |patches| ==> IsPatched(files, PatchedFiles(files, patches).value, patches[k])
  {
    if patches != [] {
      var p, rest := patches[0], patches[1..];
      var files' := files[p.path := PatchedContent(files[p.path], p.hunks).value];
      RestIsDistinct(patches);
      PatchSetChanges(files', rest);
      PatchSetKeeps(files', rest);
      forall k | 0 < k < |patches| ensures IsPatched(files, PatchedFiles(files, patches).value, patches[k]) {
        assert IsPatched(files', PatchedFiles(files', rest).value, rest[k - 1]);
      }
    }
  }

  /** applyPatchSet: each patch in turn replaces the file it names. */
  method ApplyPatchSet(files: Files, patches: seq<FilePatch>) returns (r: Result<Files>)
    ensures r == PatchedFiles(files, patches)
  {
    var byPath := files;
    assert patches[0..] == patches;
    for i := 0 to |patches|
      invariant PatchedFiles(files, patches) == PatchedFiles(byPath, patches[i..])
    {
      var p := patches[i];
      assert patches[i..][0] == p && patches[i..][1..] == patches[i + 1..];
      if p.path !in byPath {
        return Failure;
      }
      var content := byPath[p.path];
      if content == [] || content[|content| - 1] != LF {
        return Failure;
      }
      var lines := ApplyFilePatch(Split(content[..|content| - 1]), p.hunks);
      if lines.Failure? {
        return Failure;
      }
      byPath := byPath[p.path := Join(lines.value) + [LF]];
    }
    assert patches[|patches|..] == [];
    r := Success(byPath);
  }
}
