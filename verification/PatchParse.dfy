/**
 Parsing a unified diff (src/application/patch-model-provider.ts, parseUnifiedPatch), and the printer
 it inverts. A number is read exactly; the runtime reads numbers below 2^53 exactly.
 */
module PatchParse {
  import opened Wrappers
  import opened Text
  import opened Numerals
  import opened PatchApply

  datatype Parsed = Parsed(paths: seq<string>, additions: nat, deletions: nat, files: seq<FilePatch>)

  const MAX_DIFF_BYTES := 2_000_000

  // ----- Line shapes -----

  predicate EndsLine(c: char) {
    c == '\n' || c == '\r' || c == '\U{2028}' || c == '\U{2029}'
  }

  predicate NoSpaces(s: string) { forall i :: 0 <= i < |s| ==> !IsSpace(s[i]) }

  /** The length of the longest prefix without whitespace. */
  function WordLength(s: string): (n: nat)
    ensures n <= |s| && NoSpaces(s[..n]) && (n < |s| ==> IsSpace(s[n]))
  {
    if s == [] || IsSpace(s[0]) then 0 else 1 + WordLength(s[1..])
  }

  function DigitsLength(s: string): (n: nat)
    ensures n <= |s| && AllDigits(s[..n]) && (n < |s| ==> !IsDigit(s[n]))
  {
    if s == [] || !IsDigit(s[0]) then 0 else 1 + DigitsLength(s[1..])
  }

  /** <path> b/<path> */
  function TwoPaths(rest: string): Option<(string, string)> {
    var n := WordLength(rest);
    if n == 0 || !(" b/" <= rest[n..]) then None
    else
      var second := rest[n + 3..];
      if second == [] || WordLength(second) < |second| then None else Some((rest[..n], second))
  }

  /** diff --git a/<path> b/<path> */
  function FileHeader(line: Line): Option<(string, string)> {
    if "diff --git a/" <= line then TwoPaths(line[13..]) else None
  }

  datatype Range = Range(start: nat, count: nat, rest: string)

  /** An optional count, which defaults to one. */
  function ReadCount(start: nat, after: string): Range {
    if "," <= after && DigitsLength(after[1..]) > 0 then
      var m := DigitsLength(after[1..]);
      Range(start, DecimalValue(after[1..][..m]), after[1..][m..])
    else Range(start, 1, after)
  }

  /** A line number with an optional count. */
  function ReadRange(s: string): Option<Range> {
    var n := DigitsLength(s);
    if n == 0 then None else Some(ReadCount(DecimalValue(s[..n]), s[n..]))
  }

  datatype Header = Header(oldStart: nat, oldCount: nat, newCount: nat)

  /** @@ -<range> +<range> @@<section> */
  function HunkHeader(line: Line): Option<Header> {
    if !("@@ -" <= line) then None
    else
      match ReadRange(line[4..])
      case None => None
      case Some(r) =>
        if !(" +" <= r.rest) then None
        else
          match ReadRange(r.rest[2..])
          case None => None
          case Some(q) =>
            if !(" @@" <= q.rest) then None
            else
              var section := q.rest[3..];
              if section == [] || (section[0] == ' ' && forall i :: 0 <= i < |section| ==> !EndsLine(section[i]))
              then Some(Header(r.start, r.count, q.count)) else None
  }

  predicate IsMetadata(line: Line) {
    "index " <= line || "--- " <= line || "+++ " <= line || line == []
  }

  predicate StartsSection(line: Line) {
    "diff --git " <= line || "@@ " <= line
  }

  predicate IsHunkLine(line: Line) {
    line != [] && (line[0] == '-' || line[0] == ' ' || line[0] == '+')
  }

  predicate StartsPlus(line: Line) { line != [] && line[0] == '+' }
  predicate StartsMinus(line: Line) { line != [] && line[0] == '-' }

  function Utf8Length(s: string): nat {
    if s == [] then 0
    else
      Utf8Length(s[..|s| - 1]) +
      var c := s[|s| - 1] as int;
      if c < 0x80 then 1 else if c < 0x800 then 2 else if c < 0x10000 then 3 else 4
  }

  /** What a line is between hunk bodies. */
  datatype LineKind = FileSection(path: string) | HunkSection(header: Header) | Metadata | Refused

  function Classify(validPath: string -> bool, line: Line): LineKind {
    match FileHeader(line)
    case Some((a, b)) => if a == b && validPath(a) then FileSection(a) else Refused
    case None =>
      if IsMetadata(line) then Metadata
      else
        match HunkHeader(line)
        case None => Refused
        case Some(h) => HunkSection(h)
  }

  /** The grammar below sees lines through these two tests only. */
  datatype Lexer = Lexer(kind: Line -> LineKind, ends: Line -> bool)

  function LexerFor(validPath: string -> bool): Lexer {
    Lexer((line: Line) => Classify(validPath, line), StartsSection)
  }

  // ----- The parse, as functions of the lines still to be read -----

  /** The body of a hunk, and the lines after it. A last empty line closes the diff. */
  function HunkLines(lex: Lexer, rest: seq<Line>): (r: Result<(seq<Line>, seq<Line>)>)
    ensures r.Success? ==> |r.value.1| <= |rest|
  {
    if rest == [] || lex.ends(rest[0]) then Success(([], rest))
    else if rest == [[]] then Success(([], []))
    else if !IsHunkLine(rest[0]) then Failure
    else
      match HunkLines(lex, rest[1..])
      case Failure => Failure
      case Success((body, after)) => Success(([rest[0]] + body, after))
  }

  /** The hunk with header `h` whose body begins with the first line. */
  function FirstHunk(lex: Lexer, h: Header, rest: seq<Line>): (r: Result<(Hunk, seq<Line>)>)
    ensures r.Success? ==> |r.value.1| <= |rest|
  {
    match HunkLines(lex, rest)
    case Failure => Failure
    case Success((body, after)) =>
      if |body| - Count(body, StartsPlus) != h.oldCount || |body| - Count(body, StartsMinus) != h.newCount then Failure
      else Success((Hunk(h.oldStart, h.oldCount, h.newCount, body), after))
  }

  function Closed(files: seq<FilePatch>, current: Option<FilePatch>): seq<FilePatch> {
    match current
    case None => files
    case Some(f) => files + [f]
  }

  /** The file sections of the remaining lines, after the files so far; `current` is the file still open. */
  function Sections(lex: Lexer, rest: seq<Line>, files: seq<FilePatch>, current: Option<FilePatch>): Result<seq<FilePatch>>
    decreases |rest|
  {
    if rest == [] then Success(Closed(files, current))
    else
      match lex.kind(rest[0])
      case Refused => Failure
      case FileSection(path) => Sections(lex, rest[1..], Closed(files, current), Some(FilePatch(path, [])))
      case Metadata => Sections(lex, rest[1..], files, current)
      case HunkSection(h) =>
        if current.None? then Failure
        else
          match FirstHunk(lex, h, rest[1..])
          case Failure => Failure
          case Success((hunk, after)) =>
            Sections(lex, after, files, Some(FilePatch(current.value.path, current.value.hunks + [hunk])))
  }

  function Paths(files: seq<FilePatch>): (ps: seq<string>)
    ensures |ps| == |files| && forall k :: 0 <= k < |files| ==> ps[k] == files[k].path
  {
    seq(|files|, k requires 0 <= k < |files| => files[k].path)
  }

  function TotalCount(files: seq<FilePatch>, p: Line -> bool): nat {
    if files == [] then 0 else TotalCount(files[..|files| - 1], p) + HunksCount(files[|files| - 1].hunks, p)
  }

  function HunksCount(hunks: seq<Hunk>, p: Line -> bool): nat {
    if hunks == [] then 0 else HunksCount(hunks[..|hunks| - 1], p) + Count(hunks[|hunks| - 1].lines, p)
  }

  function ParsedPatch(validPath: string -> bool, diff: string): Result<Parsed> {
    if Utf8Length(diff) > MAX_DIFF_BYTES then Failure
    else
      match Sections(LexerFor(validPath), Split(diff), [], None)
      case Failure => Failure
      case Success(files) =>
        if files == [] || !NoRepeats(Paths(files)) || (exists k :: 0 <= k < |files| && files[k].hunks == []) then Failure
        else Success(Parsed(Paths(files), TotalCount(files, StartsPlus), TotalCount(files, StartsMinus), files))
  }

  predicate NoRepeats(s: seq<string>) {
    forall i, j :: 0 <= i < j < |s| ==> s[i] != s[j]
  }

  // ----- The source's loops -----

  lemma {:induction false} CountPush(lines: seq<Line>, line: Line, p: Line -> bool)
    ensures Count(lines + [line], p) == Count(lines, p) + if p(line) then 1 else 0
  {
    if lines == [] {
      assert lines + [line] == [line];
    } else {
      CountPush(lines[1..], line, p);
      assert (lines + [line])[1..] == lines[1..] + [line];
    }
  }

  /** The hunk body that starts `all` is `done` and then what is read of `rest`. */
  predicate ReadSoFar(lex: Lexer, all: seq<Line>, rest: seq<Line>, done: seq<Line>) {
    match (HunkLines(lex, all), HunkLines(lex, rest))
    case (Success((whole, after)), Success((body, left))) => after == left && whole == done + body
    case (Failure, Failure) => true
    case _ => false
  }

  lemma ReadNothing(lex: Lexer, all: seq<Line>)
    ensures ReadSoFar(lex, all, all, [])
  {
    if HunkLines(lex, all).Success? { EmptyConcat(HunkLines(lex, all).value.0); }
  }

  lemma ReadOne(lex: Lexer, all: seq<Line>, lines: seq<Line>, i: nat, done: seq<Line>)
    requires i < |lines| && ReadSoFar(lex, all, lines[i..], done)
    requires !lex.ends(lines[i]) && !(lines[i] == [] && i == |lines| - 1) && IsHunkLine(lines[i])
    ensures ReadSoFar(lex, all, lines[i + 1..], done + [lines[i]])
  {
    assert lines[i..][0] == lines[i] && lines[i..][1..] == lines[i + 1..];
    if HunkLines(lex, lines[i + 1..]).Success? {
      PushShifts(done, lines[i], HunkLines(lex, lines[i + 1..]).value.0);
    }
  }

  lemma ReadAll(lex: Lexer, all: seq<Line>, rest: seq<Line>, done: seq<Line>, after: seq<Line>)
    requires ReadSoFar(lex, all, rest, done) && HunkLines(lex, rest) == Success(([], after))
    ensures HunkLines(lex, all) == Success((done, after))
  {
    EmptyConcat(done);
  }

  /** The inner loop: the body of a hunk; `next` is where the outer loop continues. */
  method ParseHunkLines(lex: Lexer, lines: seq<Line>, header: nat)
    returns (ok: bool, hunkLines: seq<Line>, additions: nat, deletions: nat, next: nat)
    requires header < |lines|
    ensures ok == HunkLines(lex, lines[header + 1..]).Success?
    ensures ok ==> header < next <= |lines| && HunkLines(lex, lines[header + 1..]).value == (hunkLines, lines[next..])
    ensures ok ==> additions == Count(hunkLines, StartsPlus) && deletions == Count(hunkLines, StartsMinus)
  {
    var index: int := header;
    hunkLines, additions, deletions, next := [], 0, 0, 0;
    index := index + 1;
    ghost var all := lines[index..];
    ReadNothing(lex, all);
    while index < |lines|
      invariant header < index <= |lines|
      invariant additions == Count(hunkLines, StartsPlus) && deletions == Count(hunkLines, StartsMinus)
      invariant ReadSoFar(lex, all, lines[index..], hunkLines)
    {
      var hunkLine := lines[index];
      if lex.ends(hunkLine) {
        ReadAll(lex, all, lines[index..], hunkLines, lines[index..]);
        index := index - 1;
        return true, hunkLines, additions, deletions, index + 1;
      }
      if hunkLine == [] && index == |lines| - 1 {
        assert lines[index..] == [[]] && lines[index + 1..] == [];
        break;
      }
      if !IsHunkLine(hunkLine) {
        return false, [], 0, 0, 0;
      }
      CountPush(hunkLines, hunkLine, StartsPlus);
      CountPush(hunkLines, hunkLine, StartsMinus);
      ReadOne(lex, all, lines, index, hunkLines);
      if StartsPlus(hunkLine) { additions := additions + 1; }
      if StartsMinus(hunkLine) { deletions := deletions + 1; }
      hunkLines := hunkLines + [hunkLine];
      index := index + 1;
    }
    ReadAll(lex, all, lines[index..], hunkLines, []);
    ok, next := true, if index < |lines| then index + 1 else index;
  }

  /** Totals when a hunk is added to the open file. */
  lemma TotalsWithHunk(files: seq<FilePatch>, path: string, hunks: seq<Hunk>, h: Hunk, p: Line -> bool)
    ensures TotalCount(files + [FilePatch(path, hunks + [h])], p) ==
            TotalCount(files + [FilePatch(path, hunks)], p) + Count(h.lines, p)
  {
    var a, b := FilePatch(path, hunks + [h]), FilePatch(path, hunks);
    assert (files + [a])[..|files|] == files && (files + [b])[..|files|] == files;
    assert (hunks + [h])[..|hunks|] == hunks;
  }

  lemma TotalsWithFile(files: seq<FilePatch>, path: string, p: Line -> bool)
    ensures TotalCount(files + [FilePatch(path, [])], p) == TotalCount(files, p)
  {
    assert (files + [FilePatch(path, [])])[..|files|] == files;
  }

  /** A parsed hunk and its counts. */
  datatype Counted = Counted(hunk: Hunk, additions: nat, deletions: nat)

  method ParseHunk(lex: Lexer, header: Header, lines: seq<Line>, index: nat) returns (ok: bool, r: Counted, next: nat)
    requires index < |lines|
    ensures ok == FirstHunk(lex, header, lines[index + 1..]).Success?
    ensures ok ==> index < next <= |lines| && FirstHunk(lex, header, lines[index + 1..]) == Success((r.hunk, lines[next..]))
    ensures ok ==> r.additions == Count(r.hunk.lines, StartsPlus) && r.deletions == Count(r.hunk.lines, StartsMinus)
  {
    r := Counted(Hunk(0, 0, 0, []), 0, 0);
    var hunkLines, added, removed;
    ok, hunkLines, added, removed, next := ParseHunkLines(lex, lines, index);
    if !ok {
      return;
    }
    if |hunkLines| - added != header.oldCount || |hunkLines| - removed != header.newCount {
      return false, r, 0;
    }
    r := Counted(Hunk(header.oldStart, header.oldCount, header.newCount, hunkLines), added, removed);
  }

  /** The variables of the outer loop. */
  datatype Progress = Progress(index: nat, paths: seq<string>, additions: nat, deletions: nat,
                               files: seq<FilePatch>, current: Option<FilePatch>)

  ghost predicate Tallied(p: Progress) {
    var all := Closed(p.files, p.current);
    p.paths == Paths(all) && p.additions == TotalCount(all, StartsPlus) && p.deletions == TotalCount(all, StartsMinus)
  }

  lemma OpenFile(p: Progress, path: string)
    requires Tallied(p)
    ensures Tallied(Progress(p.index + 1, p.paths + [path], p.additions, p.deletions,
                             Closed(p.files, p.current), Some(FilePatch(path, []))))
  {
    TotalsWithFile(Closed(p.files, p.current), path, StartsPlus);
    TotalsWithFile(Closed(p.files, p.current), path, StartsMinus);
    var all := Closed(p.files, p.current) + [FilePatch(path, [])];
    assert p.paths + [path] == Paths(all);
  }

  lemma GrowFile(p: Progress, f: FilePatch, r: Counted, next: nat)
    requires Tallied(p) && p.current == Some(f)
    requires r.additions == Count(r.hunk.lines, StartsPlus) && r.deletions == Count(r.hunk.lines, StartsMinus)
    ensures Tallied(Progress(next, p.paths, p.additions + r.additions, p.deletions + r.deletions,
                             p.files, Some(FilePatch(f.path, f.hunks + [r.hunk]))))
  {
    TotalsWithHunk(p.files, f.path, f.hunks, r.hunk, StartsPlus);
    TotalsWithHunk(p.files, f.path, f.hunks, r.hunk, StartsMinus);
    assert Paths(p.files + [f]) == Paths(p.files + [FilePatch(f.path, f.hunks + [r.hunk])]);
  }

  /** One round of the outer loop. */
  method ParseSection(lex: Lexer, lines: seq<Line>, p: Progress) returns (ok: bool, q: Progress)
    requires p.index < |lines| && Tallied(p)
    ensures !ok ==> Sections(lex, lines[p.index..], p.files, p.current) == Failure
    ensures ok ==> Tallied(q) && p.index < q.index <= |lines|
    ensures ok ==> Sections(lex, lines[p.index..], p.files, p.current) == Sections(lex, lines[q.index..], q.files, q.current)
  {
    assert lines[p.index..][0] == lines[p.index] && lines[p.index..][1..] == lines[p.index + 1..];
    ok, q := false, p;
    match lex.kind(lines[p.index]) {
      case Refused =>
        return;
      case FileSection(path) =>
        OpenFile(p, path);
        q := Progress(p.index + 1, p.paths + [path], p.additions, p.deletions,
                      Closed(p.files, p.current), Some(FilePatch(path, [])));
      case Metadata =>
        q := p.(index := p.index + 1);
      case HunkSection(header) =>
        if p.current.None? {
          return;
        }
        var f := p.current.value;
        var parsed, r, next := ParseHunk(lex, header, lines, p.index);
        if !parsed {
          return;
        }
        GrowFile(p, f, r, next);
        q := Progress(next, p.paths, p.additions + r.additions, p.deletions + r.deletions,
                      p.files, Some(FilePatch(f.path, f.hunks + [r.hunk])));
    }
    ok := true;
  }

  /** parseUnifiedPatch */
  method ParseUnifiedPatch(validPath: string -> bool, unifiedDiff: string) returns (r: Result<Parsed>)
    ensures r == ParsedPatch(validPath, unifiedDiff)
  {
    if Utf8Length(unifiedDiff) > MAX_DIFF_BYTES {
      return Failure;
    }
    var lex, lines := LexerFor(validPath), Split(unifiedDiff);
    var p := Progress(0, [], 0, 0, [], None);
    assert lines[0..] == lines;
    while p.index < |lines|
      invariant p.index <= |lines| && Tallied(p)
      invariant Sections(lex, lines, [], None) == Sections(lex, lines[p.index..], p.files, p.current)
    {
      var ok, q := ParseSection(lex, lines, p);
      if !ok {
        return Failure;
      }
      p := q;
    }
    var files := Closed(p.files, p.current);
    if p.paths == [] || !NoRepeats(p.paths) || exists k :: 0 <= k < |files| && files[k].hunks == [] {
      return Failure;
    }
    r := Success(Parsed(p.paths, p.additions, p.deletions, files));
  }

  // ----- What a successful parse guarantees -----

  /** A hunk whose stated counts are the numbers of its old and new lines. */
  ghost predicate GoodHunk(h: Hunk) {
    && (forall k :: 0 <= k < |h.lines| ==> IsHunkLine(h.lines[k]))
    && h.oldCount == |OldSide(h.lines)| && h.newCount == |NewSide(h.lines)|
  }

  ghost predicate GoodFiles(files: seq<FilePatch>) {
    forall i, k :: 0 <= i < |files| && 0 <= k < |files[i].hunks| ==> GoodHunk(files[i].hunks[k])
  }

  lemma {:induction false} SidesCounted(lines: seq<Line>)
    requires forall k :: 0 <= k < |lines| ==> IsHunkLine(lines[k])
    ensures |OldSide(lines)| == |lines| - Count(lines, StartsPlus)
    ensures |NewSide(lines)| == |lines| - Count(lines, StartsMinus)
  {
    if lines != [] { SidesCounted(lines[1..]); }
  }

  lemma {:induction false} HunkLinesMarked(lex: Lexer, rest: seq<Line>)
    requires HunkLines(lex, rest).Success?
    ensures forall k :: 0 <= k < |HunkLines(lex, rest).value.0| ==> IsHunkLine(HunkLines(lex, rest).value.0[k])
  {
    if rest != [] && !lex.ends(rest[0]) && rest != [[]] {
      HunkLinesMarked(lex, rest[1..]);
    }
  }

  lemma {:induction false} SectionsGood(lex: Lexer, rest: seq<Line>, files: seq<FilePatch>, current: Option<FilePatch>)
    requires GoodFiles(Closed(files, current)) && Sections(lex, rest, files, current).Success?
    ensures GoodFiles(Sections(lex, rest, files, current).value)
    decreases |rest|
  {
    if rest != [] {
      match lex.kind(rest[0]) {
        case FileSection(path) =>
          SectionsGood(lex, rest[1..], Closed(files, current), Some(FilePatch(path, [])));
        case Metadata =>
          SectionsGood(lex, rest[1..], files, current);
        case HunkSection(h) =>
          var f := current.value;
          var (hunk, after) := FirstHunk(lex, h, rest[1..]).value;
          HunkLinesMarked(lex, rest[1..]);
          SidesCounted(hunk.lines);
          var grown := FilePatch(f.path, f.hunks + [hunk]);
          assert GoodFiles(files + [grown]) by {
            assert Closed(files, current)[|files|] == f;
            assert forall j :: 0 <= j < |files| ==> Closed(files, current)[j] == files[j];
          }
          SectionsGood(lex, after, files, Some(grown));
        case Refused =>
      }
    }
  }

  function HunkGrowth(hunks: seq<Hunk>): int {
    if hunks == [] then 0
    else HunkGrowth(hunks[..|hunks| - 1]) + hunks[|hunks| - 1].newCount - hunks[|hunks| - 1].oldCount
  }

  /** The sum of newCount - oldCount over all hunks. */
  function Growth(files: seq<FilePatch>): int {
    if files == [] then 0 else Growth(files[..|files| - 1]) + HunkGrowth(files[|files| - 1].hunks)
  }

  lemma {:induction false} HunksBalance(hunks: seq<Hunk>)
    requires forall k :: 0 <= k < |hunks| ==> GoodHunk(hunks[k])
    ensures HunksCount(hunks, StartsPlus) - HunksCount(hunks, StartsMinus) == HunkGrowth(hunks)
  {
    if hunks != [] {
      HunksBalance(hunks[..|hunks| - 1]);
      SidesCounted(hunks[|hunks| - 1].lines);
    }
  }

  lemma {:induction false} FilesBalance(files: seq<FilePatch>)
    requires GoodFiles(files)
    ensures TotalCount(files, StartsPlus) - TotalCount(files, StartsMinus) == Growth(files)
  {
    if files != [] {
      var init, last := files[..|files| - 1], files[|files| - 1];
      assert GoodFiles(init) by { assert forall i :: 0 <= i < |init| ==> init[i] == files[i]; }
      FilesBalance(init);
      HunksBalance(last.hunks);
    }
  }

  /**
   Every parsed patch is consistent: its hunks have the counts they state, its totals differ by the
   growth those counts promise, and its files are named once each and all have hunks.
   */
  lemma ParsedIsConsistent(validPath: string -> bool, diff: string)
    requires ParsedPatch(validPath, diff).Success?
    ensures var p := ParsedPatch(validPath, diff).value;
            && GoodFiles(p.files)
            && p.additions - p.deletions == Growth(p.files)
            && p.paths == Paths(p.files) && p.paths != [] && NoDuplicates(p.paths) && DistinctPaths(p.files)
            && forall k :: 0 <= k < |p.files| ==> p.files[k].hunks != []
  {
    SectionsGood(LexerFor(validPath), Split(diff), [], None);
    FilesBalance(ParsedPatch(validPath, diff).value.files);
    var p := ParsedPatch(validPath, diff).value;
    forall i, j | 0 <= i < j < |p.files| ensures p.files[i].path != p.files[j].path {
      assert p.paths[i] != p.paths[j];
    }
  }

  lemma {:induction false} PatchedGrowth(source: seq<Line>, at: nat, hunks: seq<Hunk>)
    requires at <= |source|
    requires Patched(source, at, hunks).Success? && forall k :: 0 <= k < |hunks| ==> GoodHunk(hunks[k])
    ensures |Patched(source, at, hunks).value| - (|source| - at) == HunkGrowth(hunks)
    decreases |hunks|
  {
    if hunks != [] {
      var start, removed := HunkStart(hunks[0]), OldSide(hunks[0].lines);
      PatchedGrowth(source, start + |removed|, hunks[1..]);
      GrowthFromFront(hunks);
    }
  }

  lemma {:induction false} GrowthFromFront(hunks: seq<Hunk>)
    requires hunks != []
    ensures HunkGrowth(hunks) == hunks[0].newCount - hunks[0].oldCount + HunkGrowth(hunks[1..])
  {
    if |hunks| > 1 {
      GrowthFromFront(hunks[..|hunks| - 1]);
      assert hunks[..|hunks| - 1][1..] == hunks[1..][..|hunks| - 2];
    }
  }

  // ----- The printer the parser inverts -----

  lemma {:induction false} DigitsStop(s: string, rest: string)
    requires AllDigits(s) && (rest == [] || !IsDigit(rest[0]))
    ensures DigitsLength(s + rest) == |s|
  {
    if s != [] {
      assert (s + rest)[1..] == s[1..] + rest;
      DigitsStop(s[1..], rest);
    } else {
      EmptyConcat(rest);
    }
  }

  lemma {:induction false} WordStops(s: string, rest: string)
    requires NoSpaces(s) && (rest == [] || IsSpace(rest[0]))
    ensures WordLength(s + rest) == |s|
  {
    if s != [] {
      assert (s + rest)[1..] == s[1..] + rest;
      WordStops(s[1..], rest);
    } else {
      EmptyConcat(rest);
    }
  }

  function RangeText(start: nat, count: nat): string {
    Decimal(start) + "," + Decimal(count)
  }

  /** A range up to the character that cannot belong to it. */
  lemma RangeReads(start: nat, count: nat, rest: string)
    requires rest != [] && !IsDigit(rest[0])
    ensures ReadRange(RangeText(start, count) + rest) == Some(Range(start, count, rest))
  {
    var first, second := Decimal(start), Decimal(count);
    var tail := "," + (second + rest);
    assert RangeText(start, count) + rest == first + tail;
    DigitsStop(first, tail);
    CutTwo(first, tail);
    CutTwo(",", second + rest);
    DigitsStop(second, rest);
    CutTwo(second, rest);
    DecimalReads(start);
    DecimalReads(count);
  }

  function HeaderLine(h: Hunk, newStart: nat): Line {
    "@@ -" + (RangeText(h.oldStart, h.oldCount) + (" +" + (RangeText(newStart, h.newCount) + " @@")))
  }

  lemma HeaderReads(h: Hunk, newStart: nat)
    ensures HunkHeader(HeaderLine(h, newStart)) == Some(Header(h.oldStart, h.oldCount, h.newCount))
  {
    var second := RangeText(newStart, h.newCount) + " @@";
    var middle := " +" + second;
    CutTwo("@@ -", RangeText(h.oldStart, h.oldCount) + middle);
    RangeReads(h.oldStart, h.oldCount, middle);
    CutTwo(" +", second);
    RangeReads(newStart, h.newCount, " @@");
  }

  lemma HeaderStarts(h: Hunk, newStart: nat)
    ensures var line := HeaderLine(h, newStart);
            StartsSection(line) && !IsMetadata(line) && FileHeader(line) == None
  {
    var line := HeaderLine(h, newStart);
    assert line[0] == '@' && line[1] == '@' && line[2] == ' ';
  }

  function FileLine(path: string): Line {
    "diff --git a/" + (path + (" b/" + path))
  }

  lemma FileLineReads(path: string)
    requires path != [] && NoSpaces(path)
    ensures FileHeader(FileLine(path)) == Some((path, path))
  {
    CutTwo("diff --git a/", path + (" b/" + path));
    TwoPathsRead(path);
  }

  lemma TwoPathsRead(path: string)
    requires path != [] && NoSpaces(path)
    ensures TwoPaths(path + (" b/" + path)) == Some((path, path))
  {
    WordStops(path, " b/" + path);
    CutTwo(path, " b/" + path);
    CutTwo(" b/", path);
    assert (path + (" b/" + path))[|path| + 3..] == path;
    EmptyConcat(path);
    WordStops(path, []);
  }

  lemma FileLineStarts(path: string)
    ensures StartsSection(FileLine(path))
  {
    CutTwo("diff --git a/", path + (" b/" + path));
    assert FileLine(path)[..11] == "diff --git a/"[..11] == "diff --git ";
  }

  function PrintHunk(h: Hunk, newStart: Hunk -> nat): seq<Line> {
    [HeaderLine(h, newStart(h))] + h.lines
  }

  function PrintHunks(hunks: seq<Hunk>, newStart: Hunk -> nat): seq<Line> {
    if hunks == [] then [] else PrintHunk(hunks[0], newStart) + PrintHunks(hunks[1..], newStart)
  }

  /** A file section; the new starts are any numbers, the parser ignores them. */
  function PrintFile(f: FilePatch, newStart: Hunk -> nat): seq<Line> {
    [FileLine(f.path), "--- a/" + f.path, "+++ b/" + f.path] + PrintHunks(f.hunks, newStart)
  }

  function PrintFiles(files: seq<FilePatch>, newStart: Hunk -> nat): seq<Line> {
    if files == [] then [] else PrintFile(files[0], newStart) + PrintFiles(files[1..], newStart)
  }

  /** A file patch as a diff tool writes it. */
  ghost predicate WellFormed(validPath: string -> bool, f: FilePatch) {
    && f.path != [] && NoSpaces(f.path) && validPath(f.path)
    && f.hunks != [] && forall k :: 0 <= k < |f.hunks| ==> GoodHunk(f.hunks[k])
  }

  /** What the lexer makes of printed lines. */
  ghost predicate LexesPrint(lex: Lexer, files: seq<FilePatch>, newStart: Hunk -> nat) {
    && (forall line :: IsHunkLine(line) ==> !lex.ends(line))
    && lex.kind([]) == Metadata
    && (forall h :: lex.ends(HeaderLine(h, newStart(h))))
    && (forall h :: lex.kind(HeaderLine(h, newStart(h))) == HunkSection(Header(h.oldStart, h.oldCount, h.newCount)))
    && (forall k :: 0 <= k < |files| ==>
          var path := files[k].path;
          && lex.ends(FileLine(path)) && lex.kind(FileLine(path)) == FileSection(path)
          && lex.kind("--- a/" + path) == Metadata && lex.kind("+++ b/" + path) == Metadata)
  }

  lemma LexerLexesPrint(validPath: string -> bool, files: seq<FilePatch>, newStart: Hunk -> nat)
    requires forall k :: 0 <= k < |files| ==> WellFormed(validPath, files[k])
    ensures LexesPrint(LexerFor(validPath), files, newStart)
  {
    var lex := LexerFor(validPath);
    forall h ensures lex.ends(HeaderLine(h, newStart(h)))
      ensures lex.kind(HeaderLine(h, newStart(h))) == HunkSection(Header(h.oldStart, h.oldCount, h.newCount))
    {
      HeaderLexes(validPath, h, newStart(h));
    }
    forall k | 0 <= k < |files|
      ensures lex.ends(FileLine(files[k].path)) && lex.kind(FileLine(files[k].path)) == FileSection(files[k].path)
      ensures lex.kind("--- a/" + files[k].path) == Metadata && lex.kind("+++ b/" + files[k].path) == Metadata
    {
      assert WellFormed(validPath, files[k]);
      FileLexes(validPath, files[k].path);
    }
    forall line | IsHunkLine(line) ensures !lex.ends(line) {
      assert line[0] != 'd' && line[0] != '@';
    }
  }

  lemma HeaderLexes(validPath: string -> bool, h: Hunk, newStart: nat)
    ensures StartsSection(HeaderLine(h, newStart))
    ensures Classify(validPath, HeaderLine(h, newStart)) == HunkSection(Header(h.oldStart, h.oldCount, h.newCount))
  {
    HeaderReads(h, newStart);
    HeaderStarts(h, newStart);
  }

  lemma FileLexes(validPath: string -> bool, path: string)
    requires path != [] && NoSpaces(path) && validPath(path)
    ensures StartsSection(FileLine(path)) && Classify(validPath, FileLine(path)) == FileSection(path)
    ensures Classify(validPath, "--- a/" + path) == Metadata && Classify(validPath, "+++ b/" + path) == Metadata
  {
    FileLineReads(path);
    FileLineStarts(path);
    PathLine("--- ", "a/", path, "--- a/");
    PathLine("+++ ", "b/", path, "+++ b/");
  }

  lemma PathLine(mark: string, side: string, path: string, start: string)
    requires (mark == "--- " || mark == "+++ ") && start == mark + side
    ensures FileHeader(start + path) == None && IsMetadata(start + path)
  {
    assert start + path == mark + (side + path);
    MetadataLine(mark, side + path, start + path);
  }

  lemma MetadataLine(mark: string, rest: string, line: Line)
    requires (mark == "--- " || mark == "+++ ") && line == mark + rest
    ensures FileHeader(line) == None && IsMetadata(line)
  {
    CutTwo(mark, rest);
    assert line[0] == mark[0];
  }

  /** What may follow a hunk: the end of the diff, or a section. */
  ghost predicate Follows(lex: Lexer, rest: seq<Line>) {
    rest == [[]] || (rest != [] && rest != [[]] && lex.ends(rest[0]))
  }

  /** What the parser still has to read after a hunk. */
  function After(rest: seq<Line>): seq<Line> {
    if rest == [[]] then [] else rest
  }

  /** The hunk body is read up to what follows it, past the last empty line if that is all there is. */
  lemma {:induction false} BodyReads(lex: Lexer, body: seq<Line>, rest: seq<Line>)
    requires Follows(lex, rest) && !lex.ends([])
    requires forall k :: 0 <= k < |body| ==> IsHunkLine(body[k]) && !lex.ends(body[k])
    ensures HunkLines(lex, body + rest) == Success((body, After(rest)))
  {
    if body == [] {
      EmptyConcat(rest);
    } else {
      var line, tail := body[0], body[1..] + rest;
      assert body + rest == [line] + tail && body == [line] + body[1..];
      ConsTail(line, tail);
      BodyReads(lex, body[1..], rest);
    }
  }

  lemma {:induction false} HunksFollow(lex: Lexer, fs: seq<FilePatch>, hunks: seq<Hunk>, newStart: Hunk -> nat, rest: seq<Line>)
    requires LexesPrint(lex, fs, newStart) && Follows(lex, rest)
    ensures Follows(lex, PrintHunks(hunks, newStart) + rest)
  {
    if hunks == [] {
      EmptyConcat(rest);
    } else {
      var lines, line := PrintHunks(hunks, newStart) + rest, HeaderLine(hunks[0], newStart(hunks[0]));
      assert lines[0] == line && lex.ends(line) && line != [];
    }
  }

  lemma OneHunkReads(lex: Lexer, fs: seq<FilePatch>, done: seq<FilePatch>, f: FilePatch,
                     h: Hunk, newStart: Hunk -> nat, rest: seq<Line>)
    requires LexesPrint(lex, fs, newStart) && !lex.ends([]) && Follows(lex, rest) && GoodHunk(h)
    ensures Sections(lex, PrintHunk(h, newStart) + rest, done, Some(f)) ==
            Sections(lex, rest, done, Some(FilePatch(f.path, f.hunks + [h])))
  {
    var line := HeaderLine(h, newStart(h));
    ConsTail(line, h.lines + rest);
    ConcatAssociates([line], h.lines, rest);
    BodyReads(lex, h.lines, rest);
    SidesCounted(h.lines);
    assert FirstHunk(lex, Header(h.oldStart, h.oldCount, h.newCount), h.lines + rest) == Success((h, After(rest)));
    if rest == [[]] { assert rest[1..] == []; }
  }

  lemma {:induction false} HunksRead(lex: Lexer, fs: seq<FilePatch>, done: seq<FilePatch>, f: FilePatch,
                                     hunks: seq<Hunk>, newStart: Hunk -> nat, rest: seq<Line>)
    requires LexesPrint(lex, fs, newStart) && !lex.ends([]) && Follows(lex, rest)
    requires forall k :: 0 <= k < |hunks| ==> GoodHunk(hunks[k])
    ensures Sections(lex, PrintHunks(hunks, newStart) + rest, done, Some(f)) ==
            Sections(lex, rest, done, Some(FilePatch(f.path, f.hunks + hunks)))
    decreases |hunks|
  {
    if hunks == [] {
      EmptyConcat(f.hunks);
      EmptyConcat(rest);
    } else {
      var h, more := hunks[0], PrintHunks(hunks[1..], newStart) + rest;
      var g := FilePatch(f.path, f.hunks + [h]);
      HunksFollow(lex, fs, hunks[1..], newStart, rest);
      OneHunkReads(lex, fs, done, f, h, newStart, more);
      HunksRead(lex, fs, done, g, hunks[1..], newStart, rest);
      ConcatAssociates(PrintHunk(h, newStart), PrintHunks(hunks[1..], newStart), rest);
      assert [h] + hunks[1..] == hunks;
      ConcatAssociates(f.hunks, [h], hunks[1..]);
    }
  }

  lemma FileReads(lex: Lexer, fs: seq<FilePatch>, k: nat, done: seq<FilePatch>, current: Option<FilePatch>,
                  newStart: Hunk -> nat, rest: seq<Line>)
    requires LexesPrint(lex, fs, newStart) && !lex.ends([]) && Follows(lex, rest)
    requires k < |fs| && forall j :: 0 <= j < |fs[k].hunks| ==> GoodHunk(fs[k].hunks[j])
    ensures Sections(lex, PrintFile(fs[k], newStart) + rest, done, current) ==
            Sections(lex, rest, Closed(done, current), Some(fs[k]))
  {
    var f := fs[k];
    var l1, l2, l3 := FileLine(f.path), "--- a/" + f.path, "+++ b/" + f.path;
    var body := PrintHunks(f.hunks, newStart) + rest;
    var closed, unfilled := Closed(done, current), FilePatch(f.path, []);
    assert PrintFile(f, newStart) + rest == [l1] + ([l2] + ([l3] + body));
    ConsTail(l1, [l2] + ([l3] + body));
    ConsTail(l2, [l3] + body);
    ConsTail(l3, body);
    assert Sections(lex, [l2] + ([l3] + body), closed, Some(unfilled)) == Sections(lex, [l3] + body, closed, Some(unfilled));
    HunksRead(lex, fs, closed, unfilled, f.hunks, newStart, rest);
    EmptyConcat(f.hunks);
    assert FilePatch(f.path, unfilled.hunks + f.hunks) == f;
  }

  lemma {:induction false} FilesRead(lex: Lexer, fs: seq<FilePatch>, k: nat, done: seq<FilePatch>,
                                     current: Option<FilePatch>, newStart: Hunk -> nat)
    requires LexesPrint(lex, fs, newStart) && !lex.ends([]) && k <= |fs|
    requires forall i, j :: 0 <= i < |fs| && 0 <= j < |fs[i].hunks| ==> GoodHunk(fs[i].hunks[j])
    ensures Sections(lex, PrintFiles(fs[k..], newStart) + [[]], done, current) == Success(Closed(done, current) + fs[k..])
    decreases |fs| - k
  {
    if k == |fs| {
      EmptyConcat<Line>([[]]);
      EmptyConcat(Closed(done, current));
      var last: seq<Line> := [[]];
      assert last[1..] == [];
    } else {
      var f, rest := fs[k], PrintFiles(fs[k + 1..], newStart) + [[]];
      assert fs[k..] == [f] + fs[k + 1..];
      ConsTail(f, fs[k + 1..]);
      assert Follows(lex, rest) by {
        if k + 1 < |fs| {
          assert rest[0] == FileLine(fs[k + 1].path) && FileLine(fs[k + 1].path) != [];
        } else {
          EmptyConcat<Line>([[]]);
        }
      }
      ConcatAssociates(PrintFile(f, newStart), PrintFiles(fs[k + 1..], newStart), [[]]);
      FileReads(lex, fs, k, done, current, newStart, rest);
      FilesRead(lex, fs, k + 1, Closed(done, current), Some(f), newStart);
      ConcatAssociates(Closed(done, current), [f], fs[k + 1..]);
    }
  }

  /** The text of a patch: its lines, closed by a line feed. */
  function PatchText(files: seq<FilePatch>, newStart: Hunk -> nat): string {
    Join(PrintFiles(files, newStart) + [[]])
  }

  /** Parsing is the inverse of printing on every well-formed patch within the size limit. */
  lemma ParseInvertsPrint(validPath: string -> bool, files: seq<FilePatch>, newStart: Hunk -> nat)
    requires files != [] && DistinctPaths(files)
    requires forall k :: 0 <= k < |files| ==> WellFormed(validPath, files[k])
    requires NoLineFeeds(PrintFiles(files, newStart))
    requires Utf8Length(PatchText(files, newStart)) <= MAX_DIFF_BYTES
    ensures ParsedPatch(validPath, PatchText(files, newStart)) ==
            Success(Parsed(Paths(files), TotalCount(files, StartsPlus), TotalCount(files, StartsMinus), files))
  {
    PrintedLines(PrintFiles(files, newStart));
    PrintedSections(validPath, files, newStart);
    forall k | 0 <= k < |files| ensures files[k].hunks != [] { assert WellFormed(validPath, files[k]); }
    SectionsParse(validPath, PatchText(files, newStart), files);
  }

  lemma PrintedLines(lines: seq<Line>)
    requires NoLineFeeds(lines)
    ensures Split(Join(lines + [[]])) == lines + [[]]
  {
    SplitOfJoin(lines + [[]]);
  }

  /** The checks after the loop pass on distinct files with hunks. */
  lemma SectionsParse(validPath: string -> bool, diff: string, files: seq<FilePatch>)
    requires Utf8Length(diff) <= MAX_DIFF_BYTES && Sections(LexerFor(validPath), Split(diff), [], None) == Success(files)
    requires files != [] && DistinctPaths(files) && forall k :: 0 <= k < |files| ==> files[k].hunks != []
    ensures ParsedPatch(validPath, diff) ==
            Success(Parsed(Paths(files), TotalCount(files, StartsPlus), TotalCount(files, StartsMinus), files))
  {
    assert NoRepeats(Paths(files));
  }

  lemma PrintedSections(validPath: string -> bool, files: seq<FilePatch>, newStart: Hunk -> nat)
    requires forall k :: 0 <= k < |files| ==> WellFormed(validPath, files[k])
    ensures Sections(LexerFor(validPath), PrintFiles(files, newStart) + [[]], [], None) == Success(files)
  {
    var lex := LexerFor(validPath);
    LexerLexesPrint(validPath, files, newStart);
    forall i, j | 0 <= i < |files| && 0 <= j < |files[i].hunks| ensures GoodHunk(files[i].hunks[j]) {
      assert WellFormed(validPath, files[i]);
    }
    assert files[0..] == files;
    FilesRead(lex, files, 0, [], None, newStart);
    EmptyConcat(files);
  }
}
