/**
 The diffs that parseUnifiedPatch accepts (src/application/patch-model-provider.ts), as a grammar that says
 nothing about how they are read: file lines, metadata lines and hunks, laid one after the other.
 */
module PatchGrammar {
  import opened Wrappers
  import opened Text
  import opened Numerals
  import opened PatchApply
  import opened PatchParse

  datatype Item = FileItem(path: string) | MetaItem(line: Line) | HunkItem(header: Line, hunk: Hunk)

  function ItemLines(i: Item): (lines: seq<Line>)
    ensures lines != []
  {
    match i
    case FileItem(path) => [FileLine(path)]
    case MetaItem(line) => [line]
    case HunkItem(header, hunk) => [header] + hunk.lines
  }

  function Laid(items: seq<Item>): seq<Line> {
    if items == [] then [] else ItemLines(items[0]) + Laid(items[1..])
  }

  /** Digits, and the count after a comma unless it is one. */
  ghost predicate RangeShape(t: string, start: nat, count: nat) {
    exists d :: Digits(d, start) && ((t == d && count == 1) || exists e :: Digits(e, count) && t == d + ("," + e))
  }

  predicate Digits(d: string, n: nat) { d != [] && AllDigits(d) && DecimalValue(d) == n }

  predicate SectionShape(s: string) {
    s == [] || (s[0] == ' ' && forall i :: 0 <= i < |s| ==> !EndsLine(s[i]))
  }

  ghost predicate HeaderShape(line: Line, h: Hunk) {
    exists a, b, newStart: nat, section ::
      && RangeShape(a, h.oldStart, h.oldCount) && RangeShape(b, newStart, h.newCount) && SectionShape(section)
      && line == HeaderText(a, b, section)
  }

  function HeaderText(a: string, b: string, section: string): Line {
    "@@ -" + (a + (" +" + (b + (" @@" + section))))
  }

  /** A valid path, a line of metadata, or a hunk whose header states its counts. */
  ghost predicate GoodItem(validPath: string -> bool, i: Item) {
    match i
    case FileItem(path) => path != [] && NoSpaces(path) && validPath(path)
    case MetaItem(line) => IsMetadata(line)
    case HunkItem(header, hunk) => HeaderShape(header, hunk) && GoodHunk(hunk)
  }

  /** A hunk needs a file before it, and no metadata may follow it: that would be read as part of it. */
  predicate Ordered(items: seq<Item>, inFile: bool, afterHunk: bool) {
    items == [] ||
    match items[0]
    case FileItem(_) => Ordered(items[1..], true, false)
    case MetaItem(_) => !afterHunk && Ordered(items[1..], inFile, false)
    case HunkItem(_, _) => inFile && Ordered(items[1..], true, true)
  }

  ghost predicate IsLayout(validPath: string -> bool, lines: seq<Line>, items: seq<Item>, inFile: bool, afterHunk: bool) {
    && (forall k :: 0 <= k < |items| ==> GoodItem(validPath, items[k]))
    && Ordered(items, inFile, afterHunk)
    && (lines == Laid(items) || lines == Laid(items) + [[]])
  }

  /** The hunks before the next file line. */
  function HunksOf(items: seq<Item>): seq<Hunk> {
    if items == [] || items[0].FileItem? then []
    else (if items[0].HunkItem? then [items[0].hunk] else []) + HunksOf(items[1..])
  }

  function FilesOf(items: seq<Item>): seq<FilePatch> {
    if items == [] then []
    else (if items[0].FileItem? then [FilePatch(items[0].path, HunksOf(items[1..]))] else []) + FilesOf(items[1..])
  }

  // ----- Lines -----

  lemma FileHeaderIs(line: Line)
    requires FileHeader(line).Some? && FileHeader(line).value.0 == FileHeader(line).value.1
    ensures var path := FileHeader(line).value.0; path != [] && NoSpaces(path) && line == FileLine(path)
  {
    CutAtPrefix("diff --git a/", line);
    TwoPathsAre(line[13..]);
  }

  lemma TwoPathsAre(rest: string)
    requires TwoPaths(rest).Some?
    ensures var (a, b) := TwoPaths(rest).value; a != [] && NoSpaces(a) && rest == a + (" b/" + b)
  {
    CutAtWord(rest, WordLength(rest), " b/");
  }

  lemma CutAtWord(s: string, n: nat, mark: string)
    requires n <= |s| && mark <= s[n..]
    ensures s == s[..n] + (mark + s[n + |mark|..])
  {
    CutAtPrefix(mark, s[n..]);
    CutAgain(s, n, n + |mark|);
    assert s == s[..n] + s[n..];
  }

  lemma FileSectionIs(validPath: string -> bool, line: Line, path: string)
    requires Classify(validPath, line) == FileSection(path)
    ensures GoodItem(validPath, FileItem(path)) && ItemLines(FileItem(path)) == [line]
  {
    FileHeaderIs(line);
  }

  lemma MetadataIs(validPath: string -> bool, line: Line)
    requires Classify(validPath, line) == Metadata
    ensures GoodItem(validPath, MetaItem(line)) && !StartsSection(line)
  {
    MetadataIsNoFile(line);
  }

  lemma BareShape(d: string, start: nat)
    requires Digits(d, start)
    ensures RangeShape(d, start, 1)
  {}

  lemma CountedShape(d: string, start: nat, e: string, count: nat)
    requires Digits(d, start) && Digits(e, count)
    ensures RangeShape(d + ("," + e), start, count)
  {}

  lemma CutAtPrefix<T>(p: seq<T>, s: seq<T>)
    requires p <= s
    ensures s == p + s[|p|..]
  {}

  lemma RangeIs(s: string) returns (t: string)
    requires ReadRange(s).Some?
    ensures var r := ReadRange(s).value; s == t + r.rest && RangeShape(t, r.start, r.count)
  {
    var n := DigitsLength(s);
    t := CountIs(s[..n], DecimalValue(s[..n]), s[n..]);
    assert s == s[..n] + s[n..];
  }

  lemma CountIs(d: string, start: nat, after: string) returns (t: string)
    requires Digits(d, start)
    ensures var r := ReadCount(start, after); d + after == t + r.rest && RangeShape(t, r.start, r.count)
  {
    if "," <= after && DigitsLength(after[1..]) > 0 {
      var m := DigitsLength(after[1..]);
      var e, rest := after[1..][..m], after[1..][m..];
      CutAtPrefix(",", after);
      CountedShape(d, start, e, DecimalValue(e));
      t := d + ("," + e);
      assert after[1..] == e + rest;
      ConcatAssociates(",", e, rest);
      ConcatAssociates(d, "," + e, rest);
    } else {
      BareShape(d, start);
      t := d;
    }
  }

  lemma HeaderIs(line: Line, h: Header, lines: seq<Line>)
    requires HunkHeader(line) == Some(h)
    ensures HeaderShape(line, Hunk(h.oldStart, h.oldCount, h.newCount, lines))
  {
    CutAtPrefix("@@ -", line);
    var a := RangeIs(line[4..]);
    var r := ReadRange(line[4..]).value;
    CutAtPrefix(" +", r.rest);
    var b := RangeIs(r.rest[2..]);
    var q := ReadRange(r.rest[2..]).value;
    CutAtPrefix(" @@", q.rest);
    ShapeIs(line, Hunk(h.oldStart, h.oldCount, h.newCount, lines), a, b, q.start, q.rest[3..]);
  }

  lemma ShapeIs(line: Line, h: Hunk, a: string, b: string, newStart: nat, section: string)
    requires RangeShape(a, h.oldStart, h.oldCount) && RangeShape(b, newStart, h.newCount) && SectionShape(section)
    requires line == HeaderText(a, b, section)
    ensures HeaderShape(line, h)
  {}

  lemma BareReads(d: string, start: nat, rest: string)
    requires Digits(d, start) && rest != [] && rest[0] == ' '
    ensures ReadRange(d + rest) == Some(Range(start, 1, rest))
  {
    DigitsStop(d, rest);
    CutTwo(d, rest);
  }

  lemma CountedReads(d: string, start: nat, e: string, count: nat, rest: string)
    requires Digits(d, start) && Digits(e, count) && rest != [] && rest[0] == ' '
    ensures ReadRange((d + ("," + e)) + rest) == Some(Range(start, count, rest))
  {
    var tail := "," + (e + rest);
    ConcatAssociates(",", e, rest);
    ConcatAssociates(d, "," + e, rest);
    DigitsStop(d, tail);
    CutTwo(d, tail);
    CutTwo(",", e + rest);
    DigitsStop(e, rest);
    CutTwo(e, rest);
  }

  lemma RangeShapeReads(t: string, start: nat, count: nat, rest: string)
    requires RangeShape(t, start, count) && rest != [] && rest[0] == ' '
    ensures ReadRange(t + rest) == Some(Range(start, count, rest))
  {
    var d :| Digits(d, start) && ((t == d && count == 1) || exists e :: Digits(e, count) && t == d + ("," + e));
    if t == d && count == 1 {
      BareReads(d, start, rest);
    } else {
      var e :| Digits(e, count) && t == d + ("," + e);
      CountedReads(d, start, e, count, rest);
    }
  }

  lemma HeaderTextReads(h: Hunk, a: string, b: string, newStart: nat, section: string)
    requires RangeShape(a, h.oldStart, h.oldCount) && RangeShape(b, newStart, h.newCount) && SectionShape(section)
    ensures HunkHeader(HeaderText(a, b, section)) == Some(Header(h.oldStart, h.oldCount, h.newCount))
  {
    var third := " @@" + section;
    var second := " +" + (b + third);
    CutTwo("@@ -", a + second);
    RangeShapeReads(a, h.oldStart, h.oldCount, second);
    CutTwo(" +", b + third);
    RangeShapeReads(b, newStart, h.newCount, third);
    CutTwo(" @@", section);
  }

  lemma HeaderTextStarts(a: string, b: string, section: string)
    ensures var line := HeaderText(a, b, section); StartsSection(line) && !IsMetadata(line) && FileHeader(line) == None
  {
    var line := HeaderText(a, b, section);
    assert line[0] == '@' && line[1] == '@' && line[2] == ' ';
  }

  lemma HeaderShapeReads(line: Line, h: Hunk)
    requires HeaderShape(line, h)
    ensures HunkHeader(line) == Some(Header(h.oldStart, h.oldCount, h.newCount))
    ensures StartsSection(line) && !IsMetadata(line) && FileHeader(line) == None
  {
    var a, b, newStart: nat, section :|
      && RangeShape(a, h.oldStart, h.oldCount) && RangeShape(b, newStart, h.newCount) && SectionShape(section)
      && line == HeaderText(a, b, section);
    HeaderTextReads(h, a, b, newStart, section);
    HeaderTextStarts(a, b, section);
  }

  lemma MetadataIsNoFile(line: Line)
    requires IsMetadata(line)
    ensures FileHeader(line) == None && !StartsSection(line)
  {
    if line != [] { assert line[0] == 'i' || line[0] == '-' || line[0] == '+'; }
  }

  // ----- What is parsed is laid out -----

  /** The files when the items come after those so far. */
  function Ended(files: seq<FilePatch>, current: Option<FilePatch>, items: seq<Item>): seq<FilePatch> {
    (match current
     case None => files
     case Some(f) => files + [FilePatch(f.path, f.hunks + HunksOf(items))]) + FilesOf(items)
  }

  lemma {:induction false} BodyIs(lex: Lexer, rest: seq<Line>)
    requires HunkLines(lex, rest).Success?
    ensures var (body, after) := HunkLines(lex, rest).value;
            && (rest == body + after || (after == [] && rest == body + [[]]))
            && (after == [] || lex.ends(after[0]))
  {
    if rest != [] && !lex.ends(rest[0]) && rest != [[]] {
      BodyIs(lex, rest[1..]);
      assert rest == [rest[0]] + rest[1..];
      ConcatAssociates([rest[0]], HunkLines(lex, rest[1..]).value.0, HunkLines(lex, rest[1..]).value.1);
      ConcatAssociates([rest[0]], HunkLines(lex, rest[1..]).value.0, [[]]);
    } else {
      EmptyConcat(rest);
    }
  }

  lemma EndedByFile(files: seq<FilePatch>, current: Option<FilePatch>, path: string, items: seq<Item>)
    ensures Ended(files, current, [FileItem(path)] + items) == Ended(Closed(files, current), Some(FilePatch(path, [])), items)
  {
    ConsTail(FileItem(path), items);
    EmptyConcat(HunksOf(items));
    var f := FilePatch(path, HunksOf(items));
    if current.Some? { EmptyConcat(current.value.hunks); }
    ConcatAssociates(Closed(files, current), [f], FilesOf(items));
  }

  lemma EndedByMeta(files: seq<FilePatch>, current: Option<FilePatch>, line: Line, items: seq<Item>)
    ensures Ended(files, current, [MetaItem(line)] + items) == Ended(files, current, items)
  {
    ConsTail(MetaItem(line), items);
    EmptyConcat(HunksOf(items));
    EmptyConcat(FilesOf(items));
  }

  lemma EndedByHunk(files: seq<FilePatch>, f: FilePatch, header: Line, hunk: Hunk, items: seq<Item>)
    ensures Ended(files, Some(f), [HunkItem(header, hunk)] + items)
         == Ended(files, Some(FilePatch(f.path, f.hunks + [hunk])), items)
  {
    ConsTail(HunkItem(header, hunk), items);
    ConcatAssociates(f.hunks, [hunk], HunksOf(items));
    EmptyConcat(FilesOf(items));
  }

  /** One more item in front. */
  lemma LayoutGrows(validPath: string -> bool, i: Item, lines: seq<Line>, items: seq<Item>, inFile: bool, afterHunk: bool)
    requires GoodItem(validPath, i)
    requires IsLayout(validPath, lines, items, inFile || i.FileItem?, i.HunkItem?)
    requires (i.MetaItem? ==> !afterHunk) && (i.HunkItem? ==> inFile)
    ensures IsLayout(validPath, ItemLines(i) + lines, [i] + items, inFile, afterHunk)
  {
    ConsTail(i, items);
    ConcatAssociates(ItemLines(i), Laid(items), [[]]);
  }

  /** The last hunk may be closed by an empty line. */
  lemma LayoutCloses(validPath: string -> bool, i: Item, inFile: bool, afterHunk: bool)
    requires GoodItem(validPath, i) && i.HunkItem? && inFile
    ensures IsLayout(validPath, ItemLines(i) + [[]], [i], inFile, afterHunk)
  {
    ConsTail(i, []);
    EmptyConcat(ItemLines(i));
    assert [i][1..] == [];
  }

  lemma {:induction false} SectionsLaid(validPath: string -> bool, rest: seq<Line>, files: seq<FilePatch>,
                                        current: Option<FilePatch>, afterHunk: bool) returns (items: seq<Item>)
    requires Sections(LexerFor(validPath), rest, files, current).Success?
    requires afterHunk ==> rest == [] || StartsSection(rest[0])
    ensures IsLayout(validPath, rest, items, current.Some?, afterHunk)
    ensures Sections(LexerFor(validPath), rest, files, current).value == Ended(files, current, items)
    decreases |rest|, 1
  {
    var lex := LexerFor(validPath);
    if rest == [] {
      items := [];
      NothingLaid(validPath, files, current, afterHunk);
    } else {
      match lex.kind(rest[0]) {
        case FileSection(path) =>
          items := FileLaid(validPath, rest, files, current, path, afterHunk);
        case Metadata =>
          items := MetaLaid(validPath, rest, files, current, afterHunk);
        case HunkSection(h) =>
          items := HunkLaid(validPath, rest, files, current.value, h, afterHunk);
        case Refused =>
      }
    }
  }

  lemma {:induction false} FileLaid(validPath: string -> bool, rest: seq<Line>, files: seq<FilePatch>,
                                    current: Option<FilePatch>, path: string, afterHunk: bool) returns (items: seq<Item>)
    requires rest != [] && LexerFor(validPath).kind(rest[0]) == FileSection(path)
    requires Sections(LexerFor(validPath), rest, files, current).Success?
    ensures IsLayout(validPath, rest, items, current.Some?, afterHunk)
    ensures Sections(LexerFor(validPath), rest, files, current).value == Ended(files, current, items)
    decreases |rest|, 0
  {
    FileSectionIs(validPath, rest[0], path);
    CutAtPrefix([rest[0]], rest);
    var more := SectionsLaid(validPath, rest[1..], Closed(files, current), Some(FilePatch(path, [])), false);
    LayoutGrows(validPath, FileItem(path), rest[1..], more, current.Some?, afterHunk);
    EndedByFile(files, current, path, more);
    items := [FileItem(path)] + more;
  }

  lemma {:induction false} MetaLaid(validPath: string -> bool, rest: seq<Line>, files: seq<FilePatch>,
                                    current: Option<FilePatch>, afterHunk: bool) returns (items: seq<Item>)
    requires rest != [] && LexerFor(validPath).kind(rest[0]) == Metadata && (afterHunk ==> StartsSection(rest[0]))
    requires Sections(LexerFor(validPath), rest, files, current).Success?
    ensures IsLayout(validPath, rest, items, current.Some?, afterHunk)
    ensures Sections(LexerFor(validPath), rest, files, current).value == Ended(files, current, items)
    decreases |rest|, 0
  {
    MetadataIs(validPath, rest[0]);
    CutAtPrefix([rest[0]], rest);
    var more := SectionsLaid(validPath, rest[1..], files, current, false);
    LayoutGrows(validPath, MetaItem(rest[0]), rest[1..], more, current.Some?, afterHunk);
    EndedByMeta(files, current, rest[0], more);
    items := [MetaItem(rest[0])] + more;
  }

  lemma NothingLaid(validPath: string -> bool, files: seq<FilePatch>, current: Option<FilePatch>, afterHunk: bool)
    ensures IsLayout(validPath, [], [], current.Some?, afterHunk) && Ended(files, current, []) == Closed(files, current)
  {
    if current.Some? { EmptyConcat(current.value.hunks); }
    EmptyConcat(Closed(files, current));
  }

  lemma {:induction false} HunkLaid(validPath: string -> bool, rest: seq<Line>, files: seq<FilePatch>,
                                    f: FilePatch, h: Header, afterHunk: bool) returns (items: seq<Item>)
    requires rest != [] && LexerFor(validPath).kind(rest[0]) == HunkSection(h)
    requires Sections(LexerFor(validPath), rest, files, Some(f)).Success?
    ensures IsLayout(validPath, rest, items, true, afterHunk)
    ensures Sections(LexerFor(validPath), rest, files, Some(f)).value == Ended(files, Some(f), items)
    decreases |rest|, 0
  {
    var lex := LexerFor(validPath);
    var (hunk, after) := FirstHunk(lex, h, rest[1..]).value;
    BodyIs(lex, rest[1..]);
    var more := SectionsLaid(validPath, after, files, Some(FilePatch(f.path, f.hunks + [hunk])), true);
    EndedByHunk(files, f, rest[0], hunk, more);
    items := [HunkItem(rest[0], hunk)] + more;
    HunkIsGood(validPath, rest, h, hunk, after);
    HunkInFront(validPath, rest, hunk, after, more, afterHunk);
  }

  lemma HunkIsGood(validPath: string -> bool, rest: seq<Line>, h: Header, hunk: Hunk, after: seq<Line>)
    requires rest != [] && LexerFor(validPath).kind(rest[0]) == HunkSection(h)
    requires FirstHunk(LexerFor(validPath), h, rest[1..]) == Success((hunk, after))
    ensures GoodItem(validPath, HunkItem(rest[0], hunk))
  {
    HunkLinesMarked(LexerFor(validPath), rest[1..]);
    SidesCounted(hunk.lines);
    HeaderIs(rest[0], h, hunk.lines);
  }

  lemma HunkInFront(validPath: string -> bool, rest: seq<Line>, hunk: Hunk, after: seq<Line>, more: seq<Item>, afterHunk: bool)
    requires rest != [] && GoodItem(validPath, HunkItem(rest[0], hunk)) && IsLayout(validPath, after, more, true, true)
    requires rest[1..] == hunk.lines + after || (after == [] && rest[1..] == hunk.lines + [[]])
    ensures IsLayout(validPath, rest, [HunkItem(rest[0], hunk)] + more, true, afterHunk)
  {
    var i := HunkItem(rest[0], hunk);
    assert rest == [rest[0]] + rest[1..];
    if rest[1..] == hunk.lines + after {
      ConcatAssociates([rest[0]], hunk.lines, after);
      LayoutGrows(validPath, i, after, more, true, afterHunk);
    } else {
      ConcatAssociates([rest[0]], hunk.lines, [[]]);
      NothingElse(validPath, more);
      EmptyConcat([i]);
      LayoutCloses(validPath, i, true, afterHunk);
    }
  }

  lemma NothingElse(validPath: string -> bool, items: seq<Item>)
    requires IsLayout(validPath, [], items, true, true)
    ensures items == []
  {}

  // ----- What is laid out is parsed -----

  /** What may stand after a hunk: nothing, the closing empty line, or a section. */
  lemma HunkIsFollowed(validPath: string -> bool, lines: seq<Line>, items: seq<Item>)
    requires IsLayout(validPath, lines, items, true, true)
    ensures lines == [] || lines == [[]] || StartsSection(lines[0])
  {
    if items != [] {
      assert GoodItem(validPath, items[0]);
      if items[0].FileItem? { FileLineStarts(items[0].path); } else { HeaderShapeReads(items[0].header, items[0].hunk); }
      assert lines[0] == ItemLines(items[0])[0];
    } else {
      EmptyConcat<Line>([[]]);
    }
  }

  lemma {:induction false} BodyEnds(lex: Lexer, body: seq<Line>)
    requires forall k :: 0 <= k < |body| ==> IsHunkLine(body[k]) && !lex.ends(body[k])
    ensures HunkLines(lex, body) == Success((body, []))
  {
    if body != [] {
      BodyEnds(lex, body[1..]);
      assert body == [body[0]] + body[1..];
    }
  }

  lemma HunkReads(validPath: string -> bool, hunk: Hunk, rest: seq<Line>)
    requires GoodHunk(hunk) && (rest == [] || rest == [[]] || StartsSection(rest[0]))
    ensures FirstHunk(LexerFor(validPath), Header(hunk.oldStart, hunk.oldCount, hunk.newCount), hunk.lines + rest)
         == Success((hunk, After(rest)))
  {
    var lex := LexerFor(validPath);
    forall k | 0 <= k < |hunk.lines| ensures !lex.ends(hunk.lines[k]) { assert hunk.lines[k][0] != 'd' && hunk.lines[k][0] != '@'; }
    if rest == [] {
      EmptyConcat(hunk.lines);
      BodyEnds(lex, hunk.lines);
    } else {
      BodyReads(lex, hunk.lines, rest);
    }
    SidesCounted(hunk.lines);
  }

  lemma {:induction false} LaidIsRead(validPath: string -> bool, lines: seq<Line>, items: seq<Item>,
                                      files: seq<FilePatch>, current: Option<FilePatch>, afterHunk: bool)
    requires IsLayout(validPath, lines, items, current.Some?, afterHunk)
    ensures Sections(LexerFor(validPath), lines, files, current) == Success(Ended(files, current, items))
    decreases |items|
  {
    if items == [] {
      NothingLaid(validPath, files, current, afterHunk);
      EmptyConcat<Line>([[]]);
      if lines != [] { MetadataIsNoFile([]); assert lines[1..] == []; }
    } else {
      var i, more := items[0], items[1..];
      var rest := LayoutRest(validPath, lines, items, current.Some?, afterHunk);
      assert items == [i] + more;
      match i {
        case FileItem(path) =>
          FileLexes(validPath, path);
          ConsTail(FileLine(path), rest);
          LaidIsRead(validPath, rest, more, Closed(files, current), Some(FilePatch(path, [])), false);
          EndedByFile(files, current, path, more);
        case MetaItem(line) =>
          MetadataIsNoFile(line);
          ConsTail(line, rest);
          LaidIsRead(validPath, rest, more, files, current, false);
          EndedByMeta(files, current, line, more);
        case HunkItem(header, hunk) =>
          HeaderShapeReads(header, hunk);
          HunkIsFollowed(validPath, rest, more);
          HunkReads(validPath, hunk, rest);
          ConsTail(header, hunk.lines + rest);
          ConcatAssociates([header], hunk.lines, rest);
          var f := current.value;
          var grown := FilePatch(f.path, f.hunks + [hunk]);
          LaidIsRead(validPath, rest, more, files, Some(grown), true);
          EndedByHunk(files, f, header, hunk, more);
          ClosingLine(validPath, rest, files, grown);
      }
    }
  }

  /** The empty line that closes the last hunk changes nothing. */
  lemma ClosingLine(validPath: string -> bool, rest: seq<Line>, files: seq<FilePatch>, f: FilePatch)
    ensures Sections(LexerFor(validPath), After(rest), files, Some(f)) == Sections(LexerFor(validPath), rest, files, Some(f))
  {
    if rest == [[]] {
      MetadataIsNoFile([]);
      assert rest[1..] == [];
    }
  }

  /** The lines after the first item. */
  lemma LayoutRest(validPath: string -> bool, lines: seq<Line>, items: seq<Item>, inFile: bool, afterHunk: bool) returns (rest: seq<Line>)
    requires IsLayout(validPath, lines, items, inFile, afterHunk) && items != []
    ensures lines == ItemLines(items[0]) + rest && GoodItem(validPath, items[0])
    ensures IsLayout(validPath, rest, items[1..], inFile || items[0].FileItem?, items[0].HunkItem?)
  {
    if lines == Laid(items) {
      rest := Laid(items[1..]);
    } else {
      rest := Laid(items[1..]) + [[]];
      ConcatAssociates(ItemLines(items[0]), Laid(items[1..]), [[]]);
    }
  }

  // ----- The diffs that are accepted -----

  ghost predicate IsDiffOf(validPath: string -> bool, diff: string, files: seq<FilePatch>) {
    exists items :: IsLayout(validPath, Split(diff), items, false, false) && FilesOf(items) == files
  }

  /** The files of an accepted diff: named once each, all with hunks. */
  ghost predicate AreNamedOnce(files: seq<FilePatch>) {
    files != [] && DistinctPaths(files) && forall k :: 0 <= k < |files| ==> files[k].hunks != []
  }

  function Totals(files: seq<FilePatch>): Parsed {
    Parsed(Paths(files), TotalCount(files, StartsPlus), TotalCount(files, StartsMinus), files)
  }

  lemma ParsedIsLaid(validPath: string -> bool, diff: string)
    requires ParsedPatch(validPath, diff).Success?
    ensures var p := ParsedPatch(validPath, diff).value;
            Utf8Length(diff) <= MAX_DIFF_BYTES && IsDiffOf(validPath, diff, p.files) && AreNamedOnce(p.files) && p == Totals(p.files)
  {
    ParsedIsConsistent(validPath, diff);
    var items := SectionsLaid(validPath, Split(diff), [], None, false);
    EmptyConcat(FilesOf(items));
  }

  lemma LaidIsParsed(validPath: string -> bool, diff: string, files: seq<FilePatch>)
    requires Utf8Length(diff) <= MAX_DIFF_BYTES && IsDiffOf(validPath, diff, files) && AreNamedOnce(files)
    ensures ParsedPatch(validPath, diff) == Success(Totals(files))
  {
    var items :| IsLayout(validPath, Split(diff), items, false, false) && FilesOf(items) == files;
    LaidIsRead(validPath, Split(diff), items, [], None, false);
    EmptyConcat(FilesOf(items));
    SectionsParse(validPath, diff, files);
  }

  /**
   A diff is parsed to these files exactly when it is at most 2,000,000 bytes long and laid out of valid items that
   make these files, which are named once each and have hunks; the totals are the lines added and removed.
   */
  lemma ParseMeans(validPath: string -> bool, diff: string, p: Parsed)
    ensures ParsedPatch(validPath, diff) == Success(p) <==>
            Utf8Length(diff) <= MAX_DIFF_BYTES && IsDiffOf(validPath, diff, p.files) && AreNamedOnce(p.files) && p == Totals(p.files)
  {
    if ParsedPatch(validPath, diff) == Success(p) { ParsedIsLaid(validPath, diff); }
    if Utf8Length(diff) <= MAX_DIFF_BYTES && IsDiffOf(validPath, diff, p.files) && AreNamedOnce(p.files) {
      LaidIsParsed(validPath, diff, p.files);
    }
  }
}
