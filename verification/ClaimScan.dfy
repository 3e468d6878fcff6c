/**
 The main loop of the forbidden-claim scanner (src/application/verification.ts, main): every tracked
 file is searched for the claims in its exact text and, unless it is a verified binary, in its
 compact text and in its decoded payloads; locations are reported once each, at most 20 of them.
 */
module ClaimScan {
  import opened Wrappers
  import opened Text
  import opened Lists
  import opened CompactText
  import opened AhoCorasick

  const MAX_DIAGNOSTICS: nat := 20
  const MAX_FORBIDDEN_CLAIMS: nat := 100
  const MAX_FORBIDDEN_CLAIM_CHARACTERS: nat := 500
  const MIN_COMPACT_CHARACTERS: nat := 4
  const MAX_SOURCE_FILE_BYTES: nat := 4 * 1024 * 1024
  const MAX_BINARY_FILE_BYTES: nat := 50 * 1024 * 1024
  const MAX_TOTAL_SOURCE_BYTES: nat := 64 * 1024 * 1024
  const MAX_TOTAL_WORKSPACE_BYTES: nat := 500 * 1024 * 1024

  /** A decoded payload: its text, normalised, and where its literal starts in the source. */
  datatype Payload = Payload(offset: nat, text: Utf16)

  /**
   A tracked file as the scanner sees it. `admissible` stands for the path and file-kind checks,
   `readable` for the read and the NUL check, `payloads` is None when decoding exceeds its bounds.
   */
  datatype SourceFile = SourceFile(
    path: string, admissible: bool, size: nat, binary: bool, readable: bool,
    sourceText: Utf16, haystack: Utf16, payloads: Option<seq<Payload>>)

  datatype Location = Location(claim: nat, path: string, line: nat)

  datatype Outcome = ScanError | Clean | Report(matches: seq<Location>, truncated: bool)

  // ----- Lines -----

  function LineFeeds(text: Utf16): nat {
    if text == [] then 0 else LineFeeds(text[..|text| - 1]) + if text[|text| - 1] == 10 then 1 else 0
  }

  /** The one-based line of an offset. */
  function Line(text: Utf16, offset: nat): nat {
    1 + LineFeeds(if offset <= |text| then text[..offset] else text)
  }

  /** lineAtOffset */
  method LineAtOffset(value: Utf16, offset: nat) returns (line: nat)
    requires offset <= |value|
    ensures line == Line(value, offset)
  {
    line := 1;
    assert value[..0] == [];
    for index := 0 to offset
      invariant line == 1 + LineFeeds(value[..index])
    {
      assert value[..index + 1][..index] == value[..index];
      if value[index] == 10 {
        line := line + 1;
      }
    }
  }

  /** The line feeds before an offset. */
  ghost function FeedsBefore(text: Utf16, offset: nat): set<nat> { set i: nat | i < offset && i < |text| && text[i] == 10 }

  /** A line is one more than the line feeds before it. */
  lemma {:induction false} LineCounts(text: Utf16, offset: nat)
    requires offset <= |text|
    ensures Line(text, offset) == 1 + |FeedsBefore(text, offset)|
    decreases offset
  {
    if offset > 0 {
      LineCounts(text, offset - 1);
      assert text[..offset][..offset - 1] == text[..offset - 1];
      var n: nat := offset - 1;
      forall i: nat ensures i in FeedsBefore(text, offset) <==> i in FeedsBefore(text, n) || (i == n && text[n] == 10) {}
      assert FeedsBefore(text, offset) == FeedsBefore(text, n) + if text[n] == 10 then {n} else {};
    }
  }

  // ----- The reporter: addLocation and its captured state -----

  datatype Reporter = Reporter(diagnostics: seq<Location>, locations: set<Location>, omitted: bool)

  const NothingYet := Reporter([], {}, false)

  /** addLocation: a location counts once; the 21st distinct one is only noted as omitted. */
  function AddLocation(r: Reporter, at: Location): Reporter {
    if at in r.locations then r
    else if |r.diagnostics| < MAX_DIAGNOSTICS then
      Reporter(r.diagnostics + [at], r.locations + {at}, r.omitted)
    else Reporter(r.diagnostics, r.locations + {at}, true)
  }

  function AddAll(r: Reporter, ats: seq<Location>): Reporter {
    if ats == [] then r else AddLocation(AddAll(r, ats[..|ats| - 1]), ats[|ats| - 1])
  }

  /** What the report would say of a list of locations, all of them seen. */
  function ReportOf(ats: seq<Location>): Outcome {
    var d := Distinct(ats);
    if d == [] then Clean
    else Report(if |d| <= MAX_DIAGNOSTICS then d else d[..MAX_DIAGNOSTICS], |d| > MAX_DIAGNOSTICS)
  }

  ghost predicate Saturated(ats: seq<Location>) {
    |Distinct(ats)| > MAX_DIAGNOSTICS
  }

  lemma DistinctIs(ats: seq<Location>)
    ensures NoDuplicates(Distinct(ats))
    ensures forall at :: at in Distinct(ats) <==> at in ats
  {
    DistinctKeeps([], ats);
  }

  /** The reporter's three variables, in terms of what has been added. */
  lemma {:induction false} AddAllIs(ats: seq<Location>)
    ensures var r, d := AddAll(NothingYet, ats), Distinct(ats);
            && (forall at :: at in r.locations <==> at in d)
            && r.diagnostics == (if |d| <= MAX_DIAGNOSTICS then d else d[..MAX_DIAGNOSTICS])
            && r.omitted == Saturated(ats)
  {
    if ats != [] {
      var n := |ats| - 1;
      AddAllIs(ats[..n]);
      DistinctPush(ats[..n], ats[n]);
      assert ats == ats[..n] + [ats[n]];
    }
  }

  lemma {:induction false} AddAllAppend(r: Reporter, a: seq<Location>, b: seq<Location>)
    ensures AddAll(r, a + b) == AddAll(AddAll(r, a), b)
  {
    if b == [] {
      assert a + b == a;
    } else {
      AddAllAppend(r, a, b[..|b| - 1]);
      assert (a + b)[..|a + b| - 1] == a + b[..|b| - 1];
    }
  }

  /** Once a location has been omitted, later ones change nothing that is reported. */
  lemma DistinctGrows(a: seq<Location>, b: seq<Location>)
    ensures Distinct(a) <= Distinct(a + b)
  {
    DistinctConcat([], a, b);
    DistinctOntoGrows(Distinct(a), b);
  }

  lemma SaturatedIsFinal(a: seq<Location>, b: seq<Location>)
    requires Saturated(a)
    ensures Saturated(a + b) && ReportOf(a + b) == ReportOf(a)
  {
    DistinctGrows(a, b);
  }

  // ----- Searching one text -----

  /** The locations a visitor adds for a list of visits. */
  function Placed(place: Visit -> Option<Location>, vs: seq<Visit>): seq<Location> {
    if vs == [] then []
    else
      var before := Placed(place, vs[..|vs| - 1]);
      match place(vs[|vs| - 1])
      case None => before
      case Some(at) => before + [at]
  }

  lemma {:induction false} PlacedIs(place: Visit -> Option<Location>, vs: seq<Visit>, at: Location)
    ensures at in Placed(place, vs) <==> exists v :: v in vs && place(v) == Some(at)
  {
    if vs != [] {
      var n := |vs| - 1;
      PlacedIs(place, vs[..n], at);
      assert forall v :: v in vs <==> v in vs[..n] || v == vs[n];
    }
  }

  lemma {:induction false} PlacedPrefix(place: Visit -> Option<Location>, vs: seq<Visit>, ws: seq<Visit>)
    requires vs <= ws
    ensures Placed(place, vs) <= Placed(place, ws)
  {
    if |vs| < |ws| {
      PlacedPrefix(place, vs, ws[..|ws| - 1]);
    } else {
      assert vs == ws;
    }
  }

  /** The reporter's state while the scan is going on: nothing has been omitted yet. */
  ghost predicate Going(r: Reporter, seen: seq<Location>) {
    r == AddAll(NothingYet, seen) && !Saturated(seen)
  }

  /** What a search over some locations leaves behind: all of them seen, or enough to saturate. */
  ghost predicate SearchedTo(r: Reporter, going: bool, seen0: seq<Location>, seen: seq<Location>, ats: seq<Location>) {
    && r == AddAll(NothingYet, seen)
    && going == !Saturated(seen)
    && seen0 <= seen <= seen0 + ats
    && (going ==> seen == seen0 + ats)
  }

  /** One findMatches call of the scanner, with addLocation as the visitor. */
  method SearchText(ghost patterns: seq<Pattern>, nodes: seq<Node>, ghost t: Trie, text: Utf16,
                    place: Visit -> Option<Location>, r0: Reporter, ghost seen0: seq<Location>)
    returns (r: Reporter, going: bool, ghost seen: seq<Location>)
    requires IsMatcher(patterns, nodes, t) && Going(r0, seen0)
    ensures SearchedTo(r, going, seen0, seen, Placed(place, AllMatches(patterns, text)))
  {
    var completed, visited, _ :=
      FindMatches(patterns, text, nodes, t, vs => !AddAll(r0, Placed(place, vs)).omitted);
    going := completed;
    var ats := Placed(place, visited);
    seen := seen0 + ats;
    r := AddAll(r0, ats);
    AddAllAppend(NothingYet, seen0, ats);
    AddAllIs(seen);
    PlacedPrefix(place, visited, AllMatches(patterns, text));
    if visited == [] { assert seen == seen0; }
  }

  lemma SearchedThen(r: Reporter, going: bool, seen0: seq<Location>, seen1: seq<Location>, seen: seq<Location>,
                     a: seq<Location>, b: seq<Location>)
    requires seen1 == seen0 + a && SearchedTo(r, going, seen1, seen, b)
    ensures SearchedTo(r, going, seen0, seen, a + b)
  {
    assert seen0 + a + b == seen0 + (a + b);
  }

  lemma SearchedPart(r: Reporter, seen0: seq<Location>, seen: seq<Location>, a: seq<Location>, b: seq<Location>)
    requires SearchedTo(r, false, seen0, seen, a)
    ensures SearchedTo(r, false, seen0, seen, a + b)
  {
    assert seen0 + a + b == seen0 + (a + b);
  }

  // ----- One file -----

  function ExactPatterns(claims: seq<Utf16>): (ps: seq<Pattern>)
    ensures |ps| == |claims| && forall i :: 0 <= i < |ps| ==> ps[i] == Pattern(i, claims[i])
  {
    seq(|claims|, i requires 0 <= i < |claims| => Pattern(i, claims[i]))
  }

  /** The claims from number `i` on whose letters and digits are at least four units. */
  function CompactPatterns(isWord: Utf16 -> bool, claims: seq<Utf16>, i: nat): seq<Pattern>
    decreases |claims| - i
  {
    if i >= |claims| then []
    else
      var text := Compact(isWord, claims[i]).text;
      var rest := CompactPatterns(isWord, claims, i + 1);
      if |text| >= MIN_COMPACT_CHARACTERS then [Pattern(i, text)] + rest else rest
  }

  lemma {:induction false} CompactPatternsAre(isWord: Utf16 -> bool, claims: seq<Utf16>, i: nat, p: Pattern)
    ensures p in CompactPatterns(isWord, claims, i) <==>
            i <= p.index < |claims| && p.text == Compact(isWord, claims[p.index]).text &&
            |p.text| >= MIN_COMPACT_CHARACTERS
    decreases |claims| - i
  {
    if i < |claims| {
      CompactPatternsAre(isWord, claims, i + 1, p);
    }
  }

  function ExactPlace(f: SourceFile): Visit -> Option<Location> {
    (v: Visit) => Some(Location(v.index, f.path, Line(f.haystack, v.start)))
  }

  function CompactPlace(f: SourceFile, offsets: seq<nat>): Visit -> Option<Location> {
    (v: Visit) =>
      if v.start < |offsets| then Some(Location(v.index, f.path, Line(f.haystack, offsets[v.start]))) else None
  }

  function PayloadPlace(f: SourceFile, payload: Payload): Visit -> Option<Location> {
    (v: Visit) => Some(Location(v.index, f.path, Line(f.sourceText, payload.offset)))
  }

  function ExactLocations(claims: seq<Utf16>, f: SourceFile): seq<Location> {
    Placed(ExactPlace(f), AllMatches(ExactPatterns(claims), f.haystack))
  }

  function CompactLocations(isWord: Utf16 -> bool, claims: seq<Utf16>, f: SourceFile): seq<Location> {
    var compact := Compact(isWord, f.haystack);
    Placed(CompactPlace(f, compact.offsets), AllMatches(CompactPatterns(isWord, claims, 0), compact.text))
  }

  function PayloadLocations(isWord: Utf16 -> bool, claims: seq<Utf16>, f: SourceFile, payload: Payload): seq<Location> {
    Placed(PayloadPlace(f, payload), AllMatches(ExactPatterns(claims), payload.text)) +
    Placed(PayloadPlace(f, payload),
           AllMatches(CompactPatterns(isWord, claims, 0), Compact(isWord, payload.text).text))
  }

  function PayloadsLocations(isWord: Utf16 -> bool, claims: seq<Utf16>, f: SourceFile, ps: seq<Payload>): seq<Location> {
    if ps == [] then []
    else PayloadsLocations(isWord, claims, f, ps[..|ps| - 1]) + PayloadLocations(isWord, claims, f, ps[|ps| - 1])
  }

  /** Everything the scanner could report of one file. */
  function FileLocations(isWord: Utf16 -> bool, claims: seq<Utf16>, f: SourceFile): seq<Location> {
    if f.binary then ExactLocations(claims, f)
    else
      ExactLocations(claims, f) + CompactLocations(isWord, claims, f) +
      if f.payloads.Some? then PayloadsLocations(isWord, claims, f, f.payloads.value) else []
  }

  /** The two matchers of a scan, and what each recognises. */
  datatype Matchers = Matchers(exact: seq<Node>, compact: seq<Node>)

  datatype Tries = Tries(exact: Trie, compact: Trie)

  ghost predicate MatchersFor(isWord: Utf16 -> bool, claims: seq<Utf16>, m: Matchers, t: Tries) {
    && IsMatcher(ExactPatterns(claims), m.exact, t.exact)
    && IsMatcher(CompactPatterns(isWord, claims, 0), m.compact, t.compact)
  }

  /** One decoded payload: its exact text, then its compact text. */
  method ScanPayload(isWord: Utf16 -> bool, ghost claims: seq<Utf16>, m: Matchers, ghost t: Tries,
                     f: SourceFile, payload: Payload, r0: Reporter, ghost seen0: seq<Location>)
    returns (r: Reporter, going: bool, ghost seen: seq<Location>)
    requires MatchersFor(isWord, claims, m, t) && Going(r0, seen0)
    ensures SearchedTo(r, going, seen0, seen, PayloadLocations(isWord, claims, f, payload))
  {
    ghost var a := Placed(PayloadPlace(f, payload), AllMatches(ExactPatterns(claims), payload.text));
    ghost var b := Placed(PayloadPlace(f, payload),
                          AllMatches(CompactPatterns(isWord, claims, 0), Compact(isWord, payload.text).text));
    r, going, seen := SearchText(ExactPatterns(claims), m.exact, t.exact, payload.text, PayloadPlace(f, payload), r0, seen0);
    if !going {
      SearchedPart(r, seen0, seen, a, b);
      return;
    }
    var compact := CompactWithOffsets(isWord, payload.text);
    ghost var seen1 := seen;
    r, going, seen :=
      SearchText(CompactPatterns(isWord, claims, 0), m.compact, t.compact, compact.text, PayloadPlace(f, payload), r, seen);
    SearchedThen(r, going, seen0, seen1, seen, a, b);
  }

  method ScanPayloads(isWord: Utf16 -> bool, ghost claims: seq<Utf16>, m: Matchers, ghost t: Tries,
                      f: SourceFile, payloads: seq<Payload>, r0: Reporter, ghost seen0: seq<Location>)
    returns (r: Reporter, going: bool, ghost seen: seq<Location>)
    requires MatchersFor(isWord, claims, m, t) && Going(r0, seen0)
    ensures SearchedTo(r, going, seen0, seen, PayloadsLocations(isWord, claims, f, payloads))
  {
    r, going, seen := r0, true, seen0;
    ghost var all := PayloadsLocations(isWord, claims, f, payloads);
    ghost var before: seq<Location> := [];
    EmptyConcat(seen0);
    for k := 0 to |payloads|
      invariant going && Going(r, seen) && SearchedTo(r, true, seen0, seen, before)
      invariant before == PayloadsLocations(isWord, claims, f, payloads[..k])
    {
      ghost var here := PayloadLocations(isWord, claims, f, payloads[k]);
      ghost var seen1 := seen;
      r, going, seen := ScanPayload(isWord, claims, m, t, f, payloads[k], r, seen);
      SearchedThen(r, going, seen0, seen1, seen, before, here);
      PayloadsStep(isWord, claims, f, payloads, k);
      before := before + here;
      if !going {
        SearchedWithin(r, seen0, seen, before, all);
        return;
      }
    }
    assert payloads[..|payloads|] == payloads;
  }

  lemma SearchedWithin(r: Reporter, seen0: seq<Location>, seen: seq<Location>, a: seq<Location>, b: seq<Location>)
    requires SearchedTo(r, false, seen0, seen, a) && a <= b
    ensures SearchedTo(r, false, seen0, seen, b)
  {
    assert a + b[|a|..] == b;
    SearchedPart(r, seen0, seen, a, b[|a|..]);
  }

  lemma PayloadsSnoc(isWord: Utf16 -> bool, claims: seq<Utf16>, f: SourceFile, ps: seq<Payload>, k: nat)
    requires k < |ps|
    ensures PayloadsLocations(isWord, claims, f, ps[..k + 1])
         == PayloadsLocations(isWord, claims, f, ps[..k]) + PayloadLocations(isWord, claims, f, ps[k])
  {
    assert ps[..k + 1][..k] == ps[..k];
  }

  lemma PayloadsStep(isWord: Utf16 -> bool, claims: seq<Utf16>, f: SourceFile, ps: seq<Payload>, k: nat)
    requires k < |ps|
    ensures PayloadsLocations(isWord, claims, f, ps[..k + 1])
         == PayloadsLocations(isWord, claims, f, ps[..k]) + PayloadLocations(isWord, claims, f, ps[k])
    ensures PayloadsLocations(isWord, claims, f, ps[..k + 1]) <= PayloadsLocations(isWord, claims, f, ps)
  {
    PayloadsSnoc(isWord, claims, f, ps, k);
    PayloadsPrefix(isWord, claims, f, ps, k + 1);
  }

  lemma {:induction false} PayloadsPrefix(isWord: Utf16 -> bool, claims: seq<Utf16>, f: SourceFile, ps: seq<Payload>, k: nat)
    requires k <= |ps|
    ensures PayloadsLocations(isWord, claims, f, ps[..k]) <= PayloadsLocations(isWord, claims, f, ps)
    decreases |ps| - k
  {
    if k < |ps| {
      PayloadsSnoc(isWord, claims, f, ps, k);
      PayloadsPrefix(isWord, claims, f, ps, k + 1);
    } else {
      assert ps[..k] == ps;
    }
  }

  /** One admitted file. `failed` is the throw of the payload decoder, after the other two searches. */
  method ScanFile(isWord: Utf16 -> bool, ghost claims: seq<Utf16>, m: Matchers, ghost t: Tries,
                  f: SourceFile, r0: Reporter, ghost seen0: seq<Location>)
    returns (r: Reporter, going: bool, failed: bool, ghost seen: seq<Location>)
    requires MatchersFor(isWord, claims, m, t) && Going(r0, seen0)
    ensures SearchedTo(r, going, seen0, seen, FileLocations(isWord, claims, f))
    ensures failed == (going && !f.binary && f.payloads.None?)
  {
    failed := false;
    ghost var a, b := ExactLocations(claims, f), CompactLocations(isWord, claims, f);
    ghost var c := if f.payloads.Some? then PayloadsLocations(isWord, claims, f, f.payloads.value) else [];
    r, going, seen := SearchText(ExactPatterns(claims), m.exact, t.exact, f.haystack, ExactPlace(f), r0, seen0);
    if f.binary { return; }
    if !going {
      SearchedPart(r, seen0, seen, a, b);
      SearchedPart(r, seen0, seen, a + b, c);
      return;
    }
    var compact := CompactWithOffsets(isWord, f.haystack);
    ghost var seen1 := seen;
    r, going, seen := SearchText(CompactPatterns(isWord, claims, 0), m.compact, t.compact, compact.text,
                                 CompactPlace(f, compact.offsets), r, seen);
    SearchedThen(r, going, seen0, seen1, seen, a, b);
    if !going {
      SearchedPart(r, seen0, seen, a + b, c);
      return;
    }
    match f.payloads
    case None =>
      failed := true;
      assert a + b + [] == a + b;
    case Some(payloads) =>
      ghost var seen2 := seen;
      r, going, seen := ScanPayloads(isWord, claims, m, t, f, payloads, r, seen);
      SearchedThen(r, going, seen0, seen2, seen, a + b, c);
  }

  // ----- The whole scan -----

  /** The size, path and read checks a file passes before it is searched; the totals include it. */
  predicate Admitted(f: SourceFile, workspaceBytes: nat, sourceBytes: nat) {
    && f.admissible
    && workspaceBytes <= MAX_TOTAL_WORKSPACE_BYTES
    && (f.binary ==> f.size <= MAX_BINARY_FILE_BYTES)
    && (!f.binary ==> f.size <= MAX_SOURCE_FILE_BYTES && sourceBytes <= MAX_TOTAL_SOURCE_BYTES)
    && f.readable
  }

  function SourceSize(f: SourceFile): nat {
    if f.binary then 0 else f.size
  }

  /** What one file contributes: whether it is searched at all, what it adds, whether its payloads decode. */
  datatype FileStep = FileStep(admitted: bool, ats: seq<Location>, decodes: bool)

  /** The steps of a scan, for any way of locating claims in one file. */
  ghost function Steps(locate: SourceFile -> seq<Location>, files: seq<SourceFile>,
                       workspaceBytes: nat, sourceBytes: nat): seq<FileStep>
  {
    if files == [] then []
    else
      var f := files[0];
      var w, s := workspaceBytes + f.size, sourceBytes + SourceSize(f);
      [FileStep(Admitted(f, w, s), locate(f), f.binary || f.payloads.Some?)] + Steps(locate, files[1..], w, s)
  }

  function Locator(isWord: Utf16 -> bool, claims: seq<Utf16>): SourceFile -> seq<Location> {
    (f: SourceFile) => FileLocations(isWord, claims, f)
  }

  /** The outcome over the remaining files, given what has been seen. */
  ghost function Scanned(steps: seq<FileStep>, seen: seq<Location>): Outcome {
    if steps == [] then ReportOf(seen)
    else if !steps[0].admitted then ScanError
    else if Saturated(seen + steps[0].ats) then ReportOf(seen + steps[0].ats)
    else if !steps[0].decodes then ScanError
    else Scanned(steps[1..], seen + steps[0].ats)
  }

  predicate ValidClaims(claims: seq<Utf16>) {
    && 1 <= |claims| <= MAX_FORBIDDEN_CLAIMS
    && forall c :: c in claims ==> 1 <= |c| <= MAX_FORBIDDEN_CLAIM_CHARACTERS
  }

  function Normalized(normalize: Utf16 -> Utf16, claims: seq<Utf16>): (ns: seq<Utf16>)
    ensures |ns| == |claims| && forall i :: 0 <= i < |ns| ==> ns[i] == normalize(claims[i])
  {
    seq(|claims|, i requires 0 <= i < |claims| => normalize(claims[i]))
  }

  /** Normalising never erases a claim altogether. */
  ghost predicate KeepsNonEmpty(normalize: Utf16 -> Utf16) {
    forall w :: w != [] ==> normalize(w) != []
  }

  /** main: the scan of all tracked files, stopped as soon as a location has to be omitted. */
  method Scan(isWord: Utf16 -> bool, normalize: Utf16 -> Utf16, claims: seq<Utf16>, files: seq<SourceFile>)
    returns (outcome: Outcome)
    requires KeepsNonEmpty(normalize)
    ensures !ValidClaims(claims) ==> outcome == ScanError
    ensures ValidClaims(claims) ==> outcome == Scanned(Steps(Locator(isWord, Normalized(normalize, claims)), files, 0, 0), [])
  {
    if !ValidClaims(claims) {
      return ScanError;
    }
    var texts := Normalized(normalize, claims);
    forall p | p in ExactPatterns(texts) ensures p.text != [] {
      var i :| 0 <= i < |texts| && p == ExactPatterns(texts)[i];
      assert claims[i] in claims;
    }
    forall p | p in CompactPatterns(isWord, texts, 0) ensures p.text != [] {
      CompactPatternsAre(isWord, texts, 0, p);
    }
    var exact, exactTrie := BuildMatcher(ExactPatterns(texts));
    var compact, compactTrie := BuildMatcher(CompactPatterns(isWord, texts, 0));
    outcome := ScanFiles(isWord, texts, Matchers(exact, compact), Tries(exactTrie, compactTrie), files);
  }

  method ScanFiles(isWord: Utf16 -> bool, ghost claims: seq<Utf16>, m: Matchers, ghost t: Tries, files: seq<SourceFile>)
    returns (outcome: Outcome)
    requires MatchersFor(isWord, claims, m, t)
    ensures outcome == Scanned(Steps(Locator(isWord, claims), files, 0, 0), [])
  {
    var r, sourceBytes, workspaceBytes := NothingYet, 0, 0;
    ghost var seen: seq<Location> := [];
    for i := 0 to |files|
      invariant Going(r, seen)
      invariant sourceBytes >= 0 && workspaceBytes >= 0
      invariant Scanned(Steps(Locator(isWord, claims), files, 0, 0), []) ==
                Scanned(Steps(Locator(isWord, claims), files[i..], workspaceBytes, sourceBytes), seen)
    {
      var f := files[i];
      ScannedRound(Locator(isWord, claims), files, i, workspaceBytes, sourceBytes, seen);
      ghost var before := seen;
      workspaceBytes := workspaceBytes + f.size;
      sourceBytes := sourceBytes + SourceSize(f);
      if !Admitted(f, workspaceBytes, sourceBytes) {
        return ScanError;
      }
      var going, failed;
      r, going, failed, seen := ScanFile(isWord, claims, m, t, f, r, seen);
      if !going {
        outcome := Finish(r, seen);
        SaturatedThen(seen, before + FileLocations(isWord, claims, f));
        return;
      }
      if failed {
        return ScanError;
      }
    }
    assert files[|files|..] == [];
    outcome := Finish(r, seen);
  }

  /** One round of the scan, on the specification side. */
  lemma ScannedRound(locate: SourceFile -> seq<Location>, files: seq<SourceFile>, i: nat,
                     workspaceBytes: nat, sourceBytes: nat, seen: seq<Location>)
    requires i < |files|
    ensures var f := files[i];
            var w, s := workspaceBytes + f.size, sourceBytes + SourceSize(f);
            Scanned(Steps(locate, files[i..], workspaceBytes, sourceBytes), seen) ==
            if !Admitted(f, w, s) then ScanError
            else if Saturated(seen + locate(f)) then ReportOf(seen + locate(f))
            else if !f.binary && f.payloads.None? then ScanError
            else Scanned(Steps(locate, files[i + 1..], w, s), seen + locate(f))
  {
    assert files[i..][0] == files[i] && files[i..][1..] == files[i + 1..];
    var f := files[i];
    var w, s := workspaceBytes + f.size, sourceBytes + SourceSize(f);
    ConsTail(FileStep(Admitted(f, w, s), locate(f), f.binary || f.payloads.Some?), Steps(locate, files[i + 1..], w, s));
  }

  lemma SaturatedThen(seen: seq<Location>, all: seq<Location>)
    requires Saturated(seen) && seen <= all
    ensures Saturated(all) && ReportOf(all) == ReportOf(seen)
  {
    assert all == seen + all[|seen|..];
    SaturatedIsFinal(seen, all[|seen|..]);
  }

  /** The last lines of main: what is printed, from the reporter's variables. */
  function Finish(r: Reporter, ghost seen: seq<Location>): (outcome: Outcome)
    requires r == AddAll(NothingYet, seen)
    ensures outcome == ReportOf(seen)
  {
    AddAllIs(seen);
    assert r.locations == {} ==> forall at :: at !in Distinct(seen);
    if r.locations == {} then Clean else Report(r.diagnostics, r.omitted)
  }

  // ----- What a report means -----

  /** A claim stands in the exact text of the file, on that line. */
  ghost predicate InExactText(claims: seq<Utf16>, f: SourceFile, i: nat, line: nat) {
    i < |claims| && exists start: nat :: OccursAt(claims[i], f.haystack, start) && line == Line(f.haystack, start)
  }

  /** The letters and digits of a claim stand together among those of a text. */
  ghost predicate SpelledAt(isWord: Utf16 -> bool, claims: seq<Utf16>, text: Utf16, i: nat, start: nat) {
    && i < |claims|
    && |Compact(isWord, claims[i]).text| >= MIN_COMPACT_CHARACTERS
    && OccursAt(Compact(isWord, claims[i]).text, Compact(isWord, text).text, start)
  }

  /** The claim is spelled, other characters aside, from a place in the file on that line. */
  ghost predicate InCompactText(isWord: Utf16 -> bool, claims: seq<Utf16>, f: SourceFile, i: nat, line: nat) {
    exists start: nat :: SpelledAt(isWord, claims, f.haystack, i, start) &&
      line == Line(f.haystack, Compact(isWord, f.haystack).offsets[start])
  }

  /** A claim reported from the compact text is spelled by a window of the file that starts on the line reported. */
  lemma CompactLocationHasWindow(isWord: Utf16 -> bool, claims: seq<Utf16>, f: SourceFile, at: Location) returns (start: nat, end: nat)
    requires WordClass(isWord) && at in CompactLocations(isWord, claims, f)
    ensures at.claim < |claims| && start < end <= |f.haystack| && at.line == Line(f.haystack, start)
    ensures Compact(isWord, f.haystack[start..end]).text == Compact(isWord, claims[at.claim]).text
  {
    CompactLocationIs(isWord, claims, f, at);
    var o: nat :| SpelledAt(isWord, claims, f.haystack, at.claim, o) && at.line == Line(f.haystack, Compact(isWord, f.haystack).offsets[o]);
    start := Compact(isWord, f.haystack).offsets[o];
    end := CompactMatchHasWindow(isWord, f.haystack, claims[at.claim], o);
  }

  /** Every match in the compact text is placed: the branch for a missing offset is dead. */
  lemma CompactMatchesArePlaced(isWord: Utf16 -> bool, claims: seq<Utf16>, f: SourceFile, v: Visit)
    requires v in AllMatches(CompactPatterns(isWord, claims, 0), Compact(isWord, f.haystack).text)
    ensures CompactPlace(f, Compact(isWord, f.haystack).offsets)(v).Some?
  {
    CompactOccurs(isWord, claims, f.haystack, v);
  }

  ghost predicate InPayload(isWord: Utf16 -> bool, claims: seq<Utf16>, p: Payload, i: nat) {
    i < |claims| && exists start: nat :: OccursAt(claims[i], p.text, start) || SpelledAt(isWord, claims, p.text, i, start)
  }

  /** The claim stands in a decoded payload whose literal begins on that line. */
  ghost predicate InSomePayload(isWord: Utf16 -> bool, claims: seq<Utf16>, f: SourceFile, ps: seq<Payload>, i: nat, line: nat) {
    exists p :: p in ps && InPayload(isWord, claims, p, i) && line == Line(f.sourceText, p.offset)
  }

  ghost predicate InFile(isWord: Utf16 -> bool, claims: seq<Utf16>, f: SourceFile, i: nat, line: nat) {
    || InExactText(claims, f, i, line)
    || (!f.binary && InCompactText(isWord, claims, f, i, line))
    || (!f.binary && f.payloads.Some? && InSomePayload(isWord, claims, f, f.payloads.value, i, line))
  }

  lemma ExactOccurs(claims: seq<Utf16>, text: Utf16, v: Visit)
    requires forall c :: c in claims ==> c != []
    ensures v in AllMatches(ExactPatterns(claims), text) <==>
            v.index < |claims| && OccursAt(claims[v.index], text, v.start)
  {
    var ps := ExactPatterns(claims);
    forall p | p in ps ensures p.text != [] {
      var i :| 0 <= i < |ps| && ps[i] == p;
      assert claims[i] in claims;
    }
    AllMatchesIsOccurrences(ps, text, v);
    if v.index < |claims| { assert ps[v.index] in ps; }
  }

  lemma CompactOccurs(isWord: Utf16 -> bool, claims: seq<Utf16>, text: Utf16, v: Visit)
    ensures v in AllMatches(CompactPatterns(isWord, claims, 0), Compact(isWord, text).text) <==>
            SpelledAt(isWord, claims, text, v.index, v.start)
  {
    var ps := CompactPatterns(isWord, claims, 0);
    forall p | p in ps ensures p.text != [] { CompactPatternsAre(isWord, claims, 0, p); }
    AllMatchesIsOccurrences(ps, Compact(isWord, text).text, v);
    forall p ensures p in ps <==> p.index < |claims| && p.text == Compact(isWord, claims[p.index]).text && |p.text| >= MIN_COMPACT_CHARACTERS {
      CompactPatternsAre(isWord, claims, 0, p);
    }
    if v.index < |claims| {
      var p := Pattern(v.index, Compact(isWord, claims[v.index]).text);
      assert SpelledAt(isWord, claims, text, v.index, v.start) ==> p in ps;
    }
  }

  lemma ExactLocationIs(claims: seq<Utf16>, f: SourceFile, at: Location)
    requires forall c :: c in claims ==> c != []
    ensures at in ExactLocations(claims, f) <==> at.path == f.path && InExactText(claims, f, at.claim, at.line)
  {
    var vs := AllMatches(ExactPatterns(claims), f.haystack);
    PlacedIs(ExactPlace(f), vs, at);
    forall v ensures v in vs <==> v.index < |claims| && OccursAt(claims[v.index], f.haystack, v.start) {
      ExactOccurs(claims, f.haystack, v);
    }
    if at.path == f.path && InExactText(claims, f, at.claim, at.line) {
      var start: nat :| OccursAt(claims[at.claim], f.haystack, start) && at.line == Line(f.haystack, start);
      assert Visit(at.claim, start) in vs && ExactPlace(f)(Visit(at.claim, start)) == Some(at);
    }
  }

  lemma CompactLocationIs(isWord: Utf16 -> bool, claims: seq<Utf16>, f: SourceFile, at: Location)
    ensures at in CompactLocations(isWord, claims, f) <==>
            at.path == f.path && InCompactText(isWord, claims, f, at.claim, at.line)
  {
    var compact := Compact(isWord, f.haystack);
    var vs := AllMatches(CompactPatterns(isWord, claims, 0), compact.text);
    var place := CompactPlace(f, compact.offsets);
    PlacedIs(place, vs, at);
    forall v ensures v in vs <==> SpelledAt(isWord, claims, f.haystack, v.index, v.start) {
      CompactOccurs(isWord, claims, f.haystack, v);
    }
    if at.path == f.path && InCompactText(isWord, claims, f, at.claim, at.line) {
      var start: nat :| SpelledAt(isWord, claims, f.haystack, at.claim, start) &&
                        at.line == Line(f.haystack, compact.offsets[start]);
      assert Visit(at.claim, start) in vs && place(Visit(at.claim, start)) == Some(at);
    }
  }

  lemma PayloadExactIs(claims: seq<Utf16>, f: SourceFile, p: Payload, at: Location)
    requires forall c :: c in claims ==> c != []
    ensures at in Placed(PayloadPlace(f, p), AllMatches(ExactPatterns(claims), p.text)) <==>
            && at.path == f.path && at.line == Line(f.sourceText, p.offset)
            && at.claim < |claims| && exists start: nat :: OccursAt(claims[at.claim], p.text, start)
  {
    var vs, place := AllMatches(ExactPatterns(claims), p.text), PayloadPlace(f, p);
    PlacedIs(place, vs, at);
    forall v ensures v in vs <==> v.index < |claims| && OccursAt(claims[v.index], p.text, v.start) {
      ExactOccurs(claims, p.text, v);
    }
    if at.path == f.path && at.line == Line(f.sourceText, p.offset) && at.claim < |claims| {
      if start: nat :| OccursAt(claims[at.claim], p.text, start) {
        assert Visit(at.claim, start) in vs && place(Visit(at.claim, start)) == Some(at);
      }
    }
  }

  lemma PayloadCompactIs(isWord: Utf16 -> bool, claims: seq<Utf16>, f: SourceFile, p: Payload, at: Location)
    ensures at in Placed(PayloadPlace(f, p), AllMatches(CompactPatterns(isWord, claims, 0), Compact(isWord, p.text).text)) <==>
            && at.path == f.path && at.line == Line(f.sourceText, p.offset)
            && exists start: nat :: SpelledAt(isWord, claims, p.text, at.claim, start)
  {
    var vs, place := AllMatches(CompactPatterns(isWord, claims, 0), Compact(isWord, p.text).text), PayloadPlace(f, p);
    PlacedIs(place, vs, at);
    forall v ensures v in vs <==> SpelledAt(isWord, claims, p.text, v.index, v.start) {
      CompactOccurs(isWord, claims, p.text, v);
    }
    if at.path == f.path && at.line == Line(f.sourceText, p.offset) {
      if start: nat :| SpelledAt(isWord, claims, p.text, at.claim, start) {
        assert Visit(at.claim, start) in vs && place(Visit(at.claim, start)) == Some(at);
      }
    }
  }

  lemma PayloadLocationIs(isWord: Utf16 -> bool, claims: seq<Utf16>, f: SourceFile, p: Payload, at: Location)
    requires forall c :: c in claims ==> c != []
    ensures at in PayloadLocations(isWord, claims, f, p) <==>
            at.path == f.path && InPayload(isWord, claims, p, at.claim) && at.line == Line(f.sourceText, p.offset)
  {
    PayloadExactIs(claims, f, p, at);
    PayloadCompactIs(isWord, claims, f, p, at);
  }

  lemma SomePayloadIs(isWord: Utf16 -> bool, claims: seq<Utf16>, f: SourceFile, ps: seq<Payload>, claim: nat, line: nat)
    requires ps != []
    ensures var last := ps[|ps| - 1];
            InSomePayload(isWord, claims, f, ps, claim, line) <==>
            || InSomePayload(isWord, claims, f, ps[..|ps| - 1], claim, line)
            || (InPayload(isWord, claims, last, claim) && line == Line(f.sourceText, last.offset))
  {
    assert forall p :: p in ps <==> p in ps[..|ps| - 1] || p == ps[|ps| - 1];
  }

  lemma {:induction false} PayloadsLocationIs(isWord: Utf16 -> bool, claims: seq<Utf16>, f: SourceFile,
                                              ps: seq<Payload>, at: Location)
    requires forall c :: c in claims ==> c != []
    ensures at in PayloadsLocations(isWord, claims, f, ps) <==>
            at.path == f.path && InSomePayload(isWord, claims, f, ps, at.claim, at.line)
  {
    if ps != [] {
      var init, last := ps[..|ps| - 1], ps[|ps| - 1];
      PayloadsLocationIs(isWord, claims, f, init, at);
      PayloadLocationIs(isWord, claims, f, last, at);
      SomePayloadIs(isWord, claims, f, ps, at.claim, at.line);
    }
  }

  /** A location belongs to a file exactly when the claim is there, on that line. */
  lemma FileLocationIs(isWord: Utf16 -> bool, claims: seq<Utf16>, f: SourceFile, at: Location)
    requires forall c :: c in claims ==> c != []
    ensures at in FileLocations(isWord, claims, f) <==>
            at.path == f.path && InFile(isWord, claims, f, at.claim, at.line)
  {
    ExactLocationIs(claims, f, at);
    CompactLocationIs(isWord, claims, f, at);
    if f.payloads.Some? { PayloadsLocationIs(isWord, claims, f, f.payloads.value, at); }
  }

  /** No file of the list makes the scanner throw. */
  ghost predicate AllScannable(steps: seq<FileStep>) {
    forall k :: 0 <= k < |steps| ==> steps[k].admitted && steps[k].decodes
  }

  ghost function AllLocations(steps: seq<FileStep>): seq<Location> {
    if steps == [] then [] else steps[0].ats + AllLocations(steps[1..])
  }

  /** Stopping early loses nothing: the outcome is that of looking at every file. */
  lemma {:induction false} EarlyExitIsExact(steps: seq<FileStep>, seen: seq<Location>)
    requires AllScannable(steps)
    ensures Scanned(steps, seen) == ReportOf(seen + AllLocations(steps))
  {
    if steps == [] {
      assert seen + [] == seen;
    } else {
      var rest := AllLocations(steps[1..]);
      ConcatAssociates(seen, steps[0].ats, rest);
      if Saturated(seen + steps[0].ats) {
        SaturatedIsFinal(seen + steps[0].ats, rest);
      } else {
        EarlyExitIsExact(steps[1..], seen + steps[0].ats);
      }
    }
  }

  ghost predicate LocatedIn(locate: SourceFile -> seq<Location>, files: seq<SourceFile>, at: Location) {
    exists k :: 0 <= k < |files| && at in locate(files[k])
  }

  lemma {:induction false} AllLocationsIs(locate: SourceFile -> seq<Location>, files: seq<SourceFile>,
                                          workspaceBytes: nat, sourceBytes: nat, at: Location)
    ensures at in AllLocations(Steps(locate, files, workspaceBytes, sourceBytes)) <==> LocatedIn(locate, files, at)
  {
    if files != [] {
      var f := files[0];
      var w, s := workspaceBytes + f.size, sourceBytes + SourceSize(f);
      var rest := Steps(locate, files[1..], w, s);
      ConsTail(FileStep(Admitted(f, w, s), locate(f), f.binary || f.payloads.Some?), rest);
      AllLocationsIs(locate, files[1..], w, s, at);
      LocatedInTail(locate, files, at);
    }
  }

  lemma LocatedInTail(locate: SourceFile -> seq<Location>, files: seq<SourceFile>, at: Location)
    requires files != []
    ensures LocatedIn(locate, files, at) <==> at in locate(files[0]) || LocatedIn(locate, files[1..], at)
  {
    if LocatedIn(locate, files[1..], at) {
      var k :| 0 <= k < |files[1..]| && at in locate(files[1..][k]);
      assert files[k + 1] == files[1..][k];
    }
    if LocatedIn(locate, files, at) {
      var k :| 0 <= k < |files| && at in locate(files[k]);
      assert k > 0 ==> files[1..][k - 1] == files[k];
    }
  }

  ghost predicate Found(isWord: Utf16 -> bool, claims: seq<Utf16>, files: seq<SourceFile>, at: Location) {
    exists f :: f in files && f.path == at.path && InFile(isWord, claims, f, at.claim, at.line)
  }

  /**
   The scanner's promise. On files that can be scanned it reports if and only if some claim is in
   some file; it reports no location twice and none that is not real; and it says `truncated` if and
   only if there are more than 20 distinct locations, in which case it lists 20 of them, and
   otherwise it lists them all.
   */
  lemma ScanIsExact(isWord: Utf16 -> bool, claims: seq<Utf16>, files: seq<SourceFile>)
    requires forall c :: c in claims ==> c != []
    requires AllScannable(Steps(Locator(isWord, claims), files, 0, 0))
    ensures var outcome := Scanned(Steps(Locator(isWord, claims), files, 0, 0), []);
            && (outcome.Clean? <==> forall at :: !Found(isWord, claims, files, at))
            && (outcome.Clean? || outcome.Report?)
            && (outcome.Report? ==>
                  && NoDuplicates(outcome.matches) && 0 < |outcome.matches| <= MAX_DIAGNOSTICS
                  && (forall at :: at in outcome.matches ==> Found(isWord, claims, files, at))
                  && (outcome.truncated ==> |outcome.matches| == MAX_DIAGNOSTICS)
                  && (outcome.truncated ==> exists at :: Found(isWord, claims, files, at) && at !in outcome.matches)
                  && (!outcome.truncated ==> forall at :: Found(isWord, claims, files, at) ==> at in outcome.matches))
  {
    var steps := Steps(Locator(isWord, claims), files, 0, 0);
    var ats := AllLocations(steps);
    EarlyExitIsExact(steps, []);
    assert [] + ats == ats;
    DistinctIs(ats);
    var d := Distinct(ats);
    forall at ensures at in d <==> Found(isWord, claims, files, at) {
      AllLocationsIs(Locator(isWord, claims), files, 0, 0, at);
      forall f ensures at in Locator(isWord, claims)(f) <==> f.path == at.path && InFile(isWord, claims, f, at.claim, at.line) {
        FileLocationIs(isWord, claims, f, at);
      }
    }
    if d != [] {
      assert Found(isWord, claims, files, d[0]);
      if |d| > MAX_DIAGNOSTICS {
        assert d[MAX_DIAGNOSTICS] in d && d[MAX_DIAGNOSTICS] !in d[..MAX_DIAGNOSTICS];
        assert forall at :: at in d[..MAX_DIAGNOSTICS] ==> at in d;
      }
    }
  }

  /** What stands in some file is reported, and listed unless the list is full. */
  lemma FoundIsReported(isWord: Utf16 -> bool, claims: seq<Utf16>, files: seq<SourceFile>, at: Location)
    requires forall c :: c in claims ==> c != []
    requires AllScannable(Steps(Locator(isWord, claims), files, 0, 0)) && Found(isWord, claims, files, at)
    ensures var outcome := Scanned(Steps(Locator(isWord, claims), files, 0, 0), []);
            outcome.Report? && (outcome.truncated || at in outcome.matches)
  {
    ScanIsExact(isWord, claims, files);
  }

  /**
   Nothing is missed: when a window of whole code points of a file has exactly the letters and digits of a
   claim of at least four, the scan reports the claim, on the line of the first letter or digit of the window.
   */
  lemma WindowIsReported(isWord: Utf16 -> bool, claims: seq<Utf16>, files: seq<SourceFile>, f: SourceFile, i: nat, start: nat, end: nat)
    returns (origin: nat)
    requires forall c :: c in claims ==> c != []
    requires AllScannable(Steps(Locator(isWord, claims), files, 0, 0)) && f in files && !f.binary
    requires i < |claims| && |Compact(isWord, claims[i]).text| >= MIN_COMPACT_CHARACTERS
    requires start <= end <= |f.haystack| && Boundary(f.haystack, start) && Boundary(f.haystack, end)
    requires Compact(isWord, f.haystack[start..end]).text == Compact(isWord, claims[i]).text
    ensures start <= origin < end && Kept(isWord, f.haystack, origin) && forall at :: start <= at < origin ==> !Kept(isWord, f.haystack, at)
    ensures var outcome := Scanned(Steps(Locator(isWord, claims), files, 0, 0), []);
            outcome.Report? && (outcome.truncated || Location(i, f.path, Line(f.haystack, origin)) in outcome.matches)
  {
    var o := WindowIsMatched(isWord, f.haystack, claims[i], start, end);
    origin := Compact(isWord, f.haystack).offsets[o];
    assert SpelledAt(isWord, claims, f.haystack, i, o);
    assert InCompactText(isWord, claims, f, i, Line(f.haystack, origin));
    FoundIsReported(isWord, claims, files, Location(i, f.path, Line(f.haystack, origin)));
  }

  // ----- Which files are taken -----

  function TotalSize(files: seq<SourceFile>): nat {
    if files == [] then 0 else files[0].size + TotalSize(files[1..])
  }

  function TotalSourceSize(files: seq<SourceFile>): nat {
    if files == [] then 0 else (if files[0].binary then 0 else files[0].size) + TotalSourceSize(files[1..])
  }

  /** The file at `k` can be searched: by itself, and by what it and the files before it come to. */
  predicate Taken(files: seq<SourceFile>, k: nat, workspaceBytes: nat, sourceBytes: nat)
    requires k < |files|
  {
    var f := files[k];
    && f.admissible && f.readable && workspaceBytes + TotalSize(files[..k + 1]) <= 524_288_000
    && if f.binary then f.size <= 52_428_800
       else f.size <= 4_194_304 && sourceBytes + TotalSourceSize(files[..k + 1]) <= 67_108_864
  }

  /** A step tells of its file. */
  ghost predicate Tells(step: FileStep, locate: SourceFile -> seq<Location>, files: seq<SourceFile>, k: nat, workspaceBytes: nat, sourceBytes: nat)
    requires k < |files|
  {
    && (step.admitted <==> Taken(files, k, workspaceBytes, sourceBytes))
    && (step.decodes <==> files[k].binary || files[k].payloads.Some?) && step.ats == locate(files[k])
  }

  lemma TakenLater(files: seq<SourceFile>, k: nat, workspaceBytes: nat, sourceBytes: nat)
    requires 0 < k < |files|
    ensures Taken(files, k, workspaceBytes, sourceBytes) <==>
            Taken(files[1..], k - 1, workspaceBytes + files[0].size, sourceBytes + SourceSize(files[0]))
  {
    assert files[..k + 1] == [files[0]] + files[1..][..k];
    ConsTail(files[0], files[1..][..k]);
  }

  lemma SizesOfOne(f: SourceFile)
    ensures TotalSize([f]) == f.size && TotalSourceSize([f]) == SourceSize(f)
  {
    assert [f][1..] == [];
  }

  lemma TakenFirst(files: seq<SourceFile>, workspaceBytes: nat, sourceBytes: nat)
    requires files != []
    ensures Taken(files, 0, workspaceBytes, sourceBytes) <==>
            Admitted(files[0], workspaceBytes + files[0].size, sourceBytes + SourceSize(files[0]))
  {
    SizesOfOne(files[0]);
    assert files[..1] == [files[0]];
  }

  lemma {:induction false} StepIsTaken(locate: SourceFile -> seq<Location>, files: seq<SourceFile>, k: nat, workspaceBytes: nat, sourceBytes: nat)
    requires k < |files|
    ensures var steps := Steps(locate, files, workspaceBytes, sourceBytes);
            |steps| == |files| && Tells(steps[k], locate, files, k, workspaceBytes, sourceBytes)
    decreases |files|
  {
    StepsLength(locate, files, workspaceBytes, sourceBytes);
    if k > 0 {
      StepIsTaken(locate, files[1..], k - 1, workspaceBytes + files[0].size, sourceBytes + SourceSize(files[0]));
      TakenLater(files, k, workspaceBytes, sourceBytes);
    } else {
      TakenFirst(files, workspaceBytes, sourceBytes);
    }
  }

  lemma {:induction false} StepsLength(locate: SourceFile -> seq<Location>, files: seq<SourceFile>, workspaceBytes: nat, sourceBytes: nat)
    ensures |Steps(locate, files, workspaceBytes, sourceBytes)| == |files|
  {
    if files != [] { StepsLength(locate, files[1..], workspaceBytes + files[0].size, sourceBytes + SourceSize(files[0])); }
  }

  /** A scan throws exactly when it meets a file it cannot take before it has enough to report. */
  lemma {:induction false} ErrorHasCause(steps: seq<FileStep>, seen: seq<Location>)
    requires !Saturated(seen)
    ensures Scanned(steps, seen) == ScanError <==> exists k :: 0 <= k < |steps| && Stops(steps, seen, k)
  {
    if steps != [] {
      var seen' := seen + steps[0].ats;
      assert Before(steps, 0) == [] && seen + [] == seen;
      forall k | 0 < k < |steps| ensures seen + Before(steps, k) == seen' + Before(steps[1..], k - 1) {
        assert steps[..k][1..] == steps[1..][..k - 1];
        ConcatAssociates(seen, steps[0].ats, Before(steps[1..], k - 1));
      }
      if !steps[0].admitted {
        assert Stops(steps, seen, 0);
      } else if Saturated(seen') {
        forall k | 0 < k < |steps| ensures !Stops(steps, seen, k) {
          SaturatedThen(seen', seen' + Before(steps[1..], k - 1));
        }
      } else if !steps[0].decodes {
        assert Stops(steps, seen, 0);
      } else {
        ErrorHasCause(steps[1..], seen');
        forall k | 0 <= k < |steps| - 1 ensures Stops(steps[1..], seen', k) == Stops(steps, seen, k + 1) {
          assert steps[1..][k] == steps[k + 1];
          assert forall j :: 0 < j <= k ==> steps[j] == steps[1..][j - 1];
        }
        if k: int :| 0 <= k < |steps| && Stops(steps, seen, k) { assert Stops(steps[1..], seen', k - 1); }
        if k: int :| 0 <= k < |steps| - 1 && Stops(steps[1..], seen', k) { assert Stops(steps, seen, k + 1); }
      }
    }
  }

  ghost function Before(steps: seq<FileStep>, k: nat): seq<Location>
    requires k <= |steps|
  {
    AllLocations(steps[..k])
  }

  /** File `k` makes the scan throw: it is reached unsaturated, and cannot be searched or decoded. */
  ghost predicate Stops(steps: seq<FileStep>, seen: seq<Location>, k: nat)
    requires k < |steps|
  {
    var before := seen + Before(steps, k);
    && (forall j :: 0 <= j < k ==> steps[j].admitted && steps[j].decodes)
    && !Saturated(before)
    && (!steps[k].admitted || (!steps[k].decodes && !Saturated(before + steps[k].ats)))
  }
}
