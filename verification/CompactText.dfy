/**
 The compact view of a text: its letters and digits only, each with the offset it came from
 (src/application/verification.ts, compactWithOffsets).

 `isWord` stands for the runtime's letter-or-number class on one code point. A lone surrogate is in
 neither class, which is all the proofs use about it.
 */
module CompactText {
  import opened Text

  /** The number of code units in the code point that starts at `i`. */
  function PointLength(text: Utf16, i: nat): (n: nat)
    requires i < |text|
    ensures 1 <= n && i + n <= |text|
  {
    if High(text[i]) && i + 1 < |text| && Low(text[i + 1]) then 2 else 1
  }

  /** The code point that starts at `i`, as its one or two units. */
  function Point(text: Utf16, i: nat): (p: Utf16)
    requires i < |text|
    ensures |p| == PointLength(text, i)
  {
    text[i..i + PointLength(text, i)]
  }

  lemma PointOfPrefix(text: Utf16, end: nat, i: nat)
    requires i < |text| && i + PointLength(text, i) <= end <= |text|
    ensures Point(text[..end], i) == Point(text, i)
  {}

  lemma PointOfSuffix(text: Utf16, n: nat, i: nat)
    requires n <= i < |text|
    ensures Point(text[n..], i - n) == Point(text, i)
  {}

  ghost predicate WordClass(isWord: Utf16 -> bool) {
    forall u: CodeUnit :: High(u) || Low(u) ==> !isWord([u])
  }

  datatype Compacted = Compacted(text: Utf16, offsets: seq<nat>)

  /** A kept code point and where it starts. */
  datatype Token = Token(units: Utf16, at: nat)

  /** The kept code points among those that start in `[i, end)`. */
  function Tokens(isWord: Utf16 -> bool, text: Utf16, i: nat, end: nat): seq<Token>
    requires end <= |text|
    decreases end - i
  {
    if i >= end then []
    else
      var p := Point(text, i);
      var rest := Tokens(isWord, text, i + PointLength(text, i), end);
      if isWord(p) then [Token(p, i)] + rest else rest
  }

  function Flat(tokens: seq<Token>): Utf16 {
    if tokens == [] then [] else tokens[0].units + Flat(tokens[1..])
  }

  /** One source offset per compact code unit: the start of its code point. */
  function Origins(tokens: seq<Token>): seq<nat> {
    if tokens == [] then []
    else Repeat(tokens[0].at, |tokens[0].units|) + Origins(tokens[1..])
  }

  function Repeat(x: nat, n: nat): (r: seq<nat>)
    ensures |r| == n && forall k :: 0 <= k < n ==> r[k] == x
  {
    seq(n, _ => x)
  }

  /** Every unit has an offset, so a match of a claim never starts where one is missing. */
  lemma {:induction false} EachUnitHasAnOrigin(tokens: seq<Token>)
    ensures |Origins(tokens)| == |Flat(tokens)|
  {
    if tokens != [] { EachUnitHasAnOrigin(tokens[1..]); }
  }

  function Compact(isWord: Utf16 -> bool, text: Utf16): (c: Compacted)
    ensures |c.offsets| == |c.text|
  {
    var tokens := Tokens(isWord, text, 0, |text|);
    EachUnitHasAnOrigin(tokens);
    Compacted(Flat(tokens), Origins(tokens))
  }

  lemma FlatCons(token: Token, rest: seq<Token>)
    ensures Flat([token] + rest) == token.units + Flat(rest)
    ensures Origins([token] + rest) == Repeat(token.at, |token.units|) + Origins(rest)
  {
    assert ([token] + rest)[1..] == rest;
  }

  lemma {:induction false} FlatPush(done: seq<Token>, token: Token)
    ensures Flat(done + [token]) == Flat(done) + token.units
  {
    if done == [] {
      FlatCons(token, []);
      assert done + [token] == [token] + [];
    } else {
      FlatPush(done[1..], token);
      assert (done + [token])[1..] == done[1..] + [token];
    }
  }

  lemma {:induction false} OriginsPush(done: seq<Token>, token: Token)
    ensures Origins(done + [token]) == Origins(done) + Repeat(token.at, |token.units|)
  {
    if done == [] {
      FlatCons(token, []);
      assert done + [token] == [token] + [];
    } else {
      OriginsPush(done[1..], token);
      assert (done + [token])[1..] == done[1..] + [token];
    }
  }

  /** compactWithOffsets: one pass over the code points, pushing the kept ones and their offsets. */
  method CompactWithOffsets(isWord: Utf16 -> bool, value: Utf16) returns (r: Compacted)
    ensures r == Compact(isWord, value)
  {
    var characters: Utf16, offsets: seq<nat> := [], [];
    ghost var done: seq<Token> := [];
    var index: nat := 0;
    while index < |value|
      invariant index <= |value|
      invariant done + Tokens(isWord, value, index, |value|) == Tokens(isWord, value, 0, |value|)
      invariant characters == Flat(done) && offsets == Origins(done)
    {
      var point := Point(value, index);
      if isWord(point) {
        FlatPush(done, Token(point, index));
        OriginsPush(done, Token(point, index));
        PushShifts(done, Token(point, index), Tokens(isWord, value, index + |point|, |value|));
        done := done + [Token(point, index)];
        characters := characters + point;
        offsets := offsets + Repeat(index, |point|);
      }
      index := index + |point|;
    }
    assert done + [] == done;
    r := Compacted(characters, offsets);
  }

  // ----- Compact matches come from a window of the source -----

  /** A kept code point is one unit that is no surrogate, or a high and a low surrogate. */
  predicate WellFormed(tokens: seq<Token>) {
    forall k :: 0 <= k < |tokens| ==>
      var u := tokens[k].units;
      (|u| == 1 && !High(u[0]) && !Low(u[0])) || (|u| == 2 && High(u[0]) && Low(u[1]))
  }

  lemma {:induction false} TokensWellFormed(isWord: Utf16 -> bool, text: Utf16, i: nat, end: nat)
    requires WordClass(isWord) && end <= |text|
    ensures WellFormed(Tokens(isWord, text, i, end))
    decreases end - i
  {
    if i < end {
      var p := Point(text, i);
      TokensWellFormed(isWord, text, i + PointLength(text, i), end);
      assert |p| == 1 ==> p == [text[i]];
    }
  }

  lemma MidTokenIsLow(a: seq<Token>, o: nat)
    requires WellFormed(a) && a != [] && 0 < o < |a[0].units|
    ensures o < |Flat(a)| && Low(Flat(a)[o])
  {}

  /** An occurrence of whole code points in whole code points starts at the start of one. */
  lemma {:induction false} MatchStartsToken(a: seq<Token>, p: Utf16, o: nat) returns (k: nat)
    requires WellFormed(a) && p != [] && !Low(p[0])
    requires OccursAt(p, Flat(a), o)
    ensures k < |a| && Flat(a[..k]) == Flat(a)[..o] && Flat(a[k..]) == Flat(a)[o..]
    ensures |Origins(a)| == |Flat(a)| && Origins(a)[o..] == Origins(a[k..])
  {
    EachUnitHasAnOrigin(a);
    assert Flat(a)[o] == Flat(a)[o..o + |p|][0] == p[0];
    var n := |a[0].units|;
    if o == 0 {
      k := 0;
      assert a[..0] == [] && a[0..] == a;
    } else if o >= n {
      EachUnitHasAnOrigin(a[1..]);
      SlicePastHead(a[0].units, Flat(a[1..]), o, o + |p|);
      var k' := MatchStartsToken(a[1..], p, o - n);
      CutLater(a, o, k');
      OriginsLater(a, o, k');
      k := k' + 1;
    } else {
      MidTokenIsLow(a, o);
      assert false;
    }
  }

  /** Cutting among the later tokens is cutting among all. */
  lemma CutLater(a: seq<Token>, o: nat, k: nat)
    requires a != [] && |a[0].units| <= o <= |Flat(a)| && k < |a| - 1
    requires var n := |a[0].units|; Flat(a[1..][..k]) == Flat(a[1..])[..o - n] && Flat(a[1..][k..]) == Flat(a[1..])[o - n..]
    ensures Flat(a[..k + 1]) == Flat(a)[..o] && Flat(a[k + 1..]) == Flat(a)[o..]
  {
    CutPastHead(a[0].units, Flat(a[1..]), o);
    assert a[1..][k..] == a[k + 1..] && a[..k + 1] == [a[0]] + a[1..][..k];
    FlatCons(a[0], a[1..][..k]);
  }

  lemma OriginsLater(a: seq<Token>, o: nat, k: nat)
    requires a != [] && |a[0].units| <= o <= |Origins(a)| && k < |a| - 1
    requires Origins(a[1..])[o - |a[0].units|..] == Origins(a[1..][k..])
    ensures Origins(a)[o..] == Origins(a[k + 1..])
  {
    CutPastHead(Repeat(a[0].at, |a[0].units|), Origins(a[1..]), o);
    assert a[1..][k..] == a[k + 1..];
  }

  /** Whole code points that begin a text of whole code points are its first code points. */
  lemma {:induction false} PrefixIsTokens(a: seq<Token>, b: seq<Token>)
    requires WellFormed(a) && WellFormed(b) && Flat(b) <= Flat(a)
    ensures |b| <= |a| && forall j :: 0 <= j < |b| ==> b[j].units == a[j].units
    ensures Flat(a[..|b|]) == Flat(b)
  {
    if b != [] {
      assert Flat(b)[0] == Flat(a)[0];
      assert b[0].units == a[0].units by {
        if |b[0].units| == 2 { assert Flat(b)[1] == Flat(a)[1]; }
      }
      assert Flat(b[1..]) == Flat(b)[|b[0].units|..] <= Flat(a)[|b[0].units|..] == Flat(a[1..]);
      PrefixIsTokens(a[1..], b[1..]);
      assert a[1..][..|b| - 1] == a[..|b|][1..];
    }
  }

  /** The tokens from number `k` on are those of the text from the start of token `k` on. */
  lemma {:induction false} TokensFrom(isWord: Utf16 -> bool, text: Utf16, i: nat, k: nat)
    requires k < |Tokens(isWord, text, i, |text|)|
    ensures var ts := Tokens(isWord, text, i, |text|);
            i <= ts[k].at < |text| && ts[k..] == Tokens(isWord, text, ts[k].at, |text|)
    decreases |text| - i
  {
    var ts, p := Tokens(isWord, text, i, |text|), Point(text, i);
    if !isWord(p) {
      TokensFrom(isWord, text, i + PointLength(text, i), k);
    } else if k > 0 {
      TokensFrom(isWord, text, i + PointLength(text, i), k - 1);
      assert ts[k..] == ts[1..][k - 1..];
    }
  }

  /** Where the `m`-th token from `i` on ends. */
  function EndOf(isWord: Utf16 -> bool, text: Utf16, i: nat, m: nat): (end: nat)
    requires 0 < m <= |Tokens(isWord, text, i, |text|)|
    ensures i + PointLength(text, i) <= end <= |text|
    decreases |text| - i
  {
    var p := Point(text, i);
    if !isWord(p) then EndOf(isWord, text, i + PointLength(text, i), m)
    else if m == 1 then i + PointLength(text, i)
    else EndOf(isWord, text, i + PointLength(text, i), m - 1)
  }

  /** The first `m` tokens are those of the text up to the end of token `m - 1`. */
  lemma {:induction false} TokensUpTo(isWord: Utf16 -> bool, text: Utf16, i: nat, m: nat)
    requires 0 < m <= |Tokens(isWord, text, i, |text|)|
    ensures Tokens(isWord, text, i, |text|)[..m] == Tokens(isWord, text, i, EndOf(isWord, text, i, m))
    decreases |text| - i
  {
    var ts, p := Tokens(isWord, text, i, |text|), Point(text, i);
    if !isWord(p) {
      TokensUpTo(isWord, text, i + PointLength(text, i), m);
    } else {
      assert ts == [Token(p, i)] + Tokens(isWord, text, i + PointLength(text, i), |text|);
      if m > 1 { TokensUpTo(isWord, text, i + PointLength(text, i), m - 1); }
    }
  }

  /** Cutting the text at the end of a token leaves the tokens before the cut as they are. */
  lemma {:induction false} TokensOfWindow(isWord: Utf16 -> bool, text: Utf16, i: nat, m: nat)
    requires 0 < m <= |Tokens(isWord, text, i, |text|)|
    ensures var end := EndOf(isWord, text, i, m);
            Tokens(isWord, text[..end], i, end) == Tokens(isWord, text, i, end)
    decreases |text| - i
  {
    var p, end := Point(text, i), EndOf(isWord, text, i, m);
    PointOfPrefix(text, end, i);
    if !isWord(p) {
      TokensOfWindow(isWord, text, i + PointLength(text, i), m);
    } else if m > 1 {
      TokensOfWindow(isWord, text, i + PointLength(text, i), m - 1);
    }
  }

  /** Reading from `n` on spells the same as reading the text with its first `n` units dropped. */
  lemma {:induction false} TokensShift(isWord: Utf16 -> bool, w: Utf16, n: nat, i: nat)
    requires n <= i <= |w|
    ensures Flat(Tokens(isWord, w, i, |w|)) == Flat(Tokens(isWord, w[n..], i - n, |w| - n))
    decreases |w| - i
  {
    if i < |w| {
      var p := Point(w, i);
      var rest, rest' := Tokens(isWord, w, i + PointLength(w, i), |w|), Tokens(isWord, w[n..], i + PointLength(w, i) - n, |w| - n);
      PointOfSuffix(w, n, i);
      TokensShift(isWord, w, n, i + PointLength(w, i));
      FlatCons(Token(p, i), rest);
      FlatCons(Token(p, i - n), rest');
    }
  }

  /**
   A compact match of a claim is a real one: a window of the source that starts at its origin has
   exactly the letters and digits of the claim.
   */
  lemma CompactMatchHasWindow(isWord: Utf16 -> bool, source: Utf16, claim: Utf16, o: nat) returns (end: nat)
    requires WordClass(isWord)
    requires Compact(isWord, claim).text != []
    requires OccursAt(Compact(isWord, claim).text, Compact(isWord, source).text, o)
    ensures o < |Compact(isWord, source).offsets|
    ensures var start := Compact(isWord, source).offsets[o];
            start < end <= |source| && Compact(isWord, source[start..end]).text == Compact(isWord, claim).text
  {
    var a, b := Tokens(isWord, source, 0, |source|), Tokens(isWord, claim, 0, |claim|);
    TokensWellFormed(isWord, source, 0, |source|);
    TokensWellFormed(isWord, claim, 0, |claim|);
    var k := MatchOfTokens(a, b, o);
    TokensFrom(isWord, source, 0, k);
    var start := a[k].at;
    end := EndOf(isWord, source, start, |b|);
    WindowSpells(isWord, source, start, |b|);
  }

  lemma WindowSpells(isWord: Utf16 -> bool, source: Utf16, start: nat, m: nat)
    requires 0 < m <= |Tokens(isWord, source, start, |source|)|
    ensures Compact(isWord, source[start..EndOf(isWord, source, start, m)]).text ==
            Flat(Tokens(isWord, source, start, |source|)[..m])
  {
    var end := EndOf(isWord, source, start, m);
    TokensUpTo(isWord, source, start, m);
    TokensOfWindow(isWord, source, start, m);
    assert source[..end][start..] == source[start..end];
    TokensShift(isWord, source[..end], start, start);
  }

  lemma MatchOfTokens(a: seq<Token>, b: seq<Token>, o: nat) returns (k: nat)
    requires WellFormed(a) && WellFormed(b) && b != [] && OccursAt(Flat(b), Flat(a), o)
    ensures k < k + |b| <= |a| && Flat(a[k..][..|b|]) == Flat(b)
    ensures o < |Origins(a)| && Origins(a)[o] == a[k].at
  {
    var p := Flat(b);
    assert p[0] == b[0].units[0];
    k := MatchStartsToken(a, p, o);
    assert Origins(a)[o] == Origins(a)[o..][0] == Origins(a[k..])[0] == a[k].at;
    assert p <= Flat(a[k..]) by { assert Flat(a)[o..][..|p|] == Flat(a)[o..o + |p|]; }
    PrefixIsTokens(a[k..], b);
  }

  // ----- What is kept -----

  /** A code point starts there, or the text ends: it is not between the halves of a pair. */
  predicate Boundary(text: Utf16, at: nat) {
    at == |text| || (at < |text| && !(at > 0 && High(text[at - 1]) && Low(text[at])))
  }

  /** A letter or digit starts there. */
  predicate Kept(isWord: Utf16 -> bool, text: Utf16, at: nat) {
    at < |text| && Boundary(text, at) && isWord(Point(text, at))
  }

  /** Code points follow one another without a gap. */
  lemma NextBoundary(text: Utf16, i: nat)
    requires i < |text| && Boundary(text, i)
    ensures Boundary(text, i + PointLength(text, i))
    ensures forall at :: i < at < i + PointLength(text, i) ==> !Boundary(text, at)
  {}

  ghost predicate Ascending(tokens: seq<Token>) {
    forall j, k :: 0 <= j < k < |tokens| ==> tokens[j].at < tokens[k].at
  }

  ghost predicate IsToken(isWord: Utf16 -> bool, text: Utf16, t: Token) {
    Kept(isWord, text, t.at) && t.units == Point(text, t.at)
  }

  /** The tokens of a stretch are its letters and digits, all of them, in order. */
  /** The tokens are those that start in `[i, end)`, in order. */
  ghost predicate AreKept(isWord: Utf16 -> bool, text: Utf16, i: nat, end: nat, tokens: seq<Token>) {
    Ascending(tokens) && forall t :: t in tokens <==> i <= t.at < end && IsToken(isWord, text, t)
  }

  /** A token of a stretch is the first code point, or starts after it. */
  lemma FirstOrLater(isWord: Utf16 -> bool, text: Utf16, i: nat, t: Token)
    requires i < |text| && Boundary(text, i) && IsToken(isWord, text, t) && t.at >= i
    ensures t == Token(Point(text, i), i) || t.at >= i + PointLength(text, i)
  {
    NextBoundary(text, i);
  }

  lemma KeptInFront(isWord: Utf16 -> bool, text: Utf16, i: nat, end: nat, rest: seq<Token>)
    requires Boundary(text, i) && i < end <= |text| && AreKept(isWord, text, i + PointLength(text, i), end, rest)
    ensures var token := Token(Point(text, i), i);
            AreKept(isWord, text, i, end, if isWord(token.units) then [token] + rest else rest)
  {
    var token := Token(Point(text, i), i);
    assert IsToken(isWord, text, token) <==> isWord(token.units);
    forall t | IsToken(isWord, text, t) && i <= t.at ensures t == token || t.at >= i + PointLength(text, i) {
      FirstOrLater(isWord, text, i, t);
    }
    InFront(token, rest);
  }

  lemma InFront(token: Token, rest: seq<Token>)
    requires Ascending(rest) && forall t :: t in rest ==> t.at > token.at
    ensures Ascending([token] + rest) && forall t :: t in [token] + rest <==> t == token || t in rest
  {
    forall k | 0 <= k < |rest| ensures rest[k].at > token.at { assert rest[k] in rest; }
  }

  lemma {:induction false} TokensAreKept(isWord: Utf16 -> bool, text: Utf16, i: nat, end: nat)
    requires Boundary(text, i) && end <= |text|
    ensures AreKept(isWord, text, i, end, Tokens(isWord, text, i, end))
    decreases end - i
  {
    if i < end {
      NextBoundary(text, i);
      TokensAreKept(isWord, text, i + PointLength(text, i), end);
      KeptInFront(isWord, text, i, end, Tokens(isWord, text, i + PointLength(text, i), end));
    }
  }

  /** The units of the code point at `at` stand from `k` on, and nowhere else. */
  ghost predicate StandsAt(c: Compacted, at: nat, units: Utf16, k: nat) {
    && k + |units| <= |c.text| && c.text[k..k + |units|] == units
    && forall j :: 0 <= j < |c.offsets| ==> (c.offsets[j] == at <==> k <= j < k + |units|)
  }

  /**
   The compact view of a text, said of its offsets alone: they are the places of the letters and digits,
   in order and one for each unit, and the units are those of the text there.
   */
  ghost predicate IsCompactView(isWord: Utf16 -> bool, text: Utf16, c: Compacted) {
    && |c.text| == |c.offsets|
    && (forall j, k :: 0 <= j < k < |c.offsets| ==> c.offsets[j] <= c.offsets[k])
    && (forall at :: at in c.offsets <==> Kept(isWord, text, at))
    && (forall at :: Kept(isWord, text, at) ==> exists k :: StandsAt(c, at, Point(text, at), k))
  }

  ghost predicate Units(tokens: seq<Token>) { forall m :: 0 <= m < |tokens| ==> tokens[m].units != [] }

  lemma {:induction false} OriginsHold(tokens: seq<Token>)
    requires Units(tokens)
    ensures forall at :: at in Origins(tokens) <==> exists t :: t in tokens && t.at == at
  {
    if tokens != [] {
      var first, rest := tokens[0], tokens[1..];
      OriginsHold(rest);
      var here, more := Repeat(first.at, |first.units|), Origins(rest);
      assert here[0] == first.at && tokens == [first] + rest;
      forall at ensures at in Origins(tokens) <==> exists t :: t in tokens && t.at == at {
        if at in more {
          var t :| t in rest && t.at == at;
          assert t in tokens;
        }
        if t :| t in tokens && t.at == at {
          if t in rest { assert at in more; } else { assert at in here; }
        }
      }
    }
  }

  lemma {:induction false} OriginsAre(tokens: seq<Token>)
    requires Ascending(tokens) && Units(tokens)
    ensures forall j, k :: 0 <= j < k < |Origins(tokens)| ==> Origins(tokens)[j] <= Origins(tokens)[k]
    ensures forall at :: at in Origins(tokens) <==> exists t :: t in tokens && t.at == at
  {
    OriginsHold(tokens);
    if tokens != [] {
      var first, rest := tokens[0], tokens[1..];
      OriginsAre(rest);
      var more := Origins(rest);
      forall k | 0 <= k < |more| ensures more[k] > first.at {
        assert more[k] in more;
        var t :| t in rest && t.at == more[k];
        var m :| 0 <= m < |rest| && rest[m] == t;
        assert tokens[m + 1] == t;
      }
    }
  }

  lemma StandsAfter(c: Compacted, at: nat, units: Utf16, k: nat, first: Token)
    requires StandsAt(c, at, units, k) && |c.text| == |c.offsets| && first.at != at
    ensures StandsAt(Compacted(first.units + c.text, Repeat(first.at, |first.units|) + c.offsets), at, units, |first.units| + k)
  {
    var n := |first.units|;
    assert (first.units + c.text)[n + k..n + k + |units|] == c.text[k..k + |units|];
    var offsets := Repeat(first.at, n) + c.offsets;
    forall j | 0 <= j < |offsets| ensures offsets[j] == at <==> n + k <= j < n + k + |units| {
      if j >= n { assert offsets[j] == c.offsets[j - n]; }
    }
  }

  lemma StandsFirst(c: Compacted, first: Token)
    requires |c.text| == |c.offsets| && first.at !in c.offsets
    ensures StandsAt(Compacted(first.units + c.text, Repeat(first.at, |first.units|) + c.offsets), first.at, first.units, 0)
  {
    var n := |first.units|;
    var offsets := Repeat(first.at, n) + c.offsets;
    forall j | 0 <= j < |offsets| ensures offsets[j] == first.at <==> j < n {
      if j >= n { assert offsets[j] == c.offsets[j - n] && c.offsets[j - n] in c.offsets; }
    }
  }

  lemma FirstStands(tokens: seq<Token>)
    requires Ascending(tokens) && Units(tokens) && tokens != []
    ensures StandsAt(Compacted(Flat(tokens), Origins(tokens)), tokens[0].at, tokens[0].units, 0)
  {
    var first, rest := tokens[0], tokens[1..];
    EachUnitHasAnOrigin(rest);
    OriginsHold(rest);
    forall t | t in rest ensures t.at != first.at {
      var n :| 0 <= n < |rest| && rest[n] == t;
      assert tokens[n + 1] == t;
    }
    StandsFirst(Compacted(Flat(rest), Origins(rest)), first);
  }

  lemma {:induction false} TokenStands(tokens: seq<Token>, m: nat)
    requires Ascending(tokens) && Units(tokens) && m < |tokens|
    ensures StandsAt(Compacted(Flat(tokens), Origins(tokens)), tokens[m].at, tokens[m].units, |Flat(tokens[..m])|)
  {
    if m == 0 {
      assert tokens[..0] == [];
      FirstStands(tokens);
    } else {
      var first, rest := tokens[0], tokens[1..];
      EachUnitHasAnOrigin(rest);
      TokenStands(rest, m - 1);
      assert tokens[..m] == [first] + rest[..m - 1] && rest[m - 1] == tokens[m];
      FlatCons(first, rest[..m - 1]);
      StandsAfter(Compacted(Flat(rest), Origins(rest)), tokens[m].at, tokens[m].units, |Flat(rest[..m - 1])|, first);
    }
  }

  /** The compact text and its offsets leave nothing out and add nothing. */
  lemma CompactIsTheView(isWord: Utf16 -> bool, text: Utf16)
    ensures IsCompactView(isWord, text, Compact(isWord, text))
  {
    var tokens, c := Tokens(isWord, text, 0, |text|), Compact(isWord, text);
    TokensAreKept(isWord, text, 0, |text|);
    forall m | 0 <= m < |tokens| ensures tokens[m].units != [] { assert tokens[m] in tokens; }
    OriginsAre(tokens);
    forall at ensures at in c.offsets <==> Kept(isWord, text, at) {
      if Kept(isWord, text, at) { assert Token(Point(text, at), at) in tokens; }
    }
    forall at | Kept(isWord, text, at) ensures exists k :: StandsAt(c, at, Point(text, at), k) {
      var t := Token(Point(text, at), at);
      assert t in tokens;
      var m :| 0 <= m < |tokens| && tokens[m] == t;
      TokenStands(tokens, m);
    }
  }

  // ----- Windows are found -----

  lemma {:induction false} TokensSplit(isWord: Utf16 -> bool, text: Utf16, i: nat, mid: nat, end: nat)
    requires Boundary(text, i) && Boundary(text, mid) && i <= mid <= end <= |text|
    ensures Tokens(isWord, text, i, end) == Tokens(isWord, text, i, mid) + Tokens(isWord, text, mid, end)
    decreases mid - i
  {
    if i < mid {
      var p := Point(text, i);
      NextBoundary(text, i);
      TokensSplit(isWord, text, i + PointLength(text, i), mid, end);
    }
  }

  lemma {:induction false} TokensOfCut(isWord: Utf16 -> bool, text: Utf16, i: nat, end: nat)
    requires Boundary(text, i) && Boundary(text, end) && i <= end <= |text|
    ensures Tokens(isWord, text[..end], i, end) == Tokens(isWord, text, i, end)
    decreases end - i
  {
    if i < end {
      NextBoundary(text, i);
      PointOfPrefix(text, end, i);
      TokensOfCut(isWord, text, i + PointLength(text, i), end);
    }
  }

  lemma {:induction false} FlatConcat(a: seq<Token>, b: seq<Token>)
    ensures Flat(a + b) == Flat(a) + Flat(b) && Origins(a + b) == Origins(a) + Origins(b)
  {
    if a == [] {
      assert a + b == b;
    } else {
      FlatConcat(a[1..], b);
      assert a + b == [a[0]] + (a[1..] + b);
      FlatCons(a[0], a[1..] + b);
      ConcatAssociates(a[0].units, Flat(a[1..]), Flat(b));
      ConcatAssociates(Repeat(a[0].at, |a[0].units|), Origins(a[1..]), Origins(b));
    }
  }

  /**
   The converse of CompactMatchHasWindow: where a window of whole code points has exactly the letters and
   digits of a claim, the claim occurs in the compact text, at the first letter or digit of the window.
   */
  lemma WindowIsMatched(isWord: Utf16 -> bool, source: Utf16, claim: Utf16, start: nat, end: nat) returns (o: nat)
    requires start <= end <= |source| && Boundary(source, start) && Boundary(source, end)
    requires Compact(isWord, claim).text != []
    requires Compact(isWord, source[start..end]).text == Compact(isWord, claim).text
    ensures OccursAt(Compact(isWord, claim).text, Compact(isWord, source).text, o) && o < |Compact(isWord, source).offsets|
    ensures var origin := Compact(isWord, source).offsets[o];
            start <= origin < end && Kept(isWord, source, origin) && forall at :: start <= at < origin ==> !Kept(isWord, source, at)
  {
    var before, here := Tokens(isWord, source, 0, start), Tokens(isWord, source, start, end);
    TokensSplit(isWord, source, 0, start, |source|);
    TokensSplit(isWord, source, start, end, |source|);
    WindowTokens(isWord, source, start, end);
    TokensAreKept(isWord, source, start, end);
    assert here[0] in here;
    MiddleOccurs(before, here, Tokens(isWord, source, end, |source|));
    o := |Flat(before)|;
    forall at | start <= at < end && Kept(isWord, source, at) ensures at >= here[0].at {
      var t := Token(Point(source, at), at);
      assert t in here;
      var m :| 0 <= m < |here| && here[m] == t;
    }
  }

  lemma MiddleOccurs(a: seq<Token>, b: seq<Token>, c: seq<Token>)
    requires b != [] && b[0].units != []
    ensures var all := a + (b + c);
            && OccursAt(Flat(b), Flat(all), |Flat(a)|)
            && |Flat(a)| < |Origins(all)| && Origins(all)[|Flat(a)|] == b[0].at
  {
    FlatConcat(a, b + c);
    FlatConcat(b, c);
    EachUnitHasAnOrigin(a);
    OccursBetween(Flat(a), Flat(b), Flat(c));
    StartsAt(Origins(a), Origins(b), Origins(c), b[0].at);
  }

  lemma OccursBetween(a: Utf16, b: Utf16, c: Utf16)
    ensures OccursAt(b, a + (b + c), |a|)
  {
    CutTwo(a, b + c);
    CutTwo(b, c);
    CutAgain(a + (b + c), |a|, |a| + |b|);
  }

  lemma StartsAt(a: seq<nat>, b: seq<nat>, c: seq<nat>, at: nat)
    requires b != [] && b[0] == at
    ensures |a| < |a + (b + c)| && (a + (b + c))[|a|] == at
  {}

  lemma WindowTokens(isWord: Utf16 -> bool, source: Utf16, start: nat, end: nat)
    requires start <= end <= |source| && Boundary(source, start) && Boundary(source, end)
    ensures Compact(isWord, source[start..end]).text == Flat(Tokens(isWord, source, start, end))
  {
    TokensOfCut(isWord, source, start, end);
    TokensShift(isWord, source[..end], start, start);
    assert source[..end][start..] == source[start..end];
  }
}
