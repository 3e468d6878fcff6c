/**
 The multi-pattern matcher of the forbidden-claim scanner
 (src/application/verification.ts, buildMatcher and findMatches).

 The specification knows nothing about tries: `Outs` lists the patterns that end at the end of a
 text, longest first, and `AllMatches` collects them for every end offset. `BuildMatcher` and
 `FindMatches` are the source's loops over mutable nodes, proved to produce exactly that list.
 */
module AhoCorasick {
  import opened Text
  import Lists

  datatype Pattern = Pattern(index: nat, text: Utf16)
  datatype Output = Output(index: nat, length: nat)
  datatype Node = Node(next: map<CodeUnit, nat>, fail: nat, outputs: seq<Output>)
  datatype Visit = Visit(index: nat, start: nat)

  // ----- Specification: occurrences, without any automaton -----

  /** The patterns equal to `w`, in list order. */
  function Own(patterns: seq<Pattern>, w: Utf16): seq<Output> {
    if patterns == [] then []
    else (if patterns[0].text == w then [Output(patterns[0].index, |w|)] else []) + Own(patterns[1..], w)
  }

  /** The non-empty suffixes of `w` that are patterns, longest first. */
  function Outs(patterns: seq<Pattern>, w: Utf16): seq<Output> {
    if w == [] then [] else Own(patterns, w) + Outs(patterns, w[1..])
  }

  function Starts(outs: seq<Output>, end: nat): (vs: seq<Visit>)
    requires forall k :: 0 <= k < |outs| ==> outs[k].length <= end
    ensures |vs| == |outs|
    ensures forall k :: 0 <= k < |outs| ==> vs[k] == Visit(outs[k].index, end - outs[k].length)
  {
    seq(|outs|, k requires 0 <= k < |outs| => Visit(outs[k].index, end - outs[k].length))
  }

  /** Every match in `text`, by end offset and then longest first. */
  function AllMatches(patterns: seq<Pattern>, text: Utf16): seq<Visit> {
    if text == [] then [] else AllMatches(patterns, text[..|text| - 1]) + EndingHere(patterns, text)
  }

  ghost predicate HasPattern(patterns: seq<Pattern>, index: nat, w: Utf16) {
    exists p :: p in patterns && p.index == index && p.text == w
  }

  lemma {:induction false} OwnIs(patterns: seq<Pattern>, w: Utf16, o: Output)
    ensures o in Own(patterns, w) <==> o.length == |w| && HasPattern(patterns, o.index, w)
  {
    if patterns != [] {
      OwnIs(patterns[1..], w, o);
      assert forall p :: p in patterns <==> p == patterns[0] || p in patterns[1..];
    }
  }

  lemma {:induction false} OutsBounded(patterns: seq<Pattern>, w: Utf16)
    ensures forall o :: o in Outs(patterns, w) ==> 0 < o.length <= |w|
  {
    if w != [] {
      OutsBounded(patterns, w[1..]);
      forall o | o in Own(patterns, w) ensures o.length == |w| { OwnIs(patterns, w, o); }
    }
  }

  lemma {:induction false} OutsIs(patterns: seq<Pattern>, w: Utf16, o: Output)
    ensures o in Outs(patterns, w) <==>
            0 < o.length <= |w| && HasPattern(patterns, o.index, w[|w| - o.length..])
  {
    if w != [] {
      var tail := w[1..];
      OutsIs(patterns, tail, o);
      OwnIs(patterns, w, o);
      if 0 < o.length <= |tail| { assert tail[|tail| - o.length..] == w[|w| - o.length..]; }
      if o.length == |w| { assert w[|w| - o.length..] == w; }
    }
  }

  /** A pattern with index `v.index` really occurs at `v.start`. */
  ghost predicate Occurs(patterns: seq<Pattern>, text: Utf16, v: Visit) {
    exists p :: p in patterns && p.index == v.index && OccursAt(p.text, text, v.start)
  }

  function EndingHere(patterns: seq<Pattern>, text: Utf16): seq<Visit> {
    OutsBounded(patterns, text);
    Starts(Outs(patterns, text), |text|)
  }

  lemma EndingHereIs(patterns: seq<Pattern>, text: Utf16, v: Visit)
    ensures v in EndingHere(patterns, text) <==>
            v.start < |text| && HasPattern(patterns, v.index, text[v.start..])
  {
    var n, outs, here := |text|, Outs(patterns, text), EndingHere(patterns, text);
    OutsBounded(patterns, text);
    if v.start < n {
      var o := Output(v.index, n - v.start);
      OutsIs(patterns, text, o);
      if o in outs {
        var k :| 0 <= k < |outs| && outs[k] == o;
        assert here[k] == v;
      }
      if v in here {
        var k :| 0 <= k < |here| && here[k] == v;
        assert outs[k] == o;
      }
    }
  }

  lemma OccursSplit(patterns: seq<Pattern>, text: Utf16, v: Visit)
    requires text != [] && forall p :: p in patterns ==> p.text != []
    ensures Occurs(patterns, text, v) <==>
            Occurs(patterns, text[..|text| - 1], v) ||
            (v.start < |text| && HasPattern(patterns, v.index, text[v.start..]))
  {
    var shorter := text[..|text| - 1];
    forall p | p in patterns
      ensures OccursAt(p.text, text, v.start) <==>
              OccursAt(p.text, shorter, v.start) || (v.start < |text| && p.text == text[v.start..])
    {
      if v.start + |p.text| < |text| {
        assert text[v.start..v.start + |p.text|] == shorter[v.start..v.start + |p.text|];
      } else if v.start + |p.text| == |text| {
        assert text[v.start..v.start + |p.text|] == text[v.start..];
      }
    }
  }

  /** The list holds the real occurrences and nothing else. */
  lemma {:induction false} AllMatchesIsOccurrences(patterns: seq<Pattern>, text: Utf16, v: Visit)
    requires forall p :: p in patterns ==> p.text != []
    ensures v in AllMatches(patterns, text) <==> Occurs(patterns, text, v)
  {
    if text != [] {
      AllMatchesIsOccurrences(patterns, text[..|text| - 1], v);
      OccursSplit(patterns, text, v);
      EndingHereIs(patterns, text, v);
    }
  }

  ghost predicate DistinctIndices(patterns: seq<Pattern>) {
    forall i, j :: 0 <= i < j < |patterns| ==> patterns[i].index != patterns[j].index
  }

  lemma {:induction false} OwnNoDuplicates(patterns: seq<Pattern>, w: Utf16)
    requires DistinctIndices(patterns)
    ensures NoDuplicates(Own(patterns, w))
  {
    if patterns != [] {
      OwnNoDuplicates(patterns[1..], w);
      forall o | o in Own(patterns[1..], w) ensures o.index != patterns[0].index {
        OwnIs(patterns[1..], w, o);
      }
    }
  }

  lemma {:induction false} OutsNoDuplicates(patterns: seq<Pattern>, w: Utf16)
    requires DistinctIndices(patterns)
    ensures NoDuplicates(Outs(patterns, w))
  {
    if w != [] {
      OwnNoDuplicates(patterns, w);
      OutsNoDuplicates(patterns, w[1..]);
      OutsBounded(patterns, w[1..]);
      forall o | o in Own(patterns, w) ensures o.length == |w| { OwnIs(patterns, w, o); }
    }
  }

  /** With one index per pattern, no (index, start) pair is visited twice. */
  lemma {:induction false} AllMatchesNoDuplicates(patterns: seq<Pattern>, text: Utf16)
    requires forall p :: p in patterns ==> p.text != []
    requires DistinctIndices(patterns)
    ensures NoDuplicates(AllMatches(patterns, text))
  {
    if text != [] {
      var n, outs, here := |text|, Outs(patterns, text), EndingHere(patterns, text);
      var before := AllMatches(patterns, text[..n - 1]);
      OutsBounded(patterns, text);
      AllMatchesNoDuplicates(patterns, text[..n - 1]);
      OutsNoDuplicates(patterns, text);
      forall i, j | 0 <= i < j < |here| ensures here[i] != here[j] {
        assert outs[i] != outs[j];
      }
      forall v | v in before ensures v !in here {
        AllMatchesIsOccurrences(patterns, text[..n - 1], v);
        EndingHereIs(patterns, text, v);
      }
      ConcatNoDuplicates(before, here);
    }
  }

  // ----- The trie and its suffix structure -----

  /** What each state stands for, kept beside the nodes for the proof only. */
  datatype Trie = Trie(words: seq<Utf16>, parent: seq<nat>)

  /** The edge on `c` out of state `s` leads to the state spelling one more unit. */
  ghost predicate Edge(nodes: seq<Node>, t: Trie, s: nat, c: CodeUnit)
    requires |nodes| == |t.words| == |t.parent| && s < |nodes| && c in nodes[s].next
  {
    var child := nodes[s].next[c];
    0 < child < |nodes| && t.words[child] == t.words[s] + [c] && t.parent[child] == s
  }

  /** State `s` is the child of its parent on its last unit. */
  ghost predicate Child(nodes: seq<Node>, t: Trie, s: nat)
    requires |nodes| == |t.words| == |t.parent| && s < |nodes|
  {
    var p, w := t.parent[s], t.words[s];
    p < |nodes| && w != [] && w[|w| - 1] in nodes[p].next && nodes[p].next[w[|w| - 1]] == s
  }

  ghost predicate IsTrie(nodes: seq<Node>, t: Trie) {
    && |nodes| == |t.words| == |t.parent| >= 1
    && t.words[0] == []
    && (forall s, c :: 0 <= s < |nodes| && c in nodes[s].next ==> Edge(nodes, t, s, c))
    && (forall s :: 0 < s < |nodes| ==> Child(nodes, t, s))
    && NoDuplicates(t.words)
  }

  ghost predicate PrefixOfSome(patterns: seq<Pattern>, w: Utf16) {
    exists p :: p in patterns && w <= p.text
  }

  /** Every pattern spells a state, and every state spells a prefix of a pattern. */
  ghost predicate Spells(patterns: seq<Pattern>, t: Trie) {
    && (forall p :: p in patterns ==> p.text in t.words)
    && (forall w :: w in t.words ==> w == [] || PrefixOfSome(patterns, w))
  }

  ghost function Longest(t: Trie, w: Utf16): Utf16
    requires [] in t.words
  {
    if w in t.words then w else Longest(t, w[1..])
  }

  ghost predicate IsSuffix(v: Utf16, w: Utf16) {
    |v| <= |w| && w[|w| - |v|..] == v
  }

  /** `Longest` is what its name says: the longest suffix of `w` that spells a state. */
  lemma {:induction false} LongestIsLongest(t: Trie, w: Utf16)
    requires [] in t.words
    ensures Longest(t, w) in t.words && IsSuffix(Longest(t, w), w)
    ensures forall v :: v in t.words && IsSuffix(v, w) ==> |v| <= |Longest(t, w)|
  {
    if w !in t.words {
      LongestIsLongest(t, w[1..]);
      var l := Longest(t, w[1..]);
      assert w[|w| - |l|..] == w[1..][|w[1..]| - |l|..];
      forall v | v in t.words && IsSuffix(v, w) ensures IsSuffix(v, w[1..]) {
        assert w[|w| - |w|..] == w;
        assert w[|w| - |v|..] == w[1..][|w[1..]| - |v|..];
      }
    }
  }

  /** The walk down the fail chain of a state labelled `v` on reading `c`. */
  ghost function Chase(t: Trie, v: Utf16, c: CodeUnit): Utf16
    requires [] in t.words
    decreases |v|
  {
    if v + [c] in t.words then v + [c]
    else if v == [] then []
    else LongestIsLongest(t, v[1..]); Chase(t, Longest(t, v[1..]), c)
  }

  ghost predicate PrefixClosed(t: Trie) {
    forall w, c: CodeUnit :: w + [c] in t.words ==> w in t.words
  }

  lemma TriePrefixClosed(nodes: seq<Node>, t: Trie)
    requires IsTrie(nodes, t)
    ensures [] in t.words && PrefixClosed(t)
  {
    forall w, c: CodeUnit | w + [c] in t.words ensures w in t.words {
      var s :| 0 <= s < |t.words| && t.words[s] == w + [c];
      assert (w + [c])[|w + [c]| - 1] == c;
      assert Child(nodes, t, s);
      assert Edge(nodes, t, t.parent[s], c);
      assert t.words[t.parent[s]] == (w + [c])[..|w|] == w;
    }
  }

  /** Reading one more unit: chasing from the longest suffix gives the new longest suffix. */
  lemma {:induction false} ChaseFromLongest(t: Trie, w: Utf16, c: CodeUnit)
    requires [] in t.words && PrefixClosed(t)
    ensures Chase(t, Longest(t, w), c) == Longest(t, w + [c])
  {
    if w + [c] !in t.words {
      if w == [] {
        assert (w + [c])[1..] == [];
      } else {
        assert (w + [c])[1..] == w[1..] + [c];
        ChaseFromLongest(t, w[1..], c);
      }
    }
  }

  /** Nothing is lost by reading the outputs at the longest suffix that spells a state. */
  lemma {:induction false} OutsAtLongest(patterns: seq<Pattern>, t: Trie, w: Utf16)
    requires [] in t.words && Spells(patterns, t)
    ensures Outs(patterns, w) == Outs(patterns, Longest(t, w))
  {
    if w !in t.words {
      OutsAtLongest(patterns, t, w[1..]);
      if Own(patterns, w) != [] { OwnIs(patterns, w, Own(patterns, w)[0]); }
    }
  }

  /** The fail link of `s` is the longest proper suffix that spells a state. */
  ghost predicate FailLink(nodes: seq<Node>, t: Trie, s: nat)
    requires IsTrie(nodes, t) && s < |nodes|
  {
    && nodes[s].fail < |nodes|
    && (s != 0 ==> t.words[nodes[s].fail] == Longest(t, t.words[s][1..]))
  }

  /** Fail link and outputs of state `s` are final. */
  ghost predicate Linked(patterns: seq<Pattern>, nodes: seq<Node>, t: Trie, s: nat)
    requires IsTrie(nodes, t) && s < |nodes|
  {
    FailLink(nodes, t, s) && nodes[s].outputs == Outs(patterns, t.words[s])
  }

  /** The finished matcher: each fail link is the longest proper suffix present in the trie. */
  ghost predicate IsMatcher(patterns: seq<Pattern>, nodes: seq<Node>, t: Trie) {
    && IsTrie(nodes, t)
    && Spells(patterns, t)
    && forall s :: 0 <= s < |nodes| ==> Linked(patterns, nodes, t, s)
  }

  /** A missing edge means the longer word spells no state. */
  lemma NoEdgeNoWord(nodes: seq<Node>, t: Trie, state: nat, c: CodeUnit)
    requires IsTrie(nodes, t) && state < |nodes| && c !in nodes[state].next
    ensures t.words[state] + [c] !in t.words
  {
    var w := t.words[state] + [c];
    assert w[|w| - 1] == c && w[..|w| - 1] == t.words[state];
    forall s | 0 <= s < |nodes| ensures t.words[s] != w {
      if s > 0 {
        var p := t.parent[s];
        assert Child(nodes, t, s) && (c in nodes[p].next ==> Edge(nodes, t, p, c));
        assert (t.words[p] + [c])[..|t.words[p]|] == t.words[p];
      }
    }
  }

  // ----- buildMatcher, first loop: the trie -----

  const EmptyNode := Node(map[], 0, [])

  /** State of the nodes before any fail link is set. */
  ghost predicate Unlinked(patterns: seq<Pattern>, nodes: seq<Node>, t: Trie)
    requires IsTrie(nodes, t)
  {
    forall s :: 0 <= s < |nodes| ==> nodes[s].fail == 0 && nodes[s].outputs == Own(patterns, t.words[s])
  }

  ghost function Grown(t: Trie, state: nat, c: CodeUnit): Trie
    requires state < |t.words|
  {
    Trie(t.words + [t.words[state] + [c]], t.parent + [state])
  }

  function GrownNodes(nodes: seq<Node>, state: nat, c: CodeUnit): seq<Node>
    requires state < |nodes|
  {
    nodes[state := nodes[state].(next := nodes[state].next[c := |nodes|])] + [EmptyNode]
  }

  /** Growing a trie by a missing edge keeps it a trie. */
  lemma GrowKeepsTrie(nodes: seq<Node>, t: Trie, state: nat, c: CodeUnit)
    requires IsTrie(nodes, t) && state < |nodes| && c !in nodes[state].next
    ensures IsTrie(GrownNodes(nodes, state, c), Grown(t, state, c))
  {
    var w, t', grown := t.words[state] + [c], Grown(t, state, c), GrownNodes(nodes, state, c);
    assert w[|w| - 1] == c;
    NoEdgeNoWord(nodes, t, state, c);
    forall s, d | 0 <= s < |grown| && d in grown[s].next ensures Edge(grown, t', s, d) {
      assert s < |nodes|;
      if s != state || d != c { assert Edge(nodes, t, s, d); }
    }
    forall s | 0 < s < |grown| ensures Child(grown, t', s) {
      if s < |nodes| { assert Child(nodes, t, s); }
    }
    ConcatNoDuplicates(t.words, [w]);
  }

  lemma {:induction false} OwnSnoc(patterns: seq<Pattern>, p: Pattern, w: Utf16)
    ensures Own(patterns + [p], w) ==
            Own(patterns, w) + if p.text == w then [Output(p.index, |w|)] else []
  {
    if patterns == [] {
      assert patterns + [p] == [p];
    } else {
      OwnSnoc(patterns[1..], p, w);
      assert (patterns + [p])[1..] == patterns[1..] + [p];
    }
  }

  /** The trie while the path of `pattern` is being added. */
  ghost predicate PathSoFar(before: seq<Pattern>, pattern: Pattern, nodes: seq<Node>, t: Trie) {
    && IsTrie(nodes, t) && Unlinked(before, nodes, t)
    && (forall p :: p in before ==> p.text in t.words)
    && (forall w :: w in t.words ==> w == [] || PrefixOfSome(before + [pattern], w))
  }

  lemma StartPath(before: seq<Pattern>, pattern: Pattern, nodes: seq<Node>, t: Trie)
    requires IsTrie(nodes, t) && Spells(before, t) && Unlinked(before, nodes, t)
    ensures PathSoFar(before, pattern, nodes, t)
  {
    forall w | w in t.words ensures w == [] || PrefixOfSome(before + [pattern], w) {
      if w != [] {
        var p :| p in before && w <= p.text;
        assert p in before + [pattern];
      }
    }
  }

  lemma GrowPath(before: seq<Pattern>, pattern: Pattern, nodes: seq<Node>, t: Trie, state: nat, c: CodeUnit)
    requires PathSoFar(before, pattern, nodes, t) && state < |nodes| && c !in nodes[state].next
    requires t.words[state] + [c] <= pattern.text
    ensures PathSoFar(before, pattern, GrownNodes(nodes, state, c), Grown(t, state, c))
  {
    var grown, t' := GrownNodes(nodes, state, c), Grown(t, state, c);
    var w := t.words[state] + [c];
    GrowKeepsTrie(nodes, t, state, c);
    NoEdgeNoWord(nodes, t, state, c);
    assert Unlinked(before, grown, t') by {
      forall p | p in before ensures p.text != w { assert p.text in t.words; }
      if Own(before, w) != [] { OwnIs(before, w, Own(before, w)[0]); }
    }
    forall v | v in t'.words ensures v == [] || PrefixOfSome(before + [pattern], v) {
      if v == w { assert pattern in before + [pattern]; } else { assert v in t.words; }
    }
    forall p | p in before ensures p.text in t'.words { assert p.text in t.words; }
  }

  lemma RecordOutput(before: seq<Pattern>, pattern: Pattern, nodes: seq<Node>, t: Trie, state: nat)
    requires PathSoFar(before, pattern, nodes, t) && state < |nodes| && t.words[state] == pattern.text
    ensures var done := nodes[state := nodes[state].(
                                outputs := nodes[state].outputs + [Output(pattern.index, |pattern.text|)])];
            IsTrie(done, t) && Spells(before + [pattern], t) && Unlinked(before + [pattern], done, t)
  {
    var done := nodes[state := nodes[state].(outputs := nodes[state].outputs + [Output(pattern.index, |pattern.text|)])];
    SameEdgesSameTrie(nodes, done, t);
    forall s | 0 <= s < |nodes|
      ensures Own(before + [pattern], t.words[s]) ==
              Own(before, t.words[s]) + if s == state then [Output(pattern.index, |pattern.text|)] else []
    {
      OwnSnoc(before, pattern, t.words[s]);
    }
  }

  /** Being a trie depends on the edges only. */
  lemma SameEdgesSameTrie(nodes: seq<Node>, nodes': seq<Node>, t: Trie)
    requires IsTrie(nodes, t) && |nodes'| == |nodes|
    requires forall s :: 0 <= s < |nodes| ==> nodes'[s].next == nodes[s].next
    ensures IsTrie(nodes', t)
  {
    forall s, c | 0 <= s < |nodes| && c in nodes'[s].next ensures Edge(nodes', t, s, c) {
      assert Edge(nodes, t, s, c);
    }
    forall s | 0 < s < |nodes| ensures Child(nodes', t, s) {
      assert Child(nodes, t, s);
    }
  }

  /** One round of the first loop: walk or grow the path of a pattern and record its output. */
  method AddPattern(ghost before: seq<Pattern>, nodes0: seq<Node>, ghost t0: Trie, pattern: Pattern)
    returns (nodes: seq<Node>, ghost t: Trie)
    requires IsTrie(nodes0, t0) && Spells(before, t0) && Unlinked(before, nodes0, t0)
    ensures IsTrie(nodes, t) && Spells(before + [pattern], t) && Unlinked(before + [pattern], nodes, t)
  {
    nodes, t := nodes0, t0;
    StartPath(before, pattern, nodes, t);
    var state: nat := 0;
    assert pattern.text[..0] == [];
    for offset := 0 to |pattern.text|
      invariant PathSoFar(before, pattern, nodes, t)
      invariant state < |nodes| == |t.words| && t.words[state] == pattern.text[..offset]
    {
      var character := pattern.text[offset];
      PrefixGrows(pattern.text, offset);
      if character in nodes[state].next {
        assert Edge(nodes, t, state, character);
        state := nodes[state].next[character];
      } else {
        var nextState := |nodes|;
        GrowPath(before, pattern, nodes, t, state, character);
        nodes := GrownNodes(nodes, state, character);
        t := Grown(t, state, character);
        state := nextState;
      }
    }
    RecordOutput(before, pattern, nodes, t, state);
    nodes := nodes[state := nodes[state].(outputs := nodes[state].outputs + [Output(pattern.index, |pattern.text|)])];
  }

  // ----- The fail chain -----

  /**
   The loop shared by the builder and the search: follow fail links until the state has an edge on
   `character`. Each hop strictly shortens the word of the state.
   */
  method FollowFails(nodes: seq<Node>, ghost t: Trie, start: nat, character: CodeUnit)
    returns (state: nat, ghost hops: nat)
    requires IsTrie(nodes, t) && start < |nodes|
    requires forall s :: 0 <= s < |nodes| && |t.words[s]| <= |t.words[start]| ==> FailLink(nodes, t, s)
    ensures state < |nodes| && (state == 0 || character in nodes[state].next)
    ensures Chase(t, t.words[state], character) == Chase(t, t.words[start], character)
    ensures hops + |t.words[state]| <= |t.words[start]|
  {
    state, hops := start, 0;
    while state != 0 && character !in nodes[state].next
      invariant state < |nodes|
      invariant Chase(t, t.words[state], character) == Chase(t, t.words[start], character)
      invariant hops + |t.words[state]| <= |t.words[start]|
      decreases |t.words[state]|
    {
      NoEdgeNoWord(nodes, t, state, character);
      assert Child(nodes, t, state);
      assert FailLink(nodes, t, state);
      LongestIsLongest(t, t.words[state][1..]);
      state, hops := nodes[state].fail, hops + 1;
    }
  }

  /** Where the chase ends: along the edge if there is one, at the root otherwise. */
  lemma ChaseEnds(nodes: seq<Node>, t: Trie, state: nat, c: CodeUnit)
    requires IsTrie(nodes, t) && state < |nodes| && (state == 0 || c in nodes[state].next)
    ensures Chase(t, t.words[state], c) ==
            if c in nodes[state].next then t.words[nodes[state].next[c]] else []
  {
    if c in nodes[state].next {
      assert Edge(nodes, t, state, c);
      assert t.words[nodes[state].next[c]] in t.words;
    } else {
      NoEdgeNoWord(nodes, t, state, c);
    }
  }

  // ----- buildMatcher, second loop: breadth-first fail links -----

  ghost function Depth(t: Trie, s: nat): nat {
    if s < |t.words| then |t.words[s]| else 0
  }

  /** Queue order: by depth, and never more than one level ahead of the cursor. */
  ghost predicate ByDepth(t: Trie, queue: seq<nat>, cursor: nat) {
    && (forall i, j :: 0 <= i <= j < |queue| ==> Depth(t, queue[i]) <= Depth(t, queue[j]))
    && (cursor < |queue| ==> forall i :: 0 <= i < |queue| ==> Depth(t, queue[i]) <= Depth(t, queue[cursor]) + 1)
  }

  /** The children of state `s` have all been queued. */
  ghost predicate Expanded(nodes: seq<Node>, queue: seq<nat>, s: nat) {
    s < |nodes| ==> forall c :: c in nodes[s].next ==> nodes[s].next[c] in queue
  }

  ghost predicate QueueOk(patterns: seq<Pattern>, nodes: seq<Node>, t: Trie, queue: seq<nat>)
    requires IsTrie(nodes, t)
  {
    && NoDuplicates(queue)
    && (forall q :: q in queue ==> 0 < q < |nodes|)
    && Linked(patterns, nodes, t, 0)
    && (forall s :: 0 <= s < |nodes| && s in queue ==> Linked(patterns, nodes, t, s))
    && (forall s :: 0 < s < |nodes| && s !in queue ==>
          nodes[s].fail == 0 && nodes[s].outputs == Own(patterns, t.words[s]))
    && Expanded(nodes, queue, 0)
  }

  /** A state no deeper than the one at the cursor has been queued. */
  lemma {:induction false} ShallowQueued(nodes: seq<Node>, t: Trie, queue: seq<nat>, cursor: nat, s: nat)
    requires IsTrie(nodes, t) && 0 < s < |nodes| && cursor <= |queue|
    requires ByDepth(t, queue, cursor)
    requires Expanded(nodes, queue, 0)
    requires forall i :: 0 <= i < cursor ==> Expanded(nodes, queue, queue[i])
    requires cursor < |queue| ==> Depth(t, s) <= Depth(t, queue[cursor])
    ensures s in queue
    decreases |t.words[s]|
  {
    var p := t.parent[s];
    assert Child(nodes, t, s);
    var c := t.words[s][|t.words[s]| - 1];
    assert Edge(nodes, t, p, c);
    if p != 0 {
      ShallowQueued(nodes, t, queue, cursor, p);
      var i :| 0 <= i < |queue| && queue[i] == p;
      assert i < cursor;
    }
  }

  /** The fail link the source computes for the child of `state` on `character`. */
  lemma ChildFail(nodes: seq<Node>, t: Trie, state: nat, character: CodeUnit, fallback: nat)
    requires IsTrie(nodes, t) && 0 < state < |nodes| && character in nodes[state].next
    requires FailLink(nodes, t, state)
    requires fallback < |nodes| && (fallback == 0 || character in nodes[fallback].next)
    requires |t.words[fallback]| < |t.words[state]|
    requires Chase(t, t.words[fallback], character) == Chase(t, t.words[nodes[state].fail], character)
    ensures var child := nodes[state].next[character];
            && (character in nodes[fallback].next ==> nodes[fallback].next[character] != child)
            && t.words[child] != []
            && Longest(t, t.words[child][1..]) ==
               if character in nodes[fallback].next then t.words[nodes[fallback].next[character]] else []
  {
    var v := t.words[state];
    assert Edge(nodes, t, state, character) && Child(nodes, t, state);
    TriePrefixClosed(nodes, t);
    ChaseFromLongest(t, v[1..], character);
    assert (v + [character])[1..] == v[1..] + [character];
    ChaseEnds(nodes, t, fallback, character);
    if character in nodes[fallback].next { assert Edge(nodes, t, fallback, character); }
  }

  /** Every queued state has its parent at the root or already visited (or being visited, on a finished edge). */
  ghost predicate FromVisited(t: Trie, queue: seq<nat>, cursor: nat, pending: set<CodeUnit>) {
    forall s :: 0 < s < |t.words| == |t.parent| && s in queue ==>
      t.parent[s] == 0 || t.parent[s] in queue[..if cursor <= |queue| then cursor else |queue|] ||
      (cursor < |queue| && t.parent[s] == queue[cursor] && t.words[s] != [] && t.words[s][|t.words[s]| - 1] !in pending)
  }

  /** The breadth-first invariant; `pending` are the edges of the state at the cursor still to be followed. */
  ghost predicate Bfs(patterns: seq<Pattern>, nodes: seq<Node>, t: Trie,
                      queue: seq<nat>, cursor: nat, pending: set<CodeUnit>)
  {
    && IsTrie(nodes, t)
    && QueueOk(patterns, nodes, t, queue)
    && cursor <= |queue|
    && ByDepth(t, queue, cursor)
    && (forall i :: 0 <= i < cursor ==> Expanded(nodes, queue, queue[i]))
    && FromVisited(t, queue, cursor, pending)
  }

  /** The child on a pending edge is not in the queue yet. */
  lemma PendingChildNotQueued(patterns: seq<Pattern>, nodes: seq<Node>, t: Trie, queue: seq<nat>, cursor: nat,
                              pending: set<CodeUnit>, state: nat, c: CodeUnit)
    requires Bfs(patterns, nodes, t, queue, cursor, pending)
    requires cursor < |queue| && queue[cursor] == state < |nodes| && c in pending && c in nodes[state].next
    ensures nodes[state].next[c] !in queue
  {
    var child := nodes[state].next[c];
    assert state in queue;
    assert Edge(nodes, t, state, c);
    assert t.words[child][|t.words[child]| - 1] == c;
    assert state !in queue[..cursor];
  }

  /** The child after the push of the source: its fail link set, the outputs of the target appended. */
  function LinkedChild(nodes: seq<Node>, child: nat, fail: nat): seq<Node>
    requires child < |nodes| && fail < |nodes|
  {
    nodes[child := Node(nodes[child].next, fail, nodes[child].outputs + nodes[fail].outputs)]
  }

  lemma LinkChildQueueOk(patterns: seq<Pattern>, nodes: seq<Node>, t: Trie, queue: seq<nat>, child: nat, fail: nat)
    requires IsTrie(nodes, t) && Spells(patterns, t) && QueueOk(patterns, nodes, t, queue)
    requires 0 < child < |nodes| && child !in queue && t.words[child] != []
    requires fail < |nodes| && (fail == 0 || fail in queue)
    requires t.words[fail] == Longest(t, t.words[child][1..])
    ensures IsTrie(LinkedChild(nodes, child, fail), t)
    ensures QueueOk(patterns, LinkedChild(nodes, child, fail), t, queue + [child])
  {
    var nodes', queue' := LinkedChild(nodes, child, fail), queue + [child];
    SameEdgesSameTrie(nodes, nodes', t);
    assert t.words[0] in t.words;
    OutsAtLongest(patterns, t, t.words[child][1..]);
    assert Linked(patterns, nodes, t, fail);
    assert Linked(patterns, nodes', t, child);
    forall s | 0 <= s < |nodes| && s in queue' ensures Linked(patterns, nodes', t, s) {
      if s != child { assert s in queue && Linked(patterns, nodes, t, s); }
    }
    assert Linked(patterns, nodes', t, 0) by { assert Linked(patterns, nodes, t, 0); }
    ConcatNoDuplicates(queue, [child]);
  }

  /** Linking the child of the state at the cursor on a pending edge keeps the invariant. */
  lemma LinkChild(patterns: seq<Pattern>, nodes: seq<Node>, t: Trie, queue: seq<nat>, cursor: nat,
                  pending: set<CodeUnit>, state: nat, c: CodeUnit, fail: nat)
    requires Spells(patterns, t) && Bfs(patterns, nodes, t, queue, cursor, pending)
    requires cursor < |queue| && queue[cursor] == state < |nodes| && c in pending && c in nodes[state].next
    requires var child := nodes[state].next[c];
             child < |nodes| && t.words[child] != [] &&
             fail < |nodes| && (fail == 0 || fail in queue) && t.words[fail] == Longest(t, t.words[child][1..])
    ensures Bfs(patterns, LinkedChild(nodes, nodes[state].next[c], fail), t,
                queue + [nodes[state].next[c]], cursor, pending - {c})
  {
    var child := nodes[state].next[c];
    var nodes', queue' := LinkedChild(nodes, child, fail), queue + [child];
    PendingChildNotQueued(patterns, nodes, t, queue, cursor, pending, state, c);
    assert Edge(nodes, t, state, c) && state in queue;
    LinkChildQueueOk(patterns, nodes, t, queue, child, fail);
    forall i | 0 <= i < cursor ensures Expanded(nodes', queue', queue'[i]) {
      assert Expanded(nodes, queue, queue[i]);
    }
    ByDepthPush(t, queue, cursor, child);
    LinkChildFromVisited(t, queue, cursor, pending, child, c);
  }

  lemma ByDepthPush(t: Trie, queue: seq<nat>, cursor: nat, child: nat)
    requires ByDepth(t, queue, cursor) && cursor < |queue| && Depth(t, child) == Depth(t, queue[cursor]) + 1
    ensures ByDepth(t, queue + [child], cursor)
  {}

  lemma LinkChildFromVisited(t: Trie, queue: seq<nat>, cursor: nat, pending: set<CodeUnit>, child: nat, c: CodeUnit)
    requires FromVisited(t, queue, cursor, pending) && cursor < |queue| && child < |t.words| == |t.parent|
    requires t.parent[child] == queue[cursor] && t.words[child] != [] && t.words[child][|t.words[child]| - 1] == c
    ensures FromVisited(t, queue + [child], cursor, pending - {c})
  {
    assert (queue + [child])[..cursor] == queue[..cursor];
  }

  ghost function EdgesAt(nodes: seq<Node>, queue: seq<nat>, cursor: nat): set<CodeUnit> {
    if cursor < |queue| && queue[cursor] < |nodes| then nodes[queue[cursor]].next.Keys else {}
  }

  lemma RootChild(patterns: seq<Pattern>, nodes: seq<Node>, t: Trie, c: CodeUnit)
    requires IsTrie(nodes, t) && Unlinked(patterns, nodes, t) && c in nodes[0].next
    ensures var s := nodes[0].next[c];
            0 < s < |nodes| && |t.words[s]| == 1 && t.parent[s] == 0 && Linked(patterns, nodes, t, s)
  {
    var s := nodes[0].next[c];
    assert Edge(nodes, t, 0, c);
    assert t.words[s][1..] == [] && t.words[0] in t.words;
    assert Outs(patterns, []) == [];
  }

  /** The queue after the root level alone. */
  lemma RootLevel(patterns: seq<Pattern>, nodes: seq<Node>, t: Trie, queue: seq<nat>)
    requires forall p :: p in patterns ==> p.text != []
    requires IsTrie(nodes, t) && Spells(patterns, t) && Unlinked(patterns, nodes, t)
    requires NoDuplicates(queue)
    requires forall s :: s in queue <==> exists c :: c in nodes[0].next && s == nodes[0].next[c]
    ensures Bfs(patterns, nodes, t, queue, 0, EdgesAt(nodes, queue, 0))
  {
    forall s | s in queue
      ensures 0 < s < |nodes| && |t.words[s]| == 1 && t.parent[s] == 0 && Linked(patterns, nodes, t, s)
    {
      var c :| c in nodes[0].next && s == nodes[0].next[c];
      RootChild(patterns, nodes, t, c);
    }
    if Own(patterns, []) != [] { OwnIs(patterns, [], Own(patterns, [])[0]); }
    assert Linked(patterns, nodes, t, 0);
  }

  /** The visit of the state at the cursor is over: move on to the next one. */
  lemma NextCursor(patterns: seq<Pattern>, nodes: seq<Node>, t: Trie, queue: seq<nat>, cursor: nat)
    requires Bfs(patterns, nodes, t, queue, cursor, {}) && cursor < |queue|
    requires Expanded(nodes, queue, queue[cursor])
    ensures Bfs(patterns, nodes, t, queue, cursor + 1, EdgesAt(nodes, queue, cursor + 1))
  {
    assert queue[..cursor + 1] == queue[..cursor] + [queue[cursor]];
  }

  /** At the cursor, the state and every shallower one are linked already. */
  lemma ShallowLinked(patterns: seq<Pattern>, nodes: seq<Node>, t: Trie,
                      queue: seq<nat>, cursor: nat, pending: set<CodeUnit>, s: nat)
    requires Bfs(patterns, nodes, t, queue, cursor, pending) && cursor < |queue|
    requires s < |nodes| && |t.words[s]| <= Depth(t, queue[cursor])
    ensures Linked(patterns, nodes, t, s) && (s == 0 || s in queue)
  {
    if s != 0 { ShallowQueued(nodes, t, queue, cursor, s); }
  }

  /** The fail link of the child of `state` on `character`, found by following the fail links of `state`. */
  method FailOfChild(ghost patterns: seq<Pattern>, nodes: seq<Node>, ghost t: Trie, ghost queue: seq<nat>,
                     ghost cursor: nat, ghost pending: set<CodeUnit>, state: nat, character: CodeUnit)
    returns (fail: nat)
    requires Bfs(patterns, nodes, t, queue, cursor, pending)
    requires cursor < |queue| && queue[cursor] == state < |nodes|
    requires character in pending && character in nodes[state].next
    ensures var child := nodes[state].next[character];
            child < |nodes| && t.words[child] != [] &&
            fail < |nodes| && (fail == 0 || fail in queue) && t.words[fail] == Longest(t, t.words[child][1..])
  {
    var nextState := nodes[state].next[character];
    assert state in queue && Linked(patterns, nodes, t, state) && Edge(nodes, t, state, character);
    assert Child(nodes, t, state);
    TriePrefixClosed(nodes, t);
    LongestIsLongest(t, t.words[state][1..]);
    forall s | 0 <= s < |nodes| && |t.words[s]| <= |t.words[nodes[state].fail]| ensures FailLink(nodes, t, s) {
      ShallowLinked(patterns, nodes, t, queue, cursor, pending, s);
    }
    var fallback, _ := FollowFails(nodes, t, nodes[state].fail, character);
    ChildFail(nodes, t, state, character, fallback);
    if character in nodes[fallback].next {
      assert Edge(nodes, t, fallback, character);
    }
    fail := if character in nodes[fallback].next && nodes[fallback].next[character] != nextState
            then nodes[fallback].next[character] else 0;
    ShallowLinked(patterns, nodes, t, queue, cursor, pending, fail);
  }

  ghost predicate EdgesQueued(next: map<CodeUnit, nat>, queue: seq<nat>, pending: set<CodeUnit>) {
    forall c :: c in next && c !in pending ==> next[c] in queue
  }

  lemma EdgesQueuedPush(next: map<CodeUnit, nat>, queue: seq<nat>, pending: set<CodeUnit>, c: CodeUnit)
    requires EdgesQueued(next, queue, pending) && c in next
    ensures EdgesQueued(next, queue + [next[c]], pending - {c})
  {}

  /** The inner loop over the edges of the state at the cursor. */
  method LinkChildren(ghost patterns: seq<Pattern>, nodes0: seq<Node>, ghost t: Trie, queue0: seq<nat>, cursor: nat)
    returns (nodes: seq<Node>, queue: seq<nat>)
    requires Spells(patterns, t)
    requires cursor < |queue0| && Bfs(patterns, nodes0, t, queue0, cursor, EdgesAt(nodes0, queue0, cursor))
    ensures |nodes| == |nodes0| && |queue| >= |queue0|
    ensures Bfs(patterns, nodes, t, queue, cursor + 1, EdgesAt(nodes, queue, cursor + 1))
  {
    nodes, queue := nodes0, queue0;
    var state := queue[cursor];
    assert state in queue;
    var pending := nodes[state].next.Keys;
    while pending != {}
      invariant |nodes| == |nodes0| && |queue| >= |queue0| && cursor < |queue| && queue[cursor] == state < |nodes|
      invariant Bfs(patterns, nodes, t, queue, cursor, pending)
      invariant pending <= nodes[state].next.Keys
      invariant EdgesQueued(nodes[state].next, queue, pending)
    {
      var character :| character in pending;
      nodes, queue := LinkOne(patterns, nodes, t, queue, cursor, pending, state, character);
      pending := pending - {character};
    }
    NextCursor(patterns, nodes, t, queue, cursor);
  }

  /** One edge of the state at the cursor: the child is queued and linked. */
  method LinkOne(ghost patterns: seq<Pattern>, nodes0: seq<Node>, ghost t: Trie, queue0: seq<nat>, ghost cursor: nat,
                 ghost pending: set<CodeUnit>, state: nat, character: CodeUnit)
    returns (nodes: seq<Node>, queue: seq<nat>)
    requires Spells(patterns, t) && Bfs(patterns, nodes0, t, queue0, cursor, pending)
    requires cursor < |queue0| && queue0[cursor] == state < |nodes0|
    requires character in pending && pending <= nodes0[state].next.Keys && EdgesQueued(nodes0[state].next, queue0, pending)
    ensures |nodes| == |nodes0| && |queue| > |queue0| && queue[cursor] == state && nodes[state].next == nodes0[state].next
    ensures Bfs(patterns, nodes, t, queue, cursor, pending - {character})
    ensures EdgesQueued(nodes[state].next, queue, pending - {character})
  {
    var nextState := nodes0[state].next[character];
    var fail := FailOfChild(patterns, nodes0, t, queue0, cursor, pending, state, character);
    LinkChild(patterns, nodes0, t, queue0, cursor, pending, state, character, fail);
    EdgesQueuedPush(nodes0[state].next, queue0, pending, character);
    nodes := LinkedChild(nodes0, nextState, fail);
    queue := queue0 + [nextState];
  }

  /** A queue without duplicates is no longer than the number of states. */
  lemma QueueFits(n: nat, queue: seq<nat>)
    requires NoDuplicates(queue) && forall q :: q in queue ==> q < n
    ensures |queue| <= n
  {
    Lists.SetSize(queue);
    Lists.SubsetSize((set q | q in queue), UpTo(n));
  }

  ghost function UpTo(n: nat): (s: set<nat>)
    ensures |s| == n && forall i: nat :: i in s <==> i < n
  {
    if n == 0 then {} else UpTo(n - 1) + {n - 1}
  }

  /** The queue starts with the children of the root. */
  method RootQueue(nodes: seq<Node>, ghost t: Trie) returns (queue: seq<nat>)
    requires IsTrie(nodes, t)
    ensures NoDuplicates(queue)
    ensures forall s :: s in queue <==> exists c :: c in nodes[0].next && s == nodes[0].next[c]
  {
    queue := [];
    var pending := nodes[0].next.Keys;
    while pending != {}
      invariant NoDuplicates(queue)
      invariant forall s :: s in queue <==> exists c :: c in nodes[0].next && c !in pending && s == nodes[0].next[c]
      invariant pending <= nodes[0].next.Keys
    {
      var c :| c in pending;
      assert Edge(nodes, t, 0, c);
      var state := nodes[0].next[c];
      forall d | d in nodes[0].next && nodes[0].next[d] == state ensures d == c {
        assert Edge(nodes, t, 0, d) && t.words[state][0] == c;
      }
      assert state !in queue;
      ConcatNoDuplicates(queue, [state]);
      queue, pending := queue + [state], pending - {c};
    }
  }

  /** Once the queue is exhausted every state has been linked. */
  lemma AllLinked(patterns: seq<Pattern>, nodes: seq<Node>, t: Trie, queue: seq<nat>)
    requires Spells(patterns, t) && Bfs(patterns, nodes, t, queue, |queue|, {})
    ensures IsMatcher(patterns, nodes, t)
  {
    forall s | 0 <= s < |nodes| ensures Linked(patterns, nodes, t, s) {
      if s != 0 { ShallowQueued(nodes, t, queue, |queue|, s); }
    }
  }

  /** The second loop: fail links and inherited outputs, level by level. */
  method LinkFailures(ghost patterns: seq<Pattern>, nodes0: seq<Node>, ghost t: Trie) returns (nodes: seq<Node>)
    requires forall p :: p in patterns ==> p.text != []
    requires IsTrie(nodes0, t) && Spells(patterns, t) && Unlinked(patterns, nodes0, t)
    ensures IsMatcher(patterns, nodes, t)
  {
    nodes := nodes0;
    var queue := RootQueue(nodes, t);
    RootLevel(patterns, nodes, t, queue);
    var cursor := 0;
    while cursor < |queue|
      invariant |nodes| == |nodes0|
      invariant Bfs(patterns, nodes, t, queue, cursor, EdgesAt(nodes, queue, cursor))
      decreases |nodes| - cursor
    {
      QueueFits(|nodes|, queue);
      nodes, queue := LinkChildren(patterns, nodes, t, queue, cursor);
      cursor := cursor + 1;
    }
    AllLinked(patterns, nodes, t, queue);
  }

  /** The nodes are a matcher for these patterns, by some reading of its states. */
  ghost predicate Recognises(patterns: seq<Pattern>, nodes: seq<Node>) {
    exists t :: IsMatcher(patterns, nodes, t)
  }

  /** buildMatcher: the trie of all patterns, then its fail links and inherited outputs. */
  method BuildMatcher(patterns: seq<Pattern>) returns (nodes: seq<Node>, ghost t: Trie)
    requires forall p :: p in patterns ==> p.text != []
    ensures IsMatcher(patterns, nodes, t) && Recognises(patterns, nodes)
  {
    nodes, t := [EmptyNode], Trie([[]], [0]);
    for i := 0 to |patterns|
      invariant IsTrie(nodes, t) && Spells(patterns[..i], t) && Unlinked(patterns[..i], nodes, t)
    {
      PrefixGrows(patterns, i);
      nodes, t := AddPattern(patterns[..i], nodes, t, patterns[i]);
    }
    assert patterns[..|patterns|] == patterns;
    nodes := LinkFailures(patterns, nodes, t);
  }

  // ----- findMatches -----

  lemma {:induction false} MatchesOfPrefix(patterns: seq<Pattern>, text: Utf16, k: nat)
    requires k <= |text|
    ensures AllMatches(patterns, text[..k]) <= AllMatches(patterns, text)
    decreases |text| - k
  {
    if k < |text| {
      assert text[..k + 1][..k] == text[..k];
      MatchesOfPrefix(patterns, text, k + 1);
    } else {
      assert text[..k] == text;
    }
  }

  /** The outputs stored at the state reached on `text` are the patterns ending there. */
  lemma OutputsAt(patterns: seq<Pattern>, nodes: seq<Node>, t: Trie, text: Utf16, state: nat)
    requires IsMatcher(patterns, nodes, t) && state < |nodes|
    requires [] in t.words && t.words[state] == Longest(t, text)
    ensures nodes[state].outputs == Outs(patterns, text)
  {
    assert Linked(patterns, nodes, t, state);
    OutsAtLongest(patterns, t, text);
  }

  /**
   One step of the search: the state goes from the longest suffix of the text read so far to the
   longest suffix of that text with one more unit.
   */
  method Step(ghost patterns: seq<Pattern>, nodes: seq<Node>, ghost t: Trie,
              state0: nat, character: CodeUnit, ghost text: Utf16)
    returns (state: nat, ghost hops: nat)
    requires IsMatcher(patterns, nodes, t) && state0 < |nodes|
    requires [] in t.words && t.words[state0] == Longest(t, text)
    ensures state < |nodes| && t.words[state] == Longest(t, text + [character])
    ensures hops + |t.words[state]| <= |t.words[state0]| + 1
  {
    forall s | 0 <= s < |nodes| ensures FailLink(nodes, t, s) {
      assert Linked(patterns, nodes, t, s);
    }
    state, hops := FollowFails(nodes, t, state0, character);
    ChaseEnds(nodes, t, state, character);
    TriePrefixClosed(nodes, t);
    ChaseFromLongest(t, text, character);
    if character in nodes[state].next { assert Edge(nodes, t, state, character); }
    state := if character in nodes[state].next then nodes[state].next[character] else 0;
  }

  /** What a visitor has seen: it stopped the search at the last visit, and at no earlier one. */
  ghost predicate StoppedBy(visited: seq<Visit>, keepGoing: seq<Visit> -> bool, completed: bool) {
    && (forall k :: 0 < k < |visited| ==> keepGoing(visited[..k]))
    && (visited != [] ==> completed == keepGoing(visited))
    && (visited == [] ==> completed)
  }

  lemma VisitOne(visited: seq<Visit>, keepGoing: seq<Visit> -> bool, v: Visit)
    requires StoppedBy(visited, keepGoing, true)
    ensures StoppedBy(visited + [v], keepGoing, keepGoing(visited + [v]))
  {
    forall k | 0 < k < |visited + [v]| ensures keepGoing((visited + [v])[..k]) {
      assert (visited + [v])[..k] == visited[..k];
      if k == |visited| { assert visited[..k] == visited; }
    }
  }

  lemma AppendAssociates<T>(a: seq<T>, b: seq<T>, x: T)
    ensures a + b + [x] == a + (b + [x])
  {}

  /** The inner loop of the search: the outputs of one state, visited in stored order. */
  method VisitOutputs(outputs: seq<Output>, offset: nat, keepGoing: seq<Visit> -> bool, visited0: seq<Visit>)
    returns (completed: bool, visited: seq<Visit>)
    requires forall k :: 0 <= k < |outputs| ==> outputs[k].length <= offset + 1
    requires StoppedBy(visited0, keepGoing, true)
    ensures visited0 <= visited <= visited0 + Starts(outputs, offset + 1)
    ensures completed ==> visited == visited0 + Starts(outputs, offset + 1)
    ensures StoppedBy(visited, keepGoing, completed)
  {
    visited := visited0;
    ghost var here := Starts(outputs, offset + 1);
    for k := 0 to |outputs|
      invariant visited == visited0 + here[..k]
      invariant StoppedBy(visited, keepGoing, true)
    {
      var v := Visit(outputs[k].index, offset + 1 - outputs[k].length);
      PrefixGrows(here, k);
      VisitOne(visited, keepGoing, v);
      AppendAssociates(visited0, here[..k], v);
      visited := visited + [v];
      if !keepGoing(visited) {
        return false, visited;
      }
    }
    return true, visited;
  }

  /**
   findMatches. The visitor is the function `keepGoing` of everything visited so far, which covers
   any visitor that keeps state. A visitor that always continues sees exactly the list of all
   matches; one that stops sees a prefix of that same list, cut where it first said stop. The fail
   links followed in the whole search number at most the length of the text.
   */
  method FindMatches(ghost patterns: seq<Pattern>, value: Utf16, nodes: seq<Node>, ghost t: Trie,
                     keepGoing: seq<Visit> -> bool)
    returns (completed: bool, visited: seq<Visit>, ghost hops: nat)
    requires IsMatcher(patterns, nodes, t)
    ensures completed ==> visited == AllMatches(patterns, value)
    ensures visited <= AllMatches(patterns, value)
    ensures StoppedBy(visited, keepGoing, completed)
    ensures hops <= |value|
  {
    TriePrefixClosed(nodes, t);
    var state: nat := 0;
    visited, hops, completed := [], 0, true;
    for offset := 0 to |value|
      invariant state < |nodes| && t.words[state] == Longest(t, value[..offset])
      invariant visited == AllMatches(patterns, value[..offset])
      invariant completed && StoppedBy(visited, keepGoing, true)
      invariant hops + |t.words[state]| <= offset
    {
      PrefixGrows(value, offset);
      ghost var text := value[..offset + 1];
      ghost var h;
      state, h := Step(patterns, nodes, t, state, value[offset], value[..offset]);
      hops := hops + h;
      OutputsAt(patterns, nodes, t, text, state);
      MatchesOfPrefix(patterns, value, offset + 1);
      assert text[..offset] == value[..offset];
      OutsBounded(patterns, text);
      completed, visited := VisitOutputs(nodes[state].outputs, offset, keepGoing, visited);
      if !completed { return; }
    }
    assert value[..|value|] == value;
  }
}
