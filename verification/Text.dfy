/** Text as the runtime stores it: a sequence of UTF-16 code units. */
module Text {
  type CodeUnit = n: nat | n < 0x10000

  type Utf16 = seq<CodeUnit>

  /** The two halves of a surrogate pair. */
  predicate High(u: CodeUnit) { 0xD800 <= u < 0xDC00 }
  predicate Low(u: CodeUnit) { 0xDC00 <= u < 0xE000 }

  /** No two positions hold the same element. */
  ghost predicate NoDuplicates<T>(s: seq<T>) {
    forall i, j :: 0 <= i < j < |s| ==> s[i] != s[j]
  }

  /** `p` occurs in `text` at offset `start`. */
  ghost predicate OccursAt(p: Utf16, text: Utf16, start: int) {
    0 <= start <= start + |p| <= |text| && text[start..start + |p|] == p
  }

  lemma PrefixGrows<T>(s: seq<T>, i: nat)
    requires i < |s|
    ensures s[..i] + [s[i]] == s[..i + 1]
  {}

  lemma ConcatAssociates<T>(a: seq<T>, b: seq<T>, c: seq<T>)
    ensures a + (b + c) == (a + b) + c
  {}

  lemma ConsTail<T>(x: T, tail: seq<T>)
    ensures ([x] + tail)[0] == x && ([x] + tail)[1..] == tail
  {}

  lemma CutThree<T>(a: seq<T>, b: seq<T>, c: seq<T>)
    ensures var s := a + b + c;
            s[..|a|] == a && s[|a|..] == b + c && s[|a| + |b|..] == c && b <= s[|a|..]
  {}

  lemma CutBeforeTail<T>(s: seq<T>, tail: seq<T>, i: nat)
    requires i <= |s|
    ensures (s + tail)[..i] == s[..i] && (s + tail)[i..] == s[i..] + tail
  {}

  lemma CutAgain<T>(s: seq<T>, i: nat, j: nat)
    requires i <= j <= |s|
    ensures s[i..][..j - i] == s[i..j] && s[i..][j - i..] == s[j..]
  {}

  lemma CutPastHead<T>(head: seq<T>, tail: seq<T>, i: nat)
    requires |head| <= i <= |head| + |tail|
    ensures (head + tail)[i..] == tail[i - |head|..] && (head + tail)[..i] == head + tail[..i - |head|]
  {}

  lemma SlicePastHead<T>(head: seq<T>, tail: seq<T>, i: nat, j: nat)
    requires |head| <= i <= j <= |head| + |tail|
    ensures (head + tail)[i..j] == tail[i - |head|..j - |head|]
  {}

  lemma EmptyConcat<T>(s: seq<T>)
    ensures [] + s == s == s + []
  {}

  lemma SliceGrows<T>(s: seq<T>, i: nat, j: nat)
    requires i <= j < |s|
    ensures s[i..j] + [s[j]] == s[i..j + 1]
  {}

  lemma PushShifts<T>(done: seq<T>, x: T, rest: seq<T>)
    ensures done + ([x] + rest) == (done + [x]) + rest
  {}

  lemma CutTwo<T>(a: seq<T>, b: seq<T>)
    ensures a <= a + b && (a + b)[..|a|] == a && (a + b)[|a|..] == b
  {}

  lemma ConcatNoDuplicates<T>(a: seq<T>, b: seq<T>)
    requires NoDuplicates(a) && NoDuplicates(b) && forall x :: x in a ==> x !in b
    ensures NoDuplicates(a + b)
  {
    forall i, j | 0 <= i < j < |a + b| ensures (a + b)[i] != (a + b)[j] {
      if i < |a| <= j { assert a[i] in a && b[j - |a|] in b; }
    }
  }
}
