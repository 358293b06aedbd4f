/** Substring and element-set search over sequences: the behaviour of Go's
    `strings.Contains`, `bytes.Contains` and `strings.ContainsAny` as the
    log highlighter uses them. The library implementations are not part of
    this model; only their results are, computed here by plain scans. The
    definitions are generic so that they apply to byte sequences and, in
    proofs about literal lines, to Dafny strings. */
module Search {
  import opened Bytes

  /** `k` occurs in `s` starting at offset `i`. */
  predicate MatchAt<T(==)>(s: seq<T>, k: seq<T>, i: int) {
    0 <= i && i + |k| <= |s| && s[i..i + |k|] == k
  }

  /** `k` is a contiguous, case-sensitive substring of `s`. */
  predicate Contains<T(==)>(s: seq<T>, k: seq<T>) {
    exists i :: 0 <= i <= |s| - |k| && MatchAt(s, k, i)
  }

  /** Some element of `s` is one of the elements of `chars`. */
  predicate ContainsAnyOf<T(==)>(s: seq<T>, chars: seq<T>) {
    exists i :: 0 <= i < |s| && s[i] in chars
  }

  /** Compares `k` against `s` at offset `i`, element by element. */
  method MatchesAt<T(==)>(s: seq<T>, k: seq<T>, i: nat) returns (b: bool)
    requires i + |k| <= |s|
    ensures b <==> MatchAt(s, k, i)
  {
    var j := 0;
    while j < |k|
      invariant 0 <= j <= |k|
      invariant forall m :: 0 <= m < j ==> s[i + m] == k[m]
    {
      if s[i + j] != k[j] {
        assert s[i..i + |k|][j] != k[j];
        return false;
      }
      j := j + 1;
    }
    assert s[i..i + |k|] == k;
    return true;
  }

  /** The offset of the first occurrence of `k` in `s`, or -1 when there is
      none: the result Go's `strings.Index` and `bytes.Index` promise, and
      `Contains(s, k)` is `Index(s, k) >= 0`. */
  method IndexOf<T(==)>(s: seq<T>, k: seq<T>) returns (r: int)
    ensures r == -1 || MatchAt(s, k, r)
    ensures r == -1 <==> !Contains(s, k)
    ensures forall i :: 0 <= i < r ==> !MatchAt(s, k, i)
  {
    if |k| > |s| {
      return -1;
    }
    var i := 0;
    while i <= |s| - |k|
      invariant 0 <= i <= |s| - |k| + 1
      invariant forall j :: 0 <= j < i ==> !MatchAt(s, k, j)
    {
      var m := MatchesAt(s, k, i);
      if m {
        return i;
      }
      i := i + 1;
    }
    return -1;
  }

  /** Go's `strings.ContainsAny(s, chars)` for an ASCII `chars`: scans `s`
      for an element that occurs in `chars`. */
  method ContainsAny<T(==)>(s: seq<T>, chars: seq<T>) returns (found: bool)
    ensures found <==> ContainsAnyOf(s, chars)
  {
    var i := 0;
    while i < |s|
      invariant 0 <= i <= |s|
      invariant forall j :: 0 <= j < i ==> s[j] !in chars
    {
      if s[i] in chars {
        return true;
      }
      i := i + 1;
    }
    return false;
  }

  /** Containment is transitive: a substring of a substring is a substring. */
  lemma {:induction false} ContainsTransitive<T>(s: seq<T>, k: seq<T>, sub: seq<T>)
    requires Contains(s, k) && Contains(k, sub)
    ensures Contains(s, sub)
  {
    var i :| 0 <= i <= |s| - |k| && MatchAt(s, k, i);
    var j :| 0 <= j <= |k| - |sub| && MatchAt(k, sub, j);
    forall m | 0 <= m < |sub|
      ensures s[i + j + m] == sub[m]
    {
      assert s[i..i + |k|][j + m] == k[j + m];
      assert k[j..j + |sub|][m] == sub[m];
    }
    assert s[i + j..i + j + |sub|] == sub;
    assert MatchAt(s, sub, i + j);
  }

  /** Whatever occurs in `s` still occurs once text is added around it. */
  lemma {:induction false} ContainsExtend<T>(pre: seq<T>, s: seq<T>, post: seq<T>, k: seq<T>)
    requires Contains(s, k)
    ensures Contains(pre + s + post, k)
  {
    var i :| 0 <= i <= |s| - |k| && MatchAt(s, k, i);
    var t := pre + s + post;
    assert t[|pre| + i..|pre| + i + |k|] == s[i..i + |k|];
    assert MatchAt(t, k, |pre| + i);
  }

  /** Searching the encodings of two ASCII strings finds exactly what
      searching the strings finds. */
  lemma {:induction false} AsciiContains(s: string, k: string)
    requires IsAscii(s) && IsAscii(k)
    ensures Contains(FromAscii(s), FromAscii(k)) <==> Contains(s, k)
  {
    if Contains(s, k) {
      var i :| 0 <= i <= |s| - |k| && MatchAt(s, k, i);
      FromAsciiSlice(s, i, i + |k|);
      assert MatchAt(FromAscii(s), FromAscii(k), i);
    }
    if Contains(FromAscii(s), FromAscii(k)) {
      var i :| 0 <= i <= |s| - |k| && MatchAt(FromAscii(s), FromAscii(k), i);
      FromAsciiSlice(s, i, i + |k|);
      FromAsciiInjective(s[i..i + |k|], k);
      assert MatchAt(s, k, i);
    }
  }
}
