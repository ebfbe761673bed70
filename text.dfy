/** Characters, character classes, ASCII lower-casing and substring search:
    the string primitives the classifier and the extractor are built on. */
module Text {

  datatype Option<+T> = None | Some(value: T)

  /** The character classes the two extraction patterns use:
      `[a-zA-Z0-9.\-_]` (Local), `[a-zA-Z]` (Letter) and `\S` (NonSpace). */
  datatype CharClass = Local | Letter | NonSpace

  predicate IsLetter(c: char) {
    'a' <= c <= 'z' || 'A' <= c <= 'Z'
  }

  predicate IsDigit(c: char) {
    '0' <= c <= '9'
  }

  /** Python's whitespace for `str` patterns, restricted to the ASCII range:
      tab, line feed, vertical tab, form feed, carriage return, the four
      information separators 0x1c-0x1f, and space. */
  predicate IsSpace(c: char) {
    c == ' ' || '\t' <= c <= '\r' || '\U{1c}' <= c <= '\U{1f}'
  }

  predicate InClass(cl: CharClass, c: char) {
    match cl
    case Local => IsLetter(c) || IsDigit(c) || c == '.' || c == '-' || c == '_'
    case Letter => IsLetter(c)
    case NonSpace => !IsSpace(c)
  }

  /** Every character of `s` from `lo` up to `hi` is in `cl`. */
  predicate AllIn(cl: CharClass, s: string, lo: nat, hi: nat)
    requires hi <= |s|
  {
    forall k :: lo <= k < hi ==> InClass(cl, s[k])
  }

  /** Index just past the maximal run of `cl` characters starting at `i`. */
  function RunEnd(cl: CharClass, t: string, i: nat): (j: nat)
    requires i <= |t|
    ensures i <= j <= |t|
    decreases |t| - i
  {
    if i == |t| || !InClass(cl, t[i]) then i else RunEnd(cl, t, i + 1)
  }

  /** The run is made of `cl` characters and stops at the first other one. */
  lemma {:induction false} RunEndSpec(cl: CharClass, t: string, i: nat)
    requires i <= |t|
    ensures forall k :: i <= k < RunEnd(cl, t, i) ==> InClass(cl, t[k])
    ensures RunEnd(cl, t, i) == |t| || !InClass(cl, t[RunEnd(cl, t, i)])
    decreases |t| - i
  {
    if i < |t| && InClass(cl, t[i]) {
      RunEndSpec(cl, t, i + 1);
    }
  }

  /** A class run inside the slice `t[i..e]` is the same run of `t`, shifted by `i`. */
  lemma AllInSlice(cl: CharClass, t: string, i: nat, e: nat, lo: nat, hi: nat)
    requires i <= e <= |t| && hi <= e - i
    ensures AllIn(cl, t[i..e], lo, hi) <==> AllIn(cl, t, i + lo, i + hi)
  {
    assert forall k :: lo <= k < hi ==> t[i..e][k] == t[i + k];
  }

  /** ASCII lower-casing of one character; every other character is kept. */
  function LowerChar(c: char): (d: char)
    ensures !('A' <= d <= 'Z')
    ensures 'A' <= c <= 'Z' ==> 'a' <= d <= 'z' && d as int - 'a' as int == c as int - 'A' as int
    ensures !('A' <= c <= 'Z') ==> d == c
  {
    if 'A' <= c <= 'Z' then (c as int + 32) as char else c
  }

  /** Two texts that differ only in the case of ASCII letters. */
  ghost predicate SameUpToCase(a: string, b: string) {
    |a| == |b| && forall k :: 0 <= k < |a| ==> LowerChar(a[k]) == LowerChar(b[k])
  }

  /** `str.lower()` on the ASCII range: the same text up to case, with no
      capital left. */
  function Lower(s: string): (r: string)
    ensures SameUpToCase(s, r)
    ensures forall k :: 0 <= k < |r| ==> !('A' <= r[k] <= 'Z')
  {
    seq(|s|, k requires 0 <= k < |s| => LowerChar(s[k]))
  }

  /** `w` occurs in `s` at position `i`. */
  ghost predicate OccursAt(w: string, s: string, i: int) {
    0 <= i && i + |w| <= |s| && s[i..i + |w|] == w
  }

  /** Python's `w in s` for strings: `w` is a substring of `s`. */
  ghost predicate Occurs(w: string, s: string) {
    exists i :: OccursAt(w, s, i)
  }

  /** Substring search, scanning `s` from the left. */
  function Contains(s: string, w: string): bool
    decreases |s|
  {
    if |w| > |s| then false
    else if s[..|w|] == w then true
    else Contains(s[1..], w)
  }

  /** The search finds `w` exactly when `w` is a substring of `s`. */
  lemma {:induction false} ContainsOccurs(s: string, w: string)
    ensures Contains(s, w) <==> Occurs(w, s)
    decreases |s|
  {
    if |w| > |s| {
      assert forall i :: !OccursAt(w, s, i);
    } else if s[..|w|] == w {
      assert OccursAt(w, s, 0);
    } else {
      ContainsOccurs(s[1..], w);
      if Contains(s[1..], w) {
        var i :| OccursAt(w, s[1..], i);
        assert s[i + 1..i + 1 + |w|] == s[1..][i..i + |w|];
        assert OccursAt(w, s, i + 1);
      }
      if Occurs(w, s) {
        var i :| OccursAt(w, s, i);
        assert i != 0;
        assert s[1..][i - 1..i - 1 + |w|] == s[i..i + |w|];
        assert OccursAt(w, s[1..], i - 1);
      }
    }
  }

  /** Lower-casing is idempotent. */
  lemma LowerIdempotent(s: string)
    ensures Lower(Lower(s)) == Lower(s)
  {
  }

  /** Texts equal up to ASCII case lower-case to the same text. */
  lemma SameUpToCaseLower(a: string, b: string)
    requires SameUpToCase(a, b)
    ensures Lower(a) == Lower(b)
  {
  }

  /** Lower-casing commutes with concatenation. */
  lemma LowerConcat(a: string, b: string)
    ensures Lower(a + b) == Lower(a) + Lower(b)
  {
  }

  /** An occurrence in `b` is an occurrence in `a + b + c`. */
  lemma OccursInContext(w: string, a: string, b: string, c: string)
    requires Occurs(w, b)
    ensures Occurs(w, a + b + c)
  {
    var i :| OccursAt(w, b, i);
    var s := a + b + c;
    assert s[|a| + i..|a| + i + |w|] == b[i..i + |w|];
    assert OccursAt(w, s, |a| + i);
  }

  /** Substrings of substrings are substrings. */
  lemma OccursTransitive(w: string, s: string, t: string, j: nat, i: nat)
    requires OccursAt(w, s, j) && OccursAt(s, t, i)
    ensures OccursAt(w, t, i + j)
  {
    forall k | 0 <= k < |w| ensures t[i + j + k] == w[k] {
      assert w[k] == s[j + k] == t[i + j + k];
    }
  }
}
