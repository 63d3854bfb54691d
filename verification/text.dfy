/**
 * The string operations the receptionist applies to department names and
 * hours: ASCII `str.lower()` and `str.title()`, decimal rendering of an hour
 * as `str(int)` does it, and `str.join`.
 */
module Text {

  predicate IsUpper(c: char) { 'A' <= c <= 'Z' }

  predicate IsLower(c: char) { 'a' <= c <= 'z' }

  predicate IsLetter(c: char) { IsUpper(c) || IsLower(c) }

  predicate IsDigit(c: char) { '0' <= c <= '9' }

  function ToLower(c: char): (r: char)
    ensures !IsUpper(r)
    ensures IsLetter(c) <==> IsLetter(r)
    ensures IsUpper(c) ==> r as int == c as int + 32
    ensures !IsUpper(c) ==> r == c
  {
    if IsUpper(c) then (c as int + 32) as char else c
  }

  function ToUpper(c: char): (r: char)
    ensures !IsLower(r)
    ensures IsLetter(c) <==> IsLetter(r)
    ensures ToLower(r) == ToLower(c)
  {
    if IsLower(c) then (c as int - 32) as char else c
  }

  /** `s.lower()` restricted to ASCII: every capital becomes its small letter. */
  function Lower(s: string): (r: string)
    ensures |r| == |s|
    ensures forall i :: 0 <= i < |s| ==> r[i] == ToLower(s[i])
  {
    if s == [] then [] else [ToLower(s[0])] + Lower(s[1..])
  }

  /** `a` and `b` spell the same word up to the case of its letters. */
  predicate EqualIgnoringCase(a: string, b: string)
  {
    |a| == |b| && forall i :: 0 <= i < |a| ==> ToLower(a[i]) == ToLower(b[i])
  }

  /** Lowering twice is lowering once, and the result has no capitals. */
  lemma LowerIsIdempotent(s: string)
    ensures Lower(Lower(s)) == Lower(s)
    ensures forall i :: 0 <= i < |s| ==> !IsUpper(Lower(s)[i])
  {
  }

  /** Two spellings that differ only in case lower to the same string. */
  lemma EqualIgnoringCaseLower(a: string, b: string)
    ensures EqualIgnoringCase(a, b) <==> Lower(a) == Lower(b)
  {
    if Lower(a) == Lower(b) {
      assert |a| == |b|;
      forall i | 0 <= i < |a| ensures ToLower(a[i]) == ToLower(b[i]) {
        assert Lower(a)[i] == Lower(b)[i];
      }
    }
  }

  /**
   * `str.title()` from a given state: a letter is upper-cased when the
   * character before it is not a letter and lower-cased when it is; every
   * other character is kept and resets the state.
   */
  function TitleFrom(s: string, afterLetter: bool): (r: string)
    ensures |r| == |s|
    ensures forall i :: 0 <= i < |s| ==> ToLower(r[i]) == ToLower(s[i])
  {
    if s == [] then []
    else if IsLetter(s[0]) then
      [if afterLetter then ToLower(s[0]) else ToUpper(s[0])] + TitleFrom(s[1..], true)
    else
      [s[0]] + TitleFrom(s[1..], false)
  }

  /** `s.title()` restricted to ASCII. */
  function Title(s: string): (r: string)
    ensures EqualIgnoringCase(r, s)
  {
    TitleFrom(s, false)
  }

  /** Title-casing only changes case, so lower-casing undoes it. */
  lemma LowerOfTitle(s: string)
    ensures Lower(Title(s)) == Lower(s)
  {
    EqualIgnoringCaseLower(Title(s), s);
  }

  predicate AllLower(s: string)
  {
    forall i :: 0 <= i < |s| ==> IsLower(s[i])
  }

  /** Inside a word of small letters, title-casing leaves every letter alone. */
  lemma {:induction false} TitleFromLowerWord(s: string)
    requires AllLower(s)
    ensures TitleFrom(s, true) == s
  {
    if s != [] {
      TitleFromLowerWord(s[1..]);
    }
  }

  /** A word of small letters is its own lower-case form. */
  lemma LowerOfLowerWord(s: string)
    requires AllLower(s)
    ensures Lower(s) == s
  {
  }

  /** The title of a one-word lower-case name capitalises its first letter only. */
  lemma TitleOfLowerWord(s: string)
    requires s != [] && AllLower(s)
    ensures Title(s) == [ToUpper(s[0])] + s[1..]
    ensures IsUpper(Title(s)[0])
  {
    TitleFromLowerWord(s[1..]);
  }

  function DigitChar(d: nat): (c: char)
    requires d < 10
    ensures IsDigit(c)
  {
    ('0' as int + d) as char
  }

  function DigitValue(c: char): (d: nat)
    requires IsDigit(c)
    ensures d < 10
    ensures DigitChar(d) == c
  {
    c as int - '0' as int
  }

  predicate AllDigits(s: string)
  {
    forall i :: 0 <= i < |s| ==> IsDigit(s[i])
  }

  /** `str(n)` for a natural number: decimal digits without leading zeros. */
  function NatToString(n: nat): (r: string)
    ensures |r| >= 1
    ensures AllDigits(r)
    ensures r[0] == '0' ==> n == 0 && r == "0"
    decreases n
  {
    if n < 10 then [DigitChar(n)] else NatToString(n / 10) + [DigitChar(n % 10)]
  }

  /** The value of a string of decimal digits (the empty string reads as 0). */
  function ParseNat(s: string): (n: nat)
    requires AllDigits(s)
  {
    if s == [] then 0 else 10 * ParseNat(s[..|s| - 1]) + DigitValue(s[|s| - 1])
  }

  /** Reading back a rendered number gives the number: the rendering is decimal. */
  lemma {:induction false} ParseNatToString(n: nat)
    ensures ParseNat(NatToString(n)) == n
    decreases n
  {
    var s := NatToString(n);
    if n < 10 {
      assert s[..|s| - 1] == [];
    } else {
      ParseNatToString(n / 10);
      assert s[..|s| - 1] == NatToString(n / 10);
    }
  }

  /** Different numbers render differently. */
  lemma NatToStringInjective(m: nat, n: nat)
    ensures NatToString(m) == NatToString(n) ==> m == n
  {
    ParseNatToString(m);
    ParseNatToString(n);
  }

  /** `sep.join(parts)`. */
  function Join(sep: string, parts: seq<string>): (r: string)
    ensures |parts| >= 1 ==> |r| == SumOfLengths(parts) + (|parts| - 1) * |sep|
  {
    if |parts| == 0 then ""
    else if |parts| == 1 then parts[0]
    else parts[0] + sep + Join(sep, parts[1..])
  }

  /** `a` occurs in `s` at position `k`. */
  predicate OccursAt(a: string, s: string, k: nat)
  {
    k + |a| <= |s| && s[k..k + |a|] == a
  }

  /** `a` occurs somewhere in `s` (Python's `a in s`). */
  predicate Contains(s: string, a: string)
  {
    exists k: nat :: k <= |s| && OccursAt(a, s, k)
  }

  /** A string contains whatever a suffix of it contains. */
  lemma ContainsInSuffix(prefix: string, s: string, a: string)
    requires Contains(s, a)
    ensures Contains(prefix + s, a)
  {
    var k: nat :| k <= |s| && OccursAt(a, s, k);
    assert k + |a| <= |s|;
    assert (prefix + s)[|prefix| + k..|prefix| + k + |a|] == s[k..k + |a|];
    assert OccursAt(a, prefix + s, |prefix| + k);
  }

  /** A string contains each piece it is assembled from. */
  lemma ContainsMiddle(p: string, a: string, q: string)
    ensures Contains(p + a + q, a)
  {
    var s := p + a + q;
    assert s[|p|..|p| + |a|] == a;
    assert OccursAt(a, s, |p|);
  }

  /** A string contains its own suffix. */
  lemma ContainsSuffix(p: string, a: string)
    ensures Contains(p + a, a)
  {
    assert (p + a)[|p|..|p| + |a|] == a;
    assert OccursAt(a, p + a, |p|);
  }

  /** Containment is transitive: a piece of a piece is a piece of the whole. */
  lemma ContainsTransitive(s: string, a: string, b: string)
    requires Contains(s, a) && Contains(a, b)
    ensures Contains(s, b)
  {
    var i: nat :| i <= |s| && OccursAt(a, s, i);
    var j: nat :| j <= |a| && OccursAt(b, a, j);
    forall k | 0 <= k < |b| ensures s[i + j + k] == b[k] {
      assert s[i..i + |a|][j + k] == a[j + k];
      assert a[j..j + |b|][k] == b[k];
    }
    assert s[i + j..i + j + |b|] == b;
    assert OccursAt(b, s, i + j);
  }

  /** Every part of a join occurs in the joined string. */
  lemma {:induction false} JoinContainsEveryPart(sep: string, parts: seq<string>, i: nat)
    requires i < |parts|
    ensures Contains(Join(sep, parts), parts[i])
  {
    var r := Join(sep, parts);
    if i == 0 {
      assert r[0..|parts[0]|] == parts[0];
      assert OccursAt(parts[0], r, 0);
    } else {
      JoinContainsEveryPart(sep, parts[1..], i - 1);
      ContainsInSuffix(parts[0] + sep, Join(sep, parts[1..]), parts[i]);
    }
  }

  /** The total length of a list of strings. */
  function SumOfLengths(parts: seq<string>): nat
  {
    if parts == [] then 0 else |parts[0]| + SumOfLengths(parts[1..])
  }
}
