/**
 * The ASCII string primitives the scanner relies on: `str.lower()`,
 * the regular-expression classes `\s` and `\d`, `str.strip()`, slicing
 * `text[:n]`, and the substring test `needle in haystack`.
 */
module Text {

  /** Python's `\s` (and `str.isspace`) restricted to ASCII: tab, line feed,
      vertical tab, form feed, carriage return, the four separators 0x1C-0x1F
      and space. */
  predicate IsSpace(c: char) {
    var n := c as int;
    n == 32 || 9 <= n <= 13 || 28 <= n <= 31
  }

  /** Python's `\d` restricted to ASCII. */
  predicate IsDigit(c: char) {
    '0' <= c <= '9'
  }

  predicate IsUpper(c: char) {
    'A' <= c <= 'Z'
  }

  function LowerChar(c: char): (r: char)
    ensures IsUpper(c) ==> r as int == c as int + 32
    ensures !IsUpper(c) ==> r == c
    ensures !IsUpper(r)
  {
    if IsUpper(c) then (c as int + 32) as char else c
  }

  /** `str.lower()` on ASCII text: same length, each letter A-Z lowered. */
  function Lower(s: string): (r: string)
    ensures |r| == |s|
    ensures forall i :: 0 <= i < |s| ==> r[i] == LowerChar(s[i])
  {
    seq(|s|, i requires 0 <= i < |s| => LowerChar(s[i]))
  }

  lemma LowerIdempotent(s: string)
    ensures Lower(Lower(s)) == Lower(s)
  {
  }

  /** Lowering leaves spaces, digits and every non-letter where they were. */
  lemma LowerKeepsClasses(s: string, i: nat)
    requires i < |s|
    ensures IsSpace(Lower(s)[i]) <==> IsSpace(s[i])
    ensures IsDigit(Lower(s)[i]) <==> IsDigit(s[i])
  {
  }

  /** `lit` occurs in `s` starting at position `p`. */
  predicate OccursAt(s: string, p: nat, lit: string) {
    p + |lit| <= |s| && s[p..p + |lit|] == lit
  }

  /** `x` occurs in `a + x + b` right after `a`. */
  lemma OccursIn(a: string, x: string, b: string)
    ensures OccursAt(a + x + b, |a|, x)
  {
    assert (a + x + b)[|a|..|a| + |x|] == x;
  }

  /** An occurrence survives appending text after it. */
  lemma OccursExtend(s: string, t: string, k: nat, lit: string)
    requires OccursAt(s, k, lit)
    ensures OccursAt(s + t, k, lit)
  {
    assert (s + t)[k..k + |lit|] == s[k..k + |lit|];
  }

  /** An occurrence moves right by the length of text put before it. */
  lemma OccursPrepend(a: string, s: string, k: nat, lit: string)
    requires OccursAt(s, k, lit)
    ensures OccursAt(a + s, |a| + k, lit)
  {
    assert (a + s)[|a| + k..|a| + k + |lit|] == s[k..k + |lit|];
  }

  /** Lowering the text lowers every occurrence in it. */
  lemma LowerOccurrence(s: string, k: nat, lit: string)
    requires OccursAt(s, k, lit)
    ensures OccursAt(Lower(s), k, Lower(lit))
  {
    assert forall i :: 0 <= i < |lit| ==> lit[i] == s[k + i];
    assert Lower(s)[k..k + |lit|] == Lower(lit);
  }

  /** The end of the run of whitespace that starts at `i` (greedy `\s*`). */
  function SkipSpaces(s: string, i: nat): (j: nat)
    requires i <= |s|
    ensures i <= j <= |s|
    ensures forall k :: i <= k < j ==> IsSpace(s[k])
    ensures j == |s| || !IsSpace(s[j])
    decreases |s| - i
  {
    if i == |s| || !IsSpace(s[i]) then i else SkipSpaces(s, i + 1)
  }

  /** The end of the run of digits that starts at `i` (greedy `\d*`). */
  function SkipDigits(s: string, i: nat): (j: nat)
    requires i <= |s|
    ensures i <= j <= |s|
    ensures forall k :: i <= k < j ==> IsDigit(s[k])
    ensures j == |s| || !IsDigit(s[j])
    decreases |s| - i
  {
    if i == |s| || !IsDigit(s[i]) then i else SkipDigits(s, i + 1)
  }

  /** The start of the run of whitespace that ends at `j`, not going below `lo`. */
  function SkipSpacesBack(s: string, lo: nat, j: nat): (i: nat)
    requires lo <= j <= |s|
    ensures lo <= i <= j
    ensures forall k :: i <= k < j ==> IsSpace(s[k])
    ensures i == lo || !IsSpace(s[i - 1])
    decreases j
  {
    if j == lo || !IsSpace(s[j - 1]) then j else SkipSpacesBack(s, lo, j - 1)
  }

  /** Where `s.strip()` begins and ends inside `s`. */
  function StripStart(s: string): nat
  {
    SkipSpaces(s, 0)
  }

  function StripEnd(s: string): nat
  {
    SkipSpacesBack(s, StripStart(s), |s|)
  }

  /** `str.strip()` with no argument: drop leading and trailing whitespace. */
  function Strip(s: string): (r: string)
    ensures StripStart(s) <= StripEnd(s) <= |s| && r == s[StripStart(s)..StripEnd(s)]
    ensures forall k :: 0 <= k < StripStart(s) ==> IsSpace(s[k])
    ensures forall k :: StripEnd(s) <= k < |s| ==> IsSpace(s[k])
    ensures r == [] || (!IsSpace(r[0]) && !IsSpace(r[|r| - 1]))
  {
    s[StripStart(s)..StripEnd(s)]
  }

  /** A string made only of whitespace strips to the empty string, and only such a string does. */
  lemma StripEmptyIff(s: string)
    ensures Strip(s) == [] <==> forall k :: 0 <= k < |s| ==> IsSpace(s[k])
  {
    if forall k :: 0 <= k < |s| ==> IsSpace(s[k]) {
      assert StripStart(s) == |s|;
    }
  }

  /** The slice `s[:n]`. */
  function Take(s: string, n: nat): (r: string)
    ensures |r| == if |s| <= n then |s| else n
    ensures r == s[..|r|]
  {
    if |s| <= n then s else s[..n]
  }

  /** `lit in s[i:]`, searched from position `i` onwards. */
  function ContainsFrom(s: string, lit: string, i: nat): (b: bool)
    requires i <= |s|
    ensures b <==> exists k :: i <= k <= |s| && OccursAt(s, k, lit)
    decreases |s| - i
  {
    OccursAt(s, i, lit) || (i < |s| && ContainsFrom(s, lit, i + 1))
  }

  /** Python's substring test `lit in s`. */
  function Contains(s: string, lit: string): bool
  {
    ContainsFrom(s, lit, 0)
  }

  /** An occurrence at a known position answers the substring test. */
  lemma OccursContains(s: string, k: nat, lit: string)
    requires OccursAt(s, k, lit)
    ensures Contains(s, lit)
  {
    assert k <= |s|;
  }

  /** `"\n".join(lines)`. */
  function JoinLines(lines: seq<string>): (r: string)
    ensures lines == [] ==> r == []
    ensures |lines| == 1 ==> r == lines[0]
    ensures |lines| == 2 ==> r == lines[0] + "\n" + lines[1]
    decreases |lines|
  {
    if lines == [] then []
    else if |lines| == 1 then lines[0]
    else lines[0] + "\n" + JoinLines(lines[1..])
  }

  /** Every line appears in the joined text. */
  lemma {:induction false} JoinLinesContains(lines: seq<string>, i: nat)
    requires i < |lines|
    ensures exists k: nat :: OccursAt(JoinLines(lines), k, lines[i])
    decreases |lines|
  {
    if |lines| == 1 {
      assert JoinLines(lines)[0..|lines[0]|] == lines[0];
      assert OccursAt(JoinLines(lines), 0, lines[0]);
    } else {
      var rest := JoinLines(lines[1..]);
      assert JoinLines(lines) == lines[0] + "\n" + rest;
      if i == 0 {
        OccursIn([], lines[0], "\n" + rest);
        assert [] + lines[0] + ("\n" + rest) == JoinLines(lines);
      } else {
        JoinLinesContains(lines[1..], i - 1);
        var k: nat :| OccursAt(rest, k, lines[1..][i - 1]);
        OccursPrepend(lines[0] + "\n", rest, k, lines[i]);
      }
    }
  }
}
