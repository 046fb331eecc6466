/**
 * The two kinds of regular expression the scanner uses, matched by hand.
 *
 *  - `Literals([a1, ..., an])` is the pattern `a1|...|an` built from plain
 *    words: Python tries the alternatives in order at each position, and the
 *    first one that is present there wins.
 *  - `DrugDose(w)` is the pattern `w\s*(\d+)\s*mg`, with one capture group
 *    around the digits.
 *
 * `SearchFrom` is `re.search` started at a position (the leftmost match), and
 * `FindIter` is `re.finditer`: the leftmost match, then the leftmost match
 * from where that one ended, and so on.
 */
module Regex {
  import opened Wrappers
  import opened Text

  /** An alternative of a literal pattern: a non-empty word, so every match is non-empty. */
  type Word = w: string | |w| > 0 witness "x"

  datatype Pattern =
    | Literals(alternatives: seq<Word>)
    | DrugDose(word: Word)

  /** A match: the span of the whole match, and the span of capture group 1.
      A `Literals` pattern has no group, and its group span is the whole match. */
  datatype Match = Match(start: nat, end: nat, groupStart: nat, groupEnd: nat)

  /** The index of the first alternative, from `i` on, that occurs in `s` at `p`. */
  function FirstAlternative(s: string, p: nat, alts: seq<string>, i: nat): (r: Option<nat>)
    requires i <= |alts|
    ensures r.Some? ==> i <= r.value < |alts| && OccursAt(s, p, alts[r.value])
    ensures r.Some? ==> forall j :: i <= j < r.value ==> !OccursAt(s, p, alts[j])
    ensures r.None? ==> forall j :: i <= j < |alts| ==> !OccursAt(s, p, alts[j])
    decreases |alts| - i
  {
    if i == |alts| then None
    else if OccursAt(s, p, alts[i]) then Some(i)
    else FirstAlternative(s, p, alts, i + 1)
  }

  /** `a1|...|an` tried at position `p`. */
  function LiteralsAt(s: string, alts: seq<Word>, p: nat): (r: Option<Match>)
  {
    match FirstAlternative(s, p, alts, 0)
    case None => None
    case Some(i) => Some(Match(p, p + |alts[i]|, p, p + |alts[i]|))
  }

  /** `w\s*(\d+)\s*mg` tried at position `p`, each repetition taken greedily. */
  function DrugDoseAt(s: string, w: string, p: nat): (r: Option<Match>)
    ensures r.Some? ==> r.value.start == p && IsDrugDoseMatch(s, w, r.value)
  {
    if !OccursAt(s, p, w) then None
    else
      var digitsStart := SkipSpaces(s, p + |w|);
      var digitsEnd := SkipDigits(s, digitsStart);
      var unitStart := SkipSpaces(s, digitsEnd);
      if digitsStart < digitsEnd && OccursAt(s, unitStart, "mg")
      then Some(Match(p, unitStart + 2, digitsStart, digitsEnd))
      else None
  }

  /** The pattern tried at position `p` (an anchored match, as `re.match(s, p)`). */
  function MatchAt(s: string, pat: Pattern, p: nat): (r: Option<Match>)
    ensures r.Some? ==> r.value.start == p < r.value.end <= |s|
    ensures r.Some? ==> r.value.start <= r.value.groupStart < r.value.groupEnd <= r.value.end
    ensures r.Some? && pat.DrugDose? ==> r.value.groupEnd + 2 <= r.value.end
  {
    match pat
    case Literals(alts) => LiteralsAt(s, alts, p)
    case DrugDose(w) => DrugDoseAt(s, w, p)
  }

  /** All characters of `s[i..j]` are whitespace. */
  ghost predicate AllSpace(s: string, i: nat, j: nat)
    requires i <= j <= |s|
  {
    forall k :: i <= k < j ==> IsSpace(s[k])
  }

  /** All characters of `s[i..j]` are digits. */
  ghost predicate AllDigits(s: string, i: nat, j: nat)
    requires i <= j <= |s|
  {
    forall k :: i <= k < j ==> IsDigit(s[k])
  }

  /**
   * What it means for `m` to be a match of `w\s*(\d+)\s*mg`, with no
   * greediness assumed: the word, then whitespace, then at least one digit
   * (the group), then whitespace, then `mg`.
   */
  ghost predicate IsDrugDoseMatch(s: string, w: string, m: Match) {
    m.start + |w| <= m.groupStart < m.groupEnd && m.groupEnd + 2 <= m.end <= |s| &&
    OccursAt(s, m.start, w) &&
    AllSpace(s, m.start + |w|, m.groupStart) &&
    AllDigits(s, m.groupStart, m.groupEnd) &&
    AllSpace(s, m.groupEnd, m.end - 2) &&
    OccursAt(s, m.end - 2, "mg")
  }

  /** A run of class members that is followed by a non-member is the greedy run. */
  lemma SkipSpacesExact(s: string, i: nat, j: nat)
    requires i <= j <= |s|
    requires AllSpace(s, i, j)
    requires j == |s| || !IsSpace(s[j])
    ensures SkipSpaces(s, i) == j
  {
  }

  lemma SkipDigitsExact(s: string, i: nat, j: nat)
    requires i <= j <= |s|
    requires AllDigits(s, i, j)
    requires j == |s| || !IsDigit(s[j])
    ensures SkipDigits(s, i) == j
  {
  }

  /** In a match, the digits are followed by a non-digit, and `mg` by a non-space. */
  lemma DigitsAndSpacesEnd(s: string, w: string, m: Match)
    requires IsDrugDoseMatch(s, w, m)
    ensures !IsDigit(s[m.groupEnd]) && !IsSpace(s[m.end - 2])
  {
    assert s[m.end - 2] == s[m.end - 2..m.end][0] == 'm';
    if m.groupEnd < m.end - 2 {
      assert IsSpace(s[m.groupEnd]);
    }
  }

  /** A match in the relational sense is what the greedy matcher returns. */
  lemma GreedyFindsMatch(s: string, w: string, m: Match)
    requires IsDrugDoseMatch(s, w, m)
    ensures DrugDoseAt(s, w, m.start) == Some(m)
  {
    DigitsAndSpacesEnd(s, w, m);
    SkipSpacesExact(s, m.start + |w|, m.groupStart);
    SkipDigitsExact(s, m.groupStart, m.groupEnd);
    SkipSpacesExact(s, m.groupEnd, m.end - 2);
  }

  /**
   * The greedy matcher finds a match exactly when the pattern matches at `p`,
   * and the match is unique: no backtracking into `\s*` or `\d+` can produce
   * a different one, because `\s`, `\d` and `m` are disjoint classes.
   */
  lemma DrugDoseAtExact(s: string, w: string, p: nat, m: Match)
    ensures DrugDoseAt(s, w, p) == Some(m) <==> (m.start == p && IsDrugDoseMatch(s, w, m))
  {
    if m.start == p && IsDrugDoseMatch(s, w, m) {
      GreedyFindsMatch(s, w, m);
    }
  }

  /** `a1|...|an` matches at `p` exactly when one of the alternatives occurs there, and the
      match is then one of the alternatives, starting at `p`. */
  lemma LiteralsAtSpec(s: string, alts: seq<Word>, p: nat)
    ensures LiteralsAt(s, alts, p).Some? <==> exists i :: 0 <= i < |alts| && OccursAt(s, p, alts[i])
    ensures var r := LiteralsAt(s, alts, p);
            r.Some? ==> r.value.start == r.value.groupStart == p < r.value.end == r.value.groupEnd <= |s| &&
                        s[p..r.value.end] in alts
  {
  }

  /** The first alternative present at `p` is taken, even when a later one is longer. */
  lemma LiteralsAtFirstWins(s: string, alts: seq<Word>, p: nat, i: nat)
    requires i < |alts| && OccursAt(s, p, alts[i])
    requires forall j :: 0 <= j < i ==> !OccursAt(s, p, alts[j])
    ensures LiteralsAt(s, alts, p) == Some(Match(p, p + |alts[i]|, p, p + |alts[i]|))
  {
  }

  /** No alternative can start at a position that does not hold its first character. */
  lemma NoLiteralsBetween(s: string, alts: seq<Word>, from: nat, to: nat)
    requires from <= to <= |s|
    requires forall j :: 0 <= j < |alts| ==> alts[j][0] !in s[from..to]
    ensures forall q :: from <= q < to ==> MatchAt(s, Literals(alts), q).None?
  {
    forall q | from <= q < to ensures MatchAt(s, Literals(alts), q).None? {
      assert s[q] == s[from..to][q - from];
    }
  }

  /** `re.search(pattern, s[from:])`: the leftmost match starting at `from` or later. */
  function SearchFrom(s: string, pat: Pattern, from: nat): (r: Option<Match>)
    requires from <= |s|
    ensures r.Some? ==> from <= r.value.start && MatchAt(s, pat, r.value.start) == r
    ensures r.Some? ==> forall q :: from <= q < r.value.start ==> MatchAt(s, pat, q).None?
    ensures r.None? ==> forall q :: from <= q <= |s| ==> MatchAt(s, pat, q).None?
    decreases |s| - from
  {
    if MatchAt(s, pat, from).Some? then MatchAt(s, pat, from)
    else if from == |s| then None
    else SearchFrom(s, pat, from + 1)
  }

  /** The search returns the match at the first position where the pattern matches. */
  lemma SearchFindsFirst(s: string, pat: Pattern, from: nat, p: nat)
    requires from <= p <= |s| && MatchAt(s, pat, p).Some?
    requires forall q :: from <= q < p ==> MatchAt(s, pat, q).None?
    ensures SearchFrom(s, pat, from) == MatchAt(s, pat, p)
  {
  }

  /** The search finds nothing when the pattern matches at no position from `from` on. */
  lemma SearchFindsNone(s: string, pat: Pattern, from: nat)
    requires from <= |s|
    requires forall q :: from <= q <= |s| ==> MatchAt(s, pat, q).None?
    ensures SearchFrom(s, pat, from).None?
  {
  }

  /** `re.finditer(pattern, s[from:])`: successive leftmost, non-overlapping matches. */
  function FindIter(s: string, pat: Pattern, from: nat): (ms: seq<Match>)
    requires from <= |s|
    ensures forall k :: 0 <= k < |ms| ==>
              from <= ms[k].start < ms[k].end <= |s| && MatchAt(s, pat, ms[k].start) == Some(ms[k])
    decreases |s| - from
  {
    match SearchFrom(s, pat, from)
    case None => []
    case Some(m) => [m] + FindIter(s, pat, m.end)
  }

  /** The matches come in order and do not overlap: each starts where or after the previous ended. */
  lemma {:induction false} FindIterOrdered(s: string, pat: Pattern, from: nat)
    requires from <= |s|
    ensures forall k :: 0 < k < |FindIter(s, pat, from)| ==>
      FindIter(s, pat, from)[k - 1].end <= FindIter(s, pat, from)[k].start
    decreases |s| - from
  {
    var r := SearchFrom(s, pat, from);
    if r.Some? {
      var rest := FindIter(s, pat, r.value.end);
      var ms := FindIter(s, pat, from);
      FindIterOrdered(s, pat, r.value.end);
      assert ms == [r.value] + rest;
      forall k | 0 < k < |ms| ensures ms[k - 1].end <= ms[k].start {
        assert ms[k] == rest[k - 1];
        if k > 1 {
          assert ms[k - 1] == rest[k - 2];
        }
      }
    }
  }

  /** Nothing is missed: every position at which the pattern matches lies inside some reported match. */
  lemma {:induction false} FindIterCovers(s: string, pat: Pattern, from: nat, q: nat)
    requires from <= q <= |s|
    requires MatchAt(s, pat, q).Some?
    ensures exists k :: 0 <= k < |FindIter(s, pat, from)| &&
                        FindIter(s, pat, from)[k].start <= q < FindIter(s, pat, from)[k].end
    decreases |s| - from
  {
    var r := SearchFrom(s, pat, from);
    assert r.Some?;
    var m := r.value;
    var rest := FindIter(s, pat, m.end);
    var ms := FindIter(s, pat, from);
    assert ms == [m] + rest;
    if q < m.end {
      assert ms[0].start <= q < ms[0].end;
    } else {
      FindIterCovers(s, pat, m.end, q);
      var k :| 0 <= k < |rest| && rest[k].start <= q < rest[k].end;
      assert ms[k + 1] == rest[k];
    }
  }

  /** `re.finditer` finds nothing exactly when the pattern matches nowhere. */
  lemma FindIterEmptyIff(s: string, pat: Pattern, from: nat)
    requires from <= |s|
    ensures FindIter(s, pat, from) == [] <==> forall q :: from <= q <= |s| ==> MatchAt(s, pat, q).None?
  {
  }
}
