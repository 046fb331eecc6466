/**
 * The entity extractor: the text is lower-cased, then ten independent
 * `re.finditer` passes run over it in a fixed order (two drug-and-dose
 * patterns, five frequency alternations, three route alternations), and
 * every match appends tagged span records to one list.
 */
module Extractor {
  import opened Wrappers
  import opened Text
  import opened Regex

  datatype Category = MEDICATION | DOSAGE | FREQUENCY | ROUTE

  /** A tagged span of the lower-cased text; `score` is the confidence in hundredths. */
  datatype Entity = Entity(word: string, group: Category, score: nat, start: nat, end: nat)

  /** The reply of the extractor: a success flag and the entity list. */
  datatype Extraction = Extraction(success: bool, data: seq<Entity>)

  const MEDICATION_SCORE: nat := 95
  const DOSAGE_SCORE: nat := 90
  const FREQUENCY_SCORE: nat := 85
  const ROUTE_SCORE: nat := 80

  /**
   * One scanning pass. A drug pass searches `word\s*(\d+)\s*mg` and emits a
   * MEDICATION and a DOSAGE entity per match; a label pass searches a list of
   * alternatives and emits one entity carrying the canonical label per match.
   */
  datatype Pass =
    | DrugPass(word: Word, name: string)
    | LabelPass(alternatives: seq<Word>, group: Category, canonical: string, score: nat)

  function PatternOf(pass: Pass): Pattern
  {
    match pass
    case DrugPass(w, _) => DrugDose(w)
    case LabelPass(alts, _, _, _) => Literals(alts)
  }

  const AMOXICILLIN := DrugPass("amoxicillin", "Amoxicillin")
  const IBUPROFEN := DrugPass("ibuprofen", "Ibuprofen")

  const TID := LabelPass(["tid", "three times daily"], FREQUENCY, "TID", FREQUENCY_SCORE)
  const BID := LabelPass(["bid", "twice daily"], FREQUENCY, "BID", FREQUENCY_SCORE)
  const QID := LabelPass(["qid", "four times daily"], FREQUENCY, "QID", FREQUENCY_SCORE)
  const DAILY := LabelPass(["daily", "once daily"], FREQUENCY, "Daily", FREQUENCY_SCORE)
  const PRN := LabelPass(["as needed", "prn"], FREQUENCY, "PRN", FREQUENCY_SCORE)

  const ORAL := LabelPass(["oral", "by mouth", "po"], ROUTE, "Oral", ROUTE_SCORE)
  const TOPICAL := LabelPass(["topical", "apply"], ROUTE, "Topical", ROUTE_SCORE)
  const INJECTION := LabelPass(["injection", "inject", "iv"], ROUTE, "Injection", ROUTE_SCORE)

  const FREQUENCY_PASSES := [TID, BID, QID, DAILY, PRN]
  const ROUTE_PASSES := [ORAL, TOPICAL, INJECTION]

  /** `m` is a match of the pass's pattern in `s`. */
  predicate IsMatchOf(s: string, pass: Pass, m: Match) {
    MatchAt(s, PatternOf(pass), m.start) == Some(m)
  }

  /** The shape every match of the pass has: a non-empty span inside `s` holding the group;
      for a drug pass the group starts after the whole word, and the match ends in "mg"
      at least two characters past the group. */
  predicate Fits(s: string, pass: Pass, m: Match) {
    m.start <= m.groupStart < m.groupEnd <= m.end && m.start < m.end <= |s| &&
    (pass.DrugPass? ==>
       m.start + |pass.word| <= m.groupStart && m.groupEnd + 2 <= m.end && OccursAt(s, m.end - 2, "mg"))
  }

  lemma MatchFits(s: string, pass: Pass, m: Match)
    requires IsMatchOf(s, pass, m)
    ensures Fits(s, pass, m)
  {
    if pass.DrugPass? {
      DrugDoseAtExact(s, pass.word, m.start, m);
    }
  }

  /** The MEDICATION record of a drug match: the whole match, under the drug's display name. */
  function MedicationOf(pass: Pass, m: Match): Entity
    requires pass.DrugPass?
  {
    Entity(pass.name, MEDICATION, MEDICATION_SCORE, m.start, m.end)
  }

  /** The DOSAGE record of a drug match: the digits followed by "mg", from the
      start of the digits to two characters past their end. */
  function DosageOf(s: string, m: Match): Entity
    requires m.groupStart <= m.groupEnd <= |s|
  {
    Entity(s[m.groupStart..m.groupEnd] + "mg", DOSAGE, DOSAGE_SCORE, m.groupStart, m.groupEnd + 2)
  }

  /** The DOSAGE record's span is as long as its word, and its span holds exactly its word
      precisely when "mg" follows the digits with no space in between. */
  lemma DosageSpan(s: string, m: Match)
    requires m.groupStart <= m.groupEnd <= |s|
    ensures var r := DosageOf(s, m);
            r.group == DOSAGE && r.start == m.groupStart && |r.word| == r.end - r.start &&
            (r.end <= |s| ==> (s[r.start..r.end] == r.word <==> OccursAt(s, m.groupEnd, "mg")))
  {
    var r := DosageOf(s, m);
    if r.end <= |s| {
      assert s[r.start..r.end] == s[m.groupStart..m.groupEnd] + s[m.groupEnd..r.end];
    }
  }

  /** What one match of a pass appends to the entity list. */
  function Emit(s: string, pass: Pass, m: Match): seq<Entity>
    requires Fits(s, pass, m)
  {
    match pass
    case DrugPass(_, _) => [MedicationOf(pass, m), DosageOf(s, m)]
    case LabelPass(_, group, canonical, score) => [Entity(canonical, group, score, m.start, m.end)]
  }

  /** One match yields two records for a drug pass (MEDICATION, then DOSAGE starting later)
      and one for a label pass; the first spans the whole match and all lie inside it. */
  lemma EmitLayout(s: string, pass: Pass, m: Match)
    requires Fits(s, pass, m)
    ensures var r := Emit(s, pass, m);
            |r| == (if pass.DrugPass? then 2 else 1) &&
            (forall k :: 0 <= k < |r| ==> m.start <= r[k].start < r[k].end <= m.end) &&
            r[0].start == m.start && r[0].end == m.end &&
            (pass.DrugPass? ==> r[0].group == MEDICATION && r[1].group == DOSAGE && r[0].start < r[1].start) &&
            (pass.LabelPass? ==> r[0].group == pass.group)
  {
  }

  /** What a sequence of matches of one pass appends, in match order. */
  function EmitAll(s: string, pass: Pass, ms: seq<Match>): seq<Entity>
    requires forall k :: 0 <= k < |ms| ==> Fits(s, pass, ms[k])
  {
    if ms == [] then [] else Emit(s, pass, ms[0]) + EmitAll(s, pass, ms[1..])
  }

  /** The matches of one pass over `s`, from position `from` on. */
  function MatchesFrom(s: string, pass: Pass, from: nat): (ms: seq<Match>)
    requires from <= |s|
    ensures ms == FindIter(s, PatternOf(pass), from)
    ensures forall k :: 0 <= k < |ms| ==> Fits(s, pass, ms[k])
  {
    var ms := FindIter(s, PatternOf(pass), from);
    forall k | 0 <= k < |ms| ensures Fits(s, pass, ms[k]) {
      MatchFits(s, pass, ms[k]);
    }
    ms
  }

  /** The matches of one pass over the whole of `s`. */
  function PassMatches(s: string, pass: Pass): seq<Match>
  {
    MatchesFrom(s, pass, 0)
  }

  /** The entities one pass contributes. */
  function PassEntities(s: string, pass: Pass): seq<Entity>
  {
    EmitAll(s, pass, PassMatches(s, pass))
  }

  /** The entities of several passes, run one after the other. */
  function PassesEntities(s: string, ps: seq<Pass>): seq<Entity>
    decreases |ps|
  {
    if ps == [] then []
    else PassesEntities(s, ps[..|ps| - 1]) + PassEntities(s, ps[|ps| - 1])
  }

  /**
   * The specification of the extractor: over the lower-cased text, the
   * Amoxicillin pass, the Ibuprofen pass, the frequency table and the route
   * table, in that order.
   */
  function ExtractSpec(text: string): (r: seq<Entity>)
    ensures SpansWithin(r, |text|)
  {
    var s := Lower(text);
    var a, i := PassEntities(s, AMOXICILLIN), PassEntities(s, IBUPROFEN);
    var f, o := PassesEntities(s, FREQUENCY_PASSES), PassesEntities(s, ROUTE_PASSES);
    PassWithin(s, AMOXICILLIN);
    PassWithin(s, IBUPROFEN);
    PassesWithin(s, FREQUENCY_PASSES);
    PassesWithin(s, ROUTE_PASSES);
    WithinConcat(a, i, |s|);
    WithinConcat(a + i, f, |s|);
    WithinConcat(a + i + f, o, |s|);
    a + i + f + o
  }

  /** The entities a pass contributes from position `pos` on. */
  function PassEntitiesFrom(s: string, pass: Pass, pos: nat): seq<Entity>
    requires pos <= |s|
  {
    EmitAll(s, pass, MatchesFrom(s, pass, pos))
  }

  lemma PassEntitiesFromStep(s: string, pass: Pass, pos: nat)
    requires pos <= |s|
    requires SearchFrom(s, PatternOf(pass), pos).Some?
    ensures var m := SearchFrom(s, PatternOf(pass), pos).value;
            pos <= m.start && Fits(s, pass, m) &&
            PassEntitiesFrom(s, pass, pos) == Emit(s, pass, m) + PassEntitiesFrom(s, pass, m.end)
  {
    var m := SearchFrom(s, PatternOf(pass), pos).value;
    var ms := MatchesFrom(s, pass, pos);
    assert ms == [m] + MatchesFrom(s, pass, m.end);
    assert ms[1..] == MatchesFrom(s, pass, m.end);
  }

  /** One turn of the loop keeps `out` plus what is still to come equal to the final result. */
  lemma AppendStep(s: string, pass: Pass, pos: nat, out: seq<Entity>, total: seq<Entity>)
    requires pos <= |s| && SearchFrom(s, PatternOf(pass), pos).Some?
    requires out + PassEntitiesFrom(s, pass, pos) == total
    ensures var m := SearchFrom(s, PatternOf(pass), pos).value;
            pos < m.end <= |s| && Fits(s, pass, m) &&
            (out + Emit(s, pass, m)) + PassEntitiesFrom(s, pass, m.end) == total
  {
    PassEntitiesFromStep(s, pass, pos);
  }

  /** With no match left, nothing is still to come. */
  lemma AppendDone(s: string, pass: Pass, pos: nat)
    requires pos <= |s| && SearchFrom(s, PatternOf(pass), pos).None?
    ensures PassEntitiesFrom(s, pass, pos) == []
  {
  }

  /** One `for match in re.finditer(...)` loop: append the entities of each match in turn. */
  method AppendPass(s: string, pass: Pass, entities: seq<Entity>) returns (out: seq<Entity>)
    ensures out == entities + PassEntities(s, pass)
  {
    out := entities;
    var pos := 0;
    var m := SearchFrom(s, PatternOf(pass), pos);
    while m.Some?
      invariant pos <= |s|
      invariant m == SearchFrom(s, PatternOf(pass), pos)
      invariant out + PassEntitiesFrom(s, pass, pos) == entities + PassEntities(s, pass)
      decreases |s| - pos
    {
      var next := m.value;
      AppendStep(s, pass, pos, out, entities + PassEntities(s, pass));
      out := out + Emit(s, pass, next);
      pos := next.end;
      m := SearchFrom(s, PatternOf(pass), pos);
    }
    AppendDone(s, pass, pos);
  }

  lemma PassesEntitiesSnoc(s: string, ps: seq<Pass>, i: nat)
    requires i < |ps|
    ensures PassesEntities(s, ps[..i + 1]) == PassesEntities(s, ps[..i]) + PassEntities(s, ps[i])
  {
    assert ps[..i + 1][..i] == ps[..i];
  }

  /** `for pattern, entity_type, label in table:` one pass after the other, in table order. */
  method AppendPasses(s: string, ps: seq<Pass>, entities: seq<Entity>) returns (out: seq<Entity>)
    ensures out == entities + PassesEntities(s, ps)
  {
    out := entities;
    for i := 0 to |ps|
      invariant out == entities + PassesEntities(s, ps[..i])
    {
      PassesEntitiesSnoc(s, ps, i);
      out := AppendPass(s, ps[i], out);
    }
    assert ps[..|ps|] == ps;
  }

  /** `extract_medical_entities`: the passes in their table order, always successful. */
  method ExtractMedicalEntities(text: string) returns (r: Extraction)
    ensures r.success
    ensures r.data == ExtractSpec(text)
  {
    var lowered := Lower(text);
    var entities: seq<Entity> := [];
    entities := AppendPass(lowered, AMOXICILLIN, entities);
    assert entities == PassEntities(lowered, AMOXICILLIN);
    entities := AppendPass(lowered, IBUPROFEN, entities);
    entities := AppendPasses(lowered, FREQUENCY_PASSES, entities);
    entities := AppendPasses(lowered, ROUTE_PASSES, entities);
    r := Extraction(true, entities);
  }

  // ---------------------------------------------------------------------
  // What one pass emits

  /** A drug pass emits two records per match. */
  lemma {:induction false} DrugEmitLength(s: string, pass: Pass, ms: seq<Match>)
    requires pass.DrugPass?
    requires forall k :: 0 <= k < |ms| ==> Fits(s, pass, ms[k])
    ensures |EmitAll(s, pass, ms)| == 2 * |ms|
  {
    if ms != [] {
      DrugEmitLength(s, pass, ms[1..]);
    }
  }

  /** Match `k` of a drug pass emits a MEDICATION record spanning the whole match,
      then a DOSAGE record for its digits. */
  lemma {:induction false} DrugEmitAt(s: string, pass: Pass, ms: seq<Match>, k: nat)
    requires pass.DrugPass?
    requires forall j :: 0 <= j < |ms| ==> Fits(s, pass, ms[j])
    requires k < |ms|
    ensures |EmitAll(s, pass, ms)| == 2 * |ms|
    ensures EmitAll(s, pass, ms)[2 * k] == MedicationOf(pass, ms[k])
    ensures EmitAll(s, pass, ms)[2 * k + 1] == DosageOf(s, ms[k])
  {
    DrugEmitLength(s, pass, ms);
    if k > 0 {
      DrugEmitAt(s, pass, ms[1..], k - 1);
      assert ms[1..][k - 1] == ms[k];
    }
  }

  /** A label pass emits one record per match, carrying the canonical label and the match's span. */
  lemma {:induction false} LabelEmitLayout(s: string, pass: Pass, ms: seq<Match>)
    requires pass.LabelPass?
    requires forall k :: 0 <= k < |ms| ==> Fits(s, pass, ms[k])
    ensures |EmitAll(s, pass, ms)| == |ms|
    ensures forall k :: 0 <= k < |ms| ==>
              EmitAll(s, pass, ms)[k] == Entity(pass.canonical, pass.group, pass.score, ms[k].start, ms[k].end)
  {
    if ms != [] {
      LabelEmitLayout(s, pass, ms[1..]);
      assert forall k :: 1 <= k < |ms| ==> ms[1..][k - 1] == ms[k];
    }
  }

  /** The DOSAGE record's word is the matched digits followed by "mg", and its span starts at the
      digits and stops two characters past them, never beyond the end of the match. */
  lemma DosageShape(s: string, pass: Pass, m: Match)
    requires pass.DrugPass? && IsMatchOf(s, pass, m)
    ensures var d := DosageOf(s, m);
            d.word[..|d.word| - 2] == s[d.start..m.groupEnd] && d.word[|d.word| - 2..] == "mg" &&
            (forall k :: d.start <= k < m.groupEnd ==> IsDigit(s[k])) &&
            m.start < d.start < d.end <= m.end
  {
    var w := pass.word;
    DrugDoseAtExact(s, w, m.start, m);
  }

  // ---------------------------------------------------------------------
  // Properties of the whole extraction

  /** Every record's span lies inside the text: `0 <= start < end <= |text|`. */
  predicate SpansWithin(es: seq<Entity>, n: nat) {
    forall k :: 0 <= k < |es| ==> es[k].start < es[k].end <= n
  }

  lemma {:induction false} EmitAllWithin(s: string, pass: Pass, ms: seq<Match>)
    requires forall k :: 0 <= k < |ms| ==> Fits(s, pass, ms[k])
    ensures SpansWithin(EmitAll(s, pass, ms), |s|)
  {
    if ms != [] {
      EmitAllWithin(s, pass, ms[1..]);
    }
  }

  lemma WithinConcat(a: seq<Entity>, b: seq<Entity>, n: nat)
    requires SpansWithin(a, n) && SpansWithin(b, n)
    ensures SpansWithin(a + b, n)
  {
  }

  lemma PassWithin(s: string, pass: Pass)
    ensures SpansWithin(PassEntities(s, pass), |s|)
  {
    EmitAllWithin(s, pass, PassMatches(s, pass));
  }

  lemma {:induction false} PassesWithin(s: string, ps: seq<Pass>)
    ensures SpansWithin(PassesEntities(s, ps), |s|)
    decreases |ps|
  {
    if ps != [] {
      PassesWithin(s, ps[..|ps| - 1]);
      PassWithin(s, ps[|ps| - 1]);
      WithinConcat(PassesEntities(s, ps[..|ps| - 1]), PassEntities(s, ps[|ps| - 1]), |s|);
    }
  }

  /** Matching is case-insensitive: the text and its lower-cased form give the same records. */
  lemma ExtractIgnoresCase(text: string)
    ensures ExtractSpec(Lower(text)) == ExtractSpec(text)
  {
    LowerIdempotent(text);
  }

  /** The records of a label pass never overlap and start strictly later each time. */
  lemma LabelSpansOrdered(s: string, pass: Pass)
    requires pass.LabelPass?
    ensures forall k :: 0 < k < |PassEntities(s, pass)| ==>
              PassEntities(s, pass)[k - 1].end <= PassEntities(s, pass)[k].start
    ensures forall k :: 0 < k < |PassEntities(s, pass)| ==>
              PassEntities(s, pass)[k - 1].start < PassEntities(s, pass)[k].start
  {
    var ms := PassMatches(s, pass);
    FindIterOrdered(s, PatternOf(pass), 0);
    LabelEmitLayout(s, pass, ms);
    PassWithin(s, pass);
  }

  /** In a drug pass's output, the MEDICATION record of each match ends no later than the next
      one starts, given matches that do not overlap. */
  lemma DrugEmitOrdered(s: string, pass: Pass, ms: seq<Match>, k: nat)
    requires pass.DrugPass?
    requires forall j :: 0 <= j < |ms| ==> Fits(s, pass, ms[j])
    requires 0 < k < |ms| && ms[k - 1].end <= ms[k].start
    ensures |EmitAll(s, pass, ms)| == 2 * |ms|
    ensures EmitAll(s, pass, ms)[2 * k - 2].end <= EmitAll(s, pass, ms)[2 * k].start
  {
    DrugEmitAt(s, pass, ms, k - 1);
    DrugEmitAt(s, pass, ms, k);
  }

  /** The MEDICATION records of a drug pass (every other record) never overlap and start
      strictly later each time. */
  lemma DrugSpansOrdered(s: string, pass: Pass, k: nat)
    requires pass.DrugPass?
    requires 0 < k && 2 * k < |PassEntities(s, pass)|
    ensures PassEntities(s, pass)[2 * k - 2].end <= PassEntities(s, pass)[2 * k].start
    ensures PassEntities(s, pass)[2 * k - 2].start < PassEntities(s, pass)[2 * k].start
  {
    var ms := PassMatches(s, pass);
    DrugEmitLength(s, pass, ms);
    assert ms[k - 1].end <= ms[k].start by {
      FindIterOrdered(s, PatternOf(pass), 0);
    }
    DrugEmitOrdered(s, pass, ms, k);
    PassWithin(s, pass);
  }

  /** Within match `j` the DOSAGE record starts after the MEDICATION record; and the
      MEDICATION record of match `j` starts after the DOSAGE record of match `j - 1`,
      given matches that do not overlap. */
  lemma DrugEmitStarts(s: string, pass: Pass, ms: seq<Match>, j: nat)
    requires pass.DrugPass?
    requires forall i :: 0 <= i < |ms| ==> Fits(s, pass, ms[i])
    requires j < |ms| && (0 < j ==> ms[j - 1].end <= ms[j].start)
    ensures |EmitAll(s, pass, ms)| == 2 * |ms|
    ensures EmitAll(s, pass, ms)[2 * j].start < EmitAll(s, pass, ms)[2 * j + 1].start
    ensures 0 < j ==> EmitAll(s, pass, ms)[2 * j - 1].start < EmitAll(s, pass, ms)[2 * j].start
  {
    DrugEmitAt(s, pass, ms, j);
    if 0 < j {
      DrugEmitAt(s, pass, ms, j - 1);
    }
  }

  /** Every record of a drug pass starts strictly after the one before it: the DOSAGE record
      starts at the digits, after its MEDICATION record's start, and ends within its match,
      which ends no later than the next match starts. */
  lemma DrugPassStartsIncrease(s: string, pass: Pass, k: nat)
    requires pass.DrugPass?
    requires 0 < k < |PassEntities(s, pass)|
    ensures PassEntities(s, pass)[k - 1].start < PassEntities(s, pass)[k].start
  {
    var ms := PassMatches(s, pass);
    DrugEmitLength(s, pass, ms);
    var j := k / 2;
    assert j < |ms|;
    if 0 < j {
      assert ms[j - 1].end <= ms[j].start by {
        FindIterOrdered(s, PatternOf(pass), 0);
      }
    }
    DrugEmitStarts(s, pass, ms, j);
    assert k == 2 * j + 1 || (0 < j && k == 2 * j);
  }

  /** Category order: MEDICATION and DOSAGE first, then FREQUENCY, then ROUTE. */
  function Rank(c: Category): nat
  {
    match c
    case MEDICATION => 0
    case DOSAGE => 0
    case FREQUENCY => 1
    case ROUTE => 2
  }

  predicate AllRanked(es: seq<Entity>, r: nat) {
    forall k :: 0 <= k < |es| ==> Rank(es[k].group) == r
  }

  lemma {:induction false} EmitAllRanked(s: string, pass: Pass, ms: seq<Match>)
    requires forall k :: 0 <= k < |ms| ==> Fits(s, pass, ms[k])
    ensures AllRanked(EmitAll(s, pass, ms), if pass.DrugPass? then 0 else Rank(pass.group))
  {
    if ms != [] {
      EmitAllRanked(s, pass, ms[1..]);
    }
  }

  lemma {:induction false} PassesRanked(s: string, ps: seq<Pass>, r: nat)
    requires forall i :: 0 <= i < |ps| ==> ps[i].LabelPass? && Rank(ps[i].group) == r
    ensures AllRanked(PassesEntities(s, ps), r)
    decreases |ps|
  {
    if ps != [] {
      PassesRanked(s, ps[..|ps| - 1], r);
      EmitAllRanked(s, ps[|ps| - 1], PassMatches(s, ps[|ps| - 1]));
    }
  }

  /** The frequency table holds label passes of group FREQUENCY, the route table of group ROUTE. */
  lemma TablesShape()
    ensures forall i :: 0 <= i < |FREQUENCY_PASSES| ==>
              FREQUENCY_PASSES[i].LabelPass? && FREQUENCY_PASSES[i].group == FREQUENCY
    ensures forall i :: 0 <= i < |ROUTE_PASSES| ==>
              ROUTE_PASSES[i].LabelPass? && ROUTE_PASSES[i].group == ROUTE
  {
  }

  /** The drug records, then the frequency records, then the route records. */
  lemma SectionsRanked(text: string)
    ensures AllRanked(PassEntities(Lower(text), AMOXICILLIN) + PassEntities(Lower(text), IBUPROFEN), 0)
    ensures AllRanked(PassesEntities(Lower(text), FREQUENCY_PASSES), 1)
    ensures AllRanked(PassesEntities(Lower(text), ROUTE_PASSES), 2)
  {
    var s := Lower(text);
    TablesShape();
    EmitAllRanked(s, AMOXICILLIN, PassMatches(s, AMOXICILLIN));
    EmitAllRanked(s, IBUPROFEN, PassMatches(s, IBUPROFEN));
    PassesRanked(s, FREQUENCY_PASSES, 1);
    PassesRanked(s, ROUTE_PASSES, 2);
  }

  lemma ExtractOrderedByCategory(text: string)
    ensures forall i, j :: 0 <= i < j < |ExtractSpec(text)| ==>
              Rank(ExtractSpec(text)[i].group) <= Rank(ExtractSpec(text)[j].group)
  {
    var s := Lower(text);
    var d := PassEntities(s, AMOXICILLIN) + PassEntities(s, IBUPROFEN);
    var f, r := PassesEntities(s, FREQUENCY_PASSES), PassesEntities(s, ROUTE_PASSES);
    SectionsRanked(text);
    var all := ExtractSpec(text);
    assert all == d + f + r;
    forall i, j | 0 <= i < j < |all| ensures Rank(all[i].group) <= Rank(all[j].group) {
      var ri := if i < |d| then 0 else if i < |d| + |f| then 1 else 2;
      var rj := if j < |d| then 0 else if j < |d| + |f| then 1 else 2;
      assert Rank(all[i].group) == ri;
      assert Rank(all[j].group) == rj;
    }
  }

  // ---------------------------------------------------------------------
  // When nothing is found

  /** The pass's pattern matches at no position of `s`. */
  ghost predicate NoMatch(s: string, pass: Pass) {
    forall q :: 0 <= q <= |s| ==> MatchAt(s, PatternOf(pass), q).None?
  }

  lemma PassEmptyIff(s: string, pass: Pass)
    ensures PassEntities(s, pass) == [] <==> NoMatch(s, pass)
  {
    var ms := PassMatches(s, pass);
    FindIterEmptyIff(s, PatternOf(pass), 0);
    if ms != [] {
      assert PassEntities(s, pass) == Emit(s, pass, ms[0]) + EmitAll(s, pass, ms[1..]);
    }
  }

  lemma {:induction false} PassesEmptyIff(s: string, ps: seq<Pass>)
    ensures PassesEntities(s, ps) == [] <==> forall i :: 0 <= i < |ps| ==> NoMatch(s, ps[i])
    decreases |ps|
  {
    if ps != [] {
      var init := ps[..|ps| - 1];
      PassesEmptyIff(s, init);
      PassEmptyIff(s, ps[|ps| - 1]);
      assert forall i :: 0 <= i < |init| ==> init[i] == ps[i];
    }
  }

  /** The extractor returns no record exactly when no pattern of any pass matches anywhere. */
  lemma ExtractEmptyIff(text: string)
    ensures ExtractSpec(text) == [] <==>
              NoMatch(Lower(text), AMOXICILLIN) && NoMatch(Lower(text), IBUPROFEN) &&
              (forall i :: 0 <= i < |FREQUENCY_PASSES| ==> NoMatch(Lower(text), FREQUENCY_PASSES[i])) &&
              (forall i :: 0 <= i < |ROUTE_PASSES| ==> NoMatch(Lower(text), ROUTE_PASSES[i]))
  {
    var s := Lower(text);
    PassEmptyIff(s, AMOXICILLIN);
    PassEmptyIff(s, IBUPROFEN);
    PassesEmptyIff(s, FREQUENCY_PASSES);
    PassesEmptyIff(s, ROUTE_PASSES);
  }

  /** Every match of a drug pass contains the unit "mg". */
  lemma DrugMatchHasUnit(s: string, pass: Pass, m: Match)
    requires pass.DrugPass? && IsMatchOf(s, pass, m)
    ensures OccursAt(s, m.end - 2, "mg") && Contains(s, "mg")
  {
    DrugDoseAtExact(s, pass.word, m.start, m);
  }

  /** A drug pass finds nothing in a text without "mg". */
  lemma NoUnitNoDrugPass(s: string, pass: Pass)
    requires pass.DrugPass? && !Contains(s, "mg")
    ensures PassEntities(s, pass) == []
  {
    var ms := PassMatches(s, pass);
    if ms != [] {
      DrugMatchHasUnit(s, pass, ms[0]);
      assert false;
    }
  }

  /** Records from the frequency and route sections are neither MEDICATION nor DOSAGE. */
  lemma LabelSectionsNoDrug(f: seq<Entity>, r: seq<Entity>)
    requires AllRanked(f, 1) && AllRanked(r, 2)
    ensures forall k :: 0 <= k < |f + r| ==> (f + r)[k].group != MEDICATION && (f + r)[k].group != DOSAGE
  {
    forall k | 0 <= k < |f + r| ensures Rank((f + r)[k].group) >= 1 {
      if k < |f| {
        assert (f + r)[k] == f[k];
      } else {
        assert (f + r)[k] == r[k - |f|];
      }
    }
  }

  /** Without the unit "mg" anywhere in the text there is no MEDICATION and no DOSAGE record. */
  lemma NoUnitNoDrug(text: string)
    requires !Contains(Lower(text), "mg")
    ensures forall k :: 0 <= k < |ExtractSpec(text)| ==>
              ExtractSpec(text)[k].group != MEDICATION && ExtractSpec(text)[k].group != DOSAGE
  {
    var s := Lower(text);
    var f, r := PassesEntities(s, FREQUENCY_PASSES), PassesEntities(s, ROUTE_PASSES);
    SectionsRanked(text);
    LabelSectionsNoDrug(f, r);
    NoUnitNoDrugPass(s, AMOXICILLIN);
    NoUnitNoDrugPass(s, IBUPROFEN);
  }

  // ---------------------------------------------------------------------
  // Ordered alternation and independent passes, on concrete text

  /** A pass's records all appear in the records of any table holding it. */
  lemma {:induction false} PassesContain(s: string, ps: seq<Pass>, i: nat)
    requires i < |ps|
    ensures forall e :: e in PassEntities(s, ps[i]) ==> e in PassesEntities(s, ps)
    decreases |ps|
  {
    var init := ps[..|ps| - 1];
    if i < |ps| - 1 {
      PassesContain(s, init, i);
      assert init[i] == ps[i];
    }
  }

  /** Whatever a frequency or route pass finds in the lower-cased text is returned by the extractor. */
  lemma TablePassExtracted(text: string, pass: Pass)
    requires pass in FREQUENCY_PASSES || pass in ROUTE_PASSES
    ensures forall e :: e in PassEntities(Lower(text), pass) ==> e in ExtractSpec(text)
  {
    var s := Lower(text);
    if pass in FREQUENCY_PASSES {
      var i :| 0 <= i < |FREQUENCY_PASSES| && FREQUENCY_PASSES[i] == pass;
      PassesContain(s, FREQUENCY_PASSES, i);
    } else {
      var i :| 0 <= i < |ROUTE_PASSES| && ROUTE_PASSES[i] == pass;
      PassesContain(s, ROUTE_PASSES, i);
    }
  }

  /** "injection" gives one Injection record covering all nine characters: the first
      alternative wins, so the shorter "inject" is not what is matched. */
  lemma InjectionPass()
    ensures PassEntities("injection", INJECTION) == [Entity("Injection", ROUTE, ROUTE_SCORE, 0, 9)]
  {
    var s := "injection";
    assert OccursAt(s, 0, "injection");
    assert SearchFrom(s, PatternOf(INJECTION), 9) == None;
  }

  lemma InjectionExtracted()
    ensures Entity("Injection", ROUTE, ROUTE_SCORE, 0, 9) in ExtractSpec("injection")
  {
    assert Lower("injection") == "injection";
    InjectionPass();
    TablePassExtracted("injection", INJECTION);
  }

  /** The passes are independent: "three times daily" is a TID match, and the Daily
      pass finds "daily" inside it again. */
  lemma ThreeTimesDailyTid()
    ensures PassEntities("three times daily", TID) == [Entity("TID", FREQUENCY, FREQUENCY_SCORE, 0, 17)]
  {
    var s := "three times daily";
    assert !OccursAt(s, 0, "tid") by { assert s[1] == 'h'; }
    assert OccursAt(s, 0, "three times daily") by { assert s[0..17] == s; }
    LiteralsAtFirstWins(s, ["tid", "three times daily"], 0, 1);
    assert SearchFrom(s, PatternOf(TID), 0) == Some(Match(0, 17, 0, 17));
    assert SearchFrom(s, PatternOf(TID), 17) == None;
  }

  lemma ThreeTimesDailyDaily()
    ensures PassEntities("three times daily", DAILY) == [Entity("Daily", FREQUENCY, FREQUENCY_SCORE, 12, 17)]
  {
    var s := "three times daily";
    assert OccursAt(s, 12, "daily") by { assert s[12..17] == "daily"; }
    LiteralsAtFirstWins(s, ["daily", "once daily"], 12, 0);
    assert s[0..12] == "three times ";
    NoLiteralsBetween(s, ["daily", "once daily"], 0, 12);
    SearchFindsFirst(s, PatternOf(DAILY), 0, 12);
    assert SearchFrom(s, PatternOf(DAILY), 17) == None;
  }

  lemma ThreeTimesDailyExtracted()
    ensures Entity("TID", FREQUENCY, FREQUENCY_SCORE, 0, 17) in ExtractSpec("three times daily")
    ensures Entity("Daily", FREQUENCY, FREQUENCY_SCORE, 12, 17) in ExtractSpec("three times daily")
  {
    assert Lower("three times daily") == "three times daily";
    ThreeTimesDailyTid();
    ThreeTimesDailyDaily();
    TablePassExtracted("three times daily", TID);
    TablePassExtracted("three times daily", DAILY);
  }

  /** There are no word boundaries: "po" inside "report" is an Oral route. */
  lemma ReportPass()
    ensures PassEntities("report", ORAL) == [Entity("Oral", ROUTE, ROUTE_SCORE, 2, 4)]
  {
    var s := "report";
    var alts: seq<Word> := ["oral", "by mouth", "po"];
    assert OccursAt(s, 2, "po") by { assert s[2..4] == "po"; }
    assert !OccursAt(s, 2, "oral") by { assert s[2..6] == "port"; }
    LiteralsAtFirstWins(s, alts, 2, 2);
    assert s[0..2] == "re" && s[4..6] == "rt";
    NoLiteralsBetween(s, alts, 0, 2);
    SearchFindsFirst(s, PatternOf(ORAL), 0, 2);
    NoLiteralsBetween(s, alts, 4, 6);
    SearchFindsNone(s, PatternOf(ORAL), 4);
  }

  lemma ReportExtracted()
    ensures Entity("Oral", ROUTE, ROUTE_SCORE, 2, 4) in ExtractSpec("report")
  {
    assert Lower("report") == "report";
    ReportPass();
    TablePassExtracted("report", ORAL);
  }
}
