/**
 * The prescription analysis: a first-match search for each drug-and-dose
 * pattern over the lower-cased text, then one of two fixed report templates,
 * the detailed one when a drug was found and the fallback one otherwise.
 */
module Report {
  import opened Wrappers
  import opened Text
  import opened Regex
  import opened Extractor
  import opened DrugInfo

  /** The reply of the analysis: a success flag and the one generated text. */
  datatype Generation = Generation(success: bool, generatedText: string)

  /** `"<Name> <digits>mg"` for the first match of the drug's pattern in `s` (`re.search`). */
  function FirstDose(s: string, pass: Pass): Option<string>
    requires pass.DrugPass?
  {
    match SearchFrom(s, PatternOf(pass), 0)
    case None => None
    case Some(m) => Some(pass.name + " " + s[m.groupStart..m.groupEnd] + "mg")
  }

  /** A dose reads "<Name> <digits>mg": the drug's display name, a space, at least one digit
      taken from the text, and "mg". */
  lemma FirstDoseShape(s: string, pass: Pass)
    requires pass.DrugPass?
    ensures var r := FirstDose(s, pass);
            r.Some? ==> |pass.name| + 3 < |r.value| &&
                        r.value[..|pass.name| + 1] == pass.name + " " &&
                        r.value[|r.value| - 2..] == "mg" &&
                        forall k :: |pass.name| + 1 <= k < |r.value| - 2 ==> IsDigit(r.value[k])
  {
  }

  /** The drugs found, Amoxicillin first, then Ibuprofen, each at most once. */
  function DrugsFound(text: string): (drugs: seq<string>)
    ensures |drugs| <= 2
  {
    var s := Lower(text);
    var amoxicillin := FirstDose(s, AMOXICILLIN);
    var ibuprofen := FirstDose(s, IBUPROFEN);
    (if amoxicillin.Some? then [amoxicillin.value] else []) +
    (if ibuprofen.Some? then [ibuprofen.value] else [])
  }

  const BULLET := "\U{2022} "

  const FOUND_HEAD := "**Medical Prescription Analysis**\n\n**Prescription Content Analyzed:**\n"
  const FOUND_MIDDLE := "\n\n**\U{1F50D} Drug Identification - DETECTED:**\n"
  /** Everything after the drug lines: the line break ending the last drug line, then the
      fixed dosage, safety, clinical notes, compliance and recommendation sections. */
  const FOUND_TAIL :=
    "\n" +
    "\n" +
    "**\U{1F48A} Dosage & Administration Analysis:**\n" +
    "\U{2022} Amoxicillin 500mg: Antibiotic, typically TID (three times daily)\n" +
    "\U{2022} Ibuprofen 200mg: NSAID for pain/inflammation, as needed\n" +
    "\U{2022} Route: Oral administration\n" +
    "\n" +
    "**\U{26A0}\U{FE0F} Safety Assessment:**\n" +
    "\U{2022} Amoxicillin: Check for penicillin allergies\n" +
    "\U{2022} Ibuprofen: Take with food to reduce stomach upset\n" +
    "\U{2022} No major drug interactions between these medications\n" +
    "\U{2022} Both are commonly prescribed together\n" +
    "\n" +
    "**\U{1F4CB} Clinical Notes:**\n" +
    "\U{2022} Amoxicillin course should be completed fully\n" +
    "\U{2022} Ibuprofen can be taken as needed for pain\n" +
    "\U{2022} Monitor for allergic reactions\n" +
    "\U{2022} Adequate hydration recommended\n" +
    "\n" +
    "**\U{2705} Prescription Compliance:**\n" +
    "\U{2022} Format: Standard prescription format \U{2713}\n" +
    "\U{2022} Dosages: Within normal therapeutic ranges \U{2713}\n" +
    "\U{2022} Frequency: Clearly specified \U{2713}\n" +
    "\U{2022} Safety: No contraindications identified \U{2713}\n" +
    "\n" +
    "**Recommendations:**\n" +
    "\U{2022} Complete full antibiotic course even if feeling better\n" +
    "\U{2022} Take ibuprofen with food to prevent stomach irritation  \n" +
    "\U{2022} Contact prescriber if allergic reactions occur\n" +
    "\U{2022} Store medications properly and out of reach of children\n" +
    "\n" +
    "*Analysis based on actual prescription content. Always follow prescriber instructions.*\n"

  const FALLBACK_HEAD := "**Medical Prescription Analysis**\n\n**Text Analyzed:** "
  const ELLIPSIS := "..."
  const RESULTS_HEAD := "\n\n**Analysis Results:**\n" + BULLET
  const UNIDENTIFIED := "Unable to clearly identify specific medications"
  /** Everything after the notice: the line break ending it, then the fixed guidance. */
  const FALLBACK_TAIL :=
    "\n" +
    "\U{2022} Please ensure prescription text is clearly visible\n" +
    "\U{2022} Manual review recommended\n" +
    "\n" +
    "**General Recommendations:**\n" +
    "\U{2022} Verify all medication names and dosages\n" +
    "\U{2022} Confirm administration instructions\n" +
    "\U{2022} Check for patient allergies\n" +
    "\U{2022} Follow prescriber guidelines\n" +
    "\n" +
    "*For accurate analysis, please provide clear prescription text.*\n"

  /** The fixed text of the two templates, around the parts that vary with the request. */
  datatype Templates = Templates(
    foundHead: string, foundMiddle: string, foundTail: string,
    fallbackHead: string, resultsHead: string, notice: string, fallbackTail: string)

  /** The templates as the analysis writes them. */
  const TEMPLATES := Templates(FOUND_HEAD, FOUND_MIDDLE, FOUND_TAIL,
                               FALLBACK_HEAD, RESULTS_HEAD, UNIDENTIFIED, FALLBACK_TAIL)

  /** One bulleted line per drug found. */
  function Bullets(drugs: seq<string>): seq<string>
  {
    seq(|drugs|, i requires 0 <= i < |drugs| => BULLET + drugs[i])
  }

  /** `text[:200] + "..."`. */
  function Excerpt(text: string): string
  {
    Take(text, 200) + ELLIPSIS
  }

  /** Five pieces laid end to end: the first opens the text, the second follows it, and the
      fourth follows the third. */
  lemma Layout(head: string, echo: string, middle: string, list: string, tail: string)
    ensures var r := head + echo + middle + list + tail;
            OccursAt(r, 0, head) && OccursAt(r, |head|, echo) &&
            OccursAt(r, |head| + |echo| + |middle|, list)
  {
    var r := head + echo + middle + list + tail;
    assert r[0..|head|] == head;
    assert r[|head|..|head| + |echo|] == echo;
    OccursIn(head + echo + middle, list, tail);
  }

  /** The detailed report: the stripped text, the drug lines, then the fixed sections. */
  function FoundReport(text: string, drugs: seq<string>, t: Templates): (r: string)
    ensures OccursAt(r, 0, t.foundHead) && OccursAt(r, |t.foundHead|, Strip(text))
    ensures OccursAt(r, |t.foundHead| + |Strip(text)| + |t.foundMiddle|, JoinLines(Bullets(drugs)))
  {
    Layout(t.foundHead, Strip(text), t.foundMiddle, JoinLines(Bullets(drugs)), t.foundTail);
    t.foundHead + Strip(text) + t.foundMiddle + JoinLines(Bullets(drugs)) + t.foundTail
  }

  /** The fallback report: an excerpt of the text and the notice that no drug was identified. */
  function FallbackReport(text: string, t: Templates): (r: string)
    ensures OccursAt(r, 0, t.fallbackHead) && OccursAt(r, |t.fallbackHead|, Take(text, 200) + "...")
    ensures Contains(r, t.notice)
  {
    var head, excerpt := t.fallbackHead, Excerpt(text);
    var before := head + excerpt + t.resultsHead;
    var r := before + t.notice + t.fallbackTail;
    assert r[0..|head|] == head;
    assert r[|head|..|head| + |excerpt|] == excerpt;
    OccursIn(before, t.notice, t.fallbackTail);
    OccursContains(r, |before|, t.notice);
    r
  }

  /** The analysis written with the templates `t`: always a success carrying one text. */
  function Analyze(text: string, t: Templates): (g: Generation)
    ensures g.success
  {
    var drugs := DrugsFound(text);
    if drugs != [] then Generation(true, FoundReport(text, drugs, t))
    else Generation(true, FallbackReport(text, t))
  }

  /** `analyze_with_ibm_granite`: the analysis written with the source's templates. */
  function AnalyzeWithGranite(text: string): (g: Generation)
    ensures g.success
  {
    Analyze(text, TEMPLATES)
  }

  // ---------------------------------------------------------------------
  // The drug search agrees with the extractor

  /** `re.search` finds the first match `re.finditer` reports, and finds nothing when that
      reports nothing. */
  lemma SearchIsFirstMatch(s: string, pass: Pass)
    ensures SearchFrom(s, PatternOf(pass), 0).None? <==> PassMatches(s, pass) == []
    ensures SearchFrom(s, PatternOf(pass), 0).Some? ==>
              PassMatches(s, pass)[0] == SearchFrom(s, PatternOf(pass), 0).value
  {
    var r := SearchFrom(s, PatternOf(pass), 0);
    if r.Some? {
      assert PassMatches(s, pass) == [r.value] + FindIter(s, PatternOf(pass), r.value.end);
    }
  }

  /** The first dose is found exactly when the extractor's pass for that drug emits records,
      and it names the digits of the pass's first DOSAGE record. */
  lemma FirstDoseAgrees(s: string, pass: Pass)
    requires pass.DrugPass?
    ensures FirstDose(s, pass).Some? <==> PassEntities(s, pass) != []
    ensures FirstDose(s, pass).Some? ==>
              |PassEntities(s, pass)| >= 2 && PassEntities(s, pass)[1].group == DOSAGE &&
              FirstDose(s, pass).value == pass.name + " " + PassEntities(s, pass)[1].word
  {
    var ms := PassMatches(s, pass);
    assert |PassEntities(s, pass)| == 2 * |ms| by {
      DrugEmitLength(s, pass, ms);
    }
    SearchIsFirstMatch(s, pass);
    if ms != [] {
      var m := ms[0];
      assert PassEntities(s, pass)[1] == DosageOf(s, m) by {
        DrugEmitAt(s, pass, ms, 0);
      }
      var digits := s[m.groupStart..m.groupEnd];
      assert FirstDose(s, pass).value == pass.name + " " + digits + "mg";
      assert pass.name + " " + digits + "mg" == pass.name + " " + (digits + "mg");
    }
  }

  /** The report lists the Amoxicillin dose, then the Ibuprofen dose, each when and only when
      the extractor finds that drug, with the digits of the drug's first DOSAGE record. */
  lemma DrugsFoundAgrees(text: string)
    ensures var s := Lower(text);
            var a, i := PassEntities(s, AMOXICILLIN), PassEntities(s, IBUPROFEN);
            |DrugsFound(text)| == (if a == [] then 0 else 1) + (if i == [] then 0 else 1) &&
            (a != [] ==> |a| >= 2 && DrugsFound(text)[0] == AMOXICILLIN.name + " " + a[1].word) &&
            (i != [] ==> |i| >= 2 && DrugsFound(text)[|DrugsFound(text)| - 1] == IBUPROFEN.name + " " + i[1].word)
  {
    var s := Lower(text);
    var a, i := PassEntities(s, AMOXICILLIN), PassEntities(s, IBUPROFEN);
    var fa, fi := FirstDose(s, AMOXICILLIN), FirstDose(s, IBUPROFEN);
    assert (fa.Some? <==> a != []) && (fa.Some? ==> |a| >= 2 && fa.value == AMOXICILLIN.name + " " + a[1].word) by {
      FirstDoseAgrees(s, AMOXICILLIN);
    }
    assert (fi.Some? <==> i != []) && (fi.Some? ==> |i| >= 2 && fi.value == IBUPROFEN.name + " " + i[1].word) by {
      FirstDoseAgrees(s, IBUPROFEN);
    }
    assert DrugsFound(text) == (if fa.Some? then [fa.value] else []) + (if fi.Some? then [fi.value] else []);
  }

  /** The detailed report is chosen exactly when the drug filter of the extractor's output is
      non-empty. */
  lemma DrugsFoundIffMedication(text: string)
    ensures DrugsFound(text) != [] <==> DrugEntities(ExtractSpec(text)) != []
  {
    var s := Lower(text);
    FirstDoseAgrees(s, AMOXICILLIN);
    FirstDoseAgrees(s, IBUPROFEN);
    ExtractedDrugEntities(text);
    DrugEmitLength(s, AMOXICILLIN, PassMatches(s, AMOXICILLIN));
    DrugEmitLength(s, IBUPROFEN, PassMatches(s, IBUPROFEN));
    assert |Medications(s, AMOXICILLIN)| == |PassMatches(s, AMOXICILLIN)|;
    assert |Medications(s, IBUPROFEN)| == |PassMatches(s, IBUPROFEN)|;
  }

  // ---------------------------------------------------------------------
  // What each template contains
  //
  // These hold whatever the fixed wording of the templates is; `AnalyzeWithGranite`
  // is `Analyze` with `TEMPLATES`.

  /** When a drug is found the analysis is the detailed report: it opens with the detailed
      heading, echoes the stripped text right after it, and after the identification heading
      lists the drugs found, one bulleted line each. */
  lemma ReportFound(text: string, t: Templates)
    requires DrugsFound(text) != []
    ensures var r := Analyze(text, t).generatedText;
            OccursAt(r, 0, t.foundHead) && OccursAt(r, |t.foundHead|, Strip(text)) &&
            OccursAt(r, |t.foundHead| + |Strip(text)| + |t.foundMiddle|, JoinLines(Bullets(DrugsFound(text))))
  {
  }

  /** Each drug's bulleted line appears in the joined list. */
  lemma BulletsListed(drugs: seq<string>, i: nat)
    requires i < |drugs|
    ensures exists k: nat :: OccursAt(JoinLines(Bullets(drugs)), k, BULLET + drugs[i])
  {
    JoinLinesContains(Bullets(drugs), i);
  }

  /** When no drug is found the analysis is the fallback report: it opens with the fallback
      heading, echoes `text[:200]` followed by "..." right after it, and holds the notice that
      no medication was identified. */
  lemma ReportFallback(text: string, t: Templates)
    requires DrugsFound(text) == []
    ensures var r := Analyze(text, t).generatedText;
            OccursAt(r, 0, t.fallbackHead) && OccursAt(r, |t.fallbackHead|, Take(text, 200) + "...") &&
            Contains(r, t.notice)
  {
  }

  /** The two headings disagree at some position both of them reach. */
  predicate HeadingsDiffer(t: Templates) {
    exists i :: 0 <= i < |t.foundHead| && i < |t.fallbackHead| && t.foundHead[i] != t.fallbackHead[i]
  }

  /** The source's two headings part at "Prescription Content" against "Text Analyzed". */
  lemma SourceHeadingsDiffer()
    ensures HeadingsDiffer(TEMPLATES)
  {
    assert FOUND_HEAD[37] == 'P' && FALLBACK_HEAD[37] == 'T';
  }

  /** With headings that differ, the report opens with the detailed heading exactly when a
      drug was found. */
  lemma ReportBranchIff(text: string, t: Templates)
    requires HeadingsDiffer(t)
    ensures OccursAt(Analyze(text, t).generatedText, 0, t.foundHead) <==> DrugsFound(text) != []
  {
    var r := Analyze(text, t).generatedText;
    if DrugsFound(text) != [] {
      ReportFound(text, t);
    } else {
      ReportFallback(text, t);
      var i :| 0 <= i < |t.foundHead| && i < |t.fallbackHead| && t.foundHead[i] != t.fallbackHead[i];
      assert r[i] == t.fallbackHead[i];
    }
  }

  /** The analysis as the source writes it opens with "Prescription Content Analyzed" exactly
      when a drug was found, and is a success either way. */
  lemma AnalysisBranch(text: string)
    ensures AnalyzeWithGranite(text).success
    ensures OccursAt(AnalyzeWithGranite(text).generatedText, 0, FOUND_HEAD) <==> DrugsFound(text) != []
  {
    SourceHeadingsDiffer();
    ReportBranchIff(text, TEMPLATES);
  }

  /** With the source's wording: the detailed report echoes the stripped text after its
      heading, and the fallback echoes the excerpt and says that no medication was identified. */
  lemma AnalysisContents(text: string)
    ensures DrugsFound(text) != [] ==>
              OccursAt(AnalyzeWithGranite(text).generatedText, |FOUND_HEAD|, Strip(text))
    ensures DrugsFound(text) == [] ==>
              OccursAt(AnalyzeWithGranite(text).generatedText, |FALLBACK_HEAD|, Take(text, 200) + "...") &&
              Contains(AnalyzeWithGranite(text).generatedText, UNIDENTIFIED)
  {
    if DrugsFound(text) != [] {
      ReportFound(text, TEMPLATES);
    } else {
      ReportFallback(text, TEMPLATES);
    }
  }
}
