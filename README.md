# Prescription text scanner, modelled in Dafny

The service in `app/main.py` has no machine-learning inference. Its logic is a
heuristic, deterministic scanner over prescription text. This project models
that scanner and proves what it does. There are four parts:

- **The entity extractor** (`extract_medical_entities`). The text is lower-cased.
  Ten independent `re.finditer` passes then run over it, in a fixed order:
  - two drug-and-dose patterns, `amoxicillin\s*(\d+)\s*mg` and `ibuprofen\s*(\d+)\s*mg`;
  - five frequency alternations (TID, BID, QID, Daily, PRN);
  - three route alternations (Oral, Topical, Injection).

  Each drug match appends a MEDICATION record and then a DOSAGE record. Each
  label match appends one record carrying the canonical label. The DOSAGE
  record ends two characters past the digits, whatever lies between the digits
  and `mg`. That is how the source computes it, and the model keeps it.
- **The report generator** (`analyze_with_ibm_granite`). It runs a first-match
  `re.search` for each drug and lists at most two doses, Amoxicillin first.
  Then it writes one of two fixed templates:
  - the detailed one, which echoes `text.strip()` and the dose list;
  - the fallback one, which echoes `text[:200] + "..."` and says that no
    medication was identified.
- **The chat responder** (`granite_chat`). It has a length guard. Then it walks
  an ordered keyword table, and the first keyword that appears in the message
  (ignoring case) picks the answer. A message with no keyword gets general
  guidance that echoes the message.
- **The drug-information endpoint** (`extract_drug_info`). It has a length
  guard, runs the extractor, and filters the records down to the drug records.

The regular expressions are matched by a small matcher written for the two
shapes the source uses (`regex.dfy`):
- ordered literal alternation, where the first alternative present at a position wins;
- `word\s*(\d+)\s*mg`.

The greedy matcher for the second shape is proved to agree with the
relational reading of the pattern. So no backtracking could produce a
different match.

`re.search` is the leftmost match, and `re.finditer` is the sequence of
leftmost matches, each search resuming where the previous match ended.

Text is ASCII:
- `lower()` maps only `A`–`Z` and keeps the length;
- `\s` is Python's ASCII whitespace;
- `\d` is `0`–`9`.

Confidence scores are integer hundredths (95, 90, 85, 80).

Further points of the code that the model keeps:
- Only the two drugs `amoxicillin` and `ibuprofen` are searched for.
- The MEDICATION record spans the whole match: the drug name, the digits and the unit.
- The report has no age-dependent branch.
- The report's dosage, safety and notes bullets are fixed text. The computed frequency is never used.
- The Daily alternation is `daily|once daily`.
- The chat and drug-information endpoints refuse short input (fewer than 3 or 5 characters after stripping) with a 400 error.

Files:
- `wrappers.dfy`: the `Option` and `Result` types and the HTTP error value.
- `text.dfy`: string primitives.
- `regex.dfy`: the matcher.
- `extractor.dfy`: the extractor.
- `drug_info.dfy`: the drug filter and its endpoint.
- `report.dfy`: the report generator.
- `chat.dfy`: the chat responder.

## Model

| member | source | states |
|---|---|---|
| Text.Lower | app/main.py:213 | `text.lower()` keeps the length and lowers exactly the letters A–Z, position by position |
| Text.LowerKeepsClasses | app/main.py:213 | lowering leaves whitespace and digits where they were, so `\s` and `\d` see the same classes |
| Text.LowerOccurrence | app/main.py:436 | an occurrence of a word in the text becomes an occurrence of the lowered word in the lowered text |
| Text.SkipSpaces | app/main.py:213 | the end of the maximal whitespace run from a position (greedy `\s*`) |
| Text.SkipDigits | app/main.py:213 | the end of the maximal digit run from a position (greedy `\d*`) |
| Text.Strip | app/main.py:357 | `strip()` is the slice between the first and after the last non-whitespace character; everything cut off is whitespace and the result neither starts nor ends with whitespace |
| Text.StripEmptyIff | app/main.py:422 | a text strips to nothing exactly when it is all whitespace |
| Text.Take | app/main.py:185 | `text[:200]` is the prefix of length min(200, len) |
| Text.ContainsFrom | app/main.py:436 | the substring test holds exactly when the word occurs at some position |
| Text.OccursContains | app/main.py:436 | an occurrence at a known position answers the substring test |
| Text.JoinLines | app/main.py:148 | `"\n".join` of no lines is empty, of one line is that line, and of two lines is the first, a newline, then the second |
| Text.JoinLinesContains | app/main.py:148 | every joined line occurs in the joined text |
| Regex.FirstAlternative | app/main.py:249-284 | the index of the first alternative present at a position, with none earlier present; none when no alternative is present |
| Regex.LiteralsAtSpec | app/main.py:249-284 | a literal alternation matches at a position exactly when one of its alternatives occurs there, and the match is then that alternative, starting at the position |
| Regex.DrugDoseAt | app/main.py:213 | a match of `word\s*(\d+)\s*mg` at a position starts there and has the word, whitespace, at least one digit, whitespace, then "mg" |
| Regex.MatchAt | app/main.py:213-284 | an anchored match is a non-empty span in the text starting there, containing its group; a drug match ends at least two past its digits |
| Regex.GreedyFindsMatch | app/main.py:213 | any match of `word\s*(\d+)\s*mg` in the relational sense is the one the greedy matcher returns |
| Regex.DrugDoseAtExact | app/main.py:213 | the greedy matcher returns a match exactly when it satisfies the pattern, so the match at a position is unique |
| Regex.LiteralsAtFirstWins | app/main.py:272 | the first alternative present wins, even when a later one is longer |
| Regex.NoLiteralsBetween | app/main.py:249-284 | no alternative matches where its first character is absent |
| Regex.SearchFrom | app/main.py:128-129 | `re.search`: the match at the leftmost matching position at or after the start, none when nothing matches there |
| Regex.FindIter | app/main.py:213-214 | every `re.finditer` match is a real match of the pattern inside the text |
| Regex.FindIterOrdered | app/main.py:257-259 | successive matches do not overlap: each starts at or after the end of the previous |
| Regex.FindIterCovers | app/main.py:257-259 | no match is missed: every position where the pattern matches lies inside a reported match |
| Regex.FindIterEmptyIff | app/main.py:257-259 | `re.finditer` reports nothing exactly when the pattern matches nowhere |
| Extractor.MatchFits | app/main.py:213-284 | every match has a non-empty span inside the text holding its group; a drug match has its digits after the whole drug word and ends in "mg" at least two characters past them |
| Extractor.MatchesFrom | app/main.py:213-214 | every `re.finditer` match of a pass lies inside the text, is non-empty and holds its group; a drug match has its digits after the whole drug word and ends in "mg" at least two characters past them |
| Extractor.PassEntitiesFromStep | app/main.py:214-228 | the records from a position on are those of the next match followed by those after it |
| Extractor.AppendStep | app/main.py:214-228 | one turn of the match loop keeps "records so far plus records still to come" equal to the final list |
| Extractor.AppendPass | app/main.py:213-246 | a `for match in re.finditer(...)` loop appends exactly the pass's records, in match order, after those already present |
| Extractor.AppendPasses | app/main.py:257-284 | the loop over a pattern table appends the records of each pass in table order |
| Extractor.ExtractMedicalEntities | app/main.py:203-286 | the extractor always succeeds and returns the Amoxicillin, Ibuprofen, frequency and route records in that order, as specified by the extraction function |
| Extractor.DrugEmitLength | app/main.py:214-228 | a drug pass emits exactly two records per match |
| Extractor.DrugEmitAt | app/main.py:214-246 | match k of a drug pass emits, at positions 2k and 2k+1, a MEDICATION record spanning the match (score 95) and a DOSAGE record for its digits (score 90) |
| Extractor.LabelEmitLayout | app/main.py:257-284 | a label pass emits one record per match with the canonical label, the table's group and score and the match's span |
| Extractor.EmitLayout | app/main.py:214-284 | one match yields a MEDICATION then a DOSAGE record starting later for a drug pass, and one record of the table's group for a label pass; the first spans the whole match and every record lies inside it |
| Extractor.DosageSpan | app/main.py:222-228 | the DOSAGE span is exactly as long as its word, and its text is the word exactly when "mg" follows the digits with no space in between |
| Extractor.DosageShape | app/main.py:222-227 | the DOSAGE word is the matched digits followed by "mg"; its span starts at the digits, ends two past them, and never passes the match end |
| Extractor.ExtractSpec | app/main.py:205-286 | every record of the extraction satisfies `0 <= start < end <= len(text)` |
| Extractor.ExtractIgnoresCase | app/main.py:213 | extracting from a text and from its lower-cased form gives the same records |
| Extractor.LabelSpansOrdered | app/main.py:257-284 | within a label pass each record ends no later than the next one starts, and starts strictly before it |
| Extractor.DrugEmitOrdered | app/main.py:213-246 | non-overlapping drug matches give non-overlapping MEDICATION records |
| Extractor.DrugSpansOrdered | app/main.py:213-246 | within a drug pass each MEDICATION record ends no later than the next one starts, and starts strictly before it |
| Extractor.DrugEmitStarts | app/main.py:214-246 | a match's DOSAGE record starts after its MEDICATION record, and a match's MEDICATION record starts after the previous match's DOSAGE record |
| Extractor.DrugPassStartsIncrease | app/main.py:213-246 | every record of a drug pass, MEDICATION or DOSAGE, starts strictly after the record before it |
| Extractor.SectionsRanked | app/main.py:213-284 | the drug section holds only MEDICATION/DOSAGE, the frequency section only FREQUENCY, the route section only ROUTE |
| Extractor.ExtractOrderedByCategory | app/main.py:213-284 | drug records come before frequency records, which come before route records |
| Extractor.PassEmptyIff | app/main.py:257-266 | a pass emits nothing exactly when its pattern matches nowhere |
| Extractor.ExtractEmptyIff | app/main.py:207-286 | the result is empty exactly when no pattern of any pass matches anywhere |
| Extractor.DrugMatchHasUnit | app/main.py:213 | every drug match ends in "mg" |
| Extractor.NoUnitNoDrug | app/main.py:213-246 | a text without "mg" yields no MEDICATION and no DOSAGE record |
| Extractor.PassesContain | app/main.py:257-266 | a pass's records all appear in its table's records |
| Extractor.TablePassExtracted | app/main.py:257-284 | whatever a frequency or route pass finds is in the extractor's result |
| Extractor.InjectionPass | app/main.py:272 | "injection" gives one Injection record spanning 0..9: the first alternative wins over "inject" |
| Extractor.InjectionExtracted | app/main.py:272-284 | that record is in the extractor's result for "injection" |
| Extractor.ThreeTimesDailyTid | app/main.py:250 | "three times daily" gives one TID record spanning 0..17 |
| Extractor.ThreeTimesDailyDaily | app/main.py:253 | the independent Daily pass finds "daily" at 12..17 in the same text |
| Extractor.ThreeTimesDailyExtracted | app/main.py:249-266 | both the TID and the Daily record are in the extractor's result |
| Extractor.ReportPass | app/main.py:270 | with no word boundaries, "po" inside "report" gives an Oral record at 2..4 |
| Extractor.ReportExtracted | app/main.py:268-284 | that record is in the extractor's result for "report" |
| DrugInfo.DrugEntities | app/main.py:366-369 | the filter returns no more records than it is given, all of a drug group |
| DrugInfo.DrugEntitiesKeep | app/main.py:366-369 | the filter keeps exactly the drug-group records |
| DrugInfo.DrugEntitiesAppend | app/main.py:366-369 | the filter preserves order: filtering a concatenation concatenates the filtered parts |
| DrugInfo.DrugEmitFiltered | app/main.py:366-369 | filtering a drug pass's records leaves its MEDICATION records, one per match |
| DrugInfo.LabelEmitFiltered | app/main.py:366-369 | filtering a frequency or route pass's records leaves nothing |
| DrugInfo.PassesFiltered | app/main.py:366-369 | filtering a table of label passes leaves nothing |
| DrugInfo.ExtractedDrugEntities | app/main.py:361-369 | the drug records of the extraction are the Amoxicillin MEDICATION records followed by the Ibuprofen ones, in text order |
| DrugInfo.ExtractDrugInfo | app/main.py:353-374 | text stripping to fewer than 5 characters is refused with 400 "Text too short for drug extraction"; otherwise the reply carries the text, the full extraction, its length, and its drug records |
| Report.FirstDoseShape | app/main.py:128-136 | a dose reads `"<Name> <digits>mg"`: the display name, a space, at least one digit of the text, then "mg" |
| Report.DrugsFound | app/main.py:128-136 | at most two doses are listed |
| Report.SearchIsFirstMatch | app/main.py:128-129 | `re.search` finds the first match `re.finditer` reports, and nothing exactly when that reports nothing |
| Report.FirstDoseAgrees | app/main.py:128-136 | a drug's dose is found exactly when the extractor's pass for it emits records, and reads `"<Name> <digits>mg"` with the digits of the first DOSAGE record |
| Report.DrugsFoundAgrees | app/main.py:128-136 | the list counts one entry per drug the extractor finds, Amoxicillin's entry first and Ibuprofen's last, each from that drug's first DOSAGE record |
| Report.DrugsFoundIffMedication | app/main.py:128-141 | the detailed report is chosen exactly when the drug filter of the extraction is non-empty |
| Report.Analyze | app/main.py:141-201 | with any template wording, the analysis is always a success |
| Report.AnalyzeWithGranite | app/main.py:121-201 | the analysis with the source's templates is always a success |
| Report.FoundReport | app/main.py:141-148 | the detailed report opens with its heading, echoes `text.strip()` right after it, and holds the joined dose list after the identification heading |
| Report.FallbackReport | app/main.py:181-199 | the fallback report opens with its heading, echoes `text[:200] + "..."` right after it, and contains the no-medication notice |
| Report.ReportFound | app/main.py:141-180 | when a drug is found the report opens with the detailed heading, echoes `text.strip()` right after it, and lists the doses after the identification heading |
| Report.BulletsListed | app/main.py:148 | each found drug appears as a bulleted line in the list |
| Report.ReportFallback | app/main.py:181-199 | when no drug is found the report opens with the fallback heading, echoes `text[:200] + "..."` right after it, and contains the no-medication notice |
| Report.ReportBranchIff | app/main.py:141-199 | with headings that differ, the report opens with the detailed heading exactly when a drug was found |
| Report.AnalysisBranch | app/main.py:141-201 | the source's analysis succeeds, and opens with "Prescription Content Analyzed" exactly when a drug was found |
| Report.AnalysisContents | app/main.py:141-199 | with the source's wording, the detailed report echoes the stripped text and the fallback echoes the excerpt and contains "Unable to clearly identify specific medications" |
| Chat.FirstKeyword | app/main.py:433-438 | the index of the first table entry whose keyword the message mentions ignoring case, none earlier mentioned; none when no keyword is mentioned |
| Chat.FirstKeywordIff | app/main.py:433-438 | entry i is chosen exactly when the message mentions its keyword and no earlier one |
| Chat.Guidance | app/main.py:440-462 | the guidance opens with the heading followed by the message, and ends with the fixed advice |
| Chat.Respond | app/main.py:433-462 | a message mentioning some keyword gets the answer of a keyword it mentions; one mentioning none gets the guidance |
| Chat.Lookup | app/main.py:433-462 | the loop with `break` returns the answer of the first keyword mentioned, otherwise the guidance |
| Chat.GraniteChat | app/main.py:419-469 | a message stripping to fewer than 3 characters is refused with 400 "Message too short"; otherwise the reply echoes the message with the table answer or the guidance |
| Chat.NoKeywordEchoes | app/main.py:440-462 | a message mentioning no keyword gets the guidance, which opens with the heading followed by the message |
| Chat.MentionsIff | app/main.py:436 | the message mentions a keyword exactly when the lowered keyword occurs at some position of the lowered message |
| Chat.MentionsWhenOccurs | app/main.py:436 | a keyword written into the message is mentioned |
| Chat.MentionsIgnoresCase | app/main.py:436 | the keyword test is the same on the message or the keyword in any case |
| Chat.IbuprofenFirst | app/main.py:426-438 | any message mentioning ibuprofen gets the ibuprofen answer, whatever else it mentions |
| Chat.AspirinWithIbuprofen | app/main.py:426-438 | "Can I take aspirin with ibuprofen?" gets the ibuprofen answer: table order decides, not order in the message |

## Left out

- HTTP framework code is not modelled: routing, CORS, file upload and decoding, and the `analyze_prescription` and `analyze_text_directly` endpoints. These are I/O and glue.
- The `HTTPException` plumbing is reduced to a `Failure` value carrying the status and detail.
- The generic `except Exception` 500 paths are not modelled. Nothing in the modelled code raises.
- The 500 branch of `extract_drug_info` (app/main.py:377-378) is unreachable, because the extractor always reports success. The model has no such branch.
- `call_hugging_face_model` is not modelled. It is an HTTP client, and nothing calls it.
- Environment and API-key configuration, and the hard-coded OCR stand-in text, are not modelled.
- The `asyncio` orchestration is not modelled. Its point is concurrency.
- The dictionary envelopes of the replies are reduced to datatypes. The constant `model_used` and `disclaimer` fields are not modelled.
- The `isinstance` checks of `extract_drug_info` are not modelled. The records are always well-formed.
- Python's Unicode `lower()`, `\s` and `\d` are not modelled; the model is ASCII only. Under Unicode, lowering can change the length, and the offsets would then not point into the original text.
- The `tid_match` search and the `frequency` value (app/main.py:130 and app/main.py:138) are not modelled. The source computes them but no output uses them.
- `DrugInfo.IsDrugGroup` keeps only MEDICATION, although the filter also lists CHEMICAL and DRUG. The extractor never emits those groups, and they are not categories of the model.
- Chat.Respond: `Respond`, `Lookup`, `FirstKeywordIff` and `NoKeywordEchoes` are stated for any keyword table, and treat a matched answer as final even when it is the empty string, whereas the source's `if not response_text:` (app/main.py:440) would fall back to the guidance then. Every answer in the source's table is non-empty, so the chat endpoint is unaffected.
- The report functions `FoundReport` and `FallbackReport` and the lemmas `ReportFound`, `ReportFallback` and `ReportBranchIff` are stated for any template wording. The source's wording is tied in by `AnalyzeWithGranite`, `AnalysisBranch` and `AnalysisContents`.
