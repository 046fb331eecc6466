/**
 * The drug-information endpoint: a length guard on the request text, the
 * entity extractor, and a filter that keeps the drug records.
 */
module DrugInfo {
  import opened Wrappers
  import opened Text
  import opened Regex
  import opened Extractor
  import opened Http

  /** The endpoint's reply: the request text, the drug records, all records and their number. */
  datatype DrugInfoReply = DrugInfoReply(text: string, drugEntities: seq<Entity>, allEntities: seq<Entity>, totalEntities: nat)

  /** Texts whose stripped form is shorter than this are refused. */
  const MIN_TEXT_LENGTH: nat := 5

  /** The groups the filter keeps are CHEMICAL, DRUG and MEDICATION; of those the extractor only emits MEDICATION. */
  predicate IsDrugGroup(c: Category) {
    c == MEDICATION
  }

  /** `[e for e in entities if e.entity_group.upper() in [...]]`. */
  function DrugEntities(es: seq<Entity>): (r: seq<Entity>)
    ensures |r| <= |es|
    ensures forall k :: 0 <= k < |r| ==> IsDrugGroup(r[k].group)
  {
    if es == [] then []
    else (if IsDrugGroup(es[0].group) then [es[0]] else []) + DrugEntities(es[1..])
  }

  /** The filter keeps exactly the drug records. */
  lemma {:induction false} DrugEntitiesKeep(es: seq<Entity>)
    ensures forall e :: e in DrugEntities(es) <==> e in es && IsDrugGroup(e.group)
  {
    if es != [] {
      DrugEntitiesKeep(es[1..]);
      assert es == [es[0]] + es[1..];
    }
  }

  /** The filter keeps relative order: filtering a concatenation concatenates the filtered parts. */
  lemma {:induction false} DrugEntitiesAppend(a: seq<Entity>, b: seq<Entity>)
    ensures DrugEntities(a + b) == DrugEntities(a) + DrugEntities(b)
  {
    if a == [] {
      assert a + b == b;
    } else {
      var h := if IsDrugGroup(a[0].group) then [a[0]] else [];
      assert DrugEntities(a + b) == h + DrugEntities(a[1..] + b) by {
        assert (a + b)[0] == a[0] && (a + b)[1..] == a[1..] + b;
      }
      assert DrugEntities(a[1..] + b) == DrugEntities(a[1..]) + DrugEntities(b) by {
        DrugEntitiesAppend(a[1..], b);
      }
      assert DrugEntities(a) == h + DrugEntities(a[1..]);
    }
  }

  /** The MEDICATION records of a drug pass, one per match. */
  function Medications(s: string, pass: Pass): seq<Entity>
    requires pass.DrugPass?
  {
    var ms := PassMatches(s, pass);
    seq(|ms|, k requires 0 <= k < |ms| => MedicationOf(pass, ms[k]))
  }

  lemma {:induction false} DrugEmitFiltered(s: string, pass: Pass, ms: seq<Match>)
    requires pass.DrugPass?
    requires forall k :: 0 <= k < |ms| ==> Fits(s, pass, ms[k])
    ensures DrugEntities(EmitAll(s, pass, ms)) == seq(|ms|, k requires 0 <= k < |ms| => MedicationOf(pass, ms[k]))
  {
    if ms != [] {
      DrugEmitFiltered(s, pass, ms[1..]);
      var head := [MedicationOf(pass, ms[0]), DosageOf(s, ms[0])];
      DrugEntitiesAppend(head, EmitAll(s, pass, ms[1..]));
      assert DrugEntities(head) == [MedicationOf(pass, ms[0])] by {
        assert head[1..] == [DosageOf(s, ms[0])];
        assert head[1..][1..] == [];
      }
    }
  }

  lemma {:induction false} LabelEmitFiltered(s: string, pass: Pass, ms: seq<Match>)
    requires pass.LabelPass? && !IsDrugGroup(pass.group)
    requires forall k :: 0 <= k < |ms| ==> Fits(s, pass, ms[k])
    ensures DrugEntities(EmitAll(s, pass, ms)) == []
  {
    if ms != [] {
      LabelEmitFiltered(s, pass, ms[1..]);
      DrugEntitiesAppend(Emit(s, pass, ms[0]), EmitAll(s, pass, ms[1..]));
    }
  }

  lemma {:induction false} PassesFiltered(s: string, ps: seq<Pass>)
    requires forall i :: 0 <= i < |ps| ==> ps[i].LabelPass? && !IsDrugGroup(ps[i].group)
    ensures DrugEntities(PassesEntities(s, ps)) == []
    decreases |ps|
  {
    if ps != [] {
      var last := ps[|ps| - 1];
      PassesFiltered(s, ps[..|ps| - 1]);
      LabelEmitFiltered(s, last, PassMatches(s, last));
      DrugEntitiesAppend(PassesEntities(s, ps[..|ps| - 1]), PassEntities(s, last));
    }
  }

  /** The drug filter over the extractor's output yields one MEDICATION record per drug match:
      all Amoxicillin matches, then all Ibuprofen matches, in text order. */
  lemma ExtractedDrugEntities(text: string)
    ensures DrugEntities(ExtractSpec(text)) ==
              Medications(Lower(text), AMOXICILLIN) + Medications(Lower(text), IBUPROFEN)
  {
    var s := Lower(text);
    var a, i := PassEntities(s, AMOXICILLIN), PassEntities(s, IBUPROFEN);
    var f, r := PassesEntities(s, FREQUENCY_PASSES), PassesEntities(s, ROUTE_PASSES);
    var ma, mi := Medications(s, AMOXICILLIN), Medications(s, IBUPROFEN);
    assert DrugEntities(a) == ma by {
      DrugEmitFiltered(s, AMOXICILLIN, PassMatches(s, AMOXICILLIN));
    }
    assert DrugEntities(i) == mi by {
      DrugEmitFiltered(s, IBUPROFEN, PassMatches(s, IBUPROFEN));
    }
    assert DrugEntities(f) == [] && DrugEntities(r) == [] by {
      TablesShape();
      PassesFiltered(s, FREQUENCY_PASSES);
      PassesFiltered(s, ROUTE_PASSES);
    }
    assert DrugEntities(a + i) == ma + mi by {
      DrugEntitiesAppend(a, i);
    }
    assert DrugEntities(a + i + f) == ma + mi by {
      DrugEntitiesAppend(a + i, f);
    }
    assert DrugEntities(a + i + f + r) == ma + mi by {
      DrugEntitiesAppend(a + i + f, r);
    }
  }

  /**
   * The endpoint: refuse a text that is too short, otherwise extract the
   * records and report the drug records, all records and their count.
   */
  method ExtractDrugInfo(text: string) returns (r: Result<DrugInfoReply, HttpError>)
    ensures r.Failure? <==> |Strip(text)| < MIN_TEXT_LENGTH
    ensures r.Failure? ==> r.error == HttpError(400, "Text too short for drug extraction")
    ensures r.Success? ==> r.value.text == text && r.value.allEntities == ExtractSpec(text) &&
                           r.value.totalEntities == |r.value.allEntities|
    ensures r.Success? ==> r.value.drugEntities ==
                           Medications(Lower(text), AMOXICILLIN) + Medications(Lower(text), IBUPROFEN)
  {
    if |text| == 0 || |Strip(text)| < MIN_TEXT_LENGTH {
      return Failure(HttpError(400, "Text too short for drug extraction"));
    }
    var result := ExtractMedicalEntities(text);
    var entities := result.data;
    var drugs := DrugEntities(entities);
    ExtractedDrugEntities(text);
    r := Success(DrugInfoReply(text, drugs, entities, |entities|));
  }
}
