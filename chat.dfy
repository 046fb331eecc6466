/**
 * The medical chat responder: a length guard on the message, then an ordered
 * keyword table whose first keyword found in the message picks the answer,
 * and a general guidance text that echoes the message when none is found.
 */
module Chat {
  import opened Wrappers
  import opened Text
  import opened Http

  /** A keyword and the answer given when the message mentions it. */
  datatype Entry = Entry(keyword: string, answer: string)

  const IBUPROFEN_ANSWER :=
    "**Ibuprofen Side Effects:**\n" +
    "\n" +
    "**Common:** Stomach upset, heartburn, nausea, dizziness\n" +
    "**Serious:** Stomach bleeding, kidney problems, heart issues\n" +
    "**Interactions:** Blood thinners, certain blood pressure medications\n" +
    "\n" +
    "*Always consult your healthcare provider*"

  const ASPIRIN_ANSWER :=
    "**Aspirin Information:**\n" +
    "\n" +
    "**Uses:** Pain relief, fever reduction, heart protection (low dose)\n" +
    "**Side Effects:** Stomach irritation, bleeding risk, Reye's syndrome in children\n" +
    "**Dosage:** Varies by indication (81mg-650mg)\n" +
    "\n" +
    "*Not for children with viral infections*"

  const ACETAMINOPHEN_ANSWER :=
    "**Acetaminophen (Tylenol):**\n" +
    "\n" +
    "**Uses:** Pain and fever relief\n" +
    "**Max Dose:** 4000mg/day (adults)\n" +
    "**Warning:** Liver damage with overdose or alcohol use\n" +
    "**Safe For:** Most ages when used correctly"

  const INTERACTION_ANSWER :=
    "**Drug Interaction Checking:**\n" +
    "\n" +
    "1. Always inform healthcare providers of ALL medications\n" +
    "2. Include supplements and over-the-counter drugs\n" +
    "3. Use pharmacy interaction checking systems\n" +
    "4. Monitor for unusual symptoms\n" +
    "\n" +
    "*Pharmacists are excellent resources for interaction questions*"

  /** The keyword table, in the order the responder tries it. */
  const MEDICAL_RESPONSES := [
    Entry("ibuprofen", IBUPROFEN_ANSWER),
    Entry("aspirin", ASPIRIN_ANSWER),
    Entry("acetaminophen", ACETAMINOPHEN_ANSWER),
    Entry("drug interaction", INTERACTION_ANSWER)
  ]

  const GUIDANCE_HEAD := "**Medical Information Request:** "

  /** Everything after the echoed message in the general guidance. */
  const GUIDANCE_TAIL :=
    "\n" +
    "\n" +
    "**General Guidance:**\n" +
    "- For specific medical questions, consult healthcare professionals\n" +
    "- Keep accurate medication lists\n" +
    "- Report all side effects to your doctor\n" +
    "- Follow prescribed dosages exactly\n" +
    "- Store medications properly\n" +
    "\n" +
    "**Emergency Signs:**\n" +
    "- Difficulty breathing\n" +
    "- Severe allergic reactions\n" +
    "- Chest pain\n" +
    "- Severe bleeding\n" +
    "\n" +
    "**Resources:**\n" +
    "- Your pharmacist for medication questions\n" +
    "- Your doctor for treatment decisions\n" +
    "- Poison control: 1-800-222-1222 (US)\n" +
    "\n" +
    "*This AI assistant provides general information only, not medical advice.*"

  /** Messages whose stripped form is shorter than this are refused. */
  const MIN_MESSAGE_LENGTH: nat := 3

  /** `keyword.lower() in message.lower()`. */
  predicate Mentions(message: string, keyword: string) {
    Contains(Lower(message), Lower(keyword))
  }

  /** The index of the first entry, from `i` on, whose keyword the message mentions. */
  function FirstKeyword(message: string, table: seq<Entry>, i: nat): (r: Option<nat>)
    requires i <= |table|
    ensures r.Some? ==> i <= r.value < |table| && Mentions(message, table[r.value].keyword)
    ensures r.Some? ==> forall j :: i <= j < r.value ==> !Mentions(message, table[j].keyword)
    ensures r.None? ==> forall j :: i <= j < |table| ==> !Mentions(message, table[j].keyword)
    decreases |table| - i
  {
    if i == |table| then None
    else if Mentions(message, table[i].keyword) then Some(i)
    else FirstKeyword(message, table, i + 1)
  }

  /** The general guidance: the heading, the message itself, then fixed advice. */
  function Guidance(message: string, tail: string): (r: string)
    ensures OccursAt(r, 0, GUIDANCE_HEAD + message)
    ensures |tail| <= |r| && OccursAt(r, |r| - |tail|, tail)
  {
    var r := GUIDANCE_HEAD + message + tail;
    assert r[0..|GUIDANCE_HEAD + message|] == GUIDANCE_HEAD + message;
    assert r[|r| - |tail|..] == tail;
    r
  }

  /** The answer to a message: that of the first keyword it mentions, or the guidance. */
  function Respond(message: string, table: seq<Entry>, tail: string): (r: string)
    ensures (exists i :: 0 <= i < |table| && Mentions(message, table[i].keyword)) ==>
              exists i :: 0 <= i < |table| && Mentions(message, table[i].keyword) && r == table[i].answer
    ensures (forall j :: 0 <= j < |table| ==> !Mentions(message, table[j].keyword)) ==>
              r == Guidance(message, tail)
  {
    match FirstKeyword(message, table, 0)
    case Some(i) => table[i].answer
    case None => Guidance(message, tail)
  }

  /** The reply of the chat endpoint: the message and the generated answer. */
  datatype ChatReply = ChatReply(userMessage: string, success: bool, generatedText: string)

  /** The lookup loop: walk the table in order and stop at the first keyword the message
      mentions; without one, answer with the guidance. */
  method Lookup(message: string, table: seq<Entry>, tail: string) returns (answer: string)
    ensures answer == Respond(message, table, tail)
  {
    var response: Option<string> := None;
    var i := 0;
    while i < |table|
      invariant i <= |table|
      invariant response.None?
      invariant forall j :: 0 <= j < i ==> !Mentions(message, table[j].keyword)
    {
      if Mentions(message, table[i].keyword) {
        response := Some(table[i].answer);
        break;
      }
      i := i + 1;
    }
    if response.None? {
      answer := Guidance(message, tail);
    } else {
      answer := response.value;
    }
  }

  /** The chat endpoint: refuse a message that is too short, otherwise answer it. */
  method GraniteChat(message: string) returns (r: Result<ChatReply, HttpError>)
    ensures r.Failure? <==> |Strip(message)| < MIN_MESSAGE_LENGTH
    ensures r.Failure? ==> r.error == HttpError(400, "Message too short")
    ensures r.Success? ==> r.value == ChatReply(message, true, Respond(message, MEDICAL_RESPONSES, GUIDANCE_TAIL))
  {
    if |message| == 0 || |Strip(message)| < MIN_MESSAGE_LENGTH {
      return Failure(HttpError(400, "Message too short"));
    }
    var answer := Lookup(message, MEDICAL_RESPONSES, GUIDANCE_TAIL);
    r := Success(ChatReply(message, true, answer));
  }

  // ---------------------------------------------------------------------
  // Which answer a message gets

  /** The first keyword the message mentions, in table order, is the one chosen: entry `i` is
      chosen exactly when the message mentions its keyword and no earlier one. */
  lemma FirstKeywordIff(message: string, table: seq<Entry>, i: nat)
    ensures FirstKeyword(message, table, 0) == Some(i) <==>
              i < |table| && Mentions(message, table[i].keyword) &&
              forall j :: 0 <= j < i ==> !Mentions(message, table[j].keyword)
  {
  }

  /** A message that mentions no keyword gets the guidance, which opens with the heading and
      the message itself. */
  lemma NoKeywordEchoes(message: string, table: seq<Entry>, tail: string)
    requires forall j :: 0 <= j < |table| ==> !Mentions(message, table[j].keyword)
    ensures Respond(message, table, tail) == Guidance(message, tail)
    ensures OccursAt(Respond(message, table, tail), 0, GUIDANCE_HEAD + message)
  {
  }

  /** The message mentions the keyword exactly when the lower-cased keyword occurs somewhere
      in the lower-cased message. */
  lemma MentionsIff(message: string, keyword: string)
    ensures Mentions(message, keyword) <==>
              exists k :: 0 <= k <= |message| && OccursAt(Lower(message), k, Lower(keyword))
  {
  }

  /** A keyword written into the message, in any case, is mentioned. */
  lemma MentionsWhenOccurs(message: string, keyword: string, k: nat)
    requires OccursAt(message, k, keyword)
    ensures Mentions(message, keyword)
  {
    LowerOccurrence(message, k, keyword);
    OccursContains(Lower(message), k, Lower(keyword));
  }

  /** The keyword test ignores case on both sides. */
  lemma MentionsIgnoresCase(message: string, keyword: string)
    ensures Mentions(Lower(message), keyword) <==> Mentions(message, keyword)
    ensures Mentions(message, Lower(keyword)) <==> Mentions(message, keyword)
  {
    LowerIdempotent(message);
    LowerIdempotent(keyword);
  }

  /** Any message that mentions ibuprofen gets the ibuprofen answer, whatever else it mentions,
      because ibuprofen comes first in the table. */
  lemma IbuprofenFirst(message: string)
    requires Mentions(message, "ibuprofen")
    ensures Respond(message, MEDICAL_RESPONSES, GUIDANCE_TAIL) == IBUPROFEN_ANSWER
  {
    assert MEDICAL_RESPONSES[0] == Entry("ibuprofen", IBUPROFEN_ANSWER);
  }

  /** "Can I take aspirin with ibuprofen?" mentions aspirin first, yet gets the ibuprofen
      answer: the table order decides, not the order of the message. */
  lemma AspirinWithIbuprofen()
    ensures Respond("Can I take aspirin with ibuprofen?", MEDICAL_RESPONSES, GUIDANCE_TAIL) == IBUPROFEN_ANSWER
  {
    var message := "Can I take aspirin with ibuprofen?";
    assert OccursAt(message, 24, "ibuprofen");
    MentionsWhenOccurs(message, "ibuprofen", 24);
    IbuprofenFirst(message);
  }
}
