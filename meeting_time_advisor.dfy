// The meeting time advisor: collects the other times offered by attendees who cannot come,
// asks the AI for three alternative times and accepts the answer only in the expected shape.

module MeetingTimeAdvisor {
  import opened Common
  import opened MeetingManagement

  /** A decoded JSON value. */
  datatype Json =
    | JNull
    | JBool(b: bool)
    | JInt(i: int)
    | JReal(r: real)
    | JStr(s: string)
    | JList(items: seq<Json>)
    | JObj(fields: map<string, Json>)

  // ---------------------------------------------------------------------------
  // Who is asked about

  /** The entry the AI sees for an attendee who cannot come. */
  datatype Offer = Offer(userId: int, username: string, availableTimes: string)

  /** Declined, and said when they would be free (a non-empty text). */
  predicate CanOffer(a: Attendee) {
    a.status == "not_attending" && a.availableTimes.Some? && a.availableTimes.value != ""
  }

  /** The stored name, or "User {id}" when there is none (or it is empty). */
  function DisplayName(a: Attendee): (name: string)
    ensures name != ""
    ensures a.username.Some? && a.username.value != "" ==> name == a.username.value
  {
    if a.username.Some? && a.username.value != "" then a.username.value
    else "User " + IntToString(a.userId)
  }

  function OfferOf(a: Attendee): Offer
    requires CanOffer(a)
  {
    Offer(a.userId, DisplayName(a), a.availableTimes.value)
  }

  /** The attendees the AI is told about, in meeting order. */
  function Offers(attendees: seq<Attendee>): (r: seq<Offer>)
    ensures |r| == CountWhere(attendees, CanOffer)
    ensures forall i :: 0 <= i < |r| ==> r[i].username != "" && r[i].availableTimes != ""
    ensures forall j :: 0 <= j < |attendees| && CanOffer(attendees[j]) ==> OfferOf(attendees[j]) in r
  {
    if attendees == [] then []
    else
      var rest := Offers(attendees[1..]);
      assert forall j :: 1 <= j < |attendees| ==> attendees[j] == attendees[1..][j - 1];
      (if CanOffer(attendees[0]) then [OfferOf(attendees[0])] else []) + rest
  }

  /** Every entry comes from a declining attendee with offered times. */
  lemma {:induction false} OffersFromDecliners(attendees: seq<Attendee>, o: Offer)
    requires o in Offers(attendees)
    ensures exists j :: 0 <= j < |attendees| && CanOffer(attendees[j]) && o == OfferOf(attendees[j])
    decreases |attendees|
  {
    var head := if CanOffer(attendees[0]) then [OfferOf(attendees[0])] else [];
    assert Offers(attendees) == head + Offers(attendees[1..]);
    if o !in head {
      OffersFromDecliners(attendees[1..], o);
      var j :| 0 <= j < |attendees[1..]| && CanOffer(attendees[1..][j]) && o == OfferOf(attendees[1..][j]);
      assert attendees[1..][j] == attendees[j + 1];
    }
  }

  // ---------------------------------------------------------------------------
  // The shape of an acceptable answer

  /** A confidence: an int or a float between 1 and 100. A bool is an int to Python's
      `isinstance`, so true (1) passes and false (0) does not. */
  predicate ConfidenceOk(v: Json) {
    match v
    case JBool(b) => b
    case JInt(i) => 1 <= i <= 100
    case JReal(r) => 1.0 <= r <= 100.0
    case _ => false
  }

  /** One recommendation, checked in the order of `_validate_recommendation`: an object,
      with datetime, reason and confidence keys, a datetime `fromisoformat` accepts (a
      non-string raises, which rejects it) and a valid confidence. */
  predicate EntryOk(rec: Json, isIso: string -> bool) {
    if !rec.JObj? then false
    else if !("datetime" in rec.fields && "reason" in rec.fields && "confidence" in rec.fields) then false
    else if !(rec.fields["datetime"].JStr? && isIso(rec.fields["datetime"].s)) then false
    else ConfidenceOk(rec.fields["confidence"])
  }

  /** The loop over the recommendations: false at the first bad entry. */
  function EntriesOk(recs: seq<Json>, isIso: string -> bool): (ok: bool)
  {
    if recs == [] then true
    else if !EntryOk(recs[0], isIso) then false
    else EntriesOk(recs[1..], isIso)
  }

  /** `_validate_recommendation`. A missing "recommendations" key reads as an empty list,
      which is not of length 3. */
  function ValidateRecommendation(data: Json, isIso: string -> bool): (ok: bool)
  {
    if !data.JObj? then false
    else
      var recs := if "recommendations" in data.fields then data.fields["recommendations"] else JList([]);
      if !recs.JList? || |recs.items| != 3 then false
      else EntriesOk(recs.items, isIso)
  }

  /** What an accepted answer is: an object whose recommendations are exactly three
      objects, each with the three keys, an ISO 8601 datetime string and a confidence
      between 1 and 100. */
  predicate WellFormed(data: Json, isIso: string -> bool) {
    data.JObj? && "recommendations" in data.fields
    && data.fields["recommendations"].JList?
    && |data.fields["recommendations"].items| == 3
    && forall i :: 0 <= i < 3 ==>
         var rec := data.fields["recommendations"].items[i];
         rec.JObj? && "datetime" in rec.fields && "reason" in rec.fields && "confidence" in rec.fields
         && rec.fields["datetime"].JStr? && isIso(rec.fields["datetime"].s)
         && ConfidenceOk(rec.fields["confidence"])
  }

  lemma {:induction false} EntriesOkAll(recs: seq<Json>, isIso: string -> bool)
    ensures EntriesOk(recs, isIso) <==> forall i :: 0 <= i < |recs| ==> EntryOk(recs[i], isIso)
    decreases |recs|
  {
    if recs != [] {
      EntriesOkAll(recs[1..], isIso);
      assert forall i :: 1 <= i < |recs| ==> recs[i] == recs[1..][i - 1];
    }
  }

  /** The check accepts exactly the well-formed answers. */
  lemma ValidateRecommendationExact(data: Json, isIso: string -> bool)
    ensures ValidateRecommendation(data, isIso) <==> WellFormed(data, isIso)
  {
    if data.JObj? && "recommendations" in data.fields && data.fields["recommendations"].JList? {
      EntriesOkAll(data.fields["recommendations"].items, isIso);
    }
  }

  /** Two recommendations, or a confidence of 0, are refused. */
  lemma ShapeViolations(rec: Json, isIso: string -> bool)
    ensures !ValidateRecommendation(JObj(map["recommendations" := JList([rec, rec])]), isIso)
    ensures !ValidateRecommendation(JObj(map["recommendations" := JList([rec, rec, JObj(map[
      "datetime" := JStr("2025-01-01T10:00"), "reason" := JStr(""), "confidence" := JInt(0)])])]), isIso)
  {
    var bad := JObj(map["datetime" := JStr("2025-01-01T10:00"), "reason" := JStr(""), "confidence" := JInt(0)]);
    var recs := [rec, rec, bad];
    ValidateRecommendationExact(JObj(map["recommendations" := JList(recs)]), isIso);
    assert !ConfidenceOk(recs[2].fields["confidence"]);
  }

  // ---------------------------------------------------------------------------
  // Reading the answer

  /** Index of the last `c` in `s`, or -1. */
  function LastIndexOf(s: string, c: char): (k: int)
    ensures -1 <= k < |s|
    ensures k >= 0 ==> s[k] == c && forall j :: k < j < |s| ==> s[j] != c
    ensures k < 0 ==> c !in s
  {
    if s == [] then -1
    else if s[|s| - 1] == c then |s| - 1
    else LastIndexOf(s[..|s| - 1], c)
  }

  /** `re.search(r"\{.*\}", text, re.DOTALL)`: from the first '{' to the last '}' after it;
      None when there is no such pair. */
  function BraceBlock(text: string): (r: Option<string>)
    ensures r.Some? ==>
      (|r.value| >= 2 && r.value[0] == '{' && r.value[|r.value| - 1] == '}' && Contains(text, r.value))
  {
    if '{' !in text then None
    else
      var i := IndexOfChar(text, '{');
      var j := LastIndexOf(text, '}');
      if j <= i then None
      else
        assert OccursAt(text, text[i..j + 1], i);
        Some(text[i..j + 1])
  }

  /** A reply that is itself one object text is taken whole. */
  lemma WholeObjectTaken(text: string)
    requires |text| >= 2 && text[0] == '{' && text[|text| - 1] == '}'
    ensures BraceBlock(text) == Some(text)
  {
    assert text[..|text|] == text;
  }

  /** What is handed to `json.loads`: the brace block, else the whole text. */
  function JsonText(text: string): string {
    match BraceBlock(text)
    case Some(block) => block
    case None => text
  }

  /** `recommend_times`. None without an AI agent, when no attendee declined with offered
      times, when the AI call fails or answers nothing (`reply` None or empty), when the
      text does not decode (`decode` is `json.loads`, None for a decoding error) or when the
      decoded answer is not well formed; otherwise the decoded answer. */
  function RecommendTimes(meeting: Meeting, hasAgent: bool, reply: Option<string>,
                          decode: string -> Option<Json>, isIso: string -> bool): (r: Option<Json>)
    ensures r.Some? ==> hasAgent && Offers(meeting.attendees) != [] && WellFormed(r.value, isIso)
    ensures r.Some? <==>
      hasAgent && Offers(meeting.attendees) != [] && reply.Some? && Strip(reply.value) != ""
      && decode(JsonText(Strip(reply.value))).Some?
      && WellFormed(decode(JsonText(Strip(reply.value))).value, isIso)
  {
    if !hasAgent || Offers(meeting.attendees) == [] || reply.None? || Strip(reply.value) == "" then None
    else
      var data := decode(JsonText(Strip(reply.value)));
      ValidateRecommendationExact(if data.Some? then data.value else JNull, isIso);
      if data.None? || !ValidateRecommendation(data.value, isIso) then None
      else data
  }

  /** Nobody who declined with offered times means no recommendation, whatever the AI says. */
  lemma NoDeclinersNoAdvice(meeting: Meeting, hasAgent: bool, reply: Option<string>,
                            decode: string -> Option<Json>, isIso: string -> bool)
    requires forall j :: 0 <= j < |meeting.attendees| ==> !CanOffer(meeting.attendees[j])
    ensures RecommendTimes(meeting, hasAgent, reply, decode, isIso).None?
  {
  }
}
