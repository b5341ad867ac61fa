/** The rules server/sync/whatsapp.js and server/sync/instagram.js share when
    they turn an extractor reply into a stored quiz: the confidence threshold,
    the status, the city and the fields copied from the reply. */
module Ingest {
  import opened Js
  import opened Quizzes

  /** `parseFloat(process.env.CONFIDENCE_THRESHOLD) || 0.7`, where `parsed`
      is None when parsing gives NaN (unset or not a number). */
  function EffectiveThreshold(parsed: Option<real>): (t: real)
    ensures parsed.Some? && parsed.value != 0.0 ==> t == parsed.value
    ensures parsed.None? || parsed.value == 0.0 ==> t == 0.7
  {
    if parsed.Some? && parsed.value != 0.0 then parsed.value else 0.7
  }

  /** How one message or post ended: skipped by the ledger check, nothing to
      send to the extractor, the extractor threw, the reply had no name, a
      similar quiz exists, or a new quiz was stored. */
  datatype Outcome = Skipped | NothingToExtract | ExtractionFailed | NoName | Similar | Added(quiz: Quiz)

  const Published := "published"
  const Flagged := "flagged"

  /** The number `>=` compares a confidence as: `undefined` converts to NaN
      (None here), `null` to 0. */
  function ToNumber(c: JsonNumber): (n: Option<real>)
    ensures n.None? <==> c.Undefined?
  {
    match c
    case Undefined => None
    case Null => Some(0.0)
    case Number(x) => Some(x)
  }

  /** `extracted.confidence >= threshold ? 'published' : 'flagged'`: a
      missing confidence compares false, and a null one as 0. */
  function StatusFor(confidence: JsonNumber, threshold: real): (s: string)
    ensures s == Published || s == Flagged
    ensures confidence.Undefined? ==> s == Flagged
    ensures confidence.Null? ==> (s == Published <==> threshold <= 0.0)
    ensures confidence.Number? ==> (s == Published <==> confidence.value >= threshold)
  {
    var n := ToNumber(confidence);
    if n.Some? && n.value >= threshold then Published else Flagged
  }

  /** A reply with `"confidence": null` is published exactly when the
      configured threshold is negative: zero and NaN fall back to 0.7. */
  lemma NullConfidencePublished(parsed: Option<real>)
    ensures StatusFor(Null, EffectiveThreshold(parsed)) == Published <==>
              parsed.Some? && parsed.value < 0.0
  {
  }

  /** `let quizCity = fallback || null; if (extracted.city) quizCity =
      extracted.city; else if (extracted.mode === 'online') quizCity = 'Online'`. */
  function ResolveCity(e: Extraction, fallback: Option<string>): (city: Option<string>)
    ensures Truthy(e.city) ==> city == e.city
    ensures !Truthy(e.city) && e.mode == Some("online") ==> city == Some("Online")
    ensures !Truthy(e.city) && e.mode != Some("online") ==> city == OrNull(fallback)
    ensures city.Some? ==> city.value != ""
  {
    var quizCity := OrNull(fallback);
    if Truthy(e.city) then e.city
    else if e.mode == Some("online") then Some("Online")
    else quizCity
  }

  /** The quiz literal both sync paths build, before the source-specific
      properties (source, ids, poster, caption, timestamps) are filled in. */
  function QuizFromExtraction(e: Extraction, id: string, threshold: real,
                              city: Option<string>, now: string): (q: Quiz)
    requires Truthy(e.name)
    ensures q.id == id && q.name == e.name.value && q.city == city
    ensures q.status == Published <==>
              (e.confidence.Number? && e.confidence.value >= threshold)
              || (e.confidence.Null? && threshold <= 0.0)
    ensures q.confidence.Some? <==> e.confidence.Number?
    ensures q.mode.Some? && (q.mode.value == "offline" || q.mode == e.mode)
  {
    Quiz(
      id := id,
      status := StatusFor(e.confidence, threshold),
      confidence := if e.confidence.Number? then Some(e.confidence.value) else None,
      name := e.name.value,
      description := StrOr(e.description, ""),
      date := e.date,
      time := e.time,
      venue := e.venue,
      venueMapLink := e.venueMapLink,
      eligibility := e.eligibility.GetOr([]),
      eligibilityCategories := e.eligibilityCategories.GetOr([]),
      hostingOrg := e.hostingOrg,
      quizMasters := e.quizMasters.GetOr([]),
      poc := e.poc.GetOr(NoPoc),
      regLink := e.regLink,
      instagramLink := e.instagramLink,
      teamSize := e.teamSize,
      crossCollege := e.crossCollege,
      mode := Some(StrOr(e.mode, "offline")),
      city := city,
      source := None,
      sourceId := None,
      sourceGroupId := None,
      sourceUsername := None,
      posterImage := None,
      sourceCaption := None,
      sourceMessageId := None,
      sourceTimestamp := None,
      createdAt := now,
      updatedAt := now,
      extractedFields := e.extractedFields.GetOr([]))
  }
}
