/** The quiz record as server/store.js persists it, the extractor's reply it
    is built from, and the partial update that `updateQuiz` spreads over it. */
module Quizzes {
  import opened Js

  datatype Poc = Poc(name: Option<string>, phone: Option<string>, whatsapp: Option<string>)

  const NoPoc := Poc(None, None, None)

  /** One element of quizzes.json. Properties that a writer may leave out are
      Options; `status` and the string lists are always written by the code
      paths modelled here. */
  datatype Quiz = Quiz(
    id: string,
    status: string,
    confidence: Option<real>,
    name: string,
    description: string,
    date: Option<string>,
    time: Option<string>,
    venue: Option<string>,
    venueMapLink: Option<string>,
    eligibility: seq<string>,
    eligibilityCategories: seq<string>,
    hostingOrg: Option<string>,
    quizMasters: seq<string>,
    poc: Poc,
    regLink: Option<string>,
    instagramLink: Option<string>,
    teamSize: Option<int>,
    crossCollege: Option<bool>,
    mode: Option<string>,
    city: Option<string>,
    source: Option<string>,
    sourceId: Option<string>,
    sourceGroupId: Option<string>,
    sourceUsername: Option<string>,
    posterImage: Option<string>,
    sourceCaption: Option<string>,
    sourceMessageId: Option<string>,
    sourceTimestamp: Option<string>,
    createdAt: string,
    updatedAt: string,
    extractedFields: seq<string>)

  /** A JSON property that should hold a number: missing (`undefined`),
      `null`, or a number. */
  datatype JsonNumber = Undefined | Null | Number(value: real)

  /** The JSON object the extractor returns; every property may be missing. */
  datatype Extraction = Extraction(
    name: Option<string>,
    description: Option<string>,
    date: Option<string>,
    time: Option<string>,
    venue: Option<string>,
    venueMapLink: Option<string>,
    eligibility: Option<seq<string>>,
    eligibilityCategories: Option<seq<string>>,
    hostingOrg: Option<string>,
    quizMasters: Option<seq<string>>,
    poc: Option<Poc>,
    regLink: Option<string>,
    instagramLink: Option<string>,
    teamSize: Option<int>,
    crossCollege: Option<bool>,
    mode: Option<string>,
    city: Option<string>,
    confidence: JsonNumber,
    extractedFields: Option<seq<string>>)

  /** What an extractor call does: it throws, or it returns null or a record. */
  datatype Reply = Threw | Returned(result: Option<Extraction>)

  /** The fields an update may carry (the keys the update schema keeps);
      None means the key is absent, so the stored value is kept. */
  datatype Patch = Patch(
    status: Option<string>,
    confidence: Option<real>,
    name: Option<string>,
    description: Option<string>,
    date: Option<Option<string>>,
    time: Option<Option<string>>,
    venue: Option<Option<string>>,
    venueMapLink: Option<Option<string>>,
    eligibility: Option<seq<string>>,
    eligibilityCategories: Option<seq<string>>,
    hostingOrg: Option<Option<string>>,
    quizMasters: Option<seq<string>>,
    poc: Option<Poc>,
    regLink: Option<Option<string>>,
    instagramLink: Option<Option<string>>,
    posterImage: Option<Option<string>>,
    updatedAt: Option<string>,
    extractedFields: Option<seq<string>>)

  const EmptyPatch := Patch(None, None, None, None, None, None, None, None, None,
                            None, None, None, None, None, None, None, None, None)

  function Over<T>(cur: T, p: Option<T>): T {
    if p.Some? then p.value else cur
  }

  /** `{ ...q, ...p }`: each key present in the patch replaces the stored value. */
  function ApplyPatch(q: Quiz, p: Patch): Quiz {
    q.(status := Over(q.status, p.status),
       confidence := if p.confidence.Some? then p.confidence else q.confidence,
       name := Over(q.name, p.name),
       description := Over(q.description, p.description),
       date := Over(q.date, p.date),
       time := Over(q.time, p.time),
       venue := Over(q.venue, p.venue),
       venueMapLink := Over(q.venueMapLink, p.venueMapLink),
       eligibility := Over(q.eligibility, p.eligibility),
       eligibilityCategories := Over(q.eligibilityCategories, p.eligibilityCategories),
       hostingOrg := Over(q.hostingOrg, p.hostingOrg),
       quizMasters := Over(q.quizMasters, p.quizMasters),
       poc := Over(q.poc, p.poc),
       regLink := Over(q.regLink, p.regLink),
       instagramLink := Over(q.instagramLink, p.instagramLink),
       posterImage := Over(q.posterImage, p.posterImage),
       updatedAt := Over(q.updatedAt, p.updatedAt),
       extractedFields := Over(q.extractedFields, p.extractedFields))
  }

  /** An empty patch changes nothing, and a patch applied twice is applied once. */
  lemma ApplyPatchLaws(q: Quiz, p: Patch)
    ensures ApplyPatch(q, EmptyPatch) == q
    ensures ApplyPatch(ApplyPatch(q, p), p) == ApplyPatch(q, p)
    ensures ApplyPatch(q, p).id == q.id && ApplyPatch(q, p).createdAt == q.createdAt
  {
  }
}
