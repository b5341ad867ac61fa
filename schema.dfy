/** server/schemas/quiz.js: the zod object schemas for a quiz, an update and
    a create request, as validators from a parsed JSON body to the object
    zod returns (unknown keys stripped, defaults filled in). zod's `uuid` and
    `url` string checks are parameters. */
module Schema {
  import opened Js

  /** A JSON value; an object's keys are a map (their order is not modelled). */
  datatype Json =
    | JNull
    | JBool(b: bool)
    | JNum(n: real)
    | JStr(s: string)
    | JArr(items: seq<Json>)
    | JObj(fields: map<string, Json>)

  /** The two string formats zod checks with its own rules. */
  datatype Formats = Formats(isUuid: string -> bool, isUrl: string -> bool)

  /** `EligibilityCategory`. */
  const EligibilityCategories: seq<string> := [
    "U18", "U23", "U25", "U30", "Open", "DU Only", "JNU Only", "University Restricted",
    "UG", "PG", "Research", "Custom"]

  const Statuses: seq<string> := ["published", "draft", "flagged"]

  /** What a property's validator accepts. */
  datatype Kind =
    | Str              // z.string()
    | NonEmptyStr      // z.string().min(1)
    | UuidStr          // z.string().uuid()
    | UrlStr           // z.string().url()
    | Fraction         // z.number().min(0).max(1)
    | StatusName       // z.enum(['published', 'draft', 'flagged'])
    | StrList          // z.array(z.string())
    | CategoryList     // z.array(EligibilityCategory)
    | PocRecord        // z.object({ name, phone, whatsapp })

  /** One property of an object schema: its key, validator, whether null is
      accepted and the value used when the key is missing. */
  datatype Field = Field(key: string, kind: Kind, nullable: bool, default: Option<Json>)

  predicate IsStr(v: Json) { v.JStr? }

  predicate IsStrList(v: Json) {
    v.JArr? && forall i :: 0 <= i < |v.items| ==> v.items[i].JStr?
  }

  predicate IsCategoryList(v: Json) {
    v.JArr? && forall i :: 0 <= i < |v.items| ==> v.items[i].JStr? && v.items[i].s in EligibilityCategories
  }

  /** The `poc` object: three nullable strings defaulting to null. */
  const PocFields: seq<Field> := [
    Field("name", Str, true, Some(JNull)),
    Field("phone", Str, true, Some(JNull)),
    Field("whatsapp", Str, true, Some(JNull))]

  /** `QuizSchema`, in declaration order. */
  const QuizFields: seq<Field> := [
    Field("id", UuidStr, false, None),
    Field("status", StatusName, false, Some(JStr("published"))),
    Field("confidence", Fraction, false, None),
    Field("name", NonEmptyStr, false, None),
    Field("description", Str, false, Some(JStr(""))),
    Field("date", Str, true, Some(JNull)),
    Field("time", Str, true, Some(JNull)),
    Field("venue", Str, true, Some(JNull)),
    Field("venueMapLink", UrlStr, true, Some(JNull)),
    Field("eligibility", StrList, false, Some(JArr([]))),
    Field("eligibilityCategories", CategoryList, false, Some(JArr([]))),
    Field("hostingOrg", Str, true, Some(JNull)),
    Field("quizMasters", StrList, false, Some(JArr([]))),
    Field("poc", PocRecord, false, Some(JObj(map[]))),
    Field("regLink", UrlStr, true, Some(JNull)),
    Field("instagramLink", UrlStr, true, Some(JNull)),
    Field("posterImage", Str, true, Some(JNull)),
    Field("sourceMessageId", Str, false, None),
    Field("sourceTimestamp", Str, false, None),
    Field("createdAt", Str, false, None),
    Field("updatedAt", Str, false, None),
    Field("extractedFields", StrList, false, Some(JArr([])))]

  /** The result of one property: left out of the output, a value, or a
      validation error. */
  datatype FieldResult = Omitted | Value(v: Json) | Invalid

  /** 1 for the nested object kind, 0 for the others. */
  function KindRank(k: Kind): nat {
    if k.PocRecord? then 1 else 0
  }

  function FieldsRank(fields: seq<Field>): nat {
    if |fields| == 0 then 0
    else
      var r := FieldsRank(fields[1..]);
      if KindRank(fields[0].kind) > r then KindRank(fields[0].kind) else r
  }

  /** Validates one value of the given kind (never null here). */
  function ParseKind(kind: Kind, v: Json, formats: Formats): (r: Option<Json>)
    ensures kind != PocRecord ==> (r.Some? ==> r == Some(v))
    ensures r.Some? ==> !r.value.JNull?
    decreases KindRank(kind), 0, 0
  {
    match kind
    case Str => if v.JStr? then Some(v) else None
    case NonEmptyStr => if v.JStr? && |v.s| >= 1 then Some(v) else None
    case UuidStr => if v.JStr? && formats.isUuid(v.s) then Some(v) else None
    case UrlStr => if v.JStr? && formats.isUrl(v.s) then Some(v) else None
    case Fraction => if v.JNum? && 0.0 <= v.n <= 1.0 then Some(v) else None
    case StatusName => if v.JStr? && v.s in Statuses then Some(v) else None
    case StrList => if IsStrList(v) then Some(v) else None
    case CategoryList => if IsCategoryList(v) then Some(v) else None
    case PocRecord =>
      if v.JObj? then
        assert FieldsRank(PocFields) == 0 by {
          assert PocFields[1..][1..][1..] == [];
        }
        var p := ParseFields(PocFields, v.fields, false, formats);
        if p.Some? then Some(JObj(p.value)) else None
      else None
  }

  /** Validates the property `f` of the object `obj`. A missing key takes
      the default, or is an error when there is none; under `partial()`
      a missing key is left out and no default applies. */
  function ParseField(f: Field, obj: map<string, Json>, partial: bool, formats: Formats): (r: FieldResult)
    ensures r.Omitted? <==> f.key !in obj && partial
    ensures f.key !in obj && !partial && f.default.None? ==> r.Invalid?
    ensures f.key in obj && obj[f.key].JNull? ==> (r.Value? <==> f.nullable)
    ensures r.Value? && r.v.JNull? ==> f.nullable
    decreases KindRank(f.kind), 1, 0
  {
    if f.key !in obj then
      if partial then Omitted
      else if f.default.None? then Invalid
      else
        var p := ParseKindOrNull(f, f.default.value, formats);
        if p.Some? then Value(p.value) else Invalid
    else
      var p := ParseKindOrNull(f, obj[f.key], formats);
      if p.Some? then Value(p.value) else Invalid
  }

  /** `.nullable()` in front of the kind's own validator. */
  function ParseKindOrNull(f: Field, v: Json, formats: Formats): (r: Option<Json>)
    ensures v.JNull? ==> (r.Some? <==> f.nullable) && (r.Some? ==> r.value == JNull)
    ensures r.Some? && r.value.JNull? ==> f.nullable && v.JNull?
    decreases KindRank(f.kind), 0, 1
  {
    if v.JNull? then (if f.nullable then Some(JNull) else None)
    else ParseKind(f.kind, v, formats)
  }

  /** The keys of a field list. */
  function Keys(fields: seq<Field>): set<string> {
    set i | 0 <= i < |fields| :: fields[i].key
  }

  /** The object zod returns for `obj`, or None when a property fails.
      Keys outside the schema are dropped. */
  function ParseFields(fields: seq<Field>, obj: map<string, Json>, partial: bool,
                       formats: Formats): (r: Option<map<string, Json>>)
    ensures r.Some? ==> r.value.Keys <= Keys(fields)
    ensures r.Some? && partial ==> r.value.Keys <= obj.Keys
    decreases FieldsRank(fields), 2, |fields|
  {
    if |fields| == 0 then Some(map[])
    else
      var rest := ParseFields(fields[1..], obj, partial, formats);
      var f := ParseField(fields[0], obj, partial, formats);
      if rest.None? || f.Invalid? then None
      else
        assert Keys(fields) == {fields[0].key} + Keys(fields[1..]) by {
          assert forall i :: 1 <= i < |fields| ==> fields[i] == fields[1..][i - 1];
        }
        assert forall i :: 1 <= i < |fields| ==> fields[i] == fields[1..][i - 1];
        Some(if f.Omitted? then rest.value else rest.value[fields[0].key := f.v])
  }

  /** The fields without the given keys (`omit`). */
  function Omit(fields: seq<Field>, keys: set<string>): (r: seq<Field>)
    ensures forall i :: 0 <= i < |r| ==> r[i].key !in keys && r[i] in fields
    ensures forall i :: 0 <= i < |fields| && fields[i].key !in keys ==> fields[i] in r
  {
    if |fields| == 0 then []
    else (if fields[0].key in keys then [] else [fields[0]]) + Omit(fields[1..], keys)
  }

  const UpdateOmitted := {"id", "sourceMessageId", "sourceTimestamp", "createdAt"}
  const CreateOmitted := {"id", "createdAt", "updatedAt", "sourceMessageId", "sourceTimestamp",
                          "confidence", "extractedFields"}

  /** `QuizSchema.safeParse(body)`. */
  function ParseQuiz(body: Json, formats: Formats): Option<map<string, Json>> {
    if body.JObj? then ParseFields(QuizFields, body.fields, false, formats) else None
  }

  /** `QuizUpdateSchema.safeParse(body)`. */
  function ParseUpdate(body: Json, formats: Formats): Option<map<string, Json>> {
    if body.JObj? then ParseFields(Omit(QuizFields, UpdateOmitted), body.fields, true, formats) else None
  }

  /** `QuizCreateSchema.safeParse(body)`. */
  function ParseCreate(body: Json, formats: Formats): Option<map<string, Json>> {
    if body.JObj? then ParseFields(Omit(QuizFields, CreateOmitted), body.fields, false, formats) else None
  }

  ghost predicate DistinctKeys(fields: seq<Field>) {
    forall i, j :: 0 <= i < j < |fields| ==> fields[i].key != fields[j].key
  }

  /** Splitting distinct keys into the first field and the rest. */
  lemma HeadTail(fields: seq<Field>)
    requires DistinctKeys(fields) && |fields| > 0
    ensures DistinctKeys(fields[1..])
    ensures forall f :: f in fields[1..] ==> f.key != fields[0].key
    ensures forall f :: f in fields ==> f == fields[0] || f in fields[1..]
    ensures fields[0].key !in Keys(fields[1..])
  {
    var tail, head := fields[1..], fields[0];
    assert DistinctKeys(tail) by {
      forall i, j | 0 <= i < j < |tail| ensures tail[i].key != tail[j].key {
        assert tail[i] == fields[i + 1] && tail[j] == fields[j + 1];
      }
    }
    forall f | f in tail ensures f.key != head.key {
      var j :| 0 <= j < |tail| && tail[j] == f;
      assert fields[j + 1] == f;
    }
    forall f | f in fields ensures f == head || f in tail {
      var j :| 0 <= j < |fields| && fields[j] == f;
      if j > 0 {
        assert tail[j - 1] == f;
      }
    }
    forall i | 0 <= i < |tail| ensures tail[i].key != head.key {
      assert tail[i] in tail;
    }
  }

  /** Over distinct keys, the object parses exactly when every property
      does, and then holds each property's value under its key. */
  lemma ParseFieldsSpec(fields: seq<Field>, obj: map<string, Json>, partial: bool,
                        formats: Formats)
    requires DistinctKeys(fields)
    ensures ParseFields(fields, obj, partial, formats).Some? <==>
              forall f :: f in fields ==> !ParseField(f, obj, partial, formats).Invalid?
    ensures ParseFields(fields, obj, partial, formats).Some? ==>
              var r := ParseFields(fields, obj, partial, formats).value;
              forall f :: f in fields ==>
                (f.key in r <==> ParseField(f, obj, partial, formats).Value?)
                && (f.key in r ==> r[f.key] == ParseField(f, obj, partial, formats).v)
  {
    ParseFieldsAccepts(fields, obj, partial, formats);
    if ParseFields(fields, obj, partial, formats).Some? {
      ParseFieldsValues(fields, obj, partial, formats);
    }
  }

  /** The object parses exactly when every property does. */
  lemma {:induction false} ParseFieldsAccepts(fields: seq<Field>, obj: map<string, Json>, partial: bool,
                                              formats: Formats)
    ensures ParseFields(fields, obj, partial, formats).Some? <==>
              forall f :: f in fields ==> !ParseField(f, obj, partial, formats).Invalid?
    decreases |fields|
  {
    if |fields| > 0 {
      var tail := fields[1..];
      ParseFieldsAccepts(tail, obj, partial, formats);
      assert forall f :: f in fields ==> f == fields[0] || f in tail by {
        forall f | f in fields ensures f == fields[0] || f in tail {
          var j :| 0 <= j < |fields| && fields[j] == f;
          if j > 0 {
            assert tail[j - 1] == f;
          }
        }
      }
      assert fields[0] in fields;
    }
  }

  /** A parsed object holds each property's value under its key, and
      nothing under the key of an omitted property. */
  lemma {:induction false} ParseFieldsValues(fields: seq<Field>, obj: map<string, Json>, partial: bool,
                                             formats: Formats)
    requires DistinctKeys(fields)
    requires ParseFields(fields, obj, partial, formats).Some?
    ensures var r := ParseFields(fields, obj, partial, formats).value;
              forall f :: f in fields ==>
                (f.key in r <==> ParseField(f, obj, partial, formats).Value?)
                && (f.key in r ==> r[f.key] == ParseField(f, obj, partial, formats).v)
    decreases |fields|
  {
    if |fields| > 0 {
      var tail := fields[1..];
      var head := fields[0];
      HeadTail(fields);
      var r := ParseFields(fields, obj, partial, formats).value;
      var rest := ParseFields(tail, obj, partial, formats);
      var h := ParseField(head, obj, partial, formats);
      assert rest.Some? && !h.Invalid?;
      ParseFieldsValues(tail, obj, partial, formats);
      assert r == if h.Omitted? then rest.value else rest.value[head.key := h.v];
      assert head.key !in rest.value;
      forall f | f in fields
        ensures (f.key in r <==> ParseField(f, obj, partial, formats).Value?)
                && (f.key in r ==> r[f.key] == ParseField(f, obj, partial, formats).v)
      {
        if f != head {
          assert f in tail && f.key != head.key;
        }
      }
    }
  }

  /** Leaving keys out keeps the remaining keys distinct. */
  lemma {:induction false} OmitDistinct(fields: seq<Field>, keys: set<string>)
    requires DistinctKeys(fields)
    ensures DistinctKeys(Omit(fields, keys))
    decreases |fields|
  {
    if |fields| > 0 {
      var tail := fields[1..];
      assert DistinctKeys(tail) by {
        forall i, j | 0 <= i < j < |tail| ensures tail[i].key != tail[j].key {
          assert tail[i] == fields[i + 1] && tail[j] == fields[j + 1];
        }
      }
      OmitDistinct(tail, keys);
      var rest := Omit(tail, keys);
      forall i | 0 <= i < |rest| ensures rest[i].key != fields[0].key {
        var j :| 0 <= j < |tail| && tail[j] == rest[i];
        assert fields[j + 1] == rest[i];
      }
    }
  }

  lemma QuizKeysDistinct()
    ensures DistinctKeys(QuizFields)
  {
    FirstKeysDistinct();
    FirstKeysAbsentLater();
    LaterKeysDistinct();
  }

  lemma FirstKeysDistinct()
    ensures forall i, j :: 0 <= i < j < 11 ==> QuizFields[i].key != QuizFields[j].key
  {
  }

  lemma FirstKeysAbsentLater()
    ensures forall i, j :: 0 <= i < 11 <= j < |QuizFields| ==> QuizFields[i].key != QuizFields[j].key
  {
  }

  lemma LaterKeysDistinct()
    ensures forall i, j :: 11 <= i < j < |QuizFields| ==> QuizFields[i].key != QuizFields[j].key
  {
  }

  /** `Keys` of a sublist lie outside the keys it leaves out. */
  lemma OmitKeys(fields: seq<Field>, keys: set<string>)
    ensures Keys(Omit(fields, keys)) !! keys
  {
    var r := Omit(fields, keys);
    forall k | k in Keys(r) ensures k !in keys {
      var i :| 0 <= i < |r| && r[i].key == k;
    }
  }

  /** Under `partial()` an empty object parses to an empty object. */
  lemma {:induction false} PartialOfEmpty(fields: seq<Field>, formats: Formats)
    ensures ParseFields(fields, map[], true, formats) == Some(map[])
    decreases |fields|
  {
    if |fields| > 0 {
      PartialOfEmpty(fields[1..], formats);
    }
  }

  /** The update schema: every property is optional, so `{}` is accepted and
      a key absent from the body is absent from the result (no defaults);
      the result never holds id, sourceMessageId, sourceTimestamp or createdAt. */
  lemma UpdateSchemaSpec(body: Json, formats: Formats)
    ensures ParseUpdate(JObj(map[]), formats) == Some(map[])
    ensures ParseUpdate(body, formats).Some? ==>
              var r := ParseUpdate(body, formats).value;
              r.Keys <= body.fields.Keys && r.Keys !! UpdateOmitted
  {
    PartialOmitted(QuizFields, UpdateOmitted, body, formats);
  }

  /** A `partial()` schema with some keys omitted accepts `{}`, and what it
      returns holds only keys of the body and none of the omitted ones. */
  lemma PartialOmitted(fields: seq<Field>, keys: set<string>, body: Json, formats: Formats)
    ensures ParseFields(Omit(fields, keys), map[], true, formats) == Some(map[])
    ensures body.JObj? && ParseFields(Omit(fields, keys), body.fields, true, formats).Some? ==>
              var r := ParseFields(Omit(fields, keys), body.fields, true, formats).value;
              r.Keys <= body.fields.Keys && r.Keys !! keys
  {
    PartialOfEmpty(Omit(fields, keys), formats);
    OmitKeys(fields, keys);
  }

  /** The poc object a create request gets when it sends none. */
  const NullPoc := JObj(map["name" := JNull, "phone" := JNull, "whatsapp" := JNull])

  lemma PocDefault(formats: Formats)
    ensures ParseKind(PocRecord, JObj(map[]), formats) == Some(NullPoc)
  {
    var f0 := PocFields[0];
    var f1 := PocFields[1];
    var f2 := PocFields[2];
    assert PocFields[1..][1..][1..] == [];
    assert ParseFields(PocFields[2..], map[], false, formats) == Some(map["whatsapp" := JNull]);
    assert PocFields[1..][1..] == PocFields[2..];
    assert ParseFields(PocFields[1..], map[], false, formats)
        == Some(map["whatsapp" := JNull]["phone" := JNull]);
    assert ParseFields(PocFields, map[], false, formats)
        == Some(map["whatsapp" := JNull]["phone" := JNull]["name" := JNull]);
    assert map["whatsapp" := JNull]["phone" := JNull]["name" := JNull]
        == map["name" := JNull, "phone" := JNull, "whatsapp" := JNull];
  }

  /** The properties `QuizCreateSchema` keeps. */
  function CreateFields(): seq<Field> {
    Omit(QuizFields, CreateOmitted)
  }

  lemma CreateFieldsDistinct()
    ensures DistinctKeys(CreateFields())
  {
    QuizKeysDistinct();
    OmitDistinct(QuizFields, CreateOmitted);
  }

  /** A property of `QuizSchema` the create schema does not omit is kept. */
  lemma CreateKeeps(i: nat)
    requires i < |QuizFields| && QuizFields[i].key !in CreateOmitted
    ensures QuizFields[i] in CreateFields()
  {
  }

  /** Every property the create schema keeps is in an accepted result,
      holding what that property's validator returned. */
  lemma CreatedValue(body: Json, formats: Formats, f: Field)
    requires body.JObj? && f in CreateFields() && ParseCreate(body, formats).Some?
    ensures ParseField(f, body.fields, false, formats).Value?
    ensures f.key in ParseCreate(body, formats).value
    ensures ParseCreate(body, formats).value[f.key] == ParseField(f, body.fields, false, formats).v
  {
    CreateFieldsDistinct();
    ParseFieldsSpec(CreateFields(), body.fields, false, formats);
  }

  /** The same, for the `i`-th property of `QuizSchema`. */
  lemma CreatedAt(body: Json, formats: Formats, i: nat)
    requires i < |QuizFields| && QuizFields[i].key !in CreateOmitted
    requires body.JObj? && ParseCreate(body, formats).Some?
    ensures ParseField(QuizFields[i], body.fields, false, formats).Value?
    ensures QuizFields[i].key in ParseCreate(body, formats).value
    ensures ParseCreate(body, formats).value[QuizFields[i].key]
            == ParseField(QuizFields[i], body.fields, false, formats).v
  {
    CreateKeeps(i);
    CreatedValue(body, formats, QuizFields[i]);
  }

  /** The same, for `QuizSchema` itself. */
  lemma QuizValue(obj: map<string, Json>, formats: Formats, i: nat)
    requires i < |QuizFields| && ParseFields(QuizFields, obj, false, formats).Some?
    ensures ParseField(QuizFields[i], obj, false, formats).Value?
    ensures QuizFields[i].key in ParseFields(QuizFields, obj, false, formats).value
    ensures ParseFields(QuizFields, obj, false, formats).value[QuizFields[i].key]
            == ParseField(QuizFields[i], obj, false, formats).v
  {
    QuizKeysDistinct();
    FieldValue(QuizFields, obj, false, formats, QuizFields[i]);
  }

  /** A property of a field list with distinct keys, in an accepted result. */
  lemma FieldValue(fields: seq<Field>, obj: map<string, Json>, partial: bool, formats: Formats, f: Field)
    requires DistinctKeys(fields) && f in fields && ParseFields(fields, obj, partial, formats).Some?
    ensures !ParseField(f, obj, partial, formats).Invalid?
    ensures f.key in ParseFields(fields, obj, partial, formats).value
            <==> ParseField(f, obj, partial, formats).Value?
    ensures f.key in ParseFields(fields, obj, partial, formats).value ==>
            ParseFields(fields, obj, partial, formats).value[f.key] == ParseField(f, obj, partial, formats).v
  {
    ParseFieldsSpec(fields, obj, partial, formats);
  }

  // What each property's validator gives, one property at a time.

  lemma IdFacts(obj: map<string, Json>, formats: Formats)
    ensures QuizFields[0].key == "id"
    ensures var p := ParseField(QuizFields[0], obj, false, formats);
            p.Value? ==> p.v.JStr? && formats.isUuid(p.v.s)
  {
  }

  lemma StatusFacts(obj: map<string, Json>, formats: Formats)
    ensures QuizFields[1].key == "status" && "status" !in CreateOmitted
    ensures var p := ParseField(QuizFields[1], obj, false, formats);
            p.Value? ==> p.v.JStr? && p.v.s in Statuses && ("status" !in obj ==> p.v == JStr("published"))
  {
  }

  lemma ConfidenceFacts(obj: map<string, Json>, formats: Formats)
    ensures QuizFields[2].key == "confidence"
    ensures var p := ParseField(QuizFields[2], obj, false, formats);
            p.Value? ==> p.v.JNum? && 0.0 <= p.v.n <= 1.0
  {
  }

  lemma NameFacts(obj: map<string, Json>, formats: Formats)
    ensures QuizFields[3].key == "name" && "name" !in CreateOmitted
    ensures var p := ParseField(QuizFields[3], obj, false, formats);
            (p.Value? ==> p.v.JStr? && |p.v.s| >= 1) && ("name" !in obj ==> p.Invalid?)
  {
  }

  lemma DescriptionFacts(obj: map<string, Json>, formats: Formats)
    ensures QuizFields[4].key == "description" && "description" !in CreateOmitted
    ensures "description" !in obj ==> ParseField(QuizFields[4], obj, false, formats) == Value(JStr(""))
  {
  }

  lemma DateFacts(obj: map<string, Json>, formats: Formats)
    ensures QuizFields[5].key == "date" && "date" !in CreateOmitted
    ensures "date" !in obj ==> ParseField(QuizFields[5], obj, false, formats) == Value(JNull)
  {
  }

  lemma EligibilityFacts(obj: map<string, Json>, formats: Formats)
    ensures QuizFields[9].key == "eligibility" && "eligibility" !in CreateOmitted
    ensures var p := ParseField(QuizFields[9], obj, false, formats);
            (p.Value? ==> IsStrList(p.v)) && ("eligibility" !in obj ==> p == Value(JArr([])))
  {
  }

  lemma CategoriesFacts(obj: map<string, Json>, formats: Formats)
    ensures QuizFields[10].key == "eligibilityCategories"
    ensures var p := ParseField(QuizFields[10], obj, false, formats);
            p.Value? ==> IsCategoryList(p.v)
  {
  }

  lemma PocFacts(obj: map<string, Json>, formats: Formats)
    ensures QuizFields[13].key == "poc" && "poc" !in CreateOmitted
    ensures "poc" !in obj ==> ParseField(QuizFields[13], obj, false, formats) == Value(NullPoc)
  {
    PocDefault(formats);
  }

  /** The create schema requires a name. */
  lemma CreateRequiresName(body: Json, formats: Formats)
    ensures body.JObj? && "name" !in body.fields ==> ParseCreate(body, formats).None?
  {
    if body.JObj? && "name" !in body.fields && ParseCreate(body, formats).Some? {
      NameFacts(body.fields, formats);
      CreatedAt(body, formats, 3);
    }
  }

  /** What a create request yields for the properties `given`: no server-set
      key; a status among the three names, 'published' when none was given;
      a non-empty name; description '' when none was given. */
  predicate CreatedShape(r: map<string, Json>, given: map<string, Json>) {
    r.Keys !! CreateOmitted
    && "status" in r && r["status"].JStr? && r["status"].s in Statuses
    && ("status" !in given ==> r["status"] == JStr("published"))
    && "name" in r && r["name"].JStr? && |r["name"].s| >= 1
    && ("description" !in given ==> "description" in r && r["description"] == JStr(""))
  }

  /** The create schema: the server-set keys are stripped; status is one of
      the three names and defaults to 'published'; name is a non-empty
      string; description defaults to ''. */
  lemma CreateSchemaSpec(body: Json, formats: Formats)
    ensures ParseCreate(body, formats).Some? ==> CreatedShape(ParseCreate(body, formats).value, body.fields)
  {
    if ParseCreate(body, formats).Some? {
      OmitKeys(QuizFields, CreateOmitted);
      StatusFacts(body.fields, formats);
      NameFacts(body.fields, formats);
      DescriptionFacts(body.fields, formats);
      CreatedAt(body, formats, 1);
      CreatedAt(body, formats, 3);
      CreatedAt(body, formats, 4);
    }
  }

  /** The create schema's eligibility: [] when absent, a list of strings
      when given. */
  lemma CreateEligibility(body: Json, formats: Formats)
    ensures ParseCreate(body, formats).Some? ==>
              var r := ParseCreate(body, formats).value;
              "eligibility" in r && IsStrList(r["eligibility"])
              && ("eligibility" !in body.fields ==> r["eligibility"] == JArr([]))
  {
    if ParseCreate(body, formats).Some? {
      EligibilityFacts(body.fields, formats);
      CreatedAt(body, formats, 9);
    }
  }

  /** The create schema's other defaults: date null ... */
  lemma CreateDateDefault(body: Json, formats: Formats)
    ensures ParseCreate(body, formats).Some? && "date" !in body.fields ==>
              var r := ParseCreate(body, formats).value;
              "date" in r && r["date"] == JNull
  {
    if ParseCreate(body, formats).Some? {
      DateFacts(body.fields, formats);
      CreatedAt(body, formats, 5);
    }
  }

  /** ... and poc three nulls. */
  lemma CreatePocDefault(body: Json, formats: Formats)
    ensures ParseCreate(body, formats).Some? && "poc" !in body.fields ==>
              var r := ParseCreate(body, formats).value;
              "poc" in r && r["poc"] == NullPoc
  {
    if ParseCreate(body, formats).Some? {
      PocFacts(body.fields, formats);
      CreatedAt(body, formats, 13);
    }
  }

  /** The full schema: confidence lies in [0, 1], every eligibility category
      is one of the twelve enum values and the id passes the uuid check. */
  lemma QuizSchemaSpec(body: Json, formats: Formats)
    ensures ParseQuiz(body, formats).Some? ==>
              var r := ParseQuiz(body, formats).value;
              "confidence" in r && r["confidence"].JNum? && 0.0 <= r["confidence"].n <= 1.0
              && "eligibilityCategories" in r && IsCategoryList(r["eligibilityCategories"])
              && "id" in r && r["id"].JStr? && formats.isUuid(r["id"].s)
  {
    if ParseQuiz(body, formats).Some? {
      IdFacts(body.fields, formats);
      ConfidenceFacts(body.fields, formats);
      CategoriesFacts(body.fields, formats);
      QuizValue(body.fields, formats, 0);
      QuizValue(body.fields, formats, 2);
      QuizValue(body.fields, formats, 10);
    }
  }
}
