/** server/routes/quizzes.js: the public list with its filters and order, the
    public lookup by id, and the admin create, patch, publish and delete
    handlers over the store. The handlers run behind `requireAuth` (module
    Auth); the clock, uuid and sanitize-html are parameters. */
module Routes {
  import opened Js
  import opened Text
  import opened Seqs
  import opened Regex
  import opened Quizzes
  import opened Eligibility
  import opened Store

  /** The query string of `GET /`; each parameter may be missing. */
  datatype Query = Query(eligibility: Option<string>, org: Option<string>, upcoming: Option<string>,
                         search: Option<string>, mode: Option<string>, city: Option<string>)

  function IsPublished(): Quiz -> bool {
    (q: Quiz) => q.status == "published"
  }

  /** `q.city === city`. */
  function InCity(city: string): Quiz -> bool {
    (q: Quiz) => q.city == Some(city)
  }

  /** `q.eligibilityCategories.some(e => filters.includes(e))`. */
  function SharesCategory(filters: seq<string>): Quiz -> bool {
    (q: Quiz) => exists e :: e in q.eligibilityCategories && e in filters
  }

  /** `q.hostingOrg?.toLowerCase().includes(orgLower)`. */
  function FromOrg(orgLower: string): Quiz -> bool {
    (q: Quiz) => q.hostingOrg.Some? && Contains(Lower(q.hostingOrg.value), orgLower)
  }

  /** `!q.date || q.date >= today`, comparing strings. */
  function NotPast(today: string): Quiz -> bool {
    (q: Quiz) => !Truthy(q.date) || StrLe(today, q.date.value)
  }

  /** `/\bonline\b/i`. */
  const OnlineWord: Pattern := [Boundary, Lit("online"), Boundary]

  /** `q.mode || (q.venue && !/\bonline\b/i.test(q.venue) ? 'offline' : 'online')`. */
  function EffectiveMode(q: Quiz): (m: string)
    ensures Truthy(q.mode) ==> m == q.mode.value
    ensures !Truthy(q.mode) ==> (m == "offline" <==> Truthy(q.venue) && !Test(q.venue.value, OnlineWord))
    ensures !Truthy(q.mode) ==> m == "offline" || m == "online"
  {
    if Truthy(q.mode) then q.mode.value
    else if Truthy(q.venue) && !Test(q.venue.value, OnlineWord) then "offline"
    else "online"
  }

  function InMode(mode: string): Quiz -> bool {
    (q: Quiz) => EffectiveMode(q) == mode
  }

  /** The search filter: the lower-cased term in the name, the description,
      the organiser or one of the quiz masters. */
  function Mentions(s: string): Quiz -> bool {
    (q: Quiz) =>
      Contains(Lower(q.name), s) || Contains(Lower(q.description), s)
      || (q.hostingOrg.Some? && Contains(Lower(q.hostingOrg.value), s))
      || exists m :: m in q.quizMasters && Contains(Lower(m), s)
  }

  /** The comparator of `quizzes.sort`, as "a may come before b" (its
      result is at most 0): dated before undated, dated by date ascending,
      undated by createdAt descending. */
  predicate ListOrder(a: Quiz, b: Quiz) {
    if Truthy(a.date) && Truthy(b.date) then StrLe(a.date.value, b.date.value)
    else if Truthy(a.date) then true
    else if Truthy(b.date) then false
    else StrLe(b.createdAt, a.createdAt)
  }

  lemma ListOrderIsTotalOrder()
    ensures Total(ListOrder) && Transitive(ListOrder)
  {
    forall a, b ensures ListOrder(a, b) || ListOrder(b, a) {
      if Truthy(a.date) && Truthy(b.date) {
        StrLeTotal(a.date.value, b.date.value);
      } else if !Truthy(a.date) && !Truthy(b.date) {
        StrLeTotal(a.createdAt, b.createdAt);
      }
    }
    forall a, b, c | ListOrder(a, b) && ListOrder(b, c) ensures ListOrder(a, c) {
      if Truthy(a.date) && Truthy(b.date) && Truthy(c.date) {
        StrLeTrans(a.date.value, b.date.value, c.date.value);
      } else if !Truthy(a.date) && !Truthy(b.date) && !Truthy(c.date) {
        StrLeTrans(c.createdAt, b.createdAt, a.createdAt);
      }
    }
  }

  /** Which stored quizzes `GET /` lists, one query parameter at a time. */
  predicate Listed(query: Query, today: string, q: Quiz) {
    q.status == "published" && KeptByCity(query, q) && KeptByEligibility(query, q)
    && KeptByOrg(query, q) && KeptByDate(query, today, q) && KeptByMode(query, q)
    && KeptBySearch(query, q)
  }

  predicate KeptByCity(query: Query, q: Quiz) {
    Truthy(query.city) ==> q.city == query.city
  }

  predicate KeptByEligibility(query: Query, q: Quiz) {
    Truthy(query.eligibility) ==>
      exists e :: e in q.eligibilityCategories && e in Split(query.eligibility.value, ',')
  }

  predicate KeptByOrg(query: Query, q: Quiz) {
    Truthy(query.org) ==> q.hostingOrg.Some? && Contains(Lower(q.hostingOrg.value), Lower(query.org.value))
  }

  predicate KeptByDate(query: Query, today: string, q: Quiz) {
    query.upcoming == Some("true") ==> !Truthy(q.date) || StrLe(today, q.date.value)
  }

  predicate KeptByMode(query: Query, q: Quiz) {
    Truthy(query.mode) ==> EffectiveMode(q) == query.mode.value
  }

  predicate KeptBySearch(query: Query, q: Quiz) {
    Truthy(query.search) ==> Mentions(Lower(query.search.value))(q)
  }

  /** The quizzes the first two filters keep: published, of the city. */
  function KeptAtStart(query: Query): Quiz -> bool {
    (q: Quiz) => q.status == "published" && KeptByCity(query, q)
  }

  /** The quizzes the eligibility and org filters keep. */
  function KeptByTags(query: Query): Quiz -> bool {
    (q: Quiz) => KeptByEligibility(query, q) && KeptByOrg(query, q)
  }

  /** The quizzes the upcoming, mode and search filters keep. */
  function KeptByContent(query: Query, today: string): Quiz -> bool {
    (q: Quiz) => KeptByDate(query, today, q) && KeptByMode(query, q) && KeptBySearch(query, q)
  }

  /** The quizzes `GET /` lists. */
  function ListedBy(query: Query, today: string): Quiz -> bool {
    (q: Quiz) => Listed(query, today, q)
  }

  /** One `quizzes = quizzes.filter(p)` step, taken when its parameter is
      given: the result is the filter by what `kept` allows, keeping every
      quiz kept as often and in the order it came. */
  lemma FilterStep(s: seq<Quiz>, on: bool, p: Quiz -> bool, kept: Quiz -> bool)
    requires forall q :: kept(q) <==> (on ==> p(q))
    ensures (if on then Filter(s, p) else s) == Filter(s, kept)
  {
    if on {
      FilterExt(s, p, kept);
    } else {
      FilterAll(s, kept);
    }
  }

  /** The start of the filter chain of `GET /`: published, then the city. */
  method FilterByCity(quizzes: seq<Quiz>, query: Query) returns (r: seq<Quiz>)
    ensures r == Filter(quizzes, KeptAtStart(query))
    ensures forall q :: q in r <==> (q in quizzes && q.status == "published" && KeptByCity(query, q))
  {
    var r0 := Filter(quizzes, IsPublished());
    var city := StrOr(query.city, "");
    var kept := (q: Quiz) => KeptByCity(query, q);
    FilterStep(r0, Truthy(query.city), InCity(city), kept);
    FilterFilter(quizzes, IsPublished(), kept, KeptAtStart(query));
    r := if Truthy(query.city) then Filter(r0, InCity(city)) else r0;
  }

  /** The eligibility and org filters. */
  method FilterByTags(quizzes: seq<Quiz>, query: Query) returns (r: seq<Quiz>)
    ensures r == Filter(quizzes, KeptByTags(query))
    ensures forall q :: q in r <==> (q in quizzes && KeptByEligibility(query, q) && KeptByOrg(query, q))
  {
    var filters := Split(StrOr(query.eligibility, ""), ',');
    var byTag := (q: Quiz) => KeptByEligibility(query, q);
    FilterStep(quizzes, Truthy(query.eligibility), SharesCategory(filters), byTag);
    var r0 := if Truthy(query.eligibility) then Filter(quizzes, SharesCategory(filters)) else quizzes;
    var orgLower := Lower(StrOr(query.org, ""));
    var byOrg := (q: Quiz) => KeptByOrg(query, q);
    FilterStep(r0, Truthy(query.org), FromOrg(orgLower), byOrg);
    FilterFilter(quizzes, byTag, byOrg, KeptByTags(query));
    r := if Truthy(query.org) then Filter(r0, FromOrg(orgLower)) else r0;
  }

  /** The rest of the chain: the upcoming, mode and search filters. */
  method FilterByContent(quizzes: seq<Quiz>, query: Query, today: string) returns (r: seq<Quiz>)
    ensures r == Filter(quizzes, KeptByContent(query, today))
    ensures forall q :: q in r <==> (q in quizzes
              && KeptByDate(query, today, q) && KeptByMode(query, q) && KeptBySearch(query, q))
  {
    var upcoming := query.upcoming == Some("true");
    var byDate := (q: Quiz) => KeptByDate(query, today, q);
    FilterStep(quizzes, upcoming, NotPast(today), byDate);
    var r0 := if upcoming then Filter(quizzes, NotPast(today)) else quizzes;
    var mode := StrOr(query.mode, "");
    var byMode := (q: Quiz) => KeptByMode(query, q);
    FilterStep(r0, Truthy(query.mode), InMode(mode), byMode);
    var r1 := if Truthy(query.mode) then Filter(r0, InMode(mode)) else r0;
    var s := Lower(StrOr(query.search, ""));
    var bySearch := (q: Quiz) => KeptBySearch(query, q);
    FilterStep(r1, Truthy(query.search), Mentions(s), bySearch);
    var byDateMode := (q: Quiz) => byDate(q) && byMode(q);
    FilterFilter(quizzes, byDate, byMode, byDateMode);
    FilterFilter(quizzes, byDateMode, bySearch, KeptByContent(query, today));
    r := if Truthy(query.search) then Filter(r1, Mentions(s)) else r1;
  }

  /** `GET /`. `today` is the date part of the current ISO time. The result
      holds exactly the stored quizzes the query selects, each as often as
      it is stored, in the order of the comparator. */
  method ListQuizzes(store: Store, query: Query, today: string) returns (result: seq<Quiz>)
    ensures multiset(result) == multiset(Filter(store.quizzes, ListedBy(query, today)))
    ensures forall q :: q in result <==> q in store.quizzes && Listed(query, today, q)
    ensures forall q :: q in result ==> q.status == "published"
    ensures forall i, j :: 0 <= i < j < |result| ==>
              (Truthy(result[j].date) ==> Truthy(result[i].date))
              && (Truthy(result[i].date) && Truthy(result[j].date) ==>
                    StrLe(result[i].date.value, result[j].date.value))
              && (!Truthy(result[i].date) && !Truthy(result[j].date) ==>
                    StrLe(result[j].createdAt, result[i].createdAt))
  {
    var inCity := FilterByCity(store.quizzes, query);
    var tagged := FilterByTags(inCity, query);
    var quizzes := FilterByContent(tagged, query, today);
    var byStartAndTags := (q: Quiz) => KeptAtStart(query)(q) && KeptByTags(query)(q);
    FilterFilter(store.quizzes, KeptAtStart(query), KeptByTags(query), byStartAndTags);
    FilterFilter(store.quizzes, byStartAndTags, KeptByContent(query, today), ListedBy(query, today));
    ListOrderIsTotalOrder();
    SortBySorted(quizzes, ListOrder);
    result := SortBy(quizzes, ListOrder);
    forall q ensures q in result <==> q in quizzes {
      assert q in result <==> q in multiset(result);
    }
    forall i, j | 0 <= i < j < |result| ensures ListOrder(result[i], result[j]) {
    }
  }

  /** `GET /:id`: 404 unless the first quiz with that id is published. */
  method GetQuiz(store: Store, id: string) returns (status: int, body: Option<Quiz>)
    ensures var idx := FindIndex(store.quizzes, HasId(id));
            (status == 404 <==> idx == -1 || store.quizzes[idx].status != "published")
            && (status != 404 ==> status == 200 && body == Some(store.quizzes[idx]))
            && (status == 404 ==> body.None?)
    ensures body.Some? ==> body.value.status == "published" && body.value.id == id && body.value in store.quizzes
  {
    var idx := store.FindQuizIndex(id);
    ghost var spec := FindIndex(store.quizzes, HasId(id));
    assert idx == spec;
    if idx == -1 || store.quizzes[idx].status != "published" {
      return 404, None;
    }
    return 200, Some(store.quizzes[idx]);
  }

  /** The body `QuizCreateSchema` lets through, as far as the handler uses
      it: the schema strips city, mode and every server-set property, and
      the categories it keeps are overwritten. */
  datatype NewQuiz = NewQuiz(
    status: string,
    name: string,
    description: string,
    date: Option<string>,
    time: Option<string>,
    venue: Option<string>,
    venueMapLink: Option<string>,
    eligibility: seq<string>,
    hostingOrg: Option<string>,
    quizMasters: seq<string>,
    poc: Poc,
    regLink: Option<string>,
    instagramLink: Option<string>,
    posterImage: Option<string>)

  /** `POST /`. `parsed` is None when validation fails; `sanitize` is
      sanitize-html, `newId` the uuid, `nowMillis` and `nowIso` the clock. */
  method CreateQuiz(store: Store, parsed: Option<NewQuiz>, sanitize: string -> string, newId: string,
                    nowMillis: nat, nowIso: string)
    returns (status: int, body: Option<Quiz>)
    modifies store
    ensures parsed.None? ==> status == 400 && body.None? && store.quizzes == old(store.quizzes)
    ensures parsed.Some? ==>
              var data := parsed.value;
              status == 201 && body.Some? && store.quizzes == old(store.quizzes) + [body.value]
              && var q := body.value;
              q.id == newId && q.name == data.name && q.description == sanitize(data.description)
              && q.status == (if data.status == "" then "published" else data.status)
              && q.confidence == Some(1.0)
              && q.eligibility == data.eligibility && q.eligibilityCategories == EligibilityTags(Strings(data.eligibility))
              && q.date == data.date && q.time == data.time && q.venue == data.venue
              && q.venueMapLink == data.venueMapLink && q.hostingOrg == data.hostingOrg
              && q.quizMasters == data.quizMasters && q.poc == data.poc && q.regLink == data.regLink
              && q.instagramLink == data.instagramLink && q.posterImage == data.posterImage
              && q.teamSize.None? && q.crossCollege.None?
              && q.city.None? && q.mode.None? && q.source.None?
              && q.sourceMessageId == Some("manual-" + NatToString(nowMillis))
              && q.sourceTimestamp == Some(nowIso) && q.createdAt == nowIso && q.updatedAt == nowIso
              && q.extractedFields == []
    ensures store.processedMessageIds == old(store.processedMessageIds)
    ensures store.lastSyncTimestamp == old(store.lastSyncTimestamp) && store.cities == old(store.cities)
  {
    if parsed.None? {
      return 400, None;
    }
    var data := parsed.value;
    var description := sanitize(data.description);
    var categories := NormalizeEligibility(Strings(data.eligibility));
    var quiz := Quiz(
      id := newId,
      status := if data.status == "" then "published" else data.status,
      confidence := Some(1.0),
      name := data.name,
      description := description,
      date := data.date,
      time := data.time,
      venue := data.venue,
      venueMapLink := data.venueMapLink,
      eligibility := data.eligibility,
      eligibilityCategories := categories,
      hostingOrg := data.hostingOrg,
      quizMasters := data.quizMasters,
      poc := data.poc,
      regLink := data.regLink,
      instagramLink := data.instagramLink,
      teamSize := None,
      crossCollege := None,
      mode := None,
      city := None,
      source := None,
      sourceId := None,
      sourceGroupId := None,
      sourceUsername := None,
      posterImage := data.posterImage,
      sourceCaption := None,
      sourceMessageId := Some("manual-" + NatToString(nowMillis)),
      sourceTimestamp := Some(nowIso),
      createdAt := nowIso,
      updatedAt := nowIso,
      extractedFields := []);
    var added := store.AddQuiz(quiz);
    return 201, Some(quiz);
  }

  /** The update the patch handler passes on: a truthy description is
      sanitized, and a given eligibility list (even an empty one, which is
      truthy) replaces the categories with its normalized tags. */
  function Prepared(u: Patch, sanitize: string -> string): (r: Patch)
    ensures Truthy(u.description) ==> r.description == Some(sanitize(u.description.value))
    ensures !Truthy(u.description) ==> r.description == u.description
    ensures u.eligibility.Some? ==> r.eligibilityCategories == Some(EligibilityTags(Strings(u.eligibility.value)))
    ensures u.eligibility.None? ==> r.eligibilityCategories == u.eligibilityCategories
    ensures r.(description := u.description, eligibilityCategories := u.eligibilityCategories) == u
  {
    var d := if Truthy(u.description) then u.(description := Some(sanitize(u.description.value))) else u;
    if d.eligibility.Some? then d.(eligibilityCategories := Some(EligibilityTags(Strings(d.eligibility.value)))) else d
  }

  /** `PATCH /:id`: 400 when validation fails, 404 for an unknown id, else
      the first quiz with that id takes the prepared update and the time. */
  method PatchQuiz(store: Store, id: string, parsed: Option<Patch>, sanitize: string -> string, now: string)
    returns (status: int, body: Option<Quiz>)
    modifies store
    ensures parsed.None? ==> status == 400 && body.None? && store.quizzes == old(store.quizzes)
    ensures parsed.Some? ==>
              var idx := FindIndex(old(store.quizzes), HasId(id));
              (idx == -1 ==> status == 404 && body.None? && store.quizzes == old(store.quizzes))
              && (idx != -1 ==>
                    status == 200
                    && body == Some(ApplyPatch(old(store.quizzes)[idx], Prepared(parsed.value, sanitize)).(updatedAt := now))
                    && store.quizzes == old(store.quizzes)[idx := body.value])
    ensures store.processedMessageIds == old(store.processedMessageIds)
    ensures store.lastSyncTimestamp == old(store.lastSyncTimestamp) && store.cities == old(store.cities)
  {
    if parsed.None? {
      return 400, None;
    }
    var updates := parsed.value;
    if Truthy(updates.description) {
      updates := updates.(description := Some(sanitize(updates.description.value)));
    }
    if updates.eligibility.Some? {
      var categories := NormalizeEligibility(Strings(updates.eligibility.value));
      updates := updates.(eligibilityCategories := Some(categories));
    }
    assert updates == Prepared(parsed.value, sanitize);
    var quiz := store.UpdateQuiz(id, updates, now);
    if quiz.None? {
      return 404, None;
    }
    return 200, quiz;
  }

  /** A patched quiz keeps its id and creation time, and when the body
      gives an eligibility list its categories are recomputed from it,
      whatever categories the body gave. */
  lemma PatchedQuiz(q: Quiz, u: Patch, sanitize: string -> string, now: string)
    ensures var p := ApplyPatch(q, Prepared(u, sanitize)).(updatedAt := now);
            p.id == q.id && p.createdAt == q.createdAt && p.updatedAt == now
            && (u.eligibility.Some? ==> p.eligibility == u.eligibility.value
                                        && p.eligibilityCategories == EligibilityTags(Strings(u.eligibility.value)))
            && (u.eligibility.None? && u.eligibilityCategories.None? ==>
                  p.eligibilityCategories == q.eligibilityCategories)
  {
  }

  /** `POST /:id/publish`: the update `{ status: 'published' }`. */
  method PublishQuiz(store: Store, id: string, now: string) returns (status: int, body: Option<Quiz>)
    modifies store
    ensures var idx := FindIndex(old(store.quizzes), HasId(id));
            (idx == -1 ==> status == 404 && body.None? && store.quizzes == old(store.quizzes))
            && (idx != -1 ==>
                  status == 200 && body == Some(old(store.quizzes)[idx].(status := "published", updatedAt := now))
                  && store.quizzes == old(store.quizzes)[idx := body.value])
    ensures store.processedMessageIds == old(store.processedMessageIds)
    ensures store.lastSyncTimestamp == old(store.lastSyncTimestamp) && store.cities == old(store.cities)
  {
    var quiz := store.UpdateQuiz(id, EmptyPatch.(status := Some("published")), now);
    if quiz.None? {
      return 404, None;
    }
    return 200, quiz;
  }

  /** `DELETE /:id`: 404 for an unknown id, else the first quiz with that
      id is removed. */
  method DeleteQuizRoute(store: Store, id: string) returns (status: int)
    modifies store
    ensures var idx := FindIndex(old(store.quizzes), HasId(id));
            (status == 404 <==> idx == -1) && (status != 404 ==> status == 200)
            && store.quizzes == if idx == -1 then old(store.quizzes) else RemoveAt(old(store.quizzes), idx)
    ensures store.processedMessageIds == old(store.processedMessageIds)
    ensures store.lastSyncTimestamp == old(store.lastSyncTimestamp) && store.cities == old(store.cities)
  {
    var deleted := store.DeleteQuiz(id);
    status := if deleted then 200 else 404;
  }

  /** After `POST /:id/publish` succeeds, `GET /:id` finds the same
      quiz, now published. */
  lemma PublishThenGet(quizzes: seq<Quiz>, id: string, now: string)
    requires FindIndex(quizzes, HasId(id)) != -1
    ensures var idx := FindIndex(quizzes, HasId(id));
            var after := quizzes[idx := quizzes[idx].(status := "published", updatedAt := now)];
            FindIndex(after, HasId(id)) == idx && after[idx].status == "published"
  {
    var idx := FindIndex(quizzes, HasId(id));
    var after := quizzes[idx := quizzes[idx].(status := "published", updatedAt := now)];
    FindIndexOfSameKeys(quizzes, after, HasId(id));
  }
}
