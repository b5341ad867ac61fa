/** client/src/App.jsx: the hash router, the query parameters the quiz list
    is fetched with, and the choice of city when the city list arrives. The
    browser's location, storage and fetch are parameters; the React state
    around them is outside the model. */
module App {
  import opened Js
  import opened Text
  import opened Quizzes
  import opened Filters
  import Routes
  import Notify

  // ---------------------------------------------------------------------
  // routing
  // ---------------------------------------------------------------------

  datatype Route = Home | Detail(id: string) | Admin

  /** `parseHash()`, given `window.location.hash` ("" when there is none). */
  function ParseHash(hash: string): (r: Route)
    ensures var h := if hash == "" then "#/" else hash;
            && (r.Detail? <==> StartsWith(h, "#/quiz/"))
            && (r.Detail? ==> r.id == h[7..])
            && (r == Admin <==> !StartsWith(h, "#/quiz/") && StartsWith(h, "#/admin"))
  {
    var h := if hash == "" then "#/" else hash;
    if StartsWith(h, "#/quiz/") then Detail(h[7..])
    else if StartsWith(h, "#/admin") then Admin
    else Home
  }

  /** `navigate(path)` sets the hash to `path`, which reads back with a
      leading '#'. */
  function Navigate(path: string): string {
    "#" + path
  }

  /** Selecting a quiz and reading the hash back opens that quiz, for ids
      of URL-safe characters such as the uuids the server issues; going
      back to the grid routes home. */
  lemma SelectQuizRoundTrip(id: string)
    ensures ParseHash(Navigate("/quiz/" + id)) == Detail(id)
    ensures ParseHash(Navigate("/")) == Home
  {
    var h := Navigate("/quiz/" + id);
    assert h == "#/quiz/" + id;
    assert h[..7] == "#/quiz/";
    assert h[7..] == id;
  }

  /** An empty hash routes home; any hash starting "#/admin" routes to the
      admin panel, "#/administrator" included; the quiz prefix wins. */
  lemma RouteExamples(rest: string)
    ensures ParseHash("") == Home
    ensures ParseHash("#/admin" + rest) == Admin
    ensures ParseHash("#/quiz/" + rest) == Detail(rest)
  {
    var a := "#/admin" + rest;
    assert a[..7] == "#/admin";
    assert a[..7] != "#/quiz/";
    var q := "#/quiz/" + rest;
    assert q[..7] == "#/quiz/";
    assert q[7..] == rest;
  }

  /** The link of a push message about one quiz opens that quiz's page. */
  lemma PushUrlOpensQuiz(m: seq<Quiz>, today: string)
    requires |m| == 1
    ensures var url := Notify.MakePayload(m, today).url;
            |url| >= 1 && url[0] == '/' && ParseHash(url[1..]) == Detail(m[0].id)
  {
    var url := Notify.MakePayload(m, today).url;
    assert url == "/#/quiz/" + m[0].id;
    assert url[1..] == Navigate("/quiz/" + m[0].id);
    SelectQuizRoundTrip(m[0].id);
  }

  // ---------------------------------------------------------------------
  // loadQuizzes
  // ---------------------------------------------------------------------

  /** The `params` object of `loadQuizzes`; a key that was not set is None. */
  datatype Params = Params(upcoming: bool, city: Option<string>, search: Option<string>,
                           org: Option<string>, mode: Option<string>, eligibility: Option<string>)

  function SetIf(s: string): Option<string> {
    if s != "" then Some(s) else None
  }

  /** `params` built one key at a time: `upcoming` always, the city, search,
      organiser and mode only when non-empty, the tags joined by ',' only
      when there are any. */
  method LoadParams(filters: FilterState, selectedCity: string) returns (params: Params)
    requires filters.eligibility.Some?
    ensures params == Params(filters.upcoming, SetIf(selectedCity), SetIf(filters.search), SetIf(filters.org),
                             SetIf(filters.mode),
                             if |filters.eligibility.value| > 0 then Some(Join(filters.eligibility.value, ",")) else None)
  {
    params := Params(filters.upcoming, None, None, None, None, None);
    if selectedCity != "" {
      params := params.(city := Some(selectedCity));
    }
    if filters.search != "" {
      params := params.(search := Some(filters.search));
    }
    if filters.org != "" {
      params := params.(org := Some(filters.org));
    }
    if filters.mode != "" {
      params := params.(mode := Some(filters.mode));
    }
    if |filters.eligibility.value| > 0 {
      params := params.(eligibility := Some(Join(filters.eligibility.value, ",")));
    }
  }

  function Forward(v: Option<string>): Option<string> {
    if Truthy(v) then v else None
  }

  /** As written, `fetchQuizzes(params)` in client/src/utils/api.js: the
      query string carries city, eligibility, organiser, `upcoming` and
      search, but never the mode. */
  function QueryAsWritten(p: Params): (q: Routes.Query)
    ensures q.mode == None
  {
    Routes.Query(Forward(p.eligibility), Forward(p.org), Some(if p.upcoming then "true" else "false"),
                 Forward(p.search), None, Forward(p.city))
  }

  /** As written, the mode the user picks has no effect on the list. */
  lemma ModeFilterDropped(filters: FilterState, city: string, q: Quiz)
    requires filters.eligibility.Some?
    ensures Routes.KeptByMode(QueryAsWritten(Params(filters.upcoming, SetIf(city), SetIf(filters.search),
                                                   SetIf(filters.org), SetIf(filters.mode), None)), q)
  {
  }

  /** Corrected: the query string carries the mode as well. */
  function Query(p: Params): (q: Routes.Query)
    ensures q.mode == Forward(p.mode)
    ensures q == QueryAsWritten(p).(mode := Forward(p.mode))
  {
    Routes.Query(Forward(p.eligibility), Forward(p.org), Some(if p.upcoming then "true" else "false"),
                 Forward(p.search), Forward(p.mode), Forward(p.city))
  }

  /** What the server does with the parameters of `loadQuizzes`: a quiz is
      kept by city, date and mode exactly as the filter panel says, and by
      tags when it shares one of the (comma-free, non-empty) chosen tags. */
  lemma ServerAppliesFilters(filters: FilterState, city: string, today: string, q: Quiz, params: Params)
    requires filters.eligibility.Some?
    requires forall k :: 0 <= k < |filters.eligibility.value| ==>
               filters.eligibility.value[k] != "" && ',' !in filters.eligibility.value[k]
    requires params == Params(filters.upcoming, SetIf(city), SetIf(filters.search), SetIf(filters.org),
                              SetIf(filters.mode),
                              if |filters.eligibility.value| > 0 then Some(Join(filters.eligibility.value, ",")) else None)
    ensures var query := Query(params);
            && (Routes.KeptByCity(query, q) <==> (city != "" ==> q.city == Some(city)))
            && (Routes.KeptByDate(query, today, q) <==> (filters.upcoming ==> !Truthy(q.date) || StrLe(today, q.date.value)))
            && (Routes.KeptByMode(query, q) <==> (filters.mode != "" ==> Routes.EffectiveMode(q) == filters.mode))
            && (Routes.KeptByEligibility(query, q) <==>
                  (|filters.eligibility.value| > 0 ==>
                     exists e :: e in q.eligibilityCategories && e in filters.eligibility.value))
  {
    var tags := filters.eligibility.value;
    if |tags| > 0 {
      JoinNonEmpty(tags);
      assert "," == [','] + "";
      SplitJoin(tags, ',', "");
      var pieces := Split(Join(tags, ","), ',');
      assert pieces == tags by {
        forall k | 0 <= k < |tags| ensures pieces[k] == tags[k] {
          if k > 0 {
            assert pieces[k] == "" + tags[k];
          }
        }
      }
    }
  }

  /** Joining a list whose first element is non-empty gives a non-empty
      string. */
  lemma JoinNonEmpty(tags: seq<string>)
    requires |tags| > 0 && tags[0] != ""
    ensures Join(tags, ",") != ""
  {
    if |tags| > 1 {
      assert |Join(tags, ",")| >= |tags[0]|;
    }
  }

  // ---------------------------------------------------------------------
  // city selection
  // ---------------------------------------------------------------------

  /** The selected city, what localStorage holds under `qfb_city`, and
      whether the city picker is shown. */
  datatype CityState = CityState(selected: string, stored: Option<string>, showPicker: bool)

  /** The initial state: the stored city, or none. */
  function InitialCities(stored: Option<string>): CityState {
    CityState(StrOr(stored, ""), stored, false)
  }

  /** The handler of `fetchCities()`: a list of exactly one city selects
      and stores it; otherwise the picker opens only when no city is
      stored. */
  function OnCityList(s: CityState, list: seq<string>): (r: CityState)
    ensures |list| == 1 ==> r.selected == list[0] && r.stored == Some(list[0])
    ensures |list| != 1 ==> r.selected == s.selected && r.stored == s.stored
    ensures r.showPicker <==> s.showPicker || (|list| != 1 && !Truthy(s.stored))
  {
    if |list| == 1 then s.(selected := list[0], stored := Some(list[0]))
    else if !Truthy(s.stored) then s.(showPicker := true)
    else s
  }

  /** `handleCitySelect(city)`. */
  function SelectCity(s: CityState, city: string): (r: CityState)
    ensures r.selected == city && r.stored == Some(city) && !r.showPicker
  {
    CityState(city, Some(city), false)
  }

  /** Once a city has been picked, a later visit whatever the city list
      starts on that city without the picker; a single-city list is
      selected again on every visit. */
  lemma PickedCitySticks(s: CityState, city: string, list: seq<string>)
    requires city != "" && |list| != 1
    ensures var next := OnCityList(InitialCities(SelectCity(s, city).stored), list);
            next.selected == city && !next.showPicker
  {
  }
}
