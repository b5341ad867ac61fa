/** server/sync/notify.js: after a sync, every subscriber whose preferences
    match at least one new quiz gets one push message. The configuration
    check, the subscriber download and the push service are parameters. */
module Notify {
  import opened Js
  import opened Text
  import opened Seqs
  import opened Quizzes
  import opened Subscribe
  import NotificationBell

  /** What the subscriber request gave: an error (network or non-2xx), a JSON
      value that is not an array, or the list of stored records. */
  datatype Fetch = FetchFailed | NotAList | Subscribers(subs: seq<Record>)

  datatype SkipReason = NothingNew | NotConfigured | CouldNotFetch | NoSubscribers

  /** The JSON payload of one push message. */
  datatype Payload = Payload(title: string, body: string, url: string, tag: string)

  datatype Outcome =
    | Skipped(reason: SkipReason)
    | Done(sent: nat, failed: nat, pushes: seq<(Subscription, Payload)>)

  /** The `matching` filter: a listed city (an empty or missing list allows
      all), and a shared eligibility category when any are listed. */
  predicate Matches(p: Prefs, q: Quiz) {
    (p.cities.None? || |p.cities.value| == 0 || (q.city.Some? && q.city.value in p.cities.value))
    && (p.eligibility.None? || |p.eligibility.value| == 0
        || exists e :: e in p.eligibility.value && e in q.eligibilityCategories)
  }

  function Matching(p: Prefs, quizzes: seq<Quiz>): seq<Quiz> {
    Filter(quizzes, q => Matches(p, q))
  }

  /** The matching quizzes are exactly the new quizzes the preferences
      accept, each at most as often as it came. */
  lemma MatchingIsFilter(p: Prefs, quizzes: seq<Quiz>)
    ensures forall q :: q in Matching(p, quizzes) <==> q in quizzes && Matches(p, q)
    ensures multiset(Matching(p, quizzes)) <= multiset(quizzes)
  {
    FilterSubMultiset(quizzes, q => Matches(p, q));
  }

  /** A subscriber that chose cities never hears of a quiz elsewhere, and one
      that chose categories never hears of a quiz sharing none of them. */
  lemma MatchingRespectsPrefs(p: Prefs, quizzes: seq<Quiz>, q: Quiz)
    requires q in Matching(p, quizzes)
    ensures p.cities.Some? && |p.cities.value| > 0 ==> q.city.Some? && q.city.value in p.cities.value
    ensures p.eligibility.Some? && |p.eligibility.value| > 0 ==>
              exists e :: e in p.eligibility.value && e in q.eligibilityCategories
    ensures q in quizzes
  {
    MatchingIsFilter(p, quizzes);
  }

  /** Preferences without cities or categories let every quiz through. */
  lemma {:induction false} EmptyPrefsMatchAll(quizzes: seq<Quiz>)
    ensures Matching(NoPrefs, quizzes) == quizzes
  {
    FilterAll(quizzes, q => Matches(NoPrefs, q));
  }

  /** "Quiz Finder: N new quiz", plural for more than one. */
  function Title(n: nat): (r: string)
    ensures |r| >= 13 && r[..13] == "Quiz Finder: "
    ensures n > 1 <==> |r| >= 3 && r[|r| - 3..] == "zes"
  {
    var r := "Quiz Finder: " + NatToString(n) + " new quiz" + (if n > 1 then "zes" else "");
    assert n <= 1 ==> r[|r| - 3..] == "uiz";
    r
  }

  function Names(m: seq<Quiz>): (r: seq<string>)
    ensures |r| == |m| && forall k :: 0 <= k < |m| ==> r[k] == m[k].name
  {
    Map(m, (q: Quiz) => q.name)
  }

  /** The message text: one quiz with its city and date when it has them;
      several as the first three names, with "..." when there are more. */
  function Body(m: seq<Quiz>): (r: string)
    requires |m| >= 1
  {
    if |m| == 1 then
      var q := m[0];
      q.name + (if Truthy(q.city) then " (" + q.city.value + ")" else "")
      + (if Truthy(q.date) then " — " + q.date.value else "")
    else
      Join(Names(if |m| > 3 then m[..3] else m), ", ") + (if |m| > 3 then "..." else "")
  }

  function Url(m: seq<Quiz>): (r: string)
    requires |m| >= 1
    ensures |m| == 1 ==> r == "/#/quiz/" + m[0].id
    ensures |m| > 1 ==> r == "/"
  {
    if |m| == 1 then "/#/quiz/" + m[0].id else "/"
  }

  function MakePayload(m: seq<Quiz>, today: string): Payload
    requires |m| >= 1
  {
    Payload(Title(|m|), Body(m), Url(m), "sync-" + today)
  }

  /** A single quiz's message begins with its name, followed by its city in
      parentheses when it has one, and ends with its date when it has one; a
      quiz with neither is announced by its name alone. */
  lemma SingleBodyStartsWithName(q: Quiz)
    ensures StartsWith(Body([q]), q.name)
    ensures Truthy(q.city) ==> StartsWith(Body([q])[|q.name|..], " (" + q.city.value + ")")
    ensures Truthy(q.date) ==> var r := Body([q]); var d := " — " + q.date.value;
              |r| >= |d| && r[|r| - |d|..] == d
    ensures !Truthy(q.city) && !Truthy(q.date) ==> Body([q]) == q.name
  {
    var r := Body([q]);
    var c := if Truthy(q.city) then " (" + q.city.value + ")" else "";
    var d := if Truthy(q.date) then " — " + q.date.value else "";
    assert r == q.name + c + d;
    assert r[..|q.name|] == q.name;
    assert r[|q.name|..] == c + d;
    assert (c + d)[..|c|] == c;
    assert r[|r| - |d|..] == d;
  }

  /** With comma-free names, splitting a longer message at commas gives the
      first min(3, n) names back, each after a space but the first; the last
      carries "..." when there were more than three. */
  lemma SeveralBodyListsNames(m: seq<Quiz>)
    requires |m| >= 2
    requires forall k :: 0 <= k < |m| ==> ',' !in m[k].name
    ensures var shown := if |m| > 3 then 3 else |m|;
            var pieces := Split(Body(m), ',');
            |pieces| == shown && pieces[0] == m[0].name
            && (forall k :: 1 <= k < shown - 1 ==> pieces[k] == " " + m[k].name)
            && pieces[shown - 1] == " " + m[shown - 1].name + (if |m| > 3 then "..." else "")
  {
    var shown := if |m| > 3 then 3 else |m|;
    var names := Names(m[..shown]);
    var more := if |m| > 3 then "..." else "";
    BodyOfSeveral(m);
    SplitJoinSuffix(names, more);
  }

  lemma BodyOfSeveral(m: seq<Quiz>)
    requires |m| >= 2
    ensures var shown := if |m| > 3 then 3 else |m|;
            Body(m) == Join(Names(m[..shown]), ", ") + (if |m| > 3 then "..." else "")
  {
    if |m| <= 3 {
      assert m[..|m|] == m;
    }
  }

  predicate HasMatch(quizzes: seq<Quiz>, r: Record) {
    |Matching(r.preferences, quizzes)| > 0
  }

  /** The subscribers that get a message, in list order. */
  function Recipients(subs: seq<Record>, quizzes: seq<Quiz>): seq<Record> {
    Filter(subs, x => HasMatch(quizzes, x))
  }

  /** Exactly the subscribers with at least one matching quiz get a message. */
  lemma RecipientsAreMatched(subs: seq<Record>, quizzes: seq<Quiz>, x: Record)
    ensures x in Recipients(subs, quizzes) <==> x in subs && |Matching(x.preferences, quizzes)| > 0
  {
  }

  /** The message one recipient gets: its matching quizzes' payload. */
  function PushFor(quizzes: seq<Quiz>, today: string, r: Record): (Subscription, Payload)
    requires HasMatch(quizzes, r)
  {
    (r.subscription, MakePayload(Matching(r.preferences, quizzes), today))
  }

  /** `sendNotifications(newQuizzes)`. `deliver` says whether the push
      service accepted a message. */
  method SendNotifications(quizzes: seq<Quiz>, configured: bool, fetched: Fetch,
                           deliver: (Subscription, Payload) -> bool, today: string)
    returns (result: Outcome)
    ensures |quizzes| == 0 ==> result == Skipped(NothingNew)
    ensures |quizzes| > 0 && !configured ==> result == Skipped(NotConfigured)
    ensures |quizzes| > 0 && configured && fetched.FetchFailed? ==> result == Skipped(CouldNotFetch)
    ensures |quizzes| > 0 && configured && !fetched.FetchFailed? ==>
              if fetched.NotAList? || |fetched.subs| == 0 then result == Skipped(NoSubscribers)
              else result.Done? && Delivered(fetched.subs, quizzes, deliver, today,
                                             result.sent, result.failed, result.pushes)
  {
    if |quizzes| == 0 {
      return Skipped(NothingNew);
    }
    if !configured {
      return Skipped(NotConfigured);
    }
    if fetched.FetchFailed? {
      return Skipped(CouldNotFetch);
    }
    if fetched.NotAList? || |fetched.subs| == 0 {
      return Skipped(NoSubscribers);
    }
    var sent, failed, pushes := DeliverAll(fetched.subs, quizzes, deliver, today);
    return Done(sent, failed, pushes);
  }

  /** The messages the loop sends, in subscriber order: one for each
      subscriber with a matching quiz. */
  function Pushes(subs: seq<Record>, quizzes: seq<Quiz>, today: string): seq<(Subscription, Payload)>
    decreases |subs|
  {
    if |subs| == 0 then []
    else
      var r := subs[|subs| - 1];
      Pushes(subs[..|subs| - 1], quizzes, today)
      + (if HasMatch(quizzes, r) then [PushFor(quizzes, today, r)] else [])
  }

  /** The i-th message goes to the i-th recipient and is built from that
      recipient's matching quizzes. */
  lemma {:induction false} PushesGoToRecipients(subs: seq<Record>, quizzes: seq<Quiz>, today: string)
    ensures var rs := Recipients(subs, quizzes);
            var ps := Pushes(subs, quizzes, today);
            |ps| == |rs|
            && forall i :: 0 <= i < |rs| ==> HasMatch(quizzes, rs[i]) && ps[i] == PushFor(quizzes, today, rs[i])
  {
    if |subs| > 0 {
      var init := subs[..|subs| - 1];
      var r := subs[|subs| - 1];
      PushesGoToRecipients(init, quizzes, today);
      assert subs == init + [r];
      FilterSnoc(init, r, x => HasMatch(quizzes, x));
      var rs0, ps0 := Recipients(init, quizzes), Pushes(init, quizzes, today);
      if HasMatch(quizzes, r) {
        var rs, ps := rs0 + [r], ps0 + [PushFor(quizzes, today, r)];
        assert Recipients(subs, quizzes) == rs && Pushes(subs, quizzes, today) == ps;
        forall i | 0 <= i < |rs|
          ensures HasMatch(quizzes, rs[i]) && ps[i] == PushFor(quizzes, today, rs[i])
        {
          if i < |rs0| {
            assert rs[i] == rs0[i] && ps[i] == ps0[i];
          }
        }
      } else {
        assert Recipients(subs, quizzes) == rs0 && Pushes(subs, quizzes, today) == ps0;
      }
    }
  }

  /** `sent` counts the messages the push service accepted, `failed` the rest. */
  predicate Delivered(subs: seq<Record>, quizzes: seq<Quiz>, deliver: (Subscription, Payload) -> bool,
                      today: string, sent: nat, failed: nat, pushes: seq<(Subscription, Payload)>)
  {
    pushes == Pushes(subs, quizzes, today)
    && sent == Count(pushes, (p: (Subscription, Payload)) => deliver(p.0, p.1))
    && sent + failed == |pushes|
  }

  /** The loop of `sendNotifications` over the stored subscriptions. */
  method DeliverAll(subs: seq<Record>, quizzes: seq<Quiz>, deliver: (Subscription, Payload) -> bool,
                    today: string)
    returns (sent: nat, failed: nat, pushes: seq<(Subscription, Payload)>)
    ensures Delivered(subs, quizzes, deliver, today, sent, failed, pushes)
  {
    sent, failed, pushes := 0, 0, [];
    for k := 0 to |subs|
      invariant pushes == Pushes(subs[..k], quizzes, today)
      invariant sent == Count(pushes, (p: (Subscription, Payload)) => deliver(p.0, p.1))
      invariant sent + failed == |pushes|
    {
      var r := subs[k];
      assert subs[..k + 1][..k] == subs[..k];
      if HasMatch(quizzes, r) {
        var push := PushFor(quizzes, today, r);
        CountSnoc(pushes, push, (p: (Subscription, Payload)) => deliver(p.0, p.1));
        pushes := pushes + [push];
        if deliver(push.0, push.1) {
          sent := sent + 1;
        } else {
          failed := failed + 1;
        }
      }
    }
    assert subs[..|subs|] == subs;
  }

  // The subscribe button posts `{ subscription, prefs }`; the server stores
  // `preferences || {}`.

  /** As written: whatever cities and categories a browser picked, its stored
      record matches every new quiz. */
  lemma ChosenPrefsIgnored(cities: seq<string>, eligibility: seq<string>, sub: Subscription,
                           now: string, quizzes: seq<Quiz>)
    requires |cities| > 0
    ensures var body := NotificationBell.SubscribeBody(cities, eligibility, sub).value;
            Matching(StoredPreferences(body), quizzes) == quizzes
  {
    EmptyPrefsMatchAll(quizzes);
  }

  /** As written, concretely: a subscriber who chose only Delhi is told of a
      quiz in Mumbai. */
  lemma DelhiSubscriberGetsMumbai(sub: Subscription, q: Quiz)
    requires q.city == Some("Mumbai")
    ensures var body := NotificationBell.SubscribeBody(["Delhi"], [], sub).value;
            Matches(StoredPreferences(body), q) && "Mumbai" !in ["Delhi"]
  {
  }

  /** Corrected: reading the preferences the browser sends, a quiz reaches a
      subscriber only in a chosen city and, when categories were chosen,
      only sharing one of them. */
  lemma ChosenPrefsRespected(cities: seq<string>, eligibility: seq<string>, sub: Subscription,
                             quizzes: seq<Quiz>, q: Quiz)
    requires |cities| > 0
    requires q in Matching(SentPreferences(NotificationBell.SubscribeBody(cities, eligibility, sub).value), quizzes)
    ensures q.city.Some? && q.city.value in cities
    ensures |eligibility| > 0 ==> exists e :: e in eligibility && e in q.eligibilityCategories
  {
    var p := SentPreferences(NotificationBell.SubscribeBody(cities, eligibility, sub).value);
    assert p == NotificationBell.ChosenPrefs(cities, eligibility);
    MatchingRespectsPrefs(p, quizzes, q);
  }
}
