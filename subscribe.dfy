/** api/subscribe.js: the serverless function that stores push subscriptions
    in a key-value store. The store is a `Kv` object; whether the KV client
    could be loaded, the `SYNC_API_KEY` setting and the clock are parameters. */
module Subscribe {
  import opened Js
  import opened Text
  import opened Seqs
  import Base64
  import Utf8

  /** A browser push subscription as `PushSubscription.toJSON()` gives it. */
  datatype Subscription = Subscription(endpoint: Option<string>, keys: map<string, string>)

  /** A subscriber's preferences object; `{}` has neither property. */
  datatype Prefs = Prefs(cities: Option<seq<string>>, eligibility: Option<seq<string>>)

  const NoPrefs := Prefs(None, None)

  /** The value stored for one subscription. */
  datatype Record = Record(subscription: Subscription, preferences: Prefs,
                           createdAt: string, updatedAt: string)

  /** The JSON body of a request: the properties any caller sends. */
  datatype Body = Body(subscription: Option<Subscription>, preferences: Option<Prefs>,
                       prefs: Option<Prefs>, endpoint: Option<string>)

  const EmptyBody := Body(None, None, None, None)

  datatype Request = Request(verb: string, body: Option<Body>, authorization: Option<string>)

  /** The status code and, for a successful GET, the records sent back. */
  datatype Response = Response(status: nat, records: seq<Record>)

  const KeyPrefix := "pushsub:"

  /** The key pattern `pushsub:*` used by the scan. */
  predicate IsSubscriptionKey(k: string) {
    StartsWith(k, KeyPrefix)
  }

  /** `s.slice(0, n)`. */
  function Slice(s: string, n: nat): (r: string)
    ensures |r| == if |s| < n then |s| else n
    ensures r <= s
  {
    if |s| < n then s else s[..n]
  }

  /** The key of an endpoint: the prefix and the first 40 characters of the
      base64url encoding of its UTF-8 bytes. */
  function SubscriptionKey(endpoint: string): (k: string)
    ensures IsSubscriptionKey(k)
    ensures |k| <= |KeyPrefix| + 40
  {
    KeyPrefix + Slice(Base64.Encode(Utf8.Encode(endpoint), true), 40)
  }

  /** `req.body || {}`. */
  function BodyOf(req: Request): Body {
    req.body.GetOr(EmptyBody)
  }

  /** `subscription?.endpoint`, when it is a non-empty string. */
  function PostedEndpoint(b: Body): (e: Option<string>)
    ensures e.Some? ==> e.value != ""
  {
    if b.subscription.Some? && Truthy(b.subscription.value.endpoint)
    then b.subscription.value.endpoint else None
  }

  /** `preferences || {}`: the body's `preferences` property. */
  function StoredPreferences(b: Body): (p: Prefs)
    ensures b.preferences.None? ==> p == NoPrefs
    ensures b.preferences.Some? ==> p == b.preferences.value
  {
    b.preferences.GetOr(NoPrefs)
  }

  /** The store, with the order in which a scan visits its keys. */
  class Kv {
    var entries: map<string, Record>
    var order: seq<string>

    ghost predicate Valid()
      reads this
    {
      (forall k :: k in order <==> k in entries)
      && (forall i, j :: 0 <= i < j < |order| ==> order[i] != order[j])
    }

    constructor()
      ensures Valid() && entries == map[] && order == []
    {
      entries := map[];
      order := [];
    }

    /** `kv.set(key, value)`: insert or overwrite. */
    method Set(key: string, value: Record)
      requires Valid()
      modifies this
      ensures Valid()
      ensures entries == old(entries)[key := value]
      ensures order == if key in old(entries) then old(order) else old(order) + [key]
    {
      if key !in entries {
        order := order + [key];
      }
      entries := entries[key := value];
    }

    /** `kv.del(key)`. */
    method Del(key: string)
      requires Valid()
      modifies this
      ensures Valid()
      ensures entries == old(entries) - {key}
      ensures order == Filter(old(order), k => k != key)
    {
      FilterSubMultiset(order, k => k != key);
      FilterKeepsDistinct(order, k => k != key);
      entries := entries - {key};
      order := Filter(order, k => k != key);
    }

    /** The keys from `cursor` on, at most `count` of them, and where to go next. */
    function Page(cursor: nat, count: nat): (end: nat)
      reads this
      requires cursor <= |order|
      ensures cursor <= end <= |order|
    {
      if cursor + count < |order| then cursor + count else |order|
    }

    /** `kv.scan(cursor, { match: 'pushsub:*', count: 100 })`: the matching keys of
        one page, and the cursor of the next page or 0 after the last. */
    method Scan(cursor: nat) returns (next: nat, batch: seq<string>)
      requires cursor <= |order|
      ensures next == if Page(cursor, 100) == |order| then 0 else Page(cursor, 100)
      ensures batch == Filter(order[cursor..Page(cursor, 100)], IsSubscriptionKey)
    {
      var end := Page(cursor, 100);
      next := if end == |order| then 0 else end;
      batch := Filter(order[cursor..end], IsSubscriptionKey);
    }

    /** `kv.get(key)`. */
    method Get(key: string) returns (r: Option<Record>)
      ensures r == if key in entries then Some(entries[key]) else None
    {
      r := if key in entries then Some(entries[key]) else None;
    }
  }

  lemma {:induction false} FilterKeepsDistinct<T>(s: seq<T>, p: T -> bool)
    requires forall i, j :: 0 <= i < j < |s| ==> s[i] != s[j]
    ensures forall i, j :: 0 <= i < j < |Filter(s, p)| ==> Filter(s, p)[i] != Filter(s, p)[j]
    ensures forall x :: x in Filter(s, p) <==> x in s && p(x)
  {
    if |s| > 0 {
      FilterKeepsDistinct(s[1..], p);
      assert s[0] !in s[1..];
    }
  }

  /** The values of the keys that are present, in key order: what
      `Promise.all(keys.map(kv.get))` followed by `filter(Boolean)` keeps. */
  function Values(keys: seq<string>, entries: map<string, Record>): (r: seq<Record>)
    ensures |r| <= |keys|
    ensures forall x :: x in r ==> exists k :: k in keys && k in entries && entries[k] == x
  {
    if |keys| == 0 then []
    else (if keys[0] in entries then [entries[keys[0]]] else []) + Values(keys[1..], entries)
  }

  lemma {:induction false} ValuesComplete(keys: seq<string>, entries: map<string, Record>, k: string)
    requires k in keys && k in entries
    ensures entries[k] in Values(keys, entries)
  {
    if keys[0] != k {
      ValuesComplete(keys[1..], entries, k);
    }
  }

  /** Every key the scan reports, page after page, in the store's order. */
  method ScanAll(kv: Kv) returns (keys: seq<string>)
    ensures keys == Filter(kv.order, IsSubscriptionKey)
  {
    var next, batch := kv.Scan(0);
    keys := batch;
    var cursor := next;
    if cursor == 0 {
      assert kv.order[0..|kv.order|] == kv.order;
    } else {
      assert kv.order[0..cursor] == kv.order[..cursor];
    }
    while cursor != 0
      invariant cursor <= |kv.order|
      invariant cursor == 0 ==> keys == Filter(kv.order, IsSubscriptionKey)
      invariant cursor != 0 ==> keys == Filter(kv.order[..cursor], IsSubscriptionKey)
      decreases if cursor == 0 then 0 else |kv.order| - cursor + 1
    {
      var end := kv.Page(cursor, 100);
      next, batch := kv.Scan(cursor);
      assert kv.order[..end] == kv.order[..cursor] + kv.order[cursor..end];
      FilterAppend(kv.order[..cursor], kv.order[cursor..end], IsSubscriptionKey);
      keys := keys + batch;
      cursor := next;
      if cursor == 0 {
        assert kv.order[..end] == kv.order;
      }
    }
  }

  /** The handler. OPTIONS answers before the store is touched; without the
      store every other request gets 503. */
  method Handle(kv: Kv, req: Request, kvAvailable: bool, syncApiKey: Option<string>, now: string)
    returns (res: Response)
    requires kv.Valid()
    modifies kv
    ensures kv.Valid()
    ensures req.verb == "OPTIONS" ==> res == Response(200, []) && kv.entries == old(kv.entries)
    ensures req.verb != "OPTIONS" && !kvAvailable ==>
              res == Response(503, []) && kv.entries == old(kv.entries)
    ensures req.verb == "POST" && kvAvailable ==>
              var b := BodyOf(req);
              if PostedEndpoint(b).None? then res == Response(400, []) && kv.entries == old(kv.entries)
              else res == Response(200, [])
                   && kv.entries == old(kv.entries)[SubscriptionKey(PostedEndpoint(b).value) :=
                        Record(b.subscription.value, StoredPreferences(b), now, now)]
    ensures req.verb == "GET" && kvAvailable ==>
              kv.entries == old(kv.entries)
              && if !Truthy(syncApiKey) || req.authorization != Some("Bearer " + syncApiKey.value)
                 then res == Response(401, [])
                 else res == Response(200, Values(Filter(kv.order, IsSubscriptionKey), kv.entries))
    ensures req.verb == "DELETE" && kvAvailable ==>
              var e := BodyOf(req).endpoint;
              if !Truthy(e) then res == Response(400, []) && kv.entries == old(kv.entries)
              else res == Response(200, []) && kv.entries == old(kv.entries) - {SubscriptionKey(e.value)}
    ensures req.verb !in {"OPTIONS", "POST", "GET", "DELETE"} ==> kv.entries == old(kv.entries)
    ensures req.verb !in {"OPTIONS", "POST", "GET", "DELETE"} && kvAvailable ==> res == Response(405, [])
  {
    if req.verb == "OPTIONS" {
      return Response(200, []);
    }
    if !kvAvailable {
      return Response(503, []);
    }
    var b := BodyOf(req);
    if req.verb == "POST" {
      var endpoint := PostedEndpoint(b);
      if endpoint.None? {
        return Response(400, []);
      }
      var key := SubscriptionKey(endpoint.value);
      kv.Set(key, Record(b.subscription.value, StoredPreferences(b), now, now));
      return Response(200, []);
    }
    if req.verb == "GET" {
      if !Truthy(syncApiKey) || req.authorization != Some("Bearer " + syncApiKey.value) {
        return Response(401, []);
      }
      var keys := ScanAll(kv);
      var subs := Values(keys, kv.entries);
      return Response(200, subs);
    }
    if req.verb == "DELETE" {
      if !Truthy(b.endpoint) {
        return Response(400, []);
      }
      var key := SubscriptionKey(b.endpoint.value);
      kv.Del(key);
      return Response(200, []);
    }
    return Response(405, []);
  }

  /** GET sends back every stored subscription, and nothing else. */
  lemma GetReturnsAllSubscriptions(entries: map<string, Record>, order: seq<string>, k: string)
    requires forall x :: x in order <==> x in entries
    requires k in entries && IsSubscriptionKey(k)
    ensures entries[k] in Values(Filter(order, IsSubscriptionKey), entries)
  {
    FilterKeepsDistinctMembers(order, IsSubscriptionKey, k);
    ValuesComplete(Filter(order, IsSubscriptionKey), entries, k);
  }

  lemma {:induction false} FilterKeepsDistinctMembers<T>(s: seq<T>, p: T -> bool, x: T)
    requires x in s && p(x)
    ensures x in Filter(s, p)
  {
    if s[0] != x {
      FilterKeepsDistinctMembers(s[1..], p, x);
    }
  }

  // The key keeps only 40 characters of the encoding, that is the first 30
  // bytes of the endpoint, so endpoints that agree on those collide.

  /** As written: endpoints whose UTF-8 bytes agree on the first 30 share a key. */
  lemma SharedPrefixCollides(a: string, b: string)
    requires |Utf8.Encode(a)| >= 30 && |Utf8.Encode(b)| >= 30
    requires Utf8.Encode(a)[..30] == Utf8.Encode(b)[..30]
    ensures SubscriptionKey(a) == SubscriptionKey(b)
  {
    Base64.EncodeFirst40(Utf8.Encode(a), true);
    Base64.EncodeFirst40(Utf8.Encode(b), true);
  }

  /** The common beginning of Firebase Cloud Messaging endpoints, 36 characters. */
  const FcmSend := "https://fcm.googleapis.com/fcm/send/"

  /** Two different subscriptions of the same push service overwrite each other. */
  lemma FcmEndpointsCollide()
    ensures FcmSend + "a" != FcmSend + "b"
    ensures SubscriptionKey(FcmSend + "a") == SubscriptionKey(FcmSend + "b")
  {
    var a, b := FcmSend + "a", FcmSend + "b";
    assert a[|FcmSend|] != b[|FcmSend|];
    Utf8.EncodeAscii(a);
    Utf8.EncodeAscii(b);
    assert Utf8.Encode(a)[..30] == Utf8.Encode(b)[..30];
    SharedPrefixCollides(a, b);
  }

  /** Corrected: the whole encoding after the prefix. */
  function FullSubscriptionKey(endpoint: string): (k: string)
    ensures IsSubscriptionKey(k)
  {
    KeyPrefix + Base64.Encode(Utf8.Encode(endpoint), true)
  }

  /** Corrected: different endpoints never share a key. */
  lemma FullKeyInjective(a: string, b: string)
    requires FullSubscriptionKey(a) == FullSubscriptionKey(b)
    ensures a == b
  {
    var ea, eb := Base64.Encode(Utf8.Encode(a), true), Base64.Encode(Utf8.Encode(b), true);
    assert ea == FullSubscriptionKey(a)[|KeyPrefix|..] == FullSubscriptionKey(b)[|KeyPrefix|..] == eb;
    Base64.EncodeUrlInjective(Utf8.Encode(a), Utf8.Encode(b));
    Utf8.EncodeInjective(a, b);
  }

  // The browser sends its preferences under `prefs` (see the
  // NotificationBell module), while the handler reads `preferences`.

  /** As written: a body with only `prefs` is stored with empty preferences. */
  lemma PrefsPropertyIgnored(sub: Subscription, p: Prefs)
    ensures StoredPreferences(Body(Some(sub), None, Some(p), None)) == NoPrefs
  {
  }

  /** Corrected: the preferences the browser sends, under either name. */
  function SentPreferences(b: Body): (p: Prefs)
    ensures b.prefs.Some? ==> p == b.prefs.value
    ensures b.prefs.None? && b.preferences.Some? ==> p == b.preferences.value
    ensures b.prefs.None? && b.preferences.None? ==> p == NoPrefs
  {
    if b.prefs.Some? then b.prefs.value else b.preferences.GetOr(NoPrefs)
  }
}
