/** client/src/components/NotificationBell.jsx: decoding the server's public
    key, the city and eligibility chips, and the body the subscribe button
    posts. The browser's push manager is not modelled; the subscription it
    returns is a parameter. */
module NotificationBell {
  import opened Js
  import opened Text
  import opened Seqs
  import Base64
  import Subscribe

  /** The eligibility chips offered. */
  const EligibilityOptions: seq<string> := ["Open", "U18", "U23", "U25", "U30", "UG", "PG"]

  /** `'='.repeat((4 - s.length % 4) % 4)`. */
  function Padding(s: string): (p: string)
    ensures |p| < 4 && (|s| + |p|) % 4 == 0
    ensures forall i :: 0 <= i < |p| ==> p[i] == '='
  {
    Repeat('=', (4 - |s| % 4) % 4)
  }

  /** `.replace(/-/g, '+').replace(/_/g, '/')`. */
  function ToStandardAlphabet(s: string): (r: string)
    ensures '-' !in r && '_' !in r
  {
    var t := ReplaceAllChar(s, '-', "+");
    ReplaceAllCharRemoves(s, '-', "+", '-');
    ReplaceAllCharRemoves(t, '_', "/", '-');
    ReplaceAllCharRemoves(t, '_', "/", '_');
    ReplaceAllChar(t, '_', "/")
  }

  /** The conversion maps each character on its own. */
  lemma ToStandardAlphabetPointwise(s: string)
    ensures |ToStandardAlphabet(s)| == |s|
    ensures forall i :: 0 <= i < |s| ==> ToStandardAlphabet(s)[i] == Base64.StdChar(s[i])
  {
    ReplaceAllCharPointwise(s, '-', '+');
    ReplaceAllCharPointwise(ReplaceAllChar(s, '-', "+"), '_', '/');
  }

  /** `urlBase64ToUint8Array`: None where `atob` throws. `atob` gives one
      character per byte and `charCodeAt` reads it back, so the result is the
      decoded bytes. */
  function UrlBase64ToBytes(s: string): Option<seq<Byte>> {
    Base64.Atob(ToStandardAlphabet(s + Padding(s)))
  }

  /** The decoder inverts unpadded base64url, the form a VAPID public key takes. */
  lemma UrlBase64RoundTrip(b: seq<Byte>)
    ensures UrlBase64ToBytes(Base64.Encode(b, true)) == Some(b)
  {
    var e := Base64.Encode(b, true);
    var f := Base64.Encode(b, false);
    var pad := Padding(e);
    PaddingFits(b, pad);
    Base64.AtobPadded(b, pad);
    Base64.EncodeUrlStd(b);
    DecodesTo(e, f, b);
  }

  lemma DecodesTo(s: string, f: string, b: seq<Byte>)
    requires |s| == |f| && forall i :: 0 <= i < |s| ==> f[i] == Base64.StdChar(s[i])
    requires Base64.Atob(f + Padding(s)) == Some(b)
    ensures UrlBase64ToBytes(s) == Some(b)
  {
    PaddedToStandard(s, f, Padding(s));
  }

  lemma PaddingFits(b: seq<Byte>, pad: string)
    requires pad == Padding(Base64.Encode(b, true))
    ensures |pad| < 4 && (|Base64.Encode(b, false)| + |pad|) % 4 == 0
    ensures forall i :: 0 <= i < |pad| ==> pad[i] == '='
  {
    Base64.EncodeUrlStd(b);
  }

  lemma PaddedToStandard(e: string, f: string, pad: string)
    requires |e| == |f| && forall i :: 0 <= i < |e| ==> f[i] == Base64.StdChar(e[i])
    requires forall i :: 0 <= i < |pad| ==> pad[i] == '='
    ensures ToStandardAlphabet(e + pad) == f + pad
  {
    var t := ToStandardAlphabet(e + pad);
    ToStandardAlphabetPointwise(e + pad);
    forall i | 0 <= i < |t|
      ensures t[i] == (f + pad)[i]
    {
      if i < |e| {
        assert (e + pad)[i] == e[i];
      } else {
        assert (e + pad)[i] == pad[i - |e|] == '=';
      }
    }
  }

  /** `prev.includes(x) ? prev.filter(y => y !== x) : [...prev, x]`. */
  function Toggle(xs: seq<string>, x: string): (r: seq<string>)
    ensures x in xs ==> x !in r && forall y :: y != x ==> (y in r <==> y in xs)
    ensures x !in xs ==> r == xs + [x]
  {
    if x in xs then Filter(xs, y => y != x) else xs + [x]
  }

  /** Turning a chip on and off again gives the selection back. */
  lemma ToggleTwice(xs: seq<string>, x: string)
    requires x !in xs
    ensures Toggle(Toggle(xs, x), x) == xs
  {
    FilterAppend(xs, [x], y => y != x);
    FilterAll(xs, y => y != x);
  }

  /** The preferences object built from the selected chips. */
  function ChosenPrefs(cities: seq<string>, eligibility: seq<string>): (p: Subscribe.Prefs)
    ensures p.cities == Some(cities) && p.eligibility == Some(eligibility)
  {
    Subscribe.Prefs(Some(cities), Some(eligibility))
  }

  /** `handleSubscribe`: nothing while no city is chosen; otherwise the POST
      body `{ subscription, prefs }`. */
  function SubscribeBody(cities: seq<string>, eligibility: seq<string>, sub: Subscribe.Subscription)
    : (b: Option<Subscribe.Body>)
    ensures b.None? <==> |cities| == 0
    ensures b.Some? ==> b.value.subscription == Some(sub) && b.value.preferences.None?
                        && b.value.prefs == Some(ChosenPrefs(cities, eligibility))
  {
    if |cities| == 0 then None
    else Some(Subscribe.Body(Some(sub), None, Some(ChosenPrefs(cities, eligibility)), None))
  }
}
