/** client/src/components/QuizCard.jsx: the data a quiz card derives from a
    quiz: the 24-hour start time, the WhatsApp link, the Google Calendar
    parameters, the tags and the contact number. The browser's Date
    arithmetic is a parameter; rendering is outside the model. */
module QuizCard {
  import opened Js
  import opened Text
  import opened Seqs
  import opened Quizzes

  // ---------------------------------------------------------------------
  // parseTo24h
  // ---------------------------------------------------------------------

  function DigitValue(c: char): nat
    requires IsDigit(c)
  {
    c as int - '0' as int
  }

  /** `String(n).padStart(2, '0')` for n < 100. */
  function Pad2(n: nat): (r: string)
    requires n < 100
    ensures |r| == 2 && IsDigit(r[0]) && IsDigit(r[1])
    ensures DigitValue(r[0]) * 10 + DigitValue(r[1]) == n
  {
    [DigitChar(n / 10), DigitChar(n % 10)]
  }

  /** A match of `/^(\d{1,2}):(\d{2})\s*(AM|PM)?$/i`: the hour and minute
      digits and the suffix (None when absent, Some(true) for PM). */
  datatype TimeMatch = TimeMatch(h: nat, min: nat, pm: Option<bool>)

  function MatchTime(s: string): (r: Option<TimeMatch>)
    ensures r.Some? ==> r.value.h < 100 && r.value.min < 100
  {
    var k := if |s| >= 2 && IsDigit(s[0]) && IsDigit(s[1]) then 2 else 1;
    if |s| < k + 3 || !IsDigit(s[0]) || s[k] != ':' || !IsDigit(s[k + 1]) || !IsDigit(s[k + 2]) then None
    else
      var h := if k == 2 then DigitValue(s[0]) * 10 + DigitValue(s[1]) else DigitValue(s[0]);
      var min := DigitValue(s[k + 1]) * 10 + DigitValue(s[k + 2]);
      WithSuffix(h, min, s[k + 3..])
  }

  /** What may follow the minutes: spaces, then nothing or AM or PM in any
      letter case. */
  function WithSuffix(h: nat, min: nat, after: string): (r: Option<TimeMatch>)
    requires h < 100 && min < 100
    ensures r.Some? ==> r.value.h == h && r.value.min == min
  {
    var rest := TrimStart(after);
    if rest == "" then Some(TimeMatch(h, min, None))
    else if Lower(rest) == "am" then Some(TimeMatch(h, min, Some(false)))
    else if Lower(rest) == "pm" then Some(TimeMatch(h, min, Some(true)))
    else None
  }

  /** PM before noon adds twelve hours, 12 AM is hour 0, anything else
      (an hour without a suffix included) is kept as given. */
  function Hour24(h: nat, pm: Option<bool>): (r: nat)
    requires h < 100
    ensures r < 100
  {
    if pm == Some(true) && h < 12 then h + 12
    else if pm == Some(false) && h == 12 then 0
    else h
  }

  /** "HH:MM" for an hour and minute below 100. */
  function Clock(h: nat, min: nat): (r: string)
    requires h < 100 && min < 100
    ensures |r| == 5 && r[2] == ':' && r[..2] == Pad2(h) && r[3..] == Pad2(min)
    ensures IsDigit(r[0]) && IsDigit(r[1]) && IsDigit(r[3]) && IsDigit(r[4])
  {
    Pad2(h) + ":" + Pad2(min)
  }

  /** `parseTo24h(timeStr)`: null for a missing or empty text and for one
      that does not match; otherwise "HH:MM", five characters with ':' in
      the middle. */
  function ParseTo24h(timeStr: Option<string>): (r: Option<string>)
    ensures !Truthy(timeStr) ==> r.None?
    ensures Truthy(timeStr) ==> (r.Some? <==> MatchTime(timeStr.value).Some?)
    ensures r.Some? ==> |r.value| == 5 && r.value[2] == ':'
                        && IsDigit(r.value[0]) && IsDigit(r.value[1]) && IsDigit(r.value[3]) && IsDigit(r.value[4])
  {
    if !Truthy(timeStr) then None
    else
      match MatchTime(timeStr.value)
      case None => None
      case Some(m) => Some(Clock(Hour24(m.h, m.pm), m.min))
  }

  /** Leading whitespace before a word that does not start with one is all
      that `TrimStart` removes. */
  lemma {:induction false} TrimStartBefore(gap: string, word: string)
    requires forall i :: 0 <= i < |gap| ==> IsSpace(gap[i])
    requires |word| > 0 && !IsSpace(word[0])
    ensures TrimStart(gap + word) == word
  {
    if |gap| > 0 {
      assert (gap + word)[1..] == gap[1..] + word;
      TrimStartBefore(gap[1..], word);
    } else {
      assert gap + word == word;
    }
  }

  /** "HH:MM" texts come back unchanged, for every hour and minute below 100:
      no range is checked. */
  lemma ParseOwnOutput(h: nat, min: nat)
    requires h < 100 && min < 100
    ensures ParseTo24h(Some(Clock(h, min))) == Some(Clock(h, min))
  {
    var s := Clock(h, min);
    assert s[5..] == "";
    assert MatchTime(s) == Some(TimeMatch(h, min, None));
  }

  /** The result is a fixed point: parsing a parsed time gives it back. */
  lemma ParseIdempotent(timeStr: Option<string>)
    requires ParseTo24h(timeStr).Some?
    ensures ParseTo24h(ParseTo24h(timeStr)) == ParseTo24h(timeStr)
  {
    var m := MatchTime(timeStr.value).value;
    ParseOwnOutput(Hour24(m.h, m.pm), m.min);
  }

  /** A 12-hour time with a one- or two-digit hour, any spacing and either
      letter case turns into the 24-hour clock. */
  lemma TwelveHourClock(h: nat, min: nat, gap: string, suffix: string)
    requires 1 <= h <= 12 && min < 60
    requires forall i :: 0 <= i < |gap| ==> IsSpace(gap[i])
    requires Lower(suffix) == "am" || Lower(suffix) == "pm"
    ensures var pm := Lower(suffix) == "pm";
            var h24 := if pm then (if h == 12 then 12 else h + 12) else (if h == 12 then 0 else h);
            ParseTo24h(Some(NatToString(h) + ":" + Pad2(min) + gap + suffix)) == Some(Clock(h24, min))
  {
    var t := NatToString(h) + ":" + Pad2(min) + gap + suffix;
    var pm := Lower(suffix) == "pm";
    assert t == NatToString(h) + ":" + Pad2(min) + (gap + suffix);
    MatchHourText(h, min, gap + suffix);
    SuffixRead(h, min, gap, suffix);
    assert MatchTime(t) == Some(TimeMatch(h, min, Some(pm)));
    assert t != "";
    assert ParseTo24h(Some(t)) == Some(Clock(Hour24(h, Some(pm)), min));
    var h24 := if pm then (if h == 12 then 12 else h + 12) else (if h == 12 then 0 else h);
    assert Hour24(h, Some(pm)) == h24;
  }

  /** Spaces and then AM or PM in any letter case give the suffix. */
  lemma SuffixRead(h: nat, min: nat, gap: string, suffix: string)
    requires h < 100 && min < 100
    requires forall i :: 0 <= i < |gap| ==> IsSpace(gap[i])
    requires Lower(suffix) == "am" || Lower(suffix) == "pm"
    ensures WithSuffix(h, min, gap + suffix) == Some(TimeMatch(h, min, Some(Lower(suffix) == "pm")))
  {
    assert suffix[0] == 'a' || suffix[0] == 'A' || suffix[0] == 'p' || suffix[0] == 'P' by {
      assert Lower(suffix)[0] == LowerChar(suffix[0]);
    }
    TrimStartBefore(gap, suffix);
  }

  /** The hour as `String(h)` writes it and two minute digits are read
      back as those numbers. */
  lemma MatchHourText(h: nat, min: nat, rest: string)
    requires 1 <= h <= 12 && min < 60
    ensures MatchTime(NatToString(h) + ":" + Pad2(min) + rest) == WithSuffix(h, min, rest)
  {
    var hs := NatToString(h);
    var mm := Pad2(min);
    HourText(h);
    assert DigitValue(mm[0]) * 10 + DigitValue(mm[1]) == min;
    if h < 10 {
      assert hs + ":" + mm + rest == [DigitChar(h)] + ":" + mm + rest;
      OneDigitHour(h, mm, rest);
    } else {
      assert hs + ":" + mm + rest == [DigitChar(1), DigitChar(h - 10)] + ":" + mm + rest;
      TwoDigitHour(h, mm, rest);
    }
  }

  lemma OneDigitHour(h: nat, mm: string, rest: string)
    requires h < 10 && |mm| == 2 && IsDigit(mm[0]) && IsDigit(mm[1])
    ensures MatchTime([DigitChar(h)] + ":" + mm + rest)
            == WithSuffix(h, DigitValue(mm[0]) * 10 + DigitValue(mm[1]), rest)
  {
    DigitRoundTrip(h);
    MatchOneDigit(DigitChar(h), mm, rest, h, DigitValue(mm[0]) * 10 + DigitValue(mm[1]));
  }

  lemma TwoDigitHour(h: nat, mm: string, rest: string)
    requires 10 <= h < 20 && |mm| == 2 && IsDigit(mm[0]) && IsDigit(mm[1])
    ensures MatchTime([DigitChar(1), DigitChar(h - 10)] + ":" + mm + rest)
            == WithSuffix(h, DigitValue(mm[0]) * 10 + DigitValue(mm[1]), rest)
  {
    DigitRoundTrip(1);
    DigitRoundTrip(h - 10);
    MatchTwoDigits(DigitChar(1), DigitChar(h - 10), mm, rest, h, DigitValue(mm[0]) * 10 + DigitValue(mm[1]));
  }

  /** `String(h)` for an hour from 1 to 12. */
  lemma HourText(h: nat)
    requires 1 <= h <= 12
    ensures h < 10 ==> NatToString(h) == [DigitChar(h)]
    ensures h >= 10 ==> NatToString(h) == [DigitChar(1), DigitChar(h - 10)]
  {
    if h >= 10 {
      assert h / 10 == 1 && h % 10 == h - 10;
    }
  }

  lemma DigitRoundTrip(d: nat)
    requires d < 10
    ensures DigitValue(DigitChar(d)) == d
  {
  }

  lemma MatchOneDigit(c: char, mm: string, rest: string, h: nat, min: nat)
    requires IsDigit(c) && |mm| == 2 && IsDigit(mm[0]) && IsDigit(mm[1])
    requires h == DigitValue(c) && min == DigitValue(mm[0]) * 10 + DigitValue(mm[1])
    ensures MatchTime([c] + ":" + mm + rest) == WithSuffix(h, min, rest)
  {
    var s := [c] + ":" + mm + rest;
    assert s[0] == c && s[1] == ':' && s[2] == mm[0] && s[3] == mm[1];
    assert !IsDigit(s[1]) && |s| >= 4;
    assert s[4..] == rest;
  }

  lemma MatchTwoDigits(c: char, d: char, mm: string, rest: string, h: nat, min: nat)
    requires IsDigit(c) && IsDigit(d) && |mm| == 2 && IsDigit(mm[0]) && IsDigit(mm[1])
    requires h == DigitValue(c) * 10 + DigitValue(d) && min == DigitValue(mm[0]) * 10 + DigitValue(mm[1])
    ensures MatchTime([c, d] + ":" + mm + rest) == WithSuffix(h, min, rest)
  {
    var s := [c, d] + ":" + mm + rest;
    assert s[0] == c && s[1] == d && s[2] == ':' && s[3] == mm[0] && s[4] == mm[1];
    assert s[5..] == rest;
  }

  // ---------------------------------------------------------------------
  // waLink
  // ---------------------------------------------------------------------

  const WaPrefix := "https://wa.me/"

  /** `waLink(number)`: the digits of the number after the wa.me prefix. */
  function WaLink(number: Option<string>): (r: string)
    ensures |r| >= |WaPrefix| && r[..|WaPrefix|] == WaPrefix
    ensures forall i :: |WaPrefix| <= i < |r| ==> IsDigit(r[i])
    ensures r[|WaPrefix|..] == DigitsOnly(if number.Some? then number.value else "")
  {
    var clean := DigitsOnly(if number.Some? then number.value else "");
    WaPrefix + clean
  }

  /** A number written only in digits is kept whole; spaces, '+' and dashes
      are dropped. */
  lemma {:induction false} DigitsOnlyKeepsDigits(s: string)
    requires forall i :: 0 <= i < |s| ==> IsDigit(s[i])
    ensures DigitsOnly(s) == s
  {
    if |s| > 0 {
      DigitsOnlyKeepsDigits(s[1..]);
      assert s == [s[0]] + s[1..];
    }
  }

  lemma {:induction false} DigitsOnlyAppend(a: string, b: string)
    ensures DigitsOnly(a + b) == DigitsOnly(a) + DigitsOnly(b)
  {
    if |a| > 0 {
      assert (a + b)[1..] == a[1..] + b;
      DigitsOnlyAppend(a[1..], b);
    } else {
      assert a + b == b;
    }
  }

  /** Spaces, '+' and dashes in the number do not change the link. */
  lemma WaLinkIgnoresFormatting(a: string, c: char, b: string)
    requires !IsDigit(c)
    ensures WaLink(Some(a + [c] + b)) == WaLink(Some(a + b))
  {
    DigitsOnlyAppend(a + [c], b);
    DigitsOnlyAppend(a, [c]);
    DigitsOnlyAppend(a, b);
  }

  /** A number written only in digits appears whole in the link. */
  lemma WaLinkOfDigits(digits: string)
    requires forall i :: 0 <= i < |digits| ==> IsDigit(digits[i])
    ensures WaLink(Some(digits)) == WaPrefix + digits
  {
    DigitsOnlyKeepsDigits(digits);
  }

  // ---------------------------------------------------------------------
  // gcalLink
  // ---------------------------------------------------------------------

  /** `quiz.date.replace(/-/g, '')`. */
  function DateDigits(date: string): string {
    ReplaceAllChar(date, '-', "")
  }

  /** The `dates` parameter: absent without a date; the day twice when the
      time cannot be read or the end time is an invalid Date; else the start
      "YYYYMMDDTHHMM00" and the end two hours later, which the browser's
      Date computes (`endOf`). */
  function DatesParam(quiz: Quiz, endOf: (string, string) -> Option<string>): Option<string> {
    if !Truthy(quiz.date) then None
    else
      var d := DateDigits(quiz.date.value);
      var t24 := ParseTo24h(quiz.time);
      if t24.None? then Some(d + "/" + d)
      else
        var startStr := d + "T" + ReplaceFirst(t24.value, ":", "") + "00";
        var end := endOf(quiz.date.value, t24.value);
        if end.Some? then Some(startStr + "/" + end.value) else Some(d + "/" + d)
  }

  /** The `details` parameter: the non-empty lines among the host and the
      registration link. */
  function DetailsParam(quiz: Quiz): string {
    var lines := [if Truthy(quiz.hostingOrg) then "Hosted by " + quiz.hostingOrg.value else "",
                  if Truthy(quiz.regLink) then "Register: " + quiz.regLink.value else ""];
    Join(Filter(lines, IsLine()), "\n")
  }

  /** `.filter(Boolean)` on strings. */
  function IsLine(): string -> bool {
    (l: string) => l != ""
  }

  /** The keys `gcalLink` sets: action, text, dates, location, details. */
  datatype Key = ActionKey | TextKey | DatesKey | LocationKey | DetailsKey

  /** `gcalLink(quiz)`: the URLSearchParams filled by successive `set`
      calls. */
  method GcalParams(quiz: Quiz, endOf: (string, string) -> Option<string>) returns (p: map<Key, string>)
    ensures ActionKey in p && p[ActionKey] == "TEMPLATE"
    ensures TextKey in p && p[TextKey] == (if quiz.name != "" then quiz.name else "Quiz Event")
    ensures DatesKey in p <==> DatesParam(quiz, endOf).Some?
    ensures DatesKey in p ==> p[DatesKey] == DatesParam(quiz, endOf).value
    ensures LocationKey in p <==> Truthy(quiz.venue)
    ensures LocationKey in p ==> p[LocationKey] == quiz.venue.value
    ensures DetailsKey in p <==> DetailsParam(quiz) != ""
    ensures DetailsKey in p ==> p[DetailsKey] == DetailsParam(quiz)
  {
    p := map[ActionKey := "TEMPLATE"];
    p := p[TextKey := if quiz.name != "" then quiz.name else "Quiz Event"];
    p := SetDates(p, quiz, endOf);
    if Truthy(quiz.venue) {
      p := p[LocationKey := quiz.venue.value];
    }
    var details := DetailsParam(quiz);
    if details != "" {
      p := p[DetailsKey := details];
    }
  }

  /** The `if (quiz.date)` block of `gcalLink`. */
  method SetDates(p: map<Key, string>, quiz: Quiz, endOf: (string, string) -> Option<string>)
    returns (p': map<Key, string>)
    ensures p' == if DatesParam(quiz, endOf).Some? then p[DatesKey := DatesParam(quiz, endOf).value] else p
  {
    p' := p;
    if Truthy(quiz.date) {
      var d := DateDigits(quiz.date.value);
      var t24 := ParseTo24h(quiz.time);
      if t24.Some? {
        var startStr := d + "T" + ReplaceFirst(t24.value, ":", "") + "00";
        var endDate := endOf(quiz.date.value, t24.value);
        if endDate.Some? {
          p' := p'[DatesKey := startStr + "/" + endDate.value];
        } else {
          p' := p'[DatesKey := d + "/" + d];
        }
      } else {
        p' := p'[DatesKey := d + "/" + d];
      }
    }
  }

  /** The details are absent exactly when the quiz has neither a host nor a
      registration link, and name the host first. */
  lemma DetailsLines(quiz: Quiz)
    ensures DetailsParam(quiz) == "" <==> !Truthy(quiz.hostingOrg) && !Truthy(quiz.regLink)
    ensures Truthy(quiz.hostingOrg) ==> StartsWith(DetailsParam(quiz), "Hosted by " + quiz.hostingOrg.value)
  {
    var h := if Truthy(quiz.hostingOrg) then "Hosted by " + quiz.hostingOrg.value else "";
    var g := if Truthy(quiz.regLink) then "Register: " + quiz.regLink.value else "";
    var f := IsLine();
    assert [h, g][1..] == [g];
    assert Filter([h, g], f) == (if h != "" then [h] else []) + Filter([g], f);
    assert Filter([g], f) == (if g != "" then [g] else []);
    var d := DetailsParam(quiz);
    if h != "" {
      if g != "" {
        assert Filter([h, g], f) == [h, g];
        assert Join([h, g], "\n") == h + "\n" + Join([g], "\n");
      } else {
        assert d == h;
      }
      assert d[..|h|] == h;
    }
  }

  /** With a "YYYY-MM-DD" date and a readable time, the start of the event
      is "YYYYMMDDTHHMM00": the time without its colon after a 'T'. */
  lemma StartStamp(quiz: Quiz, endOf: (string, string) -> Option<string>)
    requires quiz.date.Some? && |quiz.date.value| == 10
    requires quiz.date.value[4] == '-' && quiz.date.value[7] == '-'
    requires forall i :: 0 <= i < 10 && i != 4 && i != 7 ==> IsDigit(quiz.date.value[i])
    requires ParseTo24h(quiz.time).Some? && endOf(quiz.date.value, ParseTo24h(quiz.time).value).Some?
    ensures var t := ParseTo24h(quiz.time).value;
            var dates := DatesParam(quiz, endOf).value;
            |dates| >= 16 && dates[8] == 'T' && dates[9..13] == t[..2] + t[3..] && dates[13..16] == "00/"
  {
    var t := ParseTo24h(quiz.time).value;
    var d := DateDigits(quiz.date.value);
    IsoDateDigits(quiz.date.value);
    TimeWithoutColon(t);
    var hhmm := ReplaceFirst(t, ":", "");
    var e := endOf(quiz.date.value, t).value;
    assert DatesParam(quiz, endOf).value == d + "T" + hhmm + "00" + "/" + e;
    StampLayout(d, hhmm, e);
  }

  /** With a date but no readable time, the event spans that whole day:
      "YYYYMMDD/YYYYMMDD". */
  lemma AllDayWithoutTime(quiz: Quiz, endOf: (string, string) -> Option<string>)
    requires quiz.date.Some? && |quiz.date.value| == 10
    requires quiz.date.value[4] == '-' && quiz.date.value[7] == '-'
    requires forall i :: 0 <= i < 10 && i != 4 && i != 7 ==> IsDigit(quiz.date.value[i])
    requires ParseTo24h(quiz.time).None?
    ensures var date := quiz.date.value;
            var day := date[..4] + date[5..7] + date[8..];
            DatesParam(quiz, endOf) == Some(day + "/" + day)
  {
    IsoDateDigits(quiz.date.value);
  }

  lemma StampLayout(d: string, hhmm: string, e: string)
    requires |d| == 8 && |hhmm| == 4
    ensures var dates := d + "T" + hhmm + "00" + "/" + e;
            |dates| >= 16 && dates[8] == 'T' && dates[9..13] == hhmm && dates[13..16] == "00/"
  {
    var dates := d + "T" + hhmm + "00" + "/" + e;
    var x := "T" + hhmm + "00/" + e;
    assert dates == d + x;
    assert dates[8] == x[0] == 'T';
    assert dates[9..13] == x[1..5] == hhmm;
    assert dates[13..16] == x[5..8] == "00/";
  }

  /** "YYYY-MM-DD" without its dashes is "YYYYMMDD". */
  lemma IsoDateDigits(date: string)
    requires |date| == 10 && date[4] == '-' && date[7] == '-'
    requires forall i :: 0 <= i < 10 && i != 4 && i != 7 ==> IsDigit(date[i])
    ensures DateDigits(date) == date[..4] + date[5..7] + date[8..]
    ensures |DateDigits(date)| == 8
  {
    var a, b, c := date[..4], date[5..7], date[8..];
    assert date == a + "-" + b + "-" + c;
    ReplaceAllCharAppend(a + "-" + b + "-", c, '-', "");
    ReplaceAllCharAppend(a + "-" + b, "-", '-', "");
    ReplaceAllCharAppend(a + "-", b, '-', "");
    ReplaceAllCharAppend(a, "-", '-', "");
    NoDashKept(a);
    NoDashKept(b);
    NoDashKept(c);
  }

  lemma {:induction false} NoDashKept(s: string)
    requires forall i :: 0 <= i < |s| ==> IsDigit(s[i])
    ensures ReplaceAllChar(s, '-', "") == s
  {
    if |s| > 0 {
      NoDashKept(s[1..]);
      assert s == [s[0]] + s[1..];
    }
  }

  /** Removing the first ':' of "HH:MM" gives "HHMM". */
  lemma TimeWithoutColon(t: string)
    requires |t| == 5 && t[2] == ':' && IsDigit(t[0]) && IsDigit(t[1])
    ensures ReplaceFirst(t, ":", "") == t[..2] + t[3..]
  {
    assert OccursAt(t, ":", 2);
    assert !OccursAt(t, ":", 0) && !OccursAt(t, ":", 1);
    assert IndexOf(t, ":") == 2;
  }

  // ---------------------------------------------------------------------
  // Tags, contact number, quizmasters
  // ---------------------------------------------------------------------

  /** A property as the card reads it: missing (undefined or null), a single
      string, or an array of strings. */
  datatype TagSource = Missing | Single(text: string) | Items(items: seq<string>)

  /** JavaScript truthiness: every array is truthy, a string when non-empty. */
  predicate Present(v: TagSource) {
    match v
    case Missing => false
    case Single(t) => t != ""
    case Items(_) => true
  }

  /** The value as an array: a single value is wrapped, a missing one is []. */
  function Values(v: TagSource): seq<string> {
    match v
    case Missing => []
    case Single(t) => [t]
    case Items(ts) => ts
  }

  /** The card's tags: the categories when present, else the eligibility,
      else nothing, as an array with the empty entries dropped. */
  function CardTags(categories: TagSource, eligibility: TagSource): (r: seq<string>)
    ensures "" !in r
    ensures Present(categories) ==> forall t :: t in r <==> t != "" && t in Values(categories)
    ensures !Present(categories) && Present(eligibility)
            ==> forall t :: t in r <==> t != "" && t in Values(eligibility)
    ensures !Present(categories) && !Present(eligibility) ==> r == []
  {
    var raw := if Present(categories) then categories else if Present(eligibility) then eligibility else Items([]);
    Filter(Values(raw), IsLine())
  }

  /** A stored quiz always holds a category array, so its free-text
      eligibility is never shown, not even when that array is empty. */
  lemma EmptyCategoriesHideEligibility(q: Quiz)
    requires q.eligibilityCategories == []
    ensures CardTags(Items(q.eligibilityCategories), Items(q.eligibility)) == []
  {
  }

  /** Categories without empty entries are shown as they are, in order. */
  lemma CategoriesShownInOrder(categories: seq<string>, eligibility: TagSource)
    requires forall i :: 0 <= i < |categories| ==> categories[i] != ""
    ensures CardTags(Items(categories), eligibility) == categories
  {
    FilterAll(categories, IsLine());
  }

  /** `quiz.poc?.whatsapp || quiz.poc?.phone`. */
  function PocNumber(poc: Poc): (r: Option<string>)
    ensures Truthy(r) <==> Truthy(poc.whatsapp) || Truthy(poc.phone)
    ensures Truthy(r) ==> r == poc.whatsapp || r == poc.phone
    ensures Truthy(poc.whatsapp) ==> r == poc.whatsapp
  {
    if Truthy(poc.whatsapp) then poc.whatsapp else poc.phone
  }

  /** The card's contact link dials the WhatsApp number when there is one and
      the phone number otherwise, with its formatting removed. */
  lemma ContactLinkPrefersWhatsApp(poc: Poc)
    requires Truthy(poc.whatsapp) || Truthy(poc.phone)
    ensures var n := if Truthy(poc.whatsapp) then poc.whatsapp.value else poc.phone.value;
            WaLink(PocNumber(poc)) == WaPrefix + DigitsOnly(n)
  {
  }

  /** `(quiz.quizMasters || []).filter(Boolean)`: the quizmasters listed on
      the card, in order, without empty names. */
  function CardMasters(masters: seq<string>): (r: seq<string>)
    ensures "" !in r
    ensures forall m :: m in r <==> m != "" && m in masters
    ensures |r| <= |masters|
  {
    Filter(masters, IsLine())
  }
}
