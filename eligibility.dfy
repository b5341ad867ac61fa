/** server/utils/eligibility.js: free-text eligibility turned into category
    tags by regular-expression tests. */
module Eligibility {
  import opened Js
  import opened Text
  import opened Regex
  import opened Seqs

  /** `AGE_PATTERN`, case-sensitive: `[Uu](?:nder\s*)?(\d{2})`. */
  const AgePattern: Pattern := [OneOf("Uu"), Opt("nder", true), TwoDigits]

  const OpenPatterns: seq<Pattern> := [
    [Boundary, Lit("open"), Boundary], [Boundary, Lit("everyone"), Boundary],
    [Boundary, Lit("all"), Boundary], [Boundary, Lit("anyone"), Boundary]]

  const UgPatterns: seq<Pattern> := [
    [Boundary, Lit("ug"), Boundary], [Boundary, Lit("undergrad")], [Boundary, Lit("bachelor")]]

  const PgPatterns: seq<Pattern> := [
    [Boundary, Lit("pg"), Boundary], [Boundary, Lit("postgrad")], [Boundary, Lit("master")],
    [Boundary, Lit("mba"), Boundary]]

  const ResearchPatterns: seq<Pattern> := [
    [Boundary, Lit("research")], [Boundary, Lit("ph"), Opt(".", false), Lit("d")],
    [Boundary, Lit("doctoral")]]

  const DuPatterns: seq<Pattern> := [
    [Boundary, Lit("du"), Boundary], [Boundary, Lit("delhi"), Blanks, Lit("uni")]]

  /** The team-size phrase: `\bteams?\s*(of\s*)?\d+\b`. */
  const TeamPattern: Pattern := [Boundary, Lit("team"), Opt("s", false), Blanks, Opt("of", true), Digits, Boundary]

  /** `NOISE_PATTERNS`, in the order they are stripped. */
  const NoisePatterns: seq<Pattern> := [
    TeamPattern,
    [Boundary, Lit("lone"), Blanks, Lit("wolve"), Opt("s", false), Boundary],
    [Boundary, Lit("lone"), Blanks, Lit("wolf"), Boundary],
    [Boundary, Lit("solo"), Boundary],
    [Boundary, Lit("cross"), BlanksOrDashes, Lit("college"), Boundary],
    [Boundary, Lit("cross"), BlanksOrDashes, Lit("institution"), Boundary],
    [Boundary, Lit("inter"), BlanksOrDashes, Lit("college"), Boundary]]

  /** The value of a decimal digit. */
  function DigitValue(c: char): (d: nat)
    requires IsDigit(c)
    ensures d < 10 && DigitChar(d) == c
  {
    c as int - '0' as int
  }

  /** The tag the first age match gives: `U${parseInt(match[1])}`, where the
      capture is the two digits that end the match. */
  function AgeCategory(t: string): (r: Option<string>)
    ensures r.Some? <==> SearchFrom(t, AgePattern, 0).Some?
    ensures r.Some? ==> |r.value| >= 2 && r.value[0] == 'U'
                        && forall k :: 1 <= k < |r.value| ==> IsDigit(r.value[k])
  {
    var m := SearchFrom(t, AgePattern, 0);
    if m.None? then None
    else
      var e := m.value.1;
      AgeMatchEndsInDigits(t, m.value.0);
      Some("U" + NatToString(10 * DigitValue(t[e - 2]) + DigitValue(t[e - 1])))
  }

  /** A match of the age pattern ends with its two captured digits. */
  lemma AgeMatchEndsInDigits(t: string, i: nat)
    requires i <= |t| && MatchFrom(t, i, AgePattern).Some?
    ensures var e := MatchFrom(t, i, AgePattern).value;
            i + 3 <= e && IsDigit(t[e - 2]) && IsDigit(t[e - 1])
  {
    var tail: Pattern := [TwoDigits];
    assert AgePattern[1..] == [Opt("nder", true), TwoDigits];
    assert AgePattern[1..][1..] == tail;
    assert tail[1..] == [];
  }

  /** `[cat]` when the condition holds, else nothing. */
  function Flag(b: bool, cat: string): seq<string> {
    if b then [cat] else []
  }

  predicate NoDuplicates(s: seq<string>) {
    forall i, j :: 0 <= i < j < |s| ==> s[i] != s[j]
  }

  const NamedCategories := ["Open", "UG", "PG", "Research", "DU Only", "Custom"]

  /** The names whose flag is set, in order. */
  function Selected(flags: seq<bool>, names: seq<string>): (r: seq<string>)
    requires |flags| == |names|
    ensures forall x :: x in r ==> x in names
    ensures r == [] <==> forall i :: 0 <= i < |flags| ==> !flags[i]
    decreases |flags|
  {
    if |flags| == 0 then [] else Flag(flags[0], names[0]) + Selected(flags[1..], names[1..])
  }

  /** Over distinct names, a name is selected exactly when its flag is set,
      and no name is selected twice. */
  lemma {:induction false} SelectedSpec(flags: seq<bool>, names: seq<string>)
    requires |flags| == |names| && NoDuplicates(names)
    ensures NoDuplicates(Selected(flags, names))
    ensures forall i :: 0 <= i < |names| ==> (names[i] in Selected(flags, names) <==> flags[i])
    decreases |flags|
  {
    if |flags| > 0 {
      var rest := Selected(flags[1..], names[1..]);
      SelectedSpec(flags[1..], names[1..]);
      assert names[0] !in rest;
      forall i | 1 <= i < |names| ensures names[i] in Selected(flags, names) <==> flags[i] {
        assert names[i] == names[1..][i - 1] && flags[i] == flags[1..][i - 1];
        assert names[i] != names[0];
      }
    }
  }

  /** The named tags in the order the text is tested for them, and the
      patterns of each test. */
  const TagNames: seq<string> := ["Open", "UG", "PG", "Research", "DU Only"]
  const TagPatterns: seq<seq<Pattern>> := [OpenPatterns, UgPatterns, PgPatterns, ResearchPatterns, DuPatterns]

  lemma TagNamesDistinct()
    ensures NoDuplicates(TagNames)
  {
  }

  /** Whether any pattern of each test matches the text. */
  function Outcomes(t: string): (r: seq<bool>)
    ensures |r| == |TagPatterns|
    ensures forall i :: 0 <= i < |TagPatterns| ==> (r[i] <==> AnyTest(t, TagPatterns[i]))
  {
    Map(TagPatterns, (ps: seq<Pattern>) => AnyTest(t, ps))
  }

  /** The named tags in their insertion order, for the five tests' outcomes. */
  function NamedTags(flags: seq<bool>): (r: seq<string>)
    requires |flags| == |TagNames|
    ensures NoDuplicates(r)
    ensures forall k :: 0 <= k < |r| ==> r[k] in NamedCategories && r[k] != "Custom"
    ensures forall i :: 0 <= i < |TagNames| ==> (TagNames[i] in r <==> flags[i])
    ensures r == [] <==> forall i :: 0 <= i < |flags| ==> !flags[i]
  {
    var r := Selected(flags, TagNames);
    TagNamesDistinct();
    SelectedSpec(flags, TagNames);
    TagNamesNamed();
    r
  }

  /** Each named tag is a category other than Custom. */
  lemma TagNamesNamed()
    ensures forall x :: x in TagNames ==> x in NamedCategories && x != "Custom"
  {
  }

  /** The tags of an already stripped text, in insertion order of the Set:
      the age tag first, then Open, UG, PG, Research and DU Only; Custom
      alone when nothing matched. */
  function Categories(t: string): (r: seq<string>)
    ensures |r| >= 1 && NoDuplicates(r)
    ensures AgeCategory(t).Some? ==> r[0] == AgeCategory(t).value
    ensures forall i :: 0 <= i < |TagNames| ==> (TagNames[i] in r <==> AnyTest(t, TagPatterns[i]))
    ensures ("Custom" in r <==> r == ["Custom"])
    ensures r == ["Custom"] <==>
              AgeCategory(t).None? && forall i :: 0 <= i < |TagPatterns| ==> !AnyTest(t, TagPatterns[i])
    ensures forall k :: 0 <= k < |r| ==> r[k] in NamedCategories || Some(r[k]) == AgeCategory(t)
  {
    var age := AgeCategory(t);
    AgeIsNotNamed(age);
    TagNamesNamed();
    Assemble(age, NamedTags(Outcomes(t)))
  }

  /** The Set's contents in insertion order: the age tag, then the named
      tags, or Custom alone when both are missing. */
  function Assemble(age: Option<string>, named: seq<string>): (r: seq<string>)
    requires NoDuplicates(named)
    requires forall k :: 0 <= k < |named| ==> named[k] in NamedCategories && named[k] != "Custom"
    requires age.Some? ==> age.value !in NamedCategories
    ensures |r| >= 1 && NoDuplicates(r)
    ensures age.Some? ==> r[0] == age.value
    ensures forall x :: x in NamedCategories && x != "Custom" ==> (x in r <==> x in named)
    ensures ("Custom" in r <==> r == ["Custom"])
    ensures r == ["Custom"] <==> age.None? && named == []
    ensures forall k :: 0 <= k < |r| ==> r[k] in NamedCategories || Some(r[k]) == age
  {
    if age.None? then
      if named == [] then ["Custom"]
      else
        assert "Custom" !in named;
        named
    else
      assert "Custom" !in named;
      [age.value] + named
  }

  /** An age tag is "U" and digits, so it is none of the named tags. */
  lemma AgeIsNotNamed(a: Option<string>)
    requires a.Some? ==> |a.value| >= 2 && a.value[0] == 'U'
                         && forall k :: 1 <= k < |a.value| ==> IsDigit(a.value[k])
    ensures a.Some? ==> a.value !in NamedCategories
  {
    if a.Some? {
      assert IsDigit(a.value[1]);
    }
  }

  /** Each noise pattern in turn removes its leftmost match. */
  function StripAll(t: string, patterns: seq<Pattern>): (r: string)
    ensures |r| <= |t|
    decreases |patterns|
  {
    if |patterns| == 0 then t else StripAll(RemoveFirst(t, patterns[0]), patterns[1..])
  }

  /** The argument: missing or null, one string, or an array of strings. */
  datatype RawEligibility = Missing | OneString(s: string) | Strings(items: seq<string>)

  /** `!raw || raw.length === 0`. */
  predicate IsEmpty(raw: RawEligibility) {
    match raw
    case Missing => true
    case OneString(s) => |s| == 0
    case Strings(items) => |items| == 0
  }

  /** The text to classify: an array is joined with single spaces. */
  function RawText(raw: RawEligibility): string
    requires !raw.Missing?
  {
    match raw
    case OneString(s) => s
    case Strings(items) => Join(items, " ")
  }

  /** The tags `normalizeEligibility` returns: none for an empty input,
      otherwise at least one (Custom when nothing else applies). */
  function EligibilityTags(raw: RawEligibility): (r: seq<string>)
    ensures IsEmpty(raw) <==> r == []
  {
    if IsEmpty(raw) then [] else Categories(StripAll(RawText(raw), NoisePatterns))
  }

  /** `normalizeEligibility(rawEligibility)`. */
  method NormalizeEligibility(raw: RawEligibility) returns (categories: seq<string>)
    ensures IsEmpty(raw) ==> categories == []
    ensures !IsEmpty(raw) ==> categories == Categories(StripAll(RawText(raw), NoisePatterns))
    ensures categories == EligibilityTags(raw)
  {
    if IsEmpty(raw) {
      return [];
    }
    var text := RawText(raw);
    var k := 0;
    while k < |NoisePatterns|
      invariant 0 <= k <= |NoisePatterns|
      invariant StripAll(text, NoisePatterns[k..]) == StripAll(RawText(raw), NoisePatterns)
    {
      assert NoisePatterns[k..][1..] == NoisePatterns[k + 1..];
      text := RemoveFirst(text, NoisePatterns[k]);
      k := k + 1;
    }
    categories := Categories(text);
  }

  /** Letter case does not change which named categories apply. */
  lemma NamedCategoriesIgnoreCase(t: string, patterns: seq<Pattern>)
    ensures AnyTest(Lower(t), patterns) <==> AnyTest(t, patterns)
  {
    LowerIdempotent(t);
  }

  /** `parseInt` drops a leading zero: "U07" gives the tag "U7". */
  lemma AgeDropsLeadingZero()
    ensures AgeCategory("U07") == Some("U7")
  {
    var t := "U07";
    assert MatchFrom(t, 0, AgePattern) == Some(3) by {
      assert !OccursAt(t, "nder", 1);
      assert AgePattern[1..][1..] == [TwoDigits];
    }
    assert SearchFrom(t, AgePattern, 0) == Some((0, 3));
    assert t[1] == '0' && t[2] == '7';
    assert AgeCategory(t) == Some("U" + NatToString(10 * DigitValue(t[1]) + DigitValue(t[2])));
    assert DigitValue('0') == 0 && DigitValue('7') == 7;
    assert NatToString(7) == [DigitChar(7)] == "7";
    assert AgeCategory(t) == Some("U" + NatToString(7));
    assert "U" + "7" == "U7";
  }

  /** "nder" is matched case-sensitively: "Under 23" gives "U23", while in
      "UNDER 23" the pattern finds no match. */
  lemma UnderIsCaseSensitive()
    ensures AgeCategory("Under 23") == Some("U23")
    ensures AgeCategory("UNDER 23") == None
  {
    var t := "Under 23";
    assert OccursAt(t, "nder", 1);
    assert Skip(t, 5, IsSpace) == 6;
    assert AgePattern[1..][1..] == [TwoDigits];
    assert MatchFrom(t, 0, AgePattern) == Some(8);
    assert SearchFrom(t, AgePattern, 0) == Some((0, 8));
    assert t[6] == '2' && t[7] == '3';
    assert AgeCategory(t) == Some("U" + NatToString(10 * DigitValue(t[6]) + DigitValue(t[7])));
    assert DigitValue('2') == 2 && DigitValue('3') == 3;
    assert NatToString(23) == NatToString(2) + [DigitChar(3)] == "23";
    assert AgeCategory(t) == Some("U" + NatToString(23));
    assert "U" + "23" == "U23";
    var u := "UNDER 23";
    forall k | 0 <= k <= |u| ensures MatchFrom(u, k, AgePattern).None? {
      if k == 0 {
        assert u[1] == 'N' && u[1..5] != "nder";
        assert !IsDigit(u[1]);
      } else if k < |u| {
        assert u[k] !in "Uu";
      }
    }
  }

  /** A team-size phrase is cut out whole before the tests run. */
  lemma TeamSizeIsNoise()
    ensures RemoveFirst("Teams of 3", NoisePatterns[0]) == ""
  {
    var l := Lower("Teams of 3");
    assert l == TeamsOf3;
    TeamPatternMatches();
    assert NoisePatterns[0] == TeamPattern;
    assert SearchFrom(l, TeamPattern, 0) == Some((0, 10));
  }

  const TeamsOf3 := "teams of 3"

  lemma TeamPatternMatches()
    ensures MatchFrom(TeamsOf3, 0, TeamPattern) == Some(10)
  {
    var l := TeamsOf3;
    TeamPatternMiddle();
    DropOne(TeamPattern, 1);
    assert TeamPattern[0] == Boundary && TeamPattern[1..][0] == Lit("team");
    assert OccursAt(l, "team", 0);
    assert MatchFrom(l, 0, TeamPattern[1..]) == Some(10);
  }

  /** The pattern after its first `k` items, one item further. */
  lemma DropOne(ps: Pattern, k: nat)
    requires k < |ps|
    ensures ps[k..][1..] == ps[k + 1..]
  {
  }

  lemma TeamPatternMiddle()
    ensures MatchFrom(TeamsOf3, 4, TeamPattern[2..]) == Some(10)
  {
    var l := TeamsOf3;
    TeamPatternTail();
    DropOne(TeamPattern, 2);
    DropOne(TeamPattern, 3);
    assert TeamPattern[2..][0] == Opt("s", false) && TeamPattern[3..][0] == Blanks;
    assert Skip(l, 5, IsSpace) == 6;
    assert MatchFrom(l, 5, TeamPattern[3..]) == Some(10);
    assert OccursAt(l, "s", 4);
  }

  lemma TeamPatternTail()
    ensures MatchFrom(TeamsOf3, 6, TeamPattern[4..]) == Some(10)
  {
    var l := TeamsOf3;
    DropOne(TeamPattern, 4);
    DropOne(TeamPattern, 5);
    DropOne(TeamPattern, 6);
    assert TeamPattern[4..][0] == Opt("of", true) && TeamPattern[5..][0] == Digits;
    assert TeamPattern[6..][0] == Boundary && |TeamPattern[7..]| == 0;
    assert MatchFrom(l, 10, TeamPattern[6..]) == Some(10);
    assert Skip(l, 9, IsDigit) == 10;
    assert MatchFrom(l, 9, TeamPattern[5..]) == Some(10);
    assert OccursAt(l, "of", 6) && Skip(l, 8, IsSpace) == 9;
  }
}
