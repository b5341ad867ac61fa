/** client/src/utils/tagColors.js: the colour of an eligibility tag, chosen
    by keyword lists tested in a fixed order on the lowercased, trimmed tag. */
module TagColors {
  import opened Text

  const AgeTags: seq<string> := ["u18", "u23", "u25", "u30", "under 18", "under 23", "under 25", "under 30"]
  const OpenTags: seq<string> := ["open", "open to all"]
  const UniTags: seq<string> := ["du only", "du", "university", "college"]
  const DegreeTags: seq<string> := ["ug", "pg", "undergraduate", "postgraduate"]

  /** The five CSS variables a tag can get. */
  datatype TagColor = AgeColor | OpenColor | UniversityColor | DegreeColor | CustomColor

  function CssVar(c: TagColor): string {
    match c
    case AgeColor => "var(--tag-age)"
    case OpenColor => "var(--tag-open)"
    case UniversityColor => "var(--tag-university)"
    case DegreeColor => "var(--tag-degree)"
    case CustomColor => "var(--tag-custom)"
  }

  /** `keywords.some(a => t.includes(a))`. */
  predicate MentionsAny(t: string, keywords: seq<string>) {
    exists i :: 0 <= i < |keywords| && Contains(t, keywords[i])
  }

  /** `tag.toLowerCase().trim()`. */
  function Normalize(tag: string): string {
    Trim(Lower(tag))
  }

  /** `getTagColor(tag)`: age keywords first, then an exact open tag, then
      university and degree keywords, else custom. */
  function GetTagColor(tag: string): (r: TagColor)
    ensures var t := Normalize(tag);
            && (r == AgeColor <==> MentionsAny(t, AgeTags))
            && (r == OpenColor <==> !MentionsAny(t, AgeTags) && t in OpenTags)
            && (r == UniversityColor <==> !MentionsAny(t, AgeTags) && t !in OpenTags && MentionsAny(t, UniTags))
            && (r == DegreeColor <==>
                  !MentionsAny(t, AgeTags) && t !in OpenTags && !MentionsAny(t, UniTags) && MentionsAny(t, DegreeTags))
  {
    var t := Normalize(tag);
    if MentionsAny(t, AgeTags) then AgeColor
    else if t in OpenTags then OpenColor
    else if MentionsAny(t, UniTags) then UniversityColor
    else if MentionsAny(t, DegreeTags) then DegreeColor
    else CustomColor
  }

  predicate HasNoUpper(s: string) {
    forall i :: 0 <= i < |s| ==> !IsAsciiUpper(s[i])
  }

  /** The normal form has no capital letter and no whitespace at its ends. */
  lemma NormalForm(tag: string)
    ensures HasNoUpper(Normalize(tag)) && IsTrimmed(Normalize(tag))
  {
    var l := Lower(tag);
    assert HasNoUpper(l);
    TrimKeepsNoUpper(l);
    TrimIsTrimmed(l);
  }

  /** Trimming only removes characters, so it adds no capital. */
  lemma TrimKeepsNoUpper(l: string)
    requires HasNoUpper(l)
    ensures HasNoUpper(Trim(l))
  {
    var s := TrimStart(l);
    assert HasNoUpper(s) by {
      forall i | 0 <= i < |s| ensures !IsAsciiUpper(s[i]) {
        assert s[i] == l[|l| - |s| + i];
      }
    }
    var x := TrimEnd(s);
    forall i | 0 <= i < |x| ensures !IsAsciiUpper(x[i]) {
      assert x[i] == s[i];
    }
  }

  /** A tag already lowercased and trimmed is its own normal form, so
      classifying it again gives the same colour. */
  lemma NormalizeIdempotent(tag: string)
    ensures Normalize(Normalize(tag)) == Normalize(tag)
  {
    var x := Normalize(tag);
    NormalForm(tag);
    assert Lower(x) == x;
    TrimOfTrimmed(x);
  }

  lemma ColorOfNormalForm(tag: string)
    ensures GetTagColor(Normalize(tag)) == GetTagColor(tag)
  {
    NormalizeIdempotent(tag);
  }

  /** A keyword holding a character the tag lacks is not in the tag. */
  lemma NotMentioned(t: string, keyword: string, c: char)
    requires c in keyword && c !in t
    ensures !Contains(t, keyword)
  {
  }

  /** Substring matching makes "Education", in any letter case, a
      university tag: it contains "du". */
  lemma EducationIsUniversity(tag: string)
    requires Lower(tag) == "education"
    ensures GetTagColor(tag) == UniversityColor
  {
    var t := Lower(tag);
    assert IsTrimmed(t);
    TrimOfTrimmed(t);
    NoAgeInEducation();
    assert t !in OpenTags by {
      assert |t| != |OpenTags[0]| && |t| != |OpenTags[1]|;
    }
    EducationMentionsDu();
  }

  lemma EducationMentionsDu()
    ensures MentionsAny("education", UniTags)
  {
    var t := "education";
    assert t[1..3] == "du";
    ContainsAt(t, "du", 1);
    assert Contains(t, UniTags[1]);
  }

  lemma NoAgeInEducation()
    ensures !MentionsAny("education", AgeTags)
  {
    var t := "education";
    forall i | 0 <= i < |AgeTags|
      ensures !Contains(t, AgeTags[i])
    {
      if i < 4 {
        NotMentioned(t, AgeTags[i], AgeTags[i][1]);
      } else {
        NotMentioned(t, AgeTags[i], 'r');
      }
    }
  }
}
