/** The regular expressions the server and the client use, written out as
    sequences of pieces and matched the way the regular-expression engine
    matches them: leftmost start first, an optional group tried taken before
    skipped. */
module Regex {
  import opened Js
  import opened Text

  /** One element of a pattern. Letters are matched against the text as it
      is given: the case-insensitive patterns are run on the lower-cased text. */
  datatype Piece =
    | Lit(w: string)                // the characters of `w`
    | Opt(w: string, blanks: bool)  // `(?:w)?`, or `(?:w\s*)?` when `blanks`
    | OneOf(cs: string)             // a class such as `[Uu]`
    | Blanks                        // `\s*`
    | BlanksOrDashes                // `[\s-]*`
    | Digits                        // `\d+`
    | TwoDigits                     // `\d{2}`
    | Boundary                      // `\b`

  type Pattern = seq<Piece>

  /** `\b` at position `i`: a word character on exactly one side. */
  predicate AtBoundary(t: string, i: nat)
    requires i <= |t|
  {
    (i > 0 && IsWordChar(t[i - 1])) != (i < |t| && IsWordChar(t[i]))
  }

  predicate IsBlankOrDash(c: char) { IsSpace(c) || c == '-' }

  /** The end of the run of characters in the class starting at `i`. */
  function Skip(t: string, i: nat, inClass: char -> bool): (j: nat)
    requires i <= |t|
    ensures i <= j <= |t|
    ensures forall k :: i <= k < j ==> inClass(t[k])
    ensures j == |t| || !inClass(t[j])
    decreases |t| - i
  {
    if i < |t| && inClass(t[i]) then Skip(t, i + 1, inClass) else i
  }

  /** Where a match of `ps` that starts at `i` ends, or None. A starred class
      takes its longest run: in every pattern here the piece that follows a
      starred class cannot start with a character of that class, so giving
      characters back never produces a match. */
  function MatchFrom(t: string, i: nat, ps: Pattern): (r: Option<nat>)
    requires i <= |t|
    ensures r.Some? ==> i <= r.value <= |t|
    decreases |ps|
  {
    if |ps| == 0 then Some(i)
    else match ps[0]
      case Lit(w) => if OccursAt(t, w, i) then MatchFrom(t, i + |w|, ps[1..]) else None
      case Opt(w, blanks) =>
        var taken := if OccursAt(t, w, i)
                     then MatchFrom(t, if blanks then Skip(t, i + |w|, IsSpace) else i + |w|, ps[1..])
                     else None;
        if taken.Some? then taken else MatchFrom(t, i, ps[1..])
      case OneOf(cs) => if i < |t| && t[i] in cs then MatchFrom(t, i + 1, ps[1..]) else None
      case Blanks => MatchFrom(t, Skip(t, i, IsSpace), ps[1..])
      case BlanksOrDashes => MatchFrom(t, Skip(t, i, IsBlankOrDash), ps[1..])
      case Digits =>
        var j := Skip(t, i, IsDigit);
        if j > i then MatchFrom(t, j, ps[1..]) else None
      case TwoDigits =>
        if i + 2 <= |t| && IsDigit(t[i]) && IsDigit(t[i + 1]) then MatchFrom(t, i + 2, ps[1..]) else None
      case Boundary => if AtBoundary(t, i) then MatchFrom(t, i, ps[1..]) else None
  }

  /** The leftmost match at or after `i`, as its start and end. */
  function SearchFrom(t: string, ps: Pattern, i: nat): (r: Option<(nat, nat)>)
    requires i <= |t|
    ensures r.Some? ==> i <= r.value.0 <= r.value.1 <= |t| && MatchFrom(t, r.value.0, ps) == Some(r.value.1)
    ensures r.Some? ==> forall k :: i <= k < r.value.0 ==> MatchFrom(t, k, ps).None?
    ensures r.None? ==> forall k :: i <= k <= |t| ==> MatchFrom(t, k, ps).None?
    decreases |t| - i
  {
    var m := MatchFrom(t, i, ps);
    if m.Some? then Some((i, m.value))
    else if i == |t| then None
    else SearchFrom(t, ps, i + 1)
  }

  /** `pattern.test(t)` for a pattern with the i flag. */
  predicate Test(t: string, ps: Pattern) {
    SearchFrom(Lower(t), ps, 0).Some?
  }

  /** `patterns.some(p => p.test(t))`. */
  predicate AnyTest(t: string, patterns: seq<Pattern>)
    decreases |patterns|
  {
    |patterns| > 0 && (Test(t, patterns[0]) || AnyTest(t, patterns[1..]))
  }

  /** `t.replace(pattern, '')` for a pattern with the i flag and without g:
      the leftmost match is cut out of the original text. */
  function RemoveFirst(t: string, ps: Pattern): (r: string)
    ensures |r| <= |t|
    ensures !Test(t, ps) ==> r == t
    ensures Test(t, ps) ==> var m := SearchFrom(Lower(t), ps, 0).value;
                            r == t[..m.0] + t[m.1..]
  {
    var m := SearchFrom(Lower(t), ps, 0);
    if m.None? then t else t[..m.value.0] + t[m.value.1..]
  }
}
