/** client/src/components/QuizDetail.jsx: the description renderer, the
    date/time guards, the venue link and the tag list of the detail page.
    Locale formatting is a parameter; React state and fetching are outside
    the model. */
module QuizDetail {
  import opened Js
  import opened Text
  import opened Seqs
  import Utf8
  import opened Quizzes

  // ---------------------------------------------------------------------
  // renderMarkdown: escaping
  // ---------------------------------------------------------------------

  /** The three entity passes, '&' first. */
  function Escape(text: string): (r: string)
    ensures '<' !in r && '>' !in r
  {
    var amp := ReplaceAllChar(text, '&', "&amp;");
    var lt := ReplaceAllChar(amp, '<', "&lt;");
    ReplaceAllCharRemoves(amp, '<', "&lt;", '<');
    ReplaceAllCharRemoves(lt, '>', "&gt;", '<');
    ReplaceAllCharRemoves(lt, '>', "&gt;", '>');
    ReplaceAllChar(lt, '>', "&gt;")
  }

  /** The entity one character turns into. */
  function Entity(c: char): string {
    if c == '&' then "&amp;" else if c == '<' then "&lt;" else if c == '>' then "&gt;" else [c]
  }

  /** Escaping character by character. */
  function EscapeEach(s: string): string {
    if |s| == 0 then "" else Entity(s[0]) + EscapeEach(s[1..])
  }

  /** The three passes amount to replacing each character by its entity:
      '&' goes first, so the '&' the later passes write is never escaped
      again. */
  lemma {:induction false} EscapeIsPerCharacter(s: string)
    ensures Escape(s) == EscapeEach(s)
  {
    if |s| > 0 {
      EscapeIsPerCharacter(s[1..]);
      var c := s[0];
      assert s == [c] + s[1..];
      ReplaceAllCharAppend([c], s[1..], '&', "&amp;");
      var a1, a2 := ReplaceAllChar([c], '&', "&amp;"), ReplaceAllChar(s[1..], '&', "&amp;");
      ReplaceAllCharAppend(a1, a2, '<', "&lt;");
      var b1, b2 := ReplaceAllChar(a1, '<', "&lt;"), ReplaceAllChar(a2, '<', "&lt;");
      ReplaceAllCharAppend(b1, b2, '>', "&gt;");
      EntityPasses(c);
    }
  }

  lemma EntityPasses(c: char)
    ensures ReplaceAllChar(ReplaceAllChar(ReplaceAllChar([c], '&', "&amp;"), '<', "&lt;"), '>', "&gt;") == Entity(c)
  {
    if c == '&' {
      assert ReplaceAllChar([c], '&', "&amp;") == "&amp;";
      NoEntityChars("&amp;");
    } else if c == '<' {
      assert ReplaceAllChar([c], '&', "&amp;") == [c];
      assert ReplaceAllChar([c], '<', "&lt;") == "&lt;";
      NoEntityChars("&lt;");
    } else if c == '>' {
      assert ReplaceAllChar([c], '&', "&amp;") == [c];
      assert ReplaceAllChar([c], '<', "&lt;") == [c];
    } else {
      assert ReplaceAllChar([c], '&', "&amp;") == [c];
      assert ReplaceAllChar([c], '<', "&lt;") == [c];
    }
  }

  lemma NoEntityChars(e: string)
    requires e == "&amp;" || e == "&lt;"
    ensures ReplaceAllChar(ReplaceAllChar(e, '<', "&lt;"), '>', "&gt;") == e
    ensures ReplaceAllChar(e, '>', "&gt;") == e
  {
    NoChange(e, '<', "&lt;");
    NoChange(e, '>', "&gt;");
  }

  lemma {:induction false} NoChange(s: string, x: char, y: string)
    requires x !in s
    ensures ReplaceAllChar(s, x, y) == s
  {
    if |s| > 0 {
      NoChange(s[1..], x, y);
      assert s == [s[0]] + s[1..];
    }
  }

  /** Reading the entities back. */
  function Unescape(s: string): string {
    if |s| == 0 then ""
    else if StartsWith(s, "&amp;") then "&" + Unescape(s[5..])
    else if StartsWith(s, "&lt;") then "<" + Unescape(s[4..])
    else if StartsWith(s, "&gt;") then ">" + Unescape(s[4..])
    else [s[0]] + Unescape(s[1..])
  }

  /** Escaping loses nothing: the entities read back give the text. */
  lemma {:induction false} UnescapeEscape(s: string)
    ensures Unescape(Escape(s)) == s
  {
    EscapeIsPerCharacter(s);
    UnescapeEach(s);
  }

  lemma {:induction false} UnescapeEach(s: string)
    ensures Unescape(EscapeEach(s)) == s
  {
    if |s| > 0 {
      UnescapeEach(s[1..]);
      UnescapeEntity(s[0], EscapeEach(s[1..]));
      assert s == [s[0]] + s[1..];
    }
  }

  lemma UnescapeEntity(c: char, rest: string)
    ensures Unescape(Entity(c) + rest) == [c] + Unescape(rest)
  {
    if c == '&' {
      UnescapeAmp(rest);
    } else if c == '<' {
      UnescapeLt(rest);
    } else if c == '>' {
      UnescapeGt(rest);
    } else {
      var e := [c] + rest;
      assert e[0] == c && e[1..] == rest;
    }
  }

  lemma UnescapeAmp(rest: string)
    ensures Unescape("&amp;" + rest) == "&" + Unescape(rest)
  {
    var e := "&amp;" + rest;
    assert e[..5] == "&amp;" && e[5..] == rest;
  }

  lemma UnescapeLt(rest: string)
    ensures Unescape("&lt;" + rest) == "<" + Unescape(rest)
  {
    var e := "&lt;" + rest;
    assert e[1] == 'l' && e[..4] == "&lt;" && e[4..] == rest;
  }

  lemma UnescapeGt(rest: string)
    ensures Unescape("&gt;" + rest) == ">" + Unescape(rest)
  {
    var e := "&gt;" + rest;
    assert e[1] == 'g' && e[..4] == "&gt;" && e[4..] == rest;
  }

  lemma EscapeEachCons(c: char, s: string)
    ensures EscapeEach([c] + s) == Entity(c) + EscapeEach(s)
  {
    assert ([c] + s)[1..] == s;
  }

  /** '&' is escaped first: an entity typed into a description, such as
      "&lt;", is shown as written rather than as the character it names. */
  lemma EntityShownAsWritten(t: string)
    requires '&' !in t && '<' !in t && '>' !in t
    ensures Escape("&" + t) == "&amp;" + t
  {
    EscapeIsPerCharacter("&" + t);
    EscapeEachCons('&', t);
    PlainEscapeEach(t);
  }

  /** Text without '&', '<' and '>' is its own escape. */
  lemma {:induction false} PlainEscapeEach(t: string)
    requires '&' !in t && '<' !in t && '>' !in t
    ensures EscapeEach(t) == t
  {
    if |t| > 0 {
      PlainEscapeEach(t[1..]);
      assert t == [t[0]] + t[1..];
    }
  }

  // ---------------------------------------------------------------------
  // renderMarkdown: the rewriting passes
  // ---------------------------------------------------------------------

  /** The tags the passes insert. */
  datatype Tag = StrongOpen | StrongClose | EmOpen | EmClose | LiOpen | LiClose | UlOpen | UlClose | Br

  function TagText(t: Tag): (r: string)
    ensures |r| >= 4 && r[0] == '<' && r[|r| - 1] == '>'
    ensures '\n' !in r
  {
    match t
    case StrongOpen => "<strong>"
    case StrongClose => "</strong>"
    case EmOpen => "<em>"
    case EmClose => "</em>"
    case LiOpen => "<li>"
    case LiClose => "</li>"
    case UlOpen => "<ul>"
    case UlClose => "</ul>"
    case Br => "<br/>"
  }

  /** The text between the passes: characters of the escaped description and
      the tags inserted so far. After escaping no character is '<', so the
      text of a tag never arises from the description's own characters and
      the later patterns can only meet a tag as a whole: none of them starts
      or ends inside one, since tags hold no '*', whitespace or line end. */
  datatype Piece = Chr(c: char) | Mark(t: Tag)

  function PieceText(p: Piece): string {
    match p
    case Chr(c) => [c]
    case Mark(t) => TagText(t)
  }

  /** The HTML the pieces spell. */
  function Flatten(ps: seq<Piece>): string {
    if |ps| == 0 then "" else PieceText(ps[0]) + Flatten(ps[1..])
  }

  function Pieces(s: string): (r: seq<Piece>)
    ensures forall c :: Chr(c) in r ==> c in s
    ensures forall p :: p in r ==> p.Chr?
  {
    seq(|s|, i requires 0 <= i < |s| => Chr(s[i]))
  }

  /** Every character piece of the result was a character piece of the
      input: the passes move and wrap the text, they never write a character
      of their own. */
  predicate CharsFrom(r: seq<Piece>, ps: seq<Piece>) {
    forall c :: Chr(c) in r ==> Chr(c) in ps
  }

  /** A character `.` does not match and `^`/`$` treat as a line end. */
  predicate LineEnd(p: Piece) {
    p.Chr? && IsLineTerminator(p.c)
  }

  /** A character `\s` matches. */
  predicate Blank(p: Piece) {
    p.Chr? && IsSpace(p.c)
  }

  function Stars(w: nat): seq<Piece> {
    seq(w, _ => Chr('*'))
  }

  /** The lazy `(.+?)` followed by `w` stars, content starting at `w`: the
      first `j` at or after `from` where the stars stand, provided no line
      end comes first. */
  function CloseAt(ps: seq<Piece>, w: nat, from: nat): (r: Option<nat>)
    requires 1 <= w < from
    ensures r.Some? ==> from <= r.value && r.value + w <= |ps|
    decreases |ps| - from
  {
    if from + w > |ps| || LineEnd(ps[from - 1]) then None
    else if ps[from..from + w] == Stars(w) then Some(from)
    else CloseAt(ps, w, from + 1)
  }

  // The bold pass, `.replace(/\*\*(.+?)\*\*/g, '<strong>$1</strong>')`, for
  // w = 2 and the italic pass, `.replace(/\*(.+?)\*/g, '<em>$1</em>')`, for
  // w = 1: scanning from the left, a delimiter with a closing one later on
  // the same line wraps the text between them; otherwise the scan moves on
  // by one character.
  function Emphasis(ps: seq<Piece>, w: nat, open: Tag, close: Tag): (r: seq<Piece>)
    requires w >= 1
    ensures CharsFrom(r, ps)
    decreases |ps|
  {
    if |ps| == 0 then []
    else if |ps| >= w && ps[..w] == Stars(w) && CloseAt(ps, w, w + 1).Some? then
      var j := CloseAt(ps, w, w + 1).value;
      var rest := Emphasis(ps[j + w..], w, open, close);
      assert forall c :: Chr(c) in ps[w..j] ==> Chr(c) in ps;
      assert forall c :: Chr(c) in rest ==> Chr(c) in ps[j + w..];
      [Mark(open)] + ps[w..j] + [Mark(close)] + rest
    else
      var rest := Emphasis(ps[1..], w, open, close);
      assert forall c :: Chr(c) in rest ==> Chr(c) in ps[1..];
      [ps[0]] + rest
  }

  /** How many pieces from `i` on satisfy `\s`. */
  function BlankRun(ps: seq<Piece>, i: nat): (n: nat)
    requires i <= |ps|
    ensures i + n <= |ps|
    ensures forall k :: i <= k < i + n ==> Blank(ps[k])
    ensures i + n == |ps| || !Blank(ps[i + n])
    decreases |ps| - i
  {
    if i == |ps| || !Blank(ps[i]) then 0 else 1 + BlankRun(ps, i + 1)
  }

  /** How many pieces from `i` on are not line ends: what a greedy `.+`
      takes. */
  function LineRun(ps: seq<Piece>, i: nat): (n: nat)
    requires i <= |ps|
    ensures i + n <= |ps|
    ensures forall k :: i <= k < i + n ==> !LineEnd(ps[k])
    ensures i + n == |ps| || LineEnd(ps[i + n])
    decreases |ps| - i
  {
    if i == |ps| || LineEnd(ps[i]) then 0 else 1 + LineRun(ps, i + 1)
  }

  /** The backtracking of the greedy `\s+` before `(.+)$`: the longest
      count of blanks, at most `k`, after which a character that is not a
      line end follows; 0 when there is none. */
  function BlanksTaken(ps: seq<Piece>, k: nat): (n: nat)
    requires 1 + k <= |ps|
    ensures n <= k
    ensures n > 0 ==> 1 + n < |ps| && !LineEnd(ps[1 + n])
  {
    if k == 0 then 0
    else if 1 + k < |ps| && !LineEnd(ps[1 + k]) then k
    else BlanksTaken(ps, k - 1)
  }

  /** The item text of `/^[\-\*]\s+(.+)$/m` at a line start: its first
      and end positions. */
  function BulletBody(ps: seq<Piece>): (r: Option<(nat, nat)>)
    requires |ps| >= 1
    ensures r.Some? ==> 2 <= r.value.0 < r.value.1 <= |ps|
    ensures r.Some? ==> forall k :: r.value.0 <= k < r.value.1 ==> !LineEnd(ps[k])
  {
    var n := BlanksTaken(ps, BlankRun(ps, 1));
    if n == 0 then None
    else
      var start := 1 + n;
      Some((start, start + LineRun(ps, start)))
  }

  predicate IsBulletMark(p: Piece) {
    p == Chr('-') || p == Chr('*')
  }

  /** `.replace(/^[\-\*]\s+(.+)$/gm, '<li>$1</li>')`: at a line start, a
      dash or star, whitespace (which may run over blank lines) and the rest
      of a line become one list item. */
  function Bullets(ps: seq<Piece>, lineStart: bool): (r: seq<Piece>)
    ensures CharsFrom(r, ps)
    decreases |ps|
  {
    if |ps| == 0 then []
    else if lineStart && IsBulletMark(ps[0]) && BulletBody(ps).Some? then
      var (k, e) := BulletBody(ps).value;
      var rest := Bullets(ps[e..], false);
      assert forall c :: Chr(c) in ps[k..e] ==> Chr(c) in ps;
      assert forall c :: Chr(c) in rest ==> Chr(c) in ps[e..];
      [Mark(LiOpen)] + ps[k..e] + [Mark(LiClose)] + rest
    else
      var rest := Bullets(ps[1..], LineEnd(ps[0]));
      assert forall c :: Chr(c) in rest ==> Chr(c) in ps[1..];
      [ps[0]] + rest
  }

  /** The last `</li>` among the pieces `i` to `e - 1`: what the greedy
      `.*` before `<\/li>` reaches. */
  function LastClose(ps: seq<Piece>, i: nat, e: nat): (r: Option<nat>)
    requires i <= e <= |ps|
    ensures r.Some? ==> i <= r.value < e && ps[r.value] == Mark(LiClose)
    decreases e - i
  {
    if e == i then None
    else if ps[e - 1] == Mark(LiClose) then Some(e - 1)
    else LastClose(ps, i, e - 1)
  }

  /** One `<li>.*<\/li>\n?` at the front: the position after it. */
  function ItemEnd(ps: seq<Piece>): (r: Option<nat>)
    ensures r.Some? ==> 2 <= r.value <= |ps|
  {
    if |ps| == 0 || ps[0] != Mark(LiOpen) then None
    else
      match LastClose(ps, 1, 1 + LineRun(ps, 1))
      case None => None
      case Some(j) => Some(if j + 1 < |ps| && ps[j + 1] == Chr('\n') then j + 2 else j + 1)
  }

  /** The length of `(?:<li>.*<\/li>\n?)+` at the front, 0 for no match. */
  function ItemsRun(ps: seq<Piece>): (n: nat)
    ensures n <= |ps|
    decreases |ps|
  {
    match ItemEnd(ps)
    case None => 0
    case Some(m) => m + ItemsRun(ps[m..])
  }

  /** `.replace(/((?:<li>.*<\/li>\n?)+)/g, '<ul>$1</ul>')`: each run of
      items is wrapped in one list. */
  function Lists(ps: seq<Piece>): (r: seq<Piece>)
    ensures CharsFrom(r, ps)
    decreases |ps|
  {
    if |ps| == 0 then []
    else
      var n := ItemsRun(ps);
      if n > 0 then
        var rest := Lists(ps[n..]);
        assert forall c :: Chr(c) in ps[..n] ==> Chr(c) in ps;
        assert forall c :: Chr(c) in rest ==> Chr(c) in ps[n..];
        [Mark(UlOpen)] + ps[..n] + [Mark(UlClose)] + rest
      else
        var rest := Lists(ps[1..]);
        assert forall c :: Chr(c) in rest ==> Chr(c) in ps[1..];
        [ps[0]] + rest
  }

  /** `.replace(/\n/g, '<br/>')`. */
  function BreakLines(ps: seq<Piece>): (r: seq<Piece>)
    ensures CharsFrom(r, ps)
    ensures Chr('\n') !in r
  {
    if |ps| == 0 then []
    else
      var rest := BreakLines(ps[1..]);
      assert forall c :: Chr(c) in rest ==> Chr(c) in ps[1..];
      (if ps[0] == Chr('\n') then [Mark(Br)] else [ps[0]]) + rest
  }

  /** The passes of `renderMarkdown` in their order. */
  function Markdown(text: string): (r: seq<Piece>)
    ensures Chr('<') !in r && Chr('>') !in r && Chr('\n') !in r
  {
    var e := Escape(text);
    var bold := Emphasis(Pieces(e), 2, StrongOpen, StrongClose);
    var italic := Emphasis(bold, 1, EmOpen, EmClose);
    BreakLines(Lists(Bullets(italic, true)))
  }

  /** `renderMarkdown(text)`: '' for a missing or empty text. */
  function RenderMarkdown(text: Option<string>): (r: string)
    ensures !Truthy(text) ==> r == ""
  {
    if !Truthy(text) then "" else Flatten(Markdown(text.value))
  }

  // ---------------------------------------------------------------------
  // renderMarkdown: what the output is
  // ---------------------------------------------------------------------

  /** The text of tag `t` stands at position `i` of `h`. */
  predicate TagAt(h: string, i: int, t: Tag) {
    0 <= i && i + |TagText(t)| <= |h| && h[i..i + |TagText(t)|] == TagText(t)
  }

  /** A '<' at `i` that begins one of the inserted tags. */
  predicate OpensTag(h: string, i: int) {
    exists t :: TagAt(h, i, t)
  }

  /** A '>' at `i` that ends one of the inserted tags. */
  predicate ClosesTag(h: string, i: int) {
    exists t :: TagAt(h, i + 1 - |TagText(t)|, t)
  }

  /** HTML whose every '<' and '>' belongs to an inserted tag and which holds
      no newline. */
  predicate SafeHtml(h: string) {
    && '\n' !in h
    && (forall i {:trigger OpensTag(h, i)} :: 0 <= i < |h| && h[i] == '<' ==> OpensTag(h, i))
    && (forall i {:trigger ClosesTag(h, i)} :: 0 <= i < |h| && h[i] == '>' ==> ClosesTag(h, i))
  }

  /** Inside a tag there is no further '<' or '>'. */
  lemma TagInterior(t: Tag)
    ensures forall k :: 0 < k < |TagText(t)| - 1 ==> TagText(t)[k] != '<' && TagText(t)[k] != '>'
  {
  }

  lemma PieceSafe(p: Piece)
    requires p != Chr('<') && p != Chr('>') && p != Chr('\n')
    ensures SafeHtml(PieceText(p))
  {
    if p.Mark? {
      var t := p.t;
      var a := TagText(t);
      TagInterior(t);
      assert a[0..|a|] == a;
      assert TagAt(a, 0, t);
      forall i | 0 <= i < |a| && a[i] == '<'
        ensures OpensTag(a, i)
      {
        assert i == 0;
      }
      forall i | 0 <= i < |a| && a[i] == '>'
        ensures ClosesTag(a, i)
      {
        assert i == |a| - 1;
        assert TagAt(a, i + 1 - |a|, t);
      }
    }
  }

  lemma SafeAppend(a: string, b: string)
    requires SafeHtml(a) && SafeHtml(b)
    ensures SafeHtml(a + b)
  {
    var h := a + b;
    forall i | 0 <= i < |h| && h[i] == '<'
      ensures OpensTag(h, i)
    {
      if i < |a| {
        OpensLeft(a, b, i);
      } else {
        OpensRight(a, b, i - |a|);
      }
    }
    forall i | 0 <= i < |h| && h[i] == '>'
      ensures ClosesTag(h, i)
    {
      if i < |a| {
        ClosesLeft(a, b, i);
      } else {
        ClosesRight(a, b, i - |a|);
      }
    }
  }

  lemma OpensLeft(a: string, b: string, i: int)
    requires SafeHtml(a) && 0 <= i < |a| && a[i] == '<'
    ensures OpensTag(a + b, i)
  {
    assert OpensTag(a, i);
    var t :| TagAt(a, i, t);
    Extend(a, b, t, i);
  }

  lemma OpensRight(a: string, b: string, j: int)
    requires SafeHtml(b) && 0 <= j < |b| && b[j] == '<'
    ensures OpensTag(a + b, |a| + j)
  {
    assert OpensTag(b, j);
    var t :| TagAt(b, j, t);
    Shift(a, b, t, j);
  }

  lemma ClosesLeft(a: string, b: string, i: int)
    requires SafeHtml(a) && 0 <= i < |a| && a[i] == '>'
    ensures ClosesTag(a + b, i)
  {
    assert ClosesTag(a, i);
    var t :| TagAt(a, i + 1 - |TagText(t)|, t);
    Extend(a, b, t, i + 1 - |TagText(t)|);
  }

  lemma ClosesRight(a: string, b: string, j: int)
    requires SafeHtml(b) && 0 <= j < |b| && b[j] == '>'
    ensures ClosesTag(a + b, |a| + j)
  {
    assert ClosesTag(b, j);
    var t :| TagAt(b, j + 1 - |TagText(t)|, t);
    Shift(a, b, t, j + 1 - |TagText(t)|);
    assert |a| + (j + 1 - |TagText(t)|) == |a| + j + 1 - |TagText(t)|;
  }

  lemma Extend(a: string, b: string, t: Tag, j: int)
    requires TagAt(a, j, t)
    ensures TagAt(a + b, j, t)
  {
    assert (a + b)[j..j + |TagText(t)|] == a[j..j + |TagText(t)|];
  }

  lemma Shift(a: string, b: string, t: Tag, j: int)
    requires TagAt(b, j, t)
    ensures TagAt(a + b, |a| + j, t)
  {
    assert (a + b)[|a| + j..|a| + j + |TagText(t)|] == b[j..j + |TagText(t)|];
  }

  /** Pieces without a '<', '>' or newline character spell safe HTML. */
  lemma {:induction false} FlattenSafe(ps: seq<Piece>)
    requires Chr('<') !in ps && Chr('>') !in ps && Chr('\n') !in ps
    ensures SafeHtml(Flatten(ps))
  {
    if |ps| > 0 {
      assert ps[0] in ps;
      assert forall p :: p in ps[1..] ==> p in ps;
      FlattenSafe(ps[1..]);
      PieceSafe(ps[0]);
      SafeAppend(PieceText(ps[0]), Flatten(ps[1..]));
    }
  }

  /** The rendered description is safe to insert as HTML: every '<' in it
      begins and every '>' ends a tag the renderer wrote (strong, em, li, ul,
      br), so none comes from the text, and it holds no newline. */
  lemma RenderedHtmlIsSafe(text: Option<string>)
    ensures SafeHtml(RenderMarkdown(text))
  {
    if Truthy(text) {
      FlattenSafe(Markdown(text.value));
    }
  }

  /** Text without markup characters, entities or line breaks, that does
      not open with a dash, is shown exactly as written. */
  lemma PlainTextShownAsWritten(s: string)
    requires '*' !in s && '&' !in s && '<' !in s && '>' !in s
    requires forall i :: 0 <= i < |s| ==> !IsLineTerminator(s[i])
    requires |s| > 0 ==> s[0] != '-'
    ensures RenderMarkdown(Some(s)) == s
  {
    if |s| > 0 {
      EscapeIsPerCharacter(s);
      PlainEscapeEach(s);
      var ps := Pieces(s);
      EmphasisPlain(ps, 2, StrongOpen, StrongClose);
      EmphasisPlain(ps, 1, EmOpen, EmClose);
      BulletsPlain(ps, true);
      ListsPlain(ps);
      BreakLinesPlain(ps);
      FlattenPieces(s);
    }
  }

  /** A line "- item" becomes a one-item list, "<ul><li>item</li></ul>". */
  lemma BulletLineIsList(x: string)
    requires |x| > 0 && !IsSpace(x[0])
    requires '*' !in x && '&' !in x && '<' !in x && '>' !in x
    requires forall i :: 0 <= i < |x| ==> !IsLineTerminator(x[i])
    ensures RenderMarkdown(Some("- " + x))
            == TagText(UlOpen) + (TagText(LiOpen) + x + TagText(LiClose)) + TagText(UlClose)
  {
    MarkdownOfBullet(x);
    var items := [Mark(LiOpen)] + Pieces(x) + [Mark(LiClose)];
    FlattenWrapped(UlOpen, items, UlClose);
    FlattenWrapped(LiOpen, Pieces(x), LiClose);
    FlattenPieces(x);
  }

  /** Two bullet lines in a row become one list of two items; the line
      break between them stays, as "<br/>". */
  lemma TwoBulletLines(x: string, y: string)
    requires |x| > 0 && !IsSpace(x[0]) && |y| > 0 && !IsSpace(y[0])
    requires '*' !in x && '&' !in x && '<' !in x && '>' !in x
    requires '*' !in y && '&' !in y && '<' !in y && '>' !in y
    requires forall i :: 0 <= i < |x| ==> !IsLineTerminator(x[i])
    requires forall i :: 0 <= i < |y| ==> !IsLineTerminator(y[i])
    ensures RenderMarkdown(Some("- " + x + "\n- " + y))
            == TagText(UlOpen)
               + ((TagText(LiOpen) + x + TagText(LiClose)) + TagText(Br) + (TagText(LiOpen) + y + TagText(LiClose)))
               + TagText(UlClose)
  {
    MarkdownOfTwoBullets(x, y);
    var ix := [Mark(LiOpen)] + Pieces(x) + [Mark(LiClose)];
    var iy := [Mark(LiOpen)] + Pieces(y) + [Mark(LiClose)];
    FlattenWrapped(UlOpen, ix + [Mark(Br)] + iy, UlClose);
    FlattenAppend(ix + [Mark(Br)], iy);
    FlattenAppend(ix, [Mark(Br)]);
    FlattenTag(Br);
    FlattenWrapped(LiOpen, Pieces(x), LiClose);
    FlattenWrapped(LiOpen, Pieces(y), LiClose);
    FlattenPieces(x);
    FlattenPieces(y);
  }

  lemma MarkdownOfTwoBullets(x: string, y: string)
    requires |x| > 0 && !IsSpace(x[0]) && |y| > 0 && !IsSpace(y[0])
    requires '*' !in x && '&' !in x && '<' !in x && '>' !in x
    requires '*' !in y && '&' !in y && '<' !in y && '>' !in y
    requires forall i :: 0 <= i < |x| ==> !IsLineTerminator(x[i])
    requires forall i :: 0 <= i < |y| ==> !IsLineTerminator(y[i])
    ensures Markdown("- " + x + "\n- " + y)
            == [Mark(UlOpen)]
               + (([Mark(LiOpen)] + Pieces(x) + [Mark(LiClose)]) + [Mark(Br)] + ([Mark(LiOpen)] + Pieces(y) + [Mark(LiClose)]))
               + [Mark(UlClose)]
  {
    ListedTwoBullets(x, y);
    assert Chr('\n') !in Pieces(x) && Chr('\n') !in Pieces(y);
    BreakTwoItems([Mark(LiOpen)] + Pieces(x) + [Mark(LiClose)], [Mark(LiOpen)] + Pieces(y) + [Mark(LiClose)]);
  }

  /** Before line breaks: two bullet lines become one list of two items. */
  lemma ListedTwoBullets(x: string, y: string)
    requires |x| > 0 && !IsSpace(x[0]) && |y| > 0 && !IsSpace(y[0])
    requires '*' !in x && '&' !in x && '<' !in x && '>' !in x
    requires '*' !in y && '&' !in y && '<' !in y && '>' !in y
    requires forall i :: 0 <= i < |x| ==> !IsLineTerminator(x[i])
    requires forall i :: 0 <= i < |y| ==> !IsLineTerminator(y[i])
    ensures var e := Pieces(Escape("- " + x + "\n- " + y));
            var italic := Emphasis(Emphasis(e, 2, StrongOpen, StrongClose), 1, EmOpen, EmClose);
            Lists(Bullets(italic, true))
            == [Mark(UlOpen)]
               + (([Mark(LiOpen)] + Pieces(x) + [Mark(LiClose)]) + [Chr('\n')] + ([Mark(LiOpen)] + Pieces(y) + [Mark(LiClose)]))
               + [Mark(UlClose)]
  {
    var ps := TwoBulletPieces(x, y);
    EmphasisPlain(ps, 2, StrongOpen, StrongClose);
    EmphasisPlain(ps, 1, EmOpen, EmClose);
    TwoBulletItems(x, y);
    ListOfTwoItems(Pieces(x), Pieces(y));
  }

  /** A list of two items keeps its one line break as a `<br>`. */
  lemma BreakTwoItems(ix: seq<Piece>, iy: seq<Piece>)
    requires Chr('\n') !in ix && Chr('\n') !in iy
    ensures BreakLines([Mark(UlOpen)] + (ix + [Chr('\n')] + iy) + [Mark(UlClose)])
            == [Mark(UlOpen)] + (ix + [Mark(Br)] + iy) + [Mark(UlClose)]
  {
    var a := [Mark(UlOpen)] + ix;
    var b := iy + [Mark(UlClose)];
    BreakLinesPlain(a);
    BreakLinesPlain(b);
    assert ([Chr('\n')] + b)[1..] == b;
    BreakLinesAppend(a, [Chr('\n')] + b);
    Regroup(Mark(UlOpen), ix, Chr('\n'), iy, Mark(UlClose));
    Regroup(Mark(UlOpen), ix, Mark(Br), iy, Mark(UlClose));
  }

  /** The escaped pieces of two bullet lines, star-free. */
  lemma TwoBulletPieces(x: string, y: string) returns (ps: seq<Piece>)
    requires '*' !in x && '&' !in x && '<' !in x && '>' !in x
    requires '*' !in y && '&' !in y && '<' !in y && '>' !in y
    ensures ps == Pieces(Escape("- " + x + "\n- " + y))
    ensures ps == Pieces("- " + x) + ([Chr('\n')] + Pieces("- " + y))
    ensures Chr('*') !in ps
  {
    var s := "- " + x + "\n- " + y;
    assert forall c :: c in s ==> c == '-' || c == ' ' || c == '\n' || c in x || c in y;
    EscapeIsPerCharacter(s);
    PlainEscapeEach(s);
    ps := Pieces(s);
    assert "\n- " == "\n" + "- ";
    Reassociate("- " + x, "\n", "- ", y);
    PiecesAppend("- " + x, "\n" + ("- " + y));
    PiecesAppend("\n", "- " + y);
    assert Pieces("\n") == [Chr('\n')];
  }

  lemma TwoBulletItems(x: string, y: string)
    requires |x| > 0 && !IsSpace(x[0]) && |y| > 0 && !IsSpace(y[0])
    requires forall i :: 0 <= i < |x| ==> !IsLineTerminator(x[i])
    requires forall i :: 0 <= i < |y| ==> !IsLineTerminator(y[i])
    ensures Bullets(Pieces("- " + x) + ([Chr('\n')] + Pieces("- " + y)), true)
            == [Mark(LiOpen)] + Pieces(x) + [Mark(LiClose)] + [Chr('\n')] + ([Mark(LiOpen)] + Pieces(y) + [Mark(LiClose)])
  {
    var rest := [Chr('\n')] + Pieces("- " + y);
    BulletThen(x, rest);
    assert rest[1..] == Pieces("- " + y);
    BulletOfLine(y);
  }

  lemma Regroup<T>(u: T, p: seq<T>, c: T, r: seq<T>, w: T)
    ensures [u] + (p + [c] + r) + [w] == ([u] + p) + ([c] + (r + [w]))
  {
  }

  lemma Reassociate<T>(a: seq<T>, n: seq<T>, d: seq<T>, y: seq<T>)
    ensures a + (n + d) + y == a + (n + (d + y))
  {
  }

  lemma PiecesAppend(a: string, b: string)
    ensures Pieces(a + b) == Pieces(a) + Pieces(b)
  {
  }

  lemma {:induction false} BreakLinesAppend(a: seq<Piece>, b: seq<Piece>)
    ensures BreakLines(a + b) == BreakLines(a) + BreakLines(b)
  {
    if |a| > 0 {
      assert (a + b)[1..] == a[1..] + b;
      BreakLinesAppend(a[1..], b);
    } else {
      assert a + b == b;
    }
  }

  lemma FlattenWrapped(open: Tag, ps: seq<Piece>, close: Tag)
    ensures Flatten([Mark(open)] + ps + [Mark(close)]) == TagText(open) + Flatten(ps) + TagText(close)
  {
    FlattenAppend([Mark(open)] + ps, [Mark(close)]);
    FlattenAppend([Mark(open)], ps);
    FlattenTag(open);
    FlattenTag(close);
  }

  lemma MarkdownOfBullet(x: string)
    requires |x| > 0 && !IsSpace(x[0])
    requires '*' !in x && '&' !in x && '<' !in x && '>' !in x
    requires forall i :: 0 <= i < |x| ==> !IsLineTerminator(x[i])
    ensures Markdown("- " + x) == [Mark(UlOpen)] + ([Mark(LiOpen)] + Pieces(x) + [Mark(LiClose)]) + [Mark(UlClose)]
  {
    var s := "- " + x;
    BulletTextPlain(x);
    var ps := Pieces(s);
    EmphasisPlain(ps, 2, StrongOpen, StrongClose);
    EmphasisPlain(ps, 1, EmOpen, EmClose);
    var items := [Mark(LiOpen)] + Pieces(x) + [Mark(LiClose)];
    BulletOfLine(x);
    ListOfItem(Pieces(x));
    var out := [Mark(UlOpen)] + items + [Mark(UlClose)];
    BreakLinesPlain(out);
    assert Escape(s) == s;
    assert Pieces(Escape(s)) == ps;
    var italic := Emphasis(Emphasis(ps, 2, StrongOpen, StrongClose), 1, EmOpen, EmClose);
    assert italic == ps;
    assert Lists(Bullets(italic, true)) == out;
  }

  lemma BulletTextPlain(x: string)
    requires '*' !in x && '&' !in x && '<' !in x && '>' !in x
    ensures Escape("- " + x) == "- " + x
    ensures Chr('*') !in Pieces("- " + x)
  {
    var s := "- " + x;
    assert forall c :: c in s ==> c == '-' || c == ' ' || c in x;
    EscapeIsPerCharacter(s);
    PlainEscapeEach(s);
  }

  lemma BulletOfLine(x: string)
    requires |x| > 0 && !IsSpace(x[0])
    requires forall i :: 0 <= i < |x| ==> !IsLineTerminator(x[i])
    ensures Bullets(Pieces("- " + x), true) == [Mark(LiOpen)] + Pieces(x) + [Mark(LiClose)]
  {
    BulletThen(x, []);
    assert Pieces("- " + x) + [] == Pieces("- " + x);
  }

  /** A bullet line followed by a line end or the end of the text. */
  lemma BulletThen(x: string, rest: seq<Piece>)
    requires |x| > 0 && !IsSpace(x[0])
    requires forall i :: 0 <= i < |x| ==> !IsLineTerminator(x[i])
    requires rest == [] || LineEnd(rest[0])
    ensures Bullets(Pieces("- " + x) + rest, true)
            == [Mark(LiOpen)] + Pieces(x) + [Mark(LiClose)] + Bullets(rest, false)
  {
    var ps := Pieces("- " + x) + rest;
    assert ps[0] == Chr('-') && ps[1] == Chr(' ') && ps[2] == Chr(x[0]);
    assert BlankRun(ps, 2) == 0;
    assert BlankRun(ps, 1) == 1;
    assert BlanksTaken(ps, 1) == 1;
    LineRunTo(ps, 2, 2 + |x|);
    assert ps[2..2 + |x|] == Pieces(x);
    assert ps[2 + |x|..] == rest;
  }

  lemma ListOfItem(xs: seq<Piece>)
    requires forall k :: 0 <= k < |xs| ==> xs[k].Chr? && !LineEnd(xs[k])
    ensures var items := [Mark(LiOpen)] + xs + [Mark(LiClose)];
            Lists(items) == [Mark(UlOpen)] + items + [Mark(UlClose)]
  {
    var items := [Mark(LiOpen)] + xs + [Mark(LiClose)];
    ItemsRunOfItem(xs);
    assert items[|items|..] == [];
  }

  lemma ItemsRunOfItem(xs: seq<Piece>)
    requires forall k :: 0 <= k < |xs| ==> xs[k].Chr? && !LineEnd(xs[k])
    ensures ItemsRun([Mark(LiOpen)] + xs + [Mark(LiClose)]) == |xs| + 2
  {
    var items := [Mark(LiOpen)] + xs + [Mark(LiClose)];
    LineRunTo(items, 1, |items|);
    assert LastClose(items, 1, |items|) == Some(|items| - 1);
    assert ItemEnd(items) == Some(|items|);
    assert items[|items|..] == [];
  }

  /** Two items on consecutive lines form one run: one list holds both. */
  lemma ListOfTwoItems(xs: seq<Piece>, ys: seq<Piece>)
    requires forall k :: 0 <= k < |xs| ==> xs[k].Chr? && !LineEnd(xs[k])
    requires forall k :: 0 <= k < |ys| ==> ys[k].Chr? && !LineEnd(ys[k])
    ensures var q := [Mark(LiOpen)] + xs + [Mark(LiClose)] + [Chr('\n')] + ([Mark(LiOpen)] + ys + [Mark(LiClose)]);
            Lists(q) == [Mark(UlOpen)] + q + [Mark(UlClose)]
  {
    var i1 := [Mark(LiOpen)] + xs + [Mark(LiClose)];
    var i2 := [Mark(LiOpen)] + ys + [Mark(LiClose)];
    var q := i1 + [Chr('\n')] + i2;
    LineRunTo(q, 1, |i1|);
    assert LastClose(q, 1, |i1|) == Some(|i1| - 1);
    assert ItemEnd(q) == Some(|i1| + 1);
    assert q[|i1| + 1..] == i2;
    ItemsRunOfItem(ys);
    assert ItemsRun(q) == |q|;
    assert q[..|q|] == q;
    assert q[|q|..] == [];
  }

  /** `LineRun` stops at the first line end. */
  lemma {:induction false} LineRunTo(ps: seq<Piece>, i: nat, e: nat)
    requires i <= e <= |ps|
    requires forall k :: i <= k < e ==> !LineEnd(ps[k])
    requires e == |ps| || LineEnd(ps[e])
    ensures LineRun(ps, i) == e - i
    decreases e - i
  {
    if i < e {
      LineRunTo(ps, i + 1, e);
    }
  }

  lemma {:induction false} EmphasisPlain(ps: seq<Piece>, w: nat, open: Tag, close: Tag)
    requires w >= 1 && Chr('*') !in ps
    ensures Emphasis(ps, w, open, close) == ps
  {
    if |ps| > 0 {
      if |ps| >= w {
        assert ps[..w][0] == ps[0] != Stars(w)[0];
      }
      assert forall p :: p in ps[1..] ==> p in ps;
      EmphasisPlain(ps[1..], w, open, close);
      assert ps == [ps[0]] + ps[1..];
    }
  }

  lemma {:induction false} BulletsPlain(ps: seq<Piece>, lineStart: bool)
    requires forall k :: 0 <= k < |ps| ==> !LineEnd(ps[k])
    requires lineStart && |ps| > 0 ==> !IsBulletMark(ps[0])
    ensures Bullets(ps, lineStart) == ps
  {
    if |ps| > 0 {
      BulletsPlain(ps[1..], false);
      assert ps == [ps[0]] + ps[1..];
    }
  }

  lemma {:induction false} ListsPlain(ps: seq<Piece>)
    requires Mark(LiOpen) !in ps
    ensures Lists(ps) == ps
  {
    if |ps| > 0 {
      assert ItemEnd(ps) == None;
      assert forall p :: p in ps[1..] ==> p in ps;
      ListsPlain(ps[1..]);
      assert ps == [ps[0]] + ps[1..];
    }
  }

  lemma {:induction false} BreakLinesPlain(ps: seq<Piece>)
    requires Chr('\n') !in ps
    ensures BreakLines(ps) == ps
  {
    if |ps| > 0 {
      assert forall p :: p in ps[1..] ==> p in ps;
      BreakLinesPlain(ps[1..]);
      assert ps == [ps[0]] + ps[1..];
    }
  }

  lemma {:induction false} FlattenPieces(s: string)
    ensures Flatten(Pieces(s)) == s
  {
    if |s| > 0 {
      assert Pieces(s)[1..] == Pieces(s[1..]);
      FlattenPieces(s[1..]);
      assert s == [s[0]] + s[1..];
    }
  }

  lemma FlattenTag(t: Tag)
    ensures Flatten([Mark(t)]) == TagText(t)
  {
    assert [Mark(t)][1..] == [];
  }

  lemma {:induction false} FlattenAppend(a: seq<Piece>, b: seq<Piece>)
    ensures Flatten(a + b) == Flatten(a) + Flatten(b)
  {
    if |a| > 0 {
      assert (a + b)[1..] == a[1..] + b;
      FlattenAppend(a[1..], b);
    } else {
      assert a + b == b;
    }
  }

  // ---------------------------------------------------------------------
  // formatDateTime
  // ---------------------------------------------------------------------

  /** The date and time lines of the detail page. */
  datatype Shown = Shown(date: string, time: string)

  /** `formatDateTime(dateStr, timeStr)`. The browser's Date and locale
      formatting are parameters: `localDate(year, month, day)` is None when
      `new Date(...)` is invalid and the 'en-IN' long date otherwise, and
      `localTime(timeStr)` is the 'en-IN' 12-hour time. */
  function FormatDateTime(dateStr: Option<string>, timeStr: Option<string>,
                          localDate: (string, string, string) -> Option<string>,
                          localTime: string -> string): (r: Shown)
    ensures !Truthy(dateStr) ==> r == Shown("TBA", "")
    ensures Truthy(dateStr) && |Split(dateStr.value, '-')| != 3 ==> r == Shown(dateStr.value, "")
    ensures r.time != "" ==> Truthy(dateStr) && Truthy(timeStr) && |Split(dateStr.value, '-')| == 3
  {
    if !Truthy(dateStr) then Shown("TBA", "")
    else
      var parts := Split(dateStr.value, '-');
      if |parts| != 3 then Shown(dateStr.value, "")
      else
        match localDate(parts[0], parts[1], parts[2])
        case None => Shown(dateStr.value, "")
        case Some(formatted) => Shown(formatted, if Truthy(timeStr) then localTime(timeStr.value) else "")
  }

  /** A "YYYY-MM-DD" date is split into its year, month and day and handed
      to the locale formatter; the raw text is shown only when that date is
      invalid. */
  lemma IsoDateFormatted(date: string, timeStr: Option<string>,
                         localDate: (string, string, string) -> Option<string>,
                         localTime: string -> string)
    requires |date| == 10 && date[4] == '-' && date[7] == '-'
    requires forall i :: 0 <= i < 10 && i != 4 && i != 7 ==> IsDigit(date[i])
    ensures var r := FormatDateTime(Some(date), timeStr, localDate, localTime);
            localDate(date[..4], date[5..7], date[8..]).Some? ==> r.date == localDate(date[..4], date[5..7], date[8..]).value
    ensures var r := FormatDateTime(Some(date), timeStr, localDate, localTime);
            localDate(date[..4], date[5..7], date[8..]).None? ==> r == Shown(date, "")
  {
    IsoDateParts(date);
  }

  lemma IsoDateParts(date: string)
    requires |date| == 10 && date[4] == '-' && date[7] == '-'
    requires forall i :: 0 <= i < 10 && i != 4 && i != 7 ==> IsDigit(date[i])
    ensures Split(date, '-') == [date[..4], date[5..7], date[8..]]
  {
    var y, m, d := date[..4], date[5..7], date[8..];
    assert '-' !in y && '-' !in m && '-' !in d by {
      assert forall k :: 0 <= k < 4 ==> y[k] == date[k];
      assert forall k :: 0 <= k < 2 ==> m[k] == date[5 + k] && d[k] == date[8 + k];
    }
    var md := m + ['-'] + d;
    assert date == y + ['-'] + md;
    SplitNoSep(d, '-');
    SplitAtSep(m, d, '-');
    SplitAtSep(y, md, '-');
  }

  // ---------------------------------------------------------------------
  // mapsUrl and the venue link
  // ---------------------------------------------------------------------

  /** The characters `encodeURIComponent` leaves alone: the unreserved set
      of section 2.3 of RFC 3986 plus ! * ' ( ). */
  predicate Unescaped(c: char) {
    IsAsciiLetter(c) || IsDigit(c) || c in "-_.!~*'()"
  }

  function HexDigit(n: nat): (c: char)
    requires n < 16
    ensures Unescaped(c)
  {
    "0123456789ABCDEF"[n]
  }

  predicate IsHex(c: char) {
    IsDigit(c) || 'A' <= c <= 'F'
  }

  function HexValue(c: char): (n: nat)
    requires IsHex(c)
    ensures n < 16
  {
    if IsDigit(c) then c as int - '0' as int else c as int - 'A' as int + 10
  }

  lemma HexRoundTrip(n: nat)
    requires n < 16
    ensures IsHex(HexDigit(n)) && HexValue(HexDigit(n)) == n
  {
  }

  /** One byte as a percent-encoded triplet (section 2.1 of RFC 3986),
      with upper-case hexadecimal digits. */
  function Triplet(b: Byte): (r: string)
    ensures |r| == 3 && r[0] == '%' && IsHex(r[1]) && IsHex(r[2])
    ensures HexValue(r[1]) * 16 + HexValue(r[2]) == b
  {
    HexRoundTrip(b / 16);
    HexRoundTrip(b % 16);
    ['%', HexDigit(b / 16), HexDigit(b % 16)]
  }

  function Triplets(bs: seq<Byte>): (r: string)
    ensures forall c :: c in r ==> Unescaped(c) || c == '%'
  {
    if |bs| == 0 then "" else Triplet(bs[0]) + Triplets(bs[1..])
  }

  /** `encodeURIComponent(s)`: unescaped characters stay, every other
      character becomes the percent-encoded bytes of its UTF-8 form. */
  function EncodeComponent(s: string): (r: string)
    ensures forall c :: c in r ==> Unescaped(c) || c == '%'
  {
    if |s| == 0 then ""
    else (if Unescaped(s[0]) then [s[0]] else Triplets(Utf8.CharBytes(s[0]))) + EncodeComponent(s[1..])
  }

  /** Percent-decoding to bytes: an unescaped character is its ASCII byte,
      "%HH" the byte it writes; anything else is malformed. */
  function DecodeComponent(t: string): Option<seq<Byte>>
    decreases |t|
  {
    if |t| == 0 then Some([])
    else if t[0] == '%' then
      if |t| >= 3 && IsHex(t[1]) && IsHex(t[2]) then
        match DecodeComponent(t[3..])
        case None => None
        case Some(rest) => Some([HexValue(t[1]) * 16 + HexValue(t[2])] + rest)
      else None
    else if Unescaped(t[0]) then
      match DecodeComponent(t[1..])
      case None => None
      case Some(rest) => Some([t[0] as int] + rest)
    else None
  }

  /** Prepending bytes to a decoding. */
  function Prepend(bs: seq<Byte>, d: Option<seq<Byte>>): Option<seq<Byte>> {
    match d
    case None => None
    case Some(rest) => Some(bs + rest)
  }

  lemma {:induction false} DecodeTriplets(bs: seq<Byte>, t: string)
    ensures DecodeComponent(Triplets(bs) + t) == Prepend(bs, DecodeComponent(t))
  {
    if |bs| > 0 {
      var x := Triplet(bs[0]);
      var u := Triplets(bs[1..]) + t;
      assert Triplets(bs) + t == x + u;
      assert (x + u)[0] == '%' && (x + u)[1] == x[1] && (x + u)[2] == x[2] && (x + u)[3..] == u;
      assert DecodeComponent(x + u) == Prepend([bs[0]], DecodeComponent(u));
      DecodeTriplets(bs[1..], t);
      match DecodeComponent(t)
      case None =>
      case Some(rest) => assert [bs[0]] + (bs[1..] + rest) == bs + rest;
    } else {
      assert Triplets(bs) + t == t;
      match DecodeComponent(t)
      case None =>
      case Some(rest) => assert bs + rest == rest;
    }
  }

  /** Percent-decoding the encoding gives the UTF-8 bytes of the text
      (section 2.5 of RFC 3986). */
  lemma {:induction false} DecodeEncode(s: string)
    ensures DecodeComponent(EncodeComponent(s)) == Some(Utf8.Encode(s))
  {
    if |s| > 0 {
      var c := s[0];
      DecodeEncode(s[1..]);
      var rest := EncodeComponent(s[1..]);
      if Unescaped(c) {
        var t := [c] + rest;
        assert t[0] == c && t[1..] == rest;
        assert Utf8.CharBytes(c) == [c as int];
      } else {
        DecodeTriplets(Utf8.CharBytes(c), rest);
      }
    }
  }

  /** Different venues give different search queries. */
  lemma EncodeComponentInjective(a: string, b: string)
    requires EncodeComponent(a) == EncodeComponent(b)
    ensures a == b
  {
    DecodeEncode(a);
    DecodeEncode(b);
    Utf8.EncodeInjective(a, b);
  }

  const MapsSearch := "https://www.google.com/maps/search/?api=1&query="

  /** `mapsUrl(venue)`: the venue is the value of the last query
      parameter, and it holds no '&', '=', '#' or space to cut it short. */
  function MapsUrl(venue: string): (r: string)
    ensures |r| >= |MapsSearch| && r[..|MapsSearch|] == MapsSearch
    ensures forall c :: c in r[|MapsSearch|..] ==> c != '&' && c != '=' && c != '#' && c != ' '
  {
    var q := EncodeComponent(venue);
    assert (MapsSearch + q)[|MapsSearch|..] == q;
    MapsSearch + q
  }

  /** The href of the venue line, which is shown only for a venue: the
      quiz's own map link when it has one, else a map search for the venue. */
  function VenueHref(q: Quiz): (r: Option<string>)
    ensures r.Some? <==> Truthy(q.venue)
    ensures r.Some? && Truthy(q.venueMapLink) ==> r.value == q.venueMapLink.value
  {
    if !Truthy(q.venue) then None
    else if Truthy(q.venueMapLink) then Some(q.venueMapLink.value)
    else Some(MapsUrl(q.venue.value))
  }

  /** Without a map link, the search query decodes to exactly the venue. */
  lemma VenueSearchFindsVenue(q: Quiz)
    requires Truthy(q.venue) && !Truthy(q.venueMapLink)
    ensures var url := VenueHref(q).value;
            |url| >= |MapsSearch| && url[..|MapsSearch|] == MapsSearch
            && DecodeComponent(url[|MapsSearch|..]) == Some(Utf8.Encode(q.venue.value))
  {
    var e := EncodeComponent(q.venue.value);
    assert (MapsSearch + e)[|MapsSearch|..] == e;
    DecodeEncode(q.venue.value);
  }

  // ---------------------------------------------------------------------
  // Tags
  // ---------------------------------------------------------------------

  /** `(quiz.eligibility || []).filter(Boolean)`: the detail page lists the
      free-text eligibility, in order and without empty entries, where the
      card shows the categories. */
  function DetailTags(q: Quiz): (r: seq<string>)
    ensures "" !in r
    ensures forall t :: t in r <==> t != "" && t in q.eligibility
  {
    Filter(q.eligibility, (t: string) => t != "")
  }
}
