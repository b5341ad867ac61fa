/** String operations of the JavaScript standard library, as the sources use
    them: ASCII case mapping, the whitespace set of `\s` and `trim`, substring
    search, `split` on one character, `join`, ordinal comparison and number
    printing. */
module Text {

  /** The characters `\s` matches and `trim` removes (WhiteSpace and LineTerminator). */
  predicate IsSpace(c: char) {
    c == ' ' || c == '\t' || c == '\n' || c == '\r' || c == '\U{000B}' || c == '\U{000C}'
    || c == '\U{00A0}' || c == '\U{1680}' || ('\U{2000}' <= c <= '\U{200A}')
    || c == '\U{2028}' || c == '\U{2029}' || c == '\U{202F}' || c == '\U{205F}'
    || c == '\U{3000}' || c == '\U{FEFF}'
  }

  /** The characters `.` does not match and that end a line for `^`/`$` under the m flag. */
  predicate IsLineTerminator(c: char) {
    c == '\n' || c == '\r' || c == '\U{2028}' || c == '\U{2029}'
  }

  predicate IsDigit(c: char) { '0' <= c <= '9' }

  predicate IsAsciiUpper(c: char) { 'A' <= c <= 'Z' }

  predicate IsAsciiLetter(c: char) { 'A' <= c <= 'Z' || 'a' <= c <= 'z' }

  /** `\w` without the u flag. */
  predicate IsWordChar(c: char) { IsAsciiLetter(c) || IsDigit(c) || c == '_' }

  function LowerChar(c: char): char {
    if IsAsciiUpper(c) then (c as int + 32) as char else c
  }

  /** `toLowerCase`, restricted to ASCII letters. */
  function Lower(s: string): (r: string)
    ensures |r| == |s|
    ensures forall i :: 0 <= i < |s| ==> r[i] == LowerChar(s[i])
  {
    seq(|s|, i requires 0 <= i < |s| => LowerChar(s[i]))
  }

  lemma LowerIdempotent(s: string)
    ensures Lower(Lower(s)) == Lower(s)
  {
  }

  lemma LowerAppend(a: string, b: string)
    ensures Lower(a + b) == Lower(a) + Lower(b)
  {
    assert forall i :: 0 <= i < |a + b| ==> Lower(a + b)[i] == (Lower(a) + Lower(b))[i];
  }

  function TrimStart(s: string): (r: string)
    ensures |r| == 0 || !IsSpace(r[0])
    ensures |r| <= |s| && r == s[|s| - |r|..]
  {
    if |s| > 0 && IsSpace(s[0]) then TrimStart(s[1..]) else s
  }

  function TrimEnd(s: string): (r: string)
    ensures |r| == 0 || !IsSpace(r[|r| - 1])
    ensures |r| <= |s| && r == s[..|r|]
  {
    if |s| > 0 && IsSpace(s[|s| - 1]) then TrimEnd(s[..|s| - 1]) else s
  }

  /** `String.prototype.trim`. */
  function Trim(s: string): string {
    TrimEnd(TrimStart(s))
  }

  predicate IsTrimmed(s: string) {
    |s| == 0 || (!IsSpace(s[0]) && !IsSpace(s[|s| - 1]))
  }

  lemma TrimIsTrimmed(s: string)
    ensures IsTrimmed(Trim(s))
  {
    var t := TrimStart(s);
    var r := TrimEnd(t);
    if |r| > 0 {
      assert r == t[..|r|];
      assert r[0] == t[0];
    }
  }

  lemma TrimOfTrimmed(s: string)
    requires IsTrimmed(s)
    ensures Trim(s) == s
  {
  }

  /** Leading whitespace does not survive `trim`. */
  lemma TrimSpacePrefix(c: char, s: string)
    requires IsSpace(c)
    ensures Trim([c] + s) == Trim(s)
  {
    assert ([c] + s)[1..] == s;
  }

  /** `s.startsWith(p)`. */
  predicate StartsWith(s: string, p: string) {
    |p| <= |s| && s[..|p|] == p
  }

  predicate OccursAt(s: string, sub: string, i: int) {
    0 <= i && i + |sub| <= |s| && s[i..i + |sub|] == sub
  }

  function IndexFrom(s: string, sub: string, k: nat): (r: int)
    requires k <= |s| + 1
    ensures r == -1 || (k <= r && OccursAt(s, sub, r))
    ensures r == -1 ==> forall j :: k <= j ==> !OccursAt(s, sub, j)
    ensures r != -1 ==> forall j :: k <= j < r ==> !OccursAt(s, sub, j)
    decreases |s| + 1 - k
  {
    if k + |sub| > |s| then -1
    else if s[k..k + |sub|] == sub then k
    else IndexFrom(s, sub, k + 1)
  }

  /** `s.indexOf(sub)`: the first occurrence, or -1. */
  function IndexOf(s: string, sub: string): (r: int)
    ensures r == -1 || OccursAt(s, sub, r)
    ensures r == -1 <==> forall j :: !OccursAt(s, sub, j)
    ensures forall j :: 0 <= j < r ==> !OccursAt(s, sub, j)
  {
    IndexFrom(s, sub, 0)
  }

  /** `s.includes(sub)`. */
  predicate Contains(s: string, sub: string) {
    IndexOf(s, sub) >= 0
  }

  lemma ContainsAt(s: string, sub: string, i: int)
    requires OccursAt(s, sub, i)
    ensures Contains(s, sub)
  {
  }

  /** `s.replace(pat, rep)` with a string pattern: only the first occurrence is replaced. */
  function ReplaceFirst(s: string, pat: string, rep: string): (r: string)
    ensures !Contains(s, pat) ==> r == s
    ensures Contains(s, pat) ==> r == s[..IndexOf(s, pat)] + rep + s[IndexOf(s, pat) + |pat|..]
  {
    var i := IndexOf(s, pat);
    if i < 0 then s else s[..i] + rep + s[i + |pat|..]
  }

  /** `s.split(sep)` for a one-character separator. */
  function Split(s: string, sep: char): (r: seq<string>)
    ensures |r| >= 1
    ensures forall k :: 0 <= k < |r| ==> sep !in r[k]
  {
    if |s| == 0 then [""]
    else
      var rest := Split(s[1..], sep);
      if s[0] == sep then [""] + rest else [[s[0]] + rest[0]] + rest[1..]
  }

  /** `xs.join(sep)`. */
  function Join(xs: seq<string>, sep: string): string {
    if |xs| == 0 then ""
    else if |xs| == 1 then xs[0]
    else xs[0] + sep + Join(xs[1..], sep)
  }

  /** Text appended after a join lands on its last item. */
  lemma {:induction false} JoinAppendLast(xs: seq<string>, sep: string, t: string)
    requires |xs| >= 1
    ensures Join(xs, sep) + t == Join(xs[..|xs| - 1] + [xs[|xs| - 1] + t], sep)
  {
    var ys := xs[..|xs| - 1] + [xs[|xs| - 1] + t];
    if |xs| > 1 {
      JoinAppendLast(xs[1..], sep, t);
      assert ys[1..] == xs[1..][..|xs| - 2] + [xs[1..][|xs| - 2] + t];
      assert ys[0] == xs[0];
    }
  }

  lemma SplitNoSep(s: string, sep: char)
    requires sep !in s
    ensures Split(s, sep) == [s]
  {
    if |s| > 0 {
      SplitNoSep(s[1..], sep);
      assert [s[0]] + s[1..] == s;
    }
  }

  /** Splitting `a + [sep] + b` at its first separator. */
  lemma {:induction false} SplitAtSep(a: string, b: string, sep: char)
    requires sep !in a
    ensures Split(a + [sep] + b, sep) == [a] + Split(b, sep)
  {
    if |a| == 0 {
      assert a + [sep] + b == [sep] + b;
      assert ([sep] + b)[1..] == b;
    } else {
      var s := a + [sep] + b;
      assert s[1..] == a[1..] + [sep] + b;
      SplitAtSep(a[1..], b, sep);
      assert [a[0]] + a[1..] == a;
    }
  }

  /** `join` then `split` on a separator that starts with the split character
      gives the items back, each but the first carrying the rest of the separator. */
  lemma {:induction false} SplitJoin(xs: seq<string>, sep: char, pad: string)
    requires |xs| >= 1
    requires sep !in pad
    requires forall k :: 0 <= k < |xs| ==> sep !in xs[k]
    ensures Split(Join(xs, [sep] + pad), sep)
         == [xs[0]] + seq(|xs| - 1, k requires 0 <= k < |xs| - 1 => pad + xs[k + 1])
  {
    var want := seq(|xs| - 1, k requires 0 <= k < |xs| - 1 => pad + xs[k + 1]);
    if |xs| == 1 {
      SplitNoSep(xs[0], sep);
      assert want == [];
    } else {
      var tail := xs[1..];
      var j := Join(tail, [sep] + pad);
      assert Join(xs, [sep] + pad) == xs[0] + [sep] + (pad + j);
      SplitAtSep(xs[0], pad + j, sep);
      var rest := Split(pad + j, sep);
      var wantTail := seq(|tail| - 1, k requires 0 <= k < |tail| - 1 => pad + tail[k + 1]);
      if |tail| == 1 {
        SplitNoSep(pad + tail[0], sep);
        assert rest == [pad + tail[0]] + wantTail;
      } else {
        SplitJoin(tail, sep, pad);
        var st := Split(j, sep);
        assert st == [tail[0]] + wantTail;
        SplitPrefix(pad, j, sep);
        assert rest == [pad + st[0]] + st[1..];
        assert st[1..] == wantTail;
      }
      assert want == [pad + tail[0]] + wantTail;
    }
  }

  /** Splitting `xs.join(", ") + more` at commas, with comma-free items and
      tail: one piece per item, each but the first after a space, and `more`
      on the last. */
  lemma SplitJoinSuffix(xs: seq<string>, more: string)
    requires |xs| >= 2
    requires forall k :: 0 <= k < |xs| ==> ',' !in xs[k]
    requires ',' !in more
    ensures var pieces := Split(Join(xs, ", ") + more, ',');
            |pieces| == |xs| && pieces[0] == xs[0]
            && (forall k :: 1 <= k < |xs| - 1 ==> pieces[k] == " " + xs[k])
            && pieces[|xs| - 1] == " " + xs[|xs| - 1] + more
  {
    var n := |xs|;
    var items := xs[..n - 1] + [xs[n - 1] + more];
    JoinAppendLast(xs, ", ", more);
    assert ", " == [','] + " ";
    assert forall k :: 0 <= k < n ==> ',' !in items[k];
    SplitJoin(items, ',', " ");
    assert " " + (xs[n - 1] + more) == " " + xs[n - 1] + more;
  }

  /** A separator-free prefix attaches to the first piece. */
  lemma {:induction false} SplitPrefix(p: string, s: string, sep: char)
    requires sep !in p
    ensures Split(p + s, sep) == [p + Split(s, sep)[0]] + Split(s, sep)[1..]
  {
    if |p| > 0 {
      assert (p + s)[1..] == p[1..] + s;
      SplitPrefix(p[1..], s, sep);
      assert [p[0]] + (p[1..] + Split(s, sep)[0]) == p + Split(s, sep)[0];
    } else {
      assert p + s == s;
      var r := Split(s, sep);
      assert p + r[0] == r[0];
      assert r == [r[0]] + r[1..];
    }
  }

  /** Ordinal (code point) lexicographic order, the model of `localeCompare`
      and of `<`/`>=` on strings. */
  predicate StrLe(a: string, b: string)
  {
    |a| == 0 || (|b| > 0 && (a[0] < b[0] || (a[0] == b[0] && StrLe(a[1..], b[1..]))))
  }

  lemma StrLeTotal(a: string, b: string)
    ensures StrLe(a, b) || StrLe(b, a)
  {
  }

  lemma {:induction false} StrLeTrans(a: string, b: string, c: string)
    requires StrLe(a, b) && StrLe(b, c)
    ensures StrLe(a, c)
  {
    if |a| > 0 && |b| > 0 && |c| > 0 && a[0] == b[0] == c[0] {
      StrLeTrans(a[1..], b[1..], c[1..]);
    }
  }

  lemma {:induction false} StrLeAntisym(a: string, b: string)
    requires StrLe(a, b) && StrLe(b, a)
    ensures a == b
  {
    if |a| > 0 && |b| > 0 {
      StrLeAntisym(a[1..], b[1..]);
      assert a == [a[0]] + a[1..];
      assert b == [b[0]] + b[1..];
    }
  }

  function DigitChar(d: nat): (c: char)
    requires d < 10
    ensures IsDigit(c)
  {
    ('0' as int + d) as char
  }

  /** `String(n)` for a natural number. */
  function NatToString(n: nat): (r: string)
    ensures |r| >= 1
    ensures forall i :: 0 <= i < |r| ==> IsDigit(r[i])
  {
    if n < 10 then [DigitChar(n)] else NatToString(n / 10) + [DigitChar(n % 10)]
  }

  /** `s.replace(/[^0-9]/g, '')`. */
  function DigitsOnly(s: string): (r: string)
    ensures forall i :: 0 <= i < |r| ==> IsDigit(r[i])
    ensures |r| <= |s|
  {
    if |s| == 0 then ""
    else (if IsDigit(s[0]) then [s[0]] else []) + DigitsOnly(s[1..])
  }

  /** `s.replace(/x/g, y)` for one character `x` and a replacement string. */
  function ReplaceAllChar(s: string, x: char, y: string): (r: string)
    ensures y == [] ==> x !in r
  {
    if |s| == 0 then ""
    else (if s[0] == x then y else [s[0]]) + ReplaceAllChar(s[1..], x, y)
  }

  lemma ReplaceAllCharAppend(a: string, b: string, x: char, y: string)
    ensures ReplaceAllChar(a + b, x, y) == ReplaceAllChar(a, x, y) + ReplaceAllChar(b, x, y)
  {
    if |a| > 0 {
      assert (a + b)[1..] == a[1..] + b;
      ReplaceAllCharAppend(a[1..], b, x, y);
    } else {
      assert a + b == b;
    }
  }

  /** A character the replacement does not contain is gone after the pass
      if it was the replaced one or was never there. */
  lemma {:induction false} ReplaceAllCharRemoves(s: string, x: char, y: string, z: char)
    requires z !in y
    requires z == x || z !in s
    ensures z !in ReplaceAllChar(s, x, y)
  {
    if |s| > 0 {
      ReplaceAllCharRemoves(s[1..], x, y, z);
    }
  }

  /** Replacing one character by one character keeps the length and acts
      position by position. */
  lemma {:induction false} ReplaceAllCharPointwise(s: string, x: char, y: char)
    ensures |ReplaceAllChar(s, x, [y])| == |s|
    ensures forall i :: 0 <= i < |s| ==>
              ReplaceAllChar(s, x, [y])[i] == (if s[i] == x then y else s[i])
  {
    if |s| > 0 {
      ReplaceAllCharPointwise(s[1..], x, y);
    }
  }

  /** `c.repeat(n)` for a one-character string. */
  function Repeat(c: char, n: nat): (r: string)
    ensures |r| == n
    ensures forall i :: 0 <= i < n ==> r[i] == c
  {
    seq(n, _ => c)
  }
}
