/** Base 64 as section 4 of RFC 4648 defines it and the URL-safe alphabet
    of its section 5: Node's `Buffer.toString('base64url')` (no padding) and the
    browser's `atob` (the forgiving decoder of the HTML standard). */
module Base64 {
  import opened Js

  /** The character for a 6-bit value; `url` picks the RFC 4648 section 5 alphabet,
      which differs from RFC 4648 section 4 in its last two characters. */
  function SextetChar(v: nat, url: bool): (c: char)
    requires v < 64
  {
    if v < 26 then ('A' as int + v) as char
    else if v < 52 then ('a' as int + (v - 26)) as char
    else if v < 62 then ('0' as int + (v - 52)) as char
    else if v == 62 then (if url then '-' else '+')
    else (if url then '_' else '/')
  }

  /** The 6-bit value of an alphabet character, or None for any other. */
  function CharSextet(c: char, url: bool): (r: Option<nat>)
    ensures r.Some? ==> r.value < 64 && SextetChar(r.value, url) == c
  {
    if 'A' <= c <= 'Z' then Some(c as int - 'A' as int)
    else if 'a' <= c <= 'z' then Some(c as int - 'a' as int + 26)
    else if '0' <= c <= '9' then Some(c as int - '0' as int + 52)
    else if c == (if url then '-' else '+') then Some(62)
    else if c == (if url then '_' else '/') then Some(63)
    else None
  }

  lemma SextetRoundTrip(v: nat, url: bool)
    requires v < 64
    ensures CharSextet(SextetChar(v, url), url) == Some(v)
  {
  }

  /** The four 6-bit values that three bytes are cut into. */
  function Sextets(b0: Byte, b1: Byte, b2: Byte): (v: seq<nat>)
    ensures |v| == 4 && v[0] < 64 && v[1] < 64 && v[2] < 64 && v[3] < 64
  {
    [b0 / 4, (b0 % 4) * 16 + b1 / 16, (b1 % 16) * 4 + b2 / 64, b2 % 64]
  }

  /** The three bytes that four 6-bit values are glued into. */
  function GroupBytes(v0: nat, v1: nat, v2: nat, v3: nat): (b: seq<Byte>)
    requires v0 < 64 && v1 < 64 && v2 < 64 && v3 < 64
    ensures |b| == 3
  {
    [v0 * 4 + v1 / 16, (v1 % 16) * 16 + v2 / 4, (v2 % 4) * 64 + v3]
  }

  lemma FirstByteBack(b0: Byte, b1: Byte)
    ensures (b0 / 4) * 4 + ((b0 % 4) * 16 + b1 / 16) / 16 == b0
  {
    assert ((b0 % 4) * 16 + b1 / 16) / 16 == b0 % 4;
  }

  lemma SecondByteBack(b0: Byte, b1: Byte, b2: Byte)
    ensures (((b0 % 4) * 16 + b1 / 16) % 16) * 16 + ((b1 % 16) * 4 + b2 / 64) / 4 == b1
  {
    assert ((b0 % 4) * 16 + b1 / 16) % 16 == b1 / 16;
    assert ((b1 % 16) * 4 + b2 / 64) / 4 == b1 % 16;
  }

  lemma ThirdByteBack(b1: Byte, b2: Byte)
    ensures (((b1 % 16) * 4 + b2 / 64) % 4) * 64 + b2 % 64 == b2
  {
    assert ((b1 % 16) * 4 + b2 / 64) % 4 == b2 / 64;
  }

  /** Gluing undoes cutting; the first byte needs only the first two values,
      the second only the first three. */
  lemma GroupRoundTrip(b0: Byte, b1: Byte, b2: Byte)
    ensures var v := Sextets(b0, b1, b2);
            GroupBytes(v[0], v[1], v[2], v[3]) == [b0, b1, b2]
            && GroupBytes(v[0], v[1], 0, 0)[0] == b0
            && GroupBytes(v[0], v[1], v[2], 0)[..2] == [b0, b1]
  {
    var v := Sextets(b0, b1, b2);
    var g := GroupBytes(v[0], v[1], v[2], v[3]);
    FirstByteBack(b0, b1);
    assert g[0] == b0;
    SecondByteBack(b0, b1, b2);
    assert g[1] == b1;
    ThirdByteBack(b1, b2);
    assert g[2] == b2;
    assert GroupBytes(v[0], v[1], 0, 0)[0] == g[0];
    assert GroupBytes(v[0], v[1], v[2], 0)[..2] == [g[0], g[1]];
  }

  /** The four characters of three bytes. */
  function EncodeGroup(b0: Byte, b1: Byte, b2: Byte, url: bool): (s: string)
    ensures |s| == 4
  {
    var v := Sextets(b0, b1, b2);
    [SextetChar(v[0], url), SextetChar(v[1], url), SextetChar(v[2], url), SextetChar(v[3], url)]
  }

  /** The encoding without padding: each 3 bytes become 4 characters, a
      final 1 or 2 bytes the first 2 or 3 characters of their group. */
  function Encode(b: seq<Byte>, url: bool): (s: string)
    decreases |b|
  {
    if |b| == 0 then ""
    else if |b| == 1 then EncodeGroup(b[0], 0, 0, url)[..2]
    else if |b| == 2 then EncodeGroup(b[0], b[1], 0, url)[..3]
    else EncodeGroup(b[0], b[1], b[2], url) + Encode(b[3..], url)
  }

  /** Every 3 bytes take 4 characters; a final 1 or 2 take 2 or 3. */
  lemma {:induction false} EncodeLength(b: seq<Byte>, url: bool)
    ensures |Encode(b, url)| == (4 * |b| + 2) / 3
    decreases |b|
  {
    if |b| >= 3 {
      EncodeLength(b[3..], url);
    }
  }

  /** Encoding a whole number of 3-byte groups, then the rest. */
  lemma {:induction false} EncodeAppend(a: seq<Byte>, b: seq<Byte>, url: bool)
    requires |a| % 3 == 0
    ensures Encode(a + b, url) == Encode(a, url) + Encode(b, url)
    decreases |a|
  {
    if |a| == 0 {
      assert a + b == b;
    } else {
      assert (a + b)[3..] == a[3..] + b;
      EncodeAppend(a[3..], b, url);
    }
  }

  /** The value of the i-th character of a group, 0 past its end. */
  function GroupValue(g: string, i: nat): (r: Option<nat>)
    ensures r.Some? ==> r.value < 64
  {
    if i < |g| then CharSextet(g[i], false) else Some(0)
  }

  /** The bytes of a group of 2, 3 or 4 RFC 4648 section 4 characters: one fewer than
      the characters; the bits left over at the end are dropped. */
  function DecodeGroup(g: string): (r: Option<seq<Byte>>)
    requires 2 <= |g| <= 4
    ensures r.Some? ==> |r.value| == |g| - 1
  {
    var v0, v1, v2, v3 := GroupValue(g, 0), GroupValue(g, 1), GroupValue(g, 2), GroupValue(g, 3);
    if v0.None? || v1.None? || v2.None? || v3.None? then None
    else Some(GroupBytes(v0.value, v1.value, v2.value, v3.value)[..|g| - 1])
  }

  /** Decoding group by group; a single character left over is an error. */
  function DecodeGroups(s: string): (r: Option<seq<Byte>>)
    decreases |s|
  {
    if |s| == 0 then Some([])
    else if |s| == 1 then None
    else if |s| <= 4 then DecodeGroup(s)
    else
      var g := DecodeGroup(s[..4]);
      var rest := DecodeGroups(s[4..]);
      if g.None? || rest.None? then None else Some(g.value + rest.value)
  }

  /** The ASCII whitespace `atob` skips. */
  predicate IsAsciiWhitespace(c: char) {
    c == '\t' || c == '\n' || c == '\U{C}' || c == '\r' || c == ' '
  }

  function WithoutWhitespace(s: string): (r: string)
    ensures |r| <= |s|
    ensures forall c :: c in r ==> c in s
  {
    if |s| == 0 then ""
    else (if IsAsciiWhitespace(s[0]) then "" else [s[0]]) + WithoutWhitespace(s[1..])
  }

  /** One or two trailing '=' are dropped when the length is a multiple of 4. */
  function WithoutPadding(s: string): (r: string)
    ensures |r| <= |s|
  {
    if |s| % 4 == 0 && |s| >= 2 && s[|s| - 2..] == "==" then s[..|s| - 2]
    else if |s| % 4 == 0 && |s| >= 1 && s[|s| - 1] == '=' then s[..|s| - 1]
    else s
  }

  /** `atob(s)` as the list of its characters' codes; None where it throws. */
  function Atob(s: string): (r: Option<seq<Byte>>)
  {
    var t := WithoutPadding(WithoutWhitespace(s));
    if |t| % 4 == 1 then None else DecodeGroups(t)
  }

  /** Four, three or two alphabet characters decode to the glued values. */
  lemma DecodeChars(v0: nat, v1: nat, v2: nat, v3: nat)
    requires v0 < 64 && v1 < 64 && v2 < 64 && v3 < 64
    ensures DecodeGroup([SextetChar(v0, false), SextetChar(v1, false), SextetChar(v2, false),
                         SextetChar(v3, false)]) == Some(GroupBytes(v0, v1, v2, v3))
    ensures DecodeGroup([SextetChar(v0, false), SextetChar(v1, false), SextetChar(v2, false)])
            == Some(GroupBytes(v0, v1, v2, 0)[..2])
    ensures DecodeGroup([SextetChar(v0, false), SextetChar(v1, false)])
            == Some(GroupBytes(v0, v1, 0, 0)[..1])
  {
    SextetRoundTrip(v0, false);
    SextetRoundTrip(v1, false);
    SextetRoundTrip(v2, false);
    SextetRoundTrip(v3, false);
    var g := GroupBytes(v0, v1, v2, v3);
    assert g[..3] == g;
  }

  /** A group decodes to the bytes it was made of. */
  lemma DecodeEncodeGroup(b0: Byte, b1: Byte, b2: Byte)
    ensures DecodeGroup(EncodeGroup(b0, b1, b2, false)) == Some([b0, b1, b2])
  {
    var v := Sextets(b0, b1, b2);
    DecodeChars(v[0], v[1], v[2], v[3]);
    GroupRoundTrip(b0, b1, b2);
  }

  /** The first three characters of a group give back its first two bytes. */
  lemma DecodeEncodeTwo(b0: Byte, b1: Byte)
    ensures DecodeGroup(EncodeGroup(b0, b1, 0, false)[..3]) == Some([b0, b1])
  {
    var v := Sextets(b0, b1, 0);
    DecodeChars(v[0], v[1], v[2], v[3]);
    assert EncodeGroup(b0, b1, 0, false)[..3]
        == [SextetChar(v[0], false), SextetChar(v[1], false), SextetChar(v[2], false)];
    GroupRoundTrip(b0, b1, 0);
  }

  /** The first two characters of a group give back its first byte. */
  lemma DecodeEncodeOne(b0: Byte)
    ensures DecodeGroup(EncodeGroup(b0, 0, 0, false)[..2]) == Some([b0])
  {
    var v := Sextets(b0, 0, 0);
    DecodeChars(v[0], v[1], v[2], v[3]);
    assert EncodeGroup(b0, 0, 0, false)[..2] == [SextetChar(v[0], false), SextetChar(v[1], false)];
    GroupRoundTrip(b0, 0, 0);
    var g := GroupBytes(v[0], v[1], 0, 0);
    assert g[..1] == [g[0]];
  }

  /** Decoding inverts encoding, both in the RFC 4648 section 4 alphabet. */
  lemma {:induction false} DecodeEncode(b: seq<Byte>)
    ensures DecodeGroups(Encode(b, false)) == Some(b)
    decreases |b|
  {
    if |b| == 1 {
      DecodeEncodeOne(b[0]);
      assert b == [b[0]];
    } else if |b| == 2 {
      DecodeEncodeTwo(b[0], b[1]);
      assert b == [b[0], b[1]];
    } else if |b| >= 3 {
      var g := EncodeGroup(b[0], b[1], b[2], false);
      var rest := Encode(b[3..], false);
      DecodeEncodeGroup(b[0], b[1], b[2]);
      DecodeEncode(b[3..]);
      if |b| == 3 {
        assert rest == [];
        assert Encode(b, false) == g;
        assert b == [b[0], b[1], b[2]];
      } else {
        EncodeLength(b[3..], false);
        assert (g + rest)[..4] == g && (g + rest)[4..] == rest;
        assert b == [b[0], b[1], b[2]] + b[3..];
      }
    }
  }

  /** The character of the RFC 4648 section 4 alphabet standing for the same
      value as one of the section 5 alphabet. */
  function StdChar(c: char): char {
    if c == '-' then '+' else if c == '_' then '/' else c
  }

  lemma SextetStd(v: nat)
    requires v < 64
    ensures StdChar(SextetChar(v, true)) == SextetChar(v, false)
  {
  }

  /** The two alphabets agree position by position. */
  lemma {:induction false} EncodeUrlStd(b: seq<Byte>)
    ensures |Encode(b, true)| == |Encode(b, false)|
    ensures forall i :: 0 <= i < |Encode(b, false)| ==>
              Encode(b, false)[i] == StdChar(Encode(b, true)[i])
    decreases |b|
  {
    forall v: nat | v < 64 {
      SextetStd(v);
    }
    if |b| >= 3 {
      EncodeUrlStd(b[3..]);
    }
  }

  lemma GroupInAlphabet(b0: Byte, b1: Byte, b2: Byte, url: bool)
    ensures forall i :: 0 <= i < 4 ==> CharSextet(EncodeGroup(b0, b1, b2, url)[i], url).Some?
  {
    var v := Sextets(b0, b1, b2);
    SextetRoundTrip(v[0], url);
    SextetRoundTrip(v[1], url);
    SextetRoundTrip(v[2], url);
    SextetRoundTrip(v[3], url);
  }

  /** Every character of an encoding belongs to its alphabet. */
  lemma {:induction false} EncodeInAlphabet(b: seq<Byte>, url: bool)
    ensures forall i :: 0 <= i < |Encode(b, url)| ==> CharSextet(Encode(b, url)[i], url).Some?
    decreases |b|
  {
    if |b| == 1 {
      GroupInAlphabet(b[0], 0, 0, url);
    } else if |b| == 2 {
      GroupInAlphabet(b[0], b[1], 0, url);
    } else if |b| >= 3 {
      GroupInAlphabet(b[0], b[1], b[2], url);
      EncodeInAlphabet(b[3..], url);
    }
  }

  /** An encoding of n bytes never leaves one character over a multiple of 4. */
  lemma EncodeLengthMod(n: nat)
    ensures (4 * n + 2) / 3 % 4 == if n % 3 == 0 then 0 else if n % 3 == 1 then 2 else 3
  {
    var k, r := n / 3, n % 3;
    assert 4 * n + 2 == 3 * (4 * k) + (4 * r + 2);
    if r == 0 {
      assert (4 * n + 2) / 3 == 4 * k;
    } else if r == 1 {
      assert (4 * n + 2) / 3 == 4 * k + 2;
    } else {
      assert (4 * n + 2) / 3 == 4 * k + 3;
    }
  }

  lemma {:induction false} WithoutWhitespaceKeeps(s: string)
    requires forall i :: 0 <= i < |s| ==> !IsAsciiWhitespace(s[i])
    ensures WithoutWhitespace(s) == s
  {
    if |s| > 0 {
      WithoutWhitespaceKeeps(s[1..]);
      assert s == [s[0]] + s[1..];
    }
  }

  lemma StripNoPadding(f: string)
    requires forall i :: 0 <= i < |f| ==> f[i] != '='
    ensures WithoutPadding(f) == f
  {
    if |f| >= 2 {
      assert f[|f| - 2..][0] == f[|f| - 2];
    }
  }

  lemma StripTwo(f: string)
    requires |f| % 4 == 2
    ensures WithoutPadding(f + "==") == f
  {
    var t := f + "==";
    assert t[|t| - 2..] == "==";
    assert t[..|t| - 2] == f;
  }

  lemma StripOne(f: string)
    requires |f| % 4 == 3 && |f| >= 1 && f[|f| - 1] != '='
    ensures WithoutPadding(f + "=") == f
  {
    var t := f + "=";
    assert t[|t| - 2..][0] == f[|f| - 1];
    assert t[..|t| - 1] == f;
  }

  /** Up to two '=' that complete a multiple of 4 are dropped again. */
  lemma StripPadding(f: string, pad: string)
    requires forall i :: 0 <= i < |f| ==> f[i] != '='
    requires |f| % 4 != 1 && |pad| < 4 && (|f| + |pad|) % 4 == 0
    requires forall i :: 0 <= i < |pad| ==> pad[i] == '='
    ensures WithoutPadding(f + pad) == f
  {
    if |f| % 4 == 0 {
      assert pad == [];
      assert f + pad == f;
      StripNoPadding(f);
    } else if |f| % 4 == 2 {
      assert pad == "==";
      StripTwo(f);
    } else {
      assert pad == "=";
      StripOne(f);
    }
  }

  /** `atob` of an RFC 4648 section 4 encoding followed by its padding gives the bytes back. */
  lemma AtobPadded(b: seq<Byte>, pad: string)
    requires |pad| < 4 && (|Encode(b, false)| + |pad|) % 4 == 0
    requires forall i :: 0 <= i < |pad| ==> pad[i] == '='
    ensures Atob(Encode(b, false) + pad) == Some(b)
  {
    var f := Encode(b, false);
    var t := f + pad;
    EncodeInAlphabet(b, false);
    EncodeLength(b, false);
    EncodeLengthMod(|b|);
    assert forall i :: 0 <= i < |f| ==> f[i] != '=' && !IsAsciiWhitespace(f[i]) by {
      forall i | 0 <= i < |f|
        ensures f[i] != '=' && !IsAsciiWhitespace(f[i])
      {
        assert CharSextet(f[i], false).Some?;
      }
    }
    assert forall i :: 0 <= i < |t| ==> !IsAsciiWhitespace(t[i]);
    WithoutWhitespaceKeeps(t);
    StripPadding(f, pad);
    DecodeEncode(b);
  }

  /** Different byte strings have different RFC 4648 section 5 encodings. */
  lemma EncodeUrlInjective(a: seq<Byte>, b: seq<Byte>)
    requires Encode(a, true) == Encode(b, true)
    ensures a == b
  {
    EncodeUrlStd(a);
    EncodeUrlStd(b);
    assert Encode(a, false) == Encode(b, false);
    DecodeEncode(a);
    DecodeEncode(b);
  }

  /** The first 40 characters of an encoding depend on the first 30 bytes only. */
  lemma EncodeFirst40(b: seq<Byte>, url: bool)
    requires |b| >= 30
    ensures |Encode(b, url)| >= 40 && Encode(b, url)[..40] == Encode(b[..30], url)
  {
    EncodeAppend(b[..30], b[30..], url);
    EncodeLength(b[..30], url);
    assert b == b[..30] + b[30..];
  }
}
