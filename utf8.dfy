/** UTF-8 as section 3 of RFC 3629 defines it: what `Buffer.from(s)` does
    to a string before it is re-encoded. A Dafny `char` is a Unicode scalar
    value, so every character has an encoding of 1 to 4 bytes. */
module Utf8 {
  import opened Js

  /** The encoding of one scalar value. */
  function CharBytes(c: char): (r: seq<Byte>)
    ensures 1 <= |r| <= 4
    ensures |r| == 1 <==> c as int < 0x80
    ensures |r| == 1 ==> r[0] == c as int
  {
    var v := c as int;
    if v < 0x80 then [v]
    else if v < 0x800 then [0xC0 + v / 64, 0x80 + v % 64]
    else if v < 0x10000 then [0xE0 + v / 4096, 0x80 + (v / 64) % 64, 0x80 + v % 64]
    else [0xF0 + v / 262144, 0x80 + (v / 4096) % 64, 0x80 + (v / 64) % 64, 0x80 + v % 64]
  }

  /** The length of a character's encoding, read off its first byte. */
  function LeadLength(b: Byte): nat {
    if b < 0x80 then 1 else if b < 0xE0 then 2 else if b < 0xF0 then 3 else 4
  }

  /** The scalar value written by 1 to 4 bytes. */
  function Combine(r: seq<Byte>): int
    requires 1 <= |r| <= 4
  {
    if |r| == 1 then r[0] as int
    else if |r| == 2 then (r[0] as int - 0xC0) * 64 + (r[1] as int - 0x80)
    else if |r| == 3 then (r[0] as int - 0xE0) * 4096 + (r[1] as int - 0x80) * 64 + (r[2] as int - 0x80)
    else (r[0] as int - 0xF0) * 262144 + (r[1] as int - 0x80) * 4096 + (r[2] as int - 0x80) * 64 + (r[3] as int - 0x80)
  }

  lemma FourBytesBack(v: int)
    requires 0x10000 <= v < 0x110000
    ensures v == (v / 262144) * 262144 + ((v / 4096) % 64) * 4096 + ((v / 64) % 64) * 64 + v % 64
  {
    assert v == (v / 64) * 64 + v % 64;
    assert v / 64 == (v / 4096) * 64 + (v / 64) % 64;
    assert v / 4096 == (v / 262144) * 64 + (v / 4096) % 64;
  }

  lemma ThreeBytesBack(v: int)
    requires 0x800 <= v < 0x10000
    ensures v == (v / 4096) * 4096 + ((v / 64) % 64) * 64 + v % 64
  {
    assert v == (v / 64) * 64 + v % 64;
    assert v / 64 == (v / 4096) * 64 + (v / 64) % 64;
  }

  /** The first byte tells the length, and the bytes give the value back. */
  lemma CharBytesDecode(c: char)
    ensures LeadLength(CharBytes(c)[0]) == |CharBytes(c)|
    ensures Combine(CharBytes(c)) == c as int
  {
    var v := c as int;
    if v >= 0x10000 {
      FourBytesBack(v);
    } else if v >= 0x800 {
      ThreeBytesBack(v);
    }
  }

  lemma CharBytesInjective(c: char, d: char)
    requires CharBytes(c) == CharBytes(d)
    ensures c == d
  {
    CharBytesDecode(c);
    CharBytesDecode(d);
  }

  /** `Buffer.from(s)`: the characters' encodings one after another. */
  function Encode(s: string): (r: seq<Byte>)
    ensures |r| >= |s|
  {
    if |s| == 0 then [] else CharBytes(s[0]) + Encode(s[1..])
  }

  lemma {:induction false} EncodeAppend(a: string, b: string)
    ensures Encode(a + b) == Encode(a) + Encode(b)
  {
    if |a| == 0 {
      assert a + b == b;
    } else {
      assert (a + b)[1..] == a[1..] + b;
      EncodeAppend(a[1..], b);
    }
  }

  /** ASCII text is its own encoding, one byte per character. */
  lemma {:induction false} EncodeAscii(s: string)
    requires forall i :: 0 <= i < |s| ==> s[i] as int < 0x80
    ensures |Encode(s)| == |s|
    ensures forall i :: 0 <= i < |s| ==> Encode(s)[i] == s[i] as int
  {
    if |s| > 0 {
      EncodeAscii(s[1..]);
    }
  }

  /** Different strings have different encodings. */
  lemma {:induction false} EncodeInjective(a: string, b: string)
    requires Encode(a) == Encode(b)
    ensures a == b
  {
    if |a| == 0 || |b| == 0 {
      assert |Encode(a)| == |Encode(b)|;
    } else {
      var ca, cb := CharBytes(a[0]), CharBytes(b[0]);
      CharBytesDecode(a[0]);
      CharBytesDecode(b[0]);
      assert ca[0] == Encode(a)[0] == Encode(b)[0] == cb[0];
      assert |ca| == |cb|;
      assert ca == Encode(a)[..|ca|] == Encode(b)[..|cb|] == cb;
      CharBytesInjective(a[0], b[0]);
      assert Encode(a[1..]) == Encode(a)[|ca|..] == Encode(b)[|cb|..] == Encode(b[1..]);
      EncodeInjective(a[1..], b[1..]);
      assert a == [a[0]] + a[1..] && b == [b[0]] + b[1..];
    }
  }
}
