/** The UTF-8 decoder against the encoding of RFC 3629, section 3: it accepts exactly the encodings of texts without surrogates. */
module Utf8Rules {
  import opened Basics
  import opened JsonText
  import opened Frames

  predicate Scalar(c: CodePoint) { !(0xD800 <= c <= 0xDFFF) }

  // One to four bytes, the shortest that hold the code point.
  function EncodeChar(c: CodePoint): (b: Bytes)
    ensures 1 <= |b| <= 4
  {
    if c < 0x80 then [c]
    else if c < 0x800 then [0xC0 + c / 64, 0x80 + c % 64]
    else if c < 0x10000 then [0xE0 + c / 4096, 0x80 + c / 64 % 64, 0x80 + c % 64]
    else [0xF0 + c / 262144, 0x80 + c / 4096 % 64, 0x80 + c / 64 % 64, 0x80 + c % 64]
  }

  function EncodeText(t: Text): Bytes { if t == [] then [] else EncodeChar(t[0]) + EncodeText(t[1..]) }

  predicate Scalars(t: Text) { forall i :: 0 <= i < |t| ==> Scalar(t[i]) }

  lemma Sixes(c: int)
    requires c >= 0
    ensures c == c / 64 * 64 + c % 64
    ensures c / 64 == c / 4096 * 64 + c / 64 % 64
    ensures c / 4096 == c / 262144 * 64 + c / 4096 % 64
  {
    assert c / 64 / 64 == c / 4096;
    assert c / 4096 / 64 == c / 262144;
  }

  // The decoder's first step on an encoded code point.
  lemma DecodeChar(c: CodePoint, rest: Bytes)
    requires Scalar(c)
    ensures Utf8(EncodeChar(c) + rest) == Prepend(c, Utf8(rest))
  {
    var b := EncodeChar(c) + rest;
    if c < 0x80 {
      assert b[1..] == rest;
    } else if c < 0x800 {
      assert b[2..] == rest;
    } else if c < 0x10000 {
      assert b[3..] == rest;
      DecodeThree(c, b);
    } else {
      assert b[4..] == rest;
      DecodeFour(c, b);
    }
  }

  lemma DecodeThree(c: CodePoint, b: Bytes)
    requires 0x800 <= c < 0x10000 && Scalar(c) && |b| >= 3 && b[0] == 0xE0 + c / 4096 && b[1] == 0x80 + c / 64 % 64 && b[2] == 0x80 + c % 64
    ensures Utf8(b) == Prepend(c, Utf8(b[3..]))
  {
    Sixes(c);
  }

  lemma DecodeFour(c: CodePoint, b: Bytes)
    requires c >= 0x10000 && |b| >= 4
    requires b[0] == 0xF0 + c / 262144 && b[1] == 0x80 + c / 4096 % 64 && b[2] == 0x80 + c / 64 % 64 && b[3] == 0x80 + c % 64
    ensures Utf8(b) == Prepend(c, Utf8(b[4..]))
  {
    Sixes(c);
  }

  lemma {:induction false} DecodeText(t: Text)
    requires Scalars(t)
    ensures Utf8(EncodeText(t)) == Some(t)
  {
    hide EncodeChar, Utf8, Scalar;
    if t == [] {
      EmptyDecodes();
    } else {
      DecodeText(t[1..]);
      DecodeChar(t[0], EncodeText(t[1..]));
      HeadTail(t);
    }
  }

  lemma EmptyDecodes()
    ensures Utf8([]) == Some([])
  {
  }

  lemma Pair(c: int, x: int, y: int)
    requires 0 <= y < 64 && x >= 0 && c == x * 64 + y
    ensures c / 64 == x && c % 64 == y
  {
  }

  lemma Triple(c: int, x: int, y: int, z: int)
    requires 0 <= y < 64 && 0 <= z < 64 && x >= 0 && c == x * 4096 + y * 64 + z
    ensures c / 4096 == x && c / 64 % 64 == y && c % 64 == z
  {
    Pair(c, x * 64 + y, z);
    Pair(x * 64 + y, x, y);
    assert c / 64 / 64 == c / 4096;
  }

  lemma Quad(c: int, w: int, x: int, y: int, z: int)
    requires 0 <= x < 64 && 0 <= y < 64 && 0 <= z < 64 && w >= 0 && c == w * 262144 + x * 4096 + y * 64 + z
    ensures c / 262144 == w && c / 4096 % 64 == x && c / 64 % 64 == y && c % 64 == z
  {
    Triple(c, w * 64 + x, y, z);
    Pair(w * 64 + x, w, x);
    assert c / 4096 / 64 == c / 262144;
  }

  lemma EncodeTwo(b0: int, b1: int)
    requires 0xC2 <= b0 < 0xE0 && Continuation(b1)
    ensures var c := Bits(b0 - 0x40) * 64 + Bits(b1); 0x80 <= c < 0x800 && EncodeChar(c) == [b0, b1]
  {
    Pair(Bits(b0 - 0x40) * 64 + Bits(b1), b0 - 0xC0, b1 - 0x80);
  }

  lemma EncodeThree(b0: int, b1: int, b2: int)
    requires 0xE0 <= b0 < 0xF0 && Continuation(b1) && Continuation(b2)
    requires Bits(b0 - 0x60) * 4096 + Bits(b1) * 64 + Bits(b2) >= 0x800
    ensures var c := Bits(b0 - 0x60) * 4096 + Bits(b1) * 64 + Bits(b2); 0x800 <= c < 0x10000 && EncodeChar(c) == [b0, b1, b2]
  {
    Triple(Bits(b0 - 0x60) * 4096 + Bits(b1) * 64 + Bits(b2), b0 - 0xE0, b1 - 0x80, b2 - 0x80);
  }

  lemma EncodeFour(b0: int, b1: int, b2: int, b3: int)
    requires 0xF0 <= b0 < 0xF5 && Continuation(b1) && Continuation(b2) && Continuation(b3)
    requires 0x10000 <= Bits(b0 - 0x70) * 262144 + Bits(b1) * 4096 + Bits(b2) * 64 + Bits(b3) < 0x110000
    ensures var c := Bits(b0 - 0x70) * 262144 + Bits(b1) * 4096 + Bits(b2) * 64 + Bits(b3); EncodeChar(c) == [b0, b1, b2, b3]
  {
    Quad(Bits(b0 - 0x70) * 262144 + Bits(b1) * 4096 + Bits(b2) * 64 + Bits(b3), b0 - 0xF0, b1 - 0x80, b2 - 0x80, b3 - 0x80);
  }

  // What the decoder takes off the front of the bytes.
  lemma TakesOne(b: Bytes)
    requires b != [] && Utf8(b).Some?
    ensures Utf8(b).value != [] && Scalar(Utf8(b).value[0])
    ensures var code := EncodeChar(Utf8(b).value[0]);
            |code| <= |b| && b[..|code|] == code && Utf8(b[|code|..]) == Some(Utf8(b).value[1..])
  {
    var b0: int := b[0];
    if b0 < 0x80 {
      assert EncodeChar(b0) == [b0];
      hide EncodeChar;
    } else if b0 < 0xE0 {
      EncodeTwo(b0, b[1]);
      hide EncodeChar, Bits, Continuation;
      assert b[..2] == [b[0], b[1]];
    } else if b0 < 0xF0 {
      EncodeThree(b0, b[1], b[2]);
      hide EncodeChar, Bits, Continuation;
      assert b[..3] == [b[0], b[1], b[2]];
    } else {
      EncodeFour(b0, b[1], b[2], b[3]);
      hide EncodeChar, Bits, Continuation;
      assert b[..4] == [b[0], b[1], b[2], b[3]];
    }
  }

  lemma {:induction false} EncodeDecoded(b: Bytes)
    requires Utf8(b).Some?
    ensures Scalars(Utf8(b).value) && EncodeText(Utf8(b).value) == b
    decreases |b|
  {
    hide EncodeChar, Utf8, Scalar;
    if b == [] {
      EmptyDecodes();
    } else {
      TakesOne(b);
      var t := Utf8(b).value;
      var code := EncodeChar(t[0]);
      EncodeDecoded(b[|code|..]);
      assert b == code + b[|code|..];
      HeadTail(t);
      assert forall i :: 0 < i < |t| ==> t[i] == t[1..][i - 1];
    }
  }

  /** The bytes decode to a text exactly when they are its encoding and it holds no surrogate: no overlong form, no surrogate,
      nothing past U+10FFFF and no stray byte is accepted, and nothing else is refused. */
  lemma Utf8Iff(b: Bytes, t: Text)
    ensures Utf8(b) == Some(t) <==> Scalars(t) && EncodeText(t) == b
  {
    hide EncodeText, Utf8, Scalars;
    if Utf8(b).Some? { EncodeDecoded(b); }
    if Scalars(t) { DecodeText(t); }
  }
}
