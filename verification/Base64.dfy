/** Base64 as in section 4 of RFC 4648: `b64encode` and `b64decode(validate=True)`. */
module Base64 {
  import opened Basics

  function Char(v: int): (c: CodePoint)
    requires 0 <= v < 64
    ensures c != 61 && 32 < c < 127 && c != 34 && c != 92
  {
    if v < 26 then 65 + v else if v < 52 then 71 + v else if v < 62 then v - 4 else if v == 62 then 43 else 47
  }

  function Value(c: int): (v: Option<int>)
    ensures v.Some? ==> 0 <= v.value < 64
  {
    if 65 <= c <= 90 then Some(c - 65)
    else if 97 <= c <= 122 then Some(c - 71)
    else if 48 <= c <= 57 then Some(c + 4)
    else if c == 43 then Some(62)
    else if c == 47 then Some(63)
    else None
  }

  lemma ValueChar(v: int)
    requires 0 <= v < 64
    ensures Value(Char(v)) == Some(v)
  {
  }

  function Encode(b: Bytes): (t: Text)
    ensures forall i :: 0 <= i < |t| ==> 32 < t[i] < 127 && t[i] != 34 && t[i] != 92
  {
    if b == [] then []
    else if |b| == 1 then Group(b[0], 0, 0)[..2] + [61, 61]
    else if |b| == 2 then Group(b[0], b[1], 0)[..3] + [61]
    else Group(b[0], b[1], b[2]) + Encode(b[3..])
  }

  lemma {:induction false} EncodeLength(b: Bytes)
    ensures |Encode(b)| == (|b| + 2) / 3 * 4
  {
    hide Group;
    if |b| >= 3 {
      EncodeLength(b[3..]);
      assert (|b| + 2) / 3 == (|b| - 1) / 3 + 1;
    }
  }

  // Three bytes as four characters of six bits each.
  function Group(x: Byte, y: Byte, z: Byte): (t: Text)
    ensures |t| == 4
    ensures forall i :: 0 <= i < 4 ==> 32 < t[i] < 127 && t[i] != 34 && t[i] != 92 && t[i] != 61
  {
    [Char(x / 4), Char(x % 4 * 16 + y / 16), Char(y % 16 * 4 + z / 64), Char(z % 64)]
  }

  // The bytes of four six-bit values.
  function First(p: int, q: int): (b: Byte) requires 0 <= p < 64 && 0 <= q < 64 { p * 4 + q / 16 }
  function Second(q: int, r: int): (b: Byte) requires 0 <= q < 64 && 0 <= r < 64 { q % 16 * 16 + r / 4 }
  function Third(r: int, s: int): (b: Byte) requires 0 <= r < 64 && 0 <= s < 64 { r % 4 * 64 + s }

  function Ungroup(t: Text): (r: Option<Bytes>)
    requires |t| >= 4
    ensures r.Some? ==> |r.value| == 3
  {
    match (Value(t[0]), Value(t[1]), Value(t[2]), Value(t[3]))
    case (Some(p), Some(q), Some(r), Some(s)) => Some([First(p, q), Second(q, r), Third(r, s)])
    case _ => None
  }

  // The last group, padded with '='.
  function UngroupPadded(t: Text): Option<Bytes>
    requires |t| == 4 && t[3] == 61
  {
    if t[2] == 61 then
      match (Value(t[0]), Value(t[1]))
      case (Some(p), Some(q)) => Some([First(p, q)])
      case _ => None
    else
      match (Value(t[0]), Value(t[1]), Value(t[2]))
      case (Some(p), Some(q), Some(r)) => Some([First(p, q), Second(q, r)])
      case _ => None
  }

  function Decode(t: Text): Option<Bytes> {
    if t == [] then Some([])
    else if |t| < 4 then None
    else if |t| == 4 && t[3] == 61 then UngroupPadded(t)
    else
      match (Ungroup(t), Decode(t[4..]))
      case (Some(head), Some(tail)) => Some(head + tail)
      case _ => None
  }

  lemma FirstBits(x: Byte, y: Byte)
    ensures First(x / 4, x % 4 * 16 + y / 16) == x
  {
    assert (x % 4 * 16 + y / 16) / 16 == x % 4;
  }

  lemma SecondBits(x: Byte, y: Byte, z: Byte)
    ensures Second(x % 4 * 16 + y / 16, y % 16 * 4 + z / 64) == y
  {
    assert (x % 4 * 16 + y / 16) % 16 == y / 16;
    assert (y % 16 * 4 + z / 64) / 4 == y % 16;
  }

  lemma ThirdBits(y: Byte, z: Byte)
    ensures Third(y % 16 * 4 + z / 64, z % 64) == z
  {
    assert (y % 16 * 4 + z / 64) % 4 == z / 64;
  }

  lemma GroupValues(x: Byte, y: Byte, z: Byte)
    ensures var t := Group(x, y, z);
            Value(t[0]) == Some(x / 4) && Value(t[1]) == Some(x % 4 * 16 + y / 16) &&
            Value(t[2]) == Some(y % 16 * 4 + z / 64) && Value(t[3]) == Some(z % 64)
  {
    ValueChar(x / 4);
    ValueChar(x % 4 * 16 + y / 16);
    ValueChar(y % 16 * 4 + z / 64);
    ValueChar(z % 64);
    hide Char, Value;
  }

  lemma GroupBits(x: Byte, y: Byte, z: Byte)
    ensures Ungroup(Group(x, y, z)) == Some([x, y, z])
    ensures UngroupPadded(Group(x, y, z)[..3] + [61]) == Some([x, y])
    ensures UngroupPadded(Group(x, y, z)[..2] + [61, 61]) == Some([x])
  {
    GroupValues(x, y, z);
    FirstBits(x, y);
    SecondBits(x, y, z);
    ThirdBits(y, z);
    hide Value, Group, First, Second, Third;
  }

  lemma DecodeShort(b: Bytes)
    requires |b| == 1 || |b| == 2
    ensures Decode(Encode(b)) == Some(b)
  {
    hide Ungroup, UngroupPadded, Group;
    GroupBits(b[0], if |b| == 2 then b[1] else 0, 0);
    var t := Encode(b);
    assert |t| == 4 && t[3] == 61;
    assert if |b| == 2 then b == [b[0], b[1]] else b == [b[0]];
  }

  lemma DecodeGroup(g: Text, rest: Text, head: Bytes, tail: Bytes)
    requires |g| == 4 && g[3] != 61 && Ungroup(g) == Some(head) && Decode(rest) == Some(tail)
    ensures Decode(g + rest) == Some(head + tail)
  {
    hide Value;
    assert (g + rest)[4..] == rest;
  }

  /** Every body survives the trip. */
  lemma {:induction false} DecodeEncode(b: Bytes)
    ensures Decode(Encode(b)) == Some(b)
  {
    hide Group, Ungroup, UngroupPadded;
    if b == [] {
    } else if |b| <= 2 {
      DecodeShort(b);
    } else {
      DecodeEncode(b[3..]);
      GroupBits(b[0], b[1], b[2]);
      DecodeGroup(Group(b[0], b[1], b[2]), Encode(b[3..]), [b[0], b[1], b[2]], b[3..]);
      assert Encode(b) == Group(b[0], b[1], b[2]) + Encode(b[3..]);
      assert [b[0], b[1], b[2]] + b[3..] == b;
    }
  }
}
