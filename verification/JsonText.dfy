/** `json.dumps` and `json.loads` on the texts of that dialect, and their round trip. */
module JsonText {
  import opened Basics
  import opened Json

  /* ---------- integers ---------- */

  predicate IsDigit(c: int) { 48 <= c <= 57 }

  function PrintNat(n: nat): (t: Text)
    ensures |t| > 0 && forall i :: 0 <= i < |t| ==> IsDigit(t[i])
    ensures t[0] == 48 ==> n == 0
  {
    if n < 10 then [48 + n] else PrintNat(n / 10) + [48 + n % 10]
  }

  function PrintInt(n: int): Text { if n < 0 then [45] + PrintNat(-n) else PrintNat(n) }

  /** The longest run of digits at the head of `s`, read on top of `acc`. */
  function ScanDigits(acc: nat, s: Text): (r: (nat, Text))
    ensures |r.1| <= |s|
    decreases s
  {
    if s == [] || !IsDigit(s[0]) then (acc, s) else ScanDigits(10 * acc + (s[0] - 48), s[1..])
  }

  // -?(0|[1-9][0-9]*)
  function ParseNat(s: Text): (r: Option<(nat, Text)>)
    ensures r.Some? ==> |r.value.1| < |s|
  {
    if s == [] || !IsDigit(s[0]) then None
    else if s[0] == 48 then Some((0, s[1..]))
    else Some(ScanDigits(s[0] - 48, s[1..]))
  }

  function ParseInt(s: Text): (r: Option<(int, Text)>)
    ensures r.Some? ==> |r.value.1| < |s|
  {
    if s != [] && s[0] == 45 then
      match ParseNat(s[1..])
      case None => None
      case Some(r) =>
        var n: int := r.0;
        Some((-n, r.1))
    else
      match ParseNat(s)
      case None => None
      case Some(r) => Some((r.0, r.1))
  }

  ghost predicate StopsDigits(rest: Text) { rest == [] || !IsDigit(rest[0]) }

  // A tail that ends an integer token: none of its continuations is a number character.
  lemma {:induction false} ScanAppend(acc: nat, s: Text, rest: Text)
    requires forall i :: 0 <= i < |s| ==> IsDigit(s[i])
    ensures ScanDigits(acc, s + rest) == ScanDigits(ScanDigits(acc, s).0, rest)
    decreases s
  {
    if s == [] {
      assert s + rest == rest;
    } else {
      assert (s + rest)[0] == s[0] && (s + rest)[1..] == s[1..] + rest;
      ScanAppend(10 * acc + (s[0] - 48), s[1..], rest);
    }
  }

  lemma {:induction false} ScanPrint(n: nat, rest: Text)
    requires StopsDigits(rest)
    ensures ScanDigits(0, PrintNat(n) + rest) == (n, rest)
  {
    if n >= 10 {
      var last: Text := [48 + n % 10];
      ScanPrint(n / 10, []);
      assert PrintNat(n / 10) + [] == PrintNat(n / 10);
      assert PrintNat(n) + rest == PrintNat(n / 10) + (last + rest);
      ScanAppend(0, PrintNat(n / 10), last + rest);
      assert (last + rest)[0] == 48 + n % 10 && (last + rest)[1..] == rest;
    } else {
      assert (PrintNat(n) + rest)[1..] == rest;
    }
  }

  lemma ParsePrintNat(n: nat, rest: Text)
    requires StopsDigits(rest)
    ensures ParseNat(PrintNat(n) + rest) == Some((n, rest))
  {
    var s := PrintNat(n) + rest;
    assert s[0] == PrintNat(n)[0];
    if s[0] == 48 {
      assert s[1..] == rest;
    } else {
      ScanPrint(n, rest);
      assert ScanDigits(0, s) == ScanDigits(s[0] - 48, s[1..]);
    }
  }

  lemma ParsePrintInt(n: int, rest: Text)
    requires StopsDigits(rest)
    ensures ParseInt(PrintInt(n) + rest) == Some((n, rest))
  {
    if n < 0 {
      assert (PrintInt(n) + rest)[1..] == PrintNat(-n) + rest;
      ParsePrintNat(-n, rest);
    } else {
      ParsePrintNat(n, rest);
      assert (PrintInt(n) + rest)[0] == PrintNat(n)[0];
    }
  }

  /* ---------- strings ---------- */

  predicate High(c: int) { 0xD800 <= c < 0xDC00 }
  predicate Low(c: int) { 0xDC00 <= c < 0xE000 }

  function Combine(h: int, l: int): (c: CodePoint)
    requires High(h) && Low(l)
  {
    0x10000 + (h - 0xD800) * 0x400 + (l - 0xDC00)
  }

  function HexDigit(n: int): (c: CodePoint)
    requires 0 <= n < 16
  {
    if n < 10 then 48 + n else 87 + n
  }

  function HexValue(c: int): (r: Option<int>)
    ensures r.Some? ==> 0 <= r.value < 16
  {
    if IsDigit(c) then Some(c - 48)
    else if 97 <= c <= 102 then Some(c - 87)
    else if 65 <= c <= 70 then Some(c - 55)
    else None
  }

  function UEscape(n: int): (t: Text)
    requires 0 <= n < 0x10000
    ensures |t| == 6
  {
    [92, 117, HexDigit(n / 0x1000), HexDigit(n / 0x100 % 16), HexDigit(n / 16 % 16), HexDigit(n % 16)]
  }

  // The four hexadecimal digits after a "\u" that starts `s`.
  function Unit(s: Text): (r: Option<int>)
    requires |s| >= 2
    ensures r.Some? ==> |s| >= 6 && 0 <= r.value < 0x10000
  {
    if |s| < 6 then None
    else
      match (HexValue(s[2]), HexValue(s[3]), HexValue(s[4]), HexValue(s[5]))
      case (Some(a), Some(b), Some(c), Some(d)) => Some(a * 0x1000 + b * 0x100 + c * 16 + d)
      case _ => None
  }

  function EscapeChar(c: CodePoint): (t: Text)
    ensures 1 <= |t| <= 12
    ensures forall i :: 0 <= i < |t| ==> 32 <= t[i] < 127
  {
    if c == 34 then [92, 34]
    else if c == 92 then [92, 92]
    else if c == 10 then [92, 110]
    else if c == 13 then [92, 114]
    else if c == 9 then [92, 116]
    else if c == 12 then [92, 102]
    else if c == 8 then [92, 98]
    else if 32 <= c < 127 then [c]
    else if c < 0x10000 then UEscape(c)
    else UEscape(0xD800 + (c - 0x10000) / 0x400) + UEscape(0xDC00 + (c - 0x10000) % 0x400)
  }

  function Escape(t: Text): (r: Text)
    ensures |t| <= |r| <= 12 * |t|
    ensures forall i :: 0 <= i < |r| ==> 32 <= r[i] < 127
  {
    if t == [] then [] else EscapeChar(t[0]) + Escape(t[1..])
  }

  function Quote(t: Text): Text { [34] + Escape(t) + [34] }

  function SimpleEscape(c: int): Option<CodePoint> {
    if c == 34 || c == 92 || c == 47 then Some(c)
    else if c == 98 then Some(8)
    else if c == 102 then Some(12)
    else if c == 110 then Some(10)
    else if c == 114 then Some(13)
    else if c == 116 then Some(9)
    else None
  }

  predicate StartsEscape(s: Text) { |s| >= 2 && s[0] == 92 && s[1] == 117 }

  /** One character of a string body; `s` does not start with the closing quote. */
  function ParseChar(s: Text): (r: Option<(CodePoint, Text)>)
    requires s != []
    ensures r.Some? ==> |r.value.1| < |s|
  {
    if s[0] < 32 then None
    else if s[0] != 92 then Some((s[0], s[1..]))
    else if |s| < 2 then None
    else if s[1] != 117 then
      match SimpleEscape(s[1])
      case None => None
      case Some(c) => Some((c, s[2..]))
    else
      match Unit(s)
      case None => None
      case Some(u) =>
        if High(u) && StartsEscape(s[6..]) then
          match Unit(s[6..])
          case None => None
          case Some(v) => if Low(v) then Some((Combine(u, v), s[12..])) else Some((u, s[6..]))
        else Some((u, s[6..]))
  }

  /** The rest of a string after its opening quote. */
  function ParseChars(s: Text): (r: Option<(Text, Text)>)
    ensures r.Some? ==> |r.value.1| < |s|
  {
    if s == [] then None
    else if s[0] == 34 then Some(([], s[1..]))
    else
      match ParseChar(s)
      case None => None
      case Some(one) =>
        match ParseChars(one.1)
        case None => None
        case Some(more) => Some(([one.0] + more.0, more.1))
  }

  /** What a string becomes on the way through: an adjacent high and low surrogate fuse. */
  function Join(t: Text): Text {
    if |t| >= 2 && High(t[0]) && Low(t[1]) then [Combine(t[0], t[1])] + Join(t[2..])
    else if t == [] then [] else [t[0]] + Join(t[1..])
  }

  ghost predicate HasPair(t: Text) { exists i :: 0 <= i < |t| - 1 && High(t[i]) && Low(t[i + 1]) }

  lemma PairLater(t: Text)
    requires t != [] && HasPair(t[1..])
    ensures HasPair(t)
  {
    var i :| 0 <= i < |t[1..]| - 1 && High(t[1..][i]) && Low(t[1..][i + 1]);
    assert High(t[i + 1]) && Low(t[i + 2]);
  }

  lemma PairNotFirst(t: Text)
    requires t != [] && HasPair(t) && !(|t| >= 2 && High(t[0]) && Low(t[1]))
    ensures HasPair(t[1..])
  {
    var i :| 0 <= i < |t| - 1 && High(t[i]) && Low(t[i + 1]);
    assert High(t[1..][i - 1]) && Low(t[1..][i]);
  }

  lemma {:induction false} JoinLength(t: Text)
    ensures |Join(t)| <= |t|
    ensures |t| >= 2 && High(t[0]) && Low(t[1]) ==> |Join(t)| < |t|
  {
    hide High, Low;
    if |t| >= 2 && High(t[0]) && Low(t[1]) {
      JoinLength(t[2..]);
    } else if t != [] {
      JoinLength(t[1..]);
    }
  }

  lemma ConsEqual<T>(x: T, s: seq<T>, t: seq<T>)
    requires t != [] && t[0] == x
    ensures [x] + s == t <==> s == t[1..]
  {
    HeadTail(t);
    Cons(x, s);
  }

  /** Text survives exactly when no high surrogate stands right before a low one. */
  lemma {:induction false} JoinIdentity(t: Text)
    ensures |Join(t)| <= |t|
    ensures Join(t) == t <==> !HasPair(t)
  {
    JoinLength(t);
    hide High, Low;
    if |t| >= 2 && High(t[0]) && Low(t[1]) {
      assert HasPair(t);
    } else if t != [] {
      assert Join(t) == [t[0]] + Join(t[1..]);
      JoinIdentity(t[1..]);
      ConsEqual(t[0], Join(t[1..]), t);
      if HasPair(t[1..]) { PairLater(t); }
      if HasPair(t) { PairNotFirst(t); }
    }
  }

  lemma HexDigits(n: int)
    requires 0 <= n < 0x10000
    ensures n == n / 0x1000 * 0x1000 + n / 0x100 % 16 * 0x100 + n / 16 % 16 * 16 + n % 16
    ensures 0 <= n / 0x1000 < 16
  {
    assert n / 0x100 == n / 0x1000 * 16 + n / 0x100 % 16 by { assert n / 0x100 / 16 == n / 0x1000; }
    assert n / 16 == n / 0x100 * 16 + n / 16 % 16 by { assert n / 16 / 16 == n / 0x100; }
  }

  lemma HexRoundTrip(k: int)
    requires 0 <= k < 16
    ensures HexValue(HexDigit(k)) == Some(k)
  {
  }

  lemma UnitDigits(a: int, b: int, c: int, d: int, x: Text)
    requires 0 <= a < 16 && 0 <= b < 16 && 0 <= c < 16 && 0 <= d < 16
    ensures Unit([92, 117, HexDigit(a), HexDigit(b), HexDigit(c), HexDigit(d)] + x)
         == Some(a * 0x1000 + b * 0x100 + c * 16 + d)
  {
    HexRoundTrip(a);
    HexRoundTrip(b);
    HexRoundTrip(c);
    HexRoundTrip(d);
    hide HexDigit, HexValue;
  }

  lemma UnitEscape(n: int, x: Text)
    requires 0 <= n < 0x10000
    ensures StartsEscape(UEscape(n) + x)
    ensures Unit(UEscape(n) + x) == Some(n)
    ensures (UEscape(n) + x)[6..] == x
  {
    hide Unit, HexDigit;
    HexDigits(n);
    UnitDigits(n / 0x1000, n / 0x100 % 16, n / 16 % 16, n % 16, x);
  }

  // What can follow an escaped high surrogate without being fused with it.
  ghost predicate NotLow(x: Text) {
    x != [] && (StartsEscape(x) ==> Unit(x).Some? && !Low(Unit(x).value))
  }

  lemma ParseEscapedChar(c: CodePoint, x: Text)
    requires High(c) ==> NotLow(x)
    ensures ParseChar(EscapeChar(c) + x) == Some((c, x))
    ensures (EscapeChar(c) + x)[0] != 34
    ensures !Low(c) ==> NotLow(EscapeChar(c) + x)
  {
    var s := EscapeChar(c) + x;
    if 32 <= c < 127 && c != 34 && c != 92 {
      assert s[1..] == x;
    } else if c in {34, 92, 10, 13, 9, 12, 8} {
      assert s[2..] == x;
    } else if c < 0x10000 {
      UnitEscape(c, x);
    } else {
      var h, l := 0xD800 + (c - 0x10000) / 0x400, 0xDC00 + (c - 0x10000) % 0x400;
      assert s == UEscape(h) + (UEscape(l) + x);
      UnitEscape(l, x);
      UnitEscape(h, UEscape(l) + x);
      assert s[12..] == s[6..][6..];
      assert Combine(h, l) == c;
    }
  }

  lemma ParseEscapedPair(h: CodePoint, l: CodePoint, x: Text)
    requires High(h) && Low(l)
    ensures ParseChar(EscapeChar(h) + (EscapeChar(l) + x)) == Some((Combine(h, l), x))
    ensures (EscapeChar(h) + (EscapeChar(l) + x))[0] != 34
    ensures NotLow(EscapeChar(h) + (EscapeChar(l) + x))
  {
    UnitEscape(l, x);
    UnitEscape(h, UEscape(l) + x);
    var s := EscapeChar(h) + (EscapeChar(l) + x);
    assert s[12..] == s[6..][6..];
  }

  lemma ParseCharsStep(s: Text, c: CodePoint, rest: Text)
    requires s != [] && s[0] != 34 && ParseChar(s) == Some((c, rest))
    requires ParseChars(rest).Some?
    ensures ParseChars(s) == Some(([c] + ParseChars(rest).value.0, ParseChars(rest).value.1))
  {
  }

  lemma EscapeCons(c: CodePoint, t: Text)
    ensures Escape([c] + t) == EscapeChar(c) + Escape(t)
  {
    Cons(c, t);
  }

  lemma EscapePair(t: Text)
    requires |t| >= 2
    ensures Escape(t) == EscapeChar(t[0]) + (EscapeChar(t[1]) + Escape(t[2..]))
  {
    hide EscapeChar, Escape;
    var u := t[1..];
    HeadTail(t);
    HeadTail(u);
    EscapeCons(t[0], u);
    EscapeCons(u[0], u[1..]);
    assert u[1..] == t[2..];
  }

  lemma ParseEscapePair(t: Text, tail: Text, rest: Text)
    requires |t| >= 2 && High(t[0]) && Low(t[1])
    requires ParseChars(Escape(t[2..]) + tail) == Some((Join(t[2..]), rest))
    ensures ParseChars(Escape(t) + tail) == Some((Join(t), rest))
    ensures NotLow(Escape(t) + tail)
  {
    hide ParseChars, ParseChar, Escape, EscapeChar, NotLow, Combine;
    var x := Escape(t[2..]) + tail;
    EscapePair(t);
    Associate(EscapeChar(t[0]), EscapeChar(t[1]) + Escape(t[2..]), tail);
    Associate(EscapeChar(t[1]), Escape(t[2..]), tail);
    ParseEscapedPair(t[0], t[1], x);
    ParseCharsStep(Escape(t) + tail, Combine(t[0], t[1]), x);
  }

  lemma ParseEscapeOne(t: Text, tail: Text, rest: Text)
    requires t != [] && !(|t| >= 2 && High(t[0]) && Low(t[1]))
    requires ParseChars(Escape(t[1..]) + tail) == Some((Join(t[1..]), rest))
    requires High(t[0]) ==> NotLow(Escape(t[1..]) + tail)
    ensures ParseChars(Escape(t) + tail) == Some((Join(t), rest))
    ensures !Low(t[0]) ==> NotLow(Escape(t) + tail)
  {
    var x := Escape(t[1..]) + tail;
    assert Escape(t) + tail == EscapeChar(t[0]) + x;
    ParseEscapedChar(t[0], x);
    ParseCharsStep(Escape(t) + tail, t[0], x);
  }

  /** Reading back an escaped string yields its joined form. */
  lemma {:induction false} ParseEscape(t: Text, rest: Text)
    ensures ParseChars(Escape(t) + ([34] + rest)) == Some((Join(t), rest))
    ensures t == [] || !Low(t[0]) ==> NotLow(Escape(t) + ([34] + rest))
  {
    var tail := [34] + rest;
    if t == [] {
      assert Escape(t) + tail == tail && tail[1..] == rest;
    } else if |t| >= 2 && High(t[0]) && Low(t[1]) {
      ParseEscape(t[2..], rest);
      ParseEscapePair(t, tail, rest);
    } else {
      ParseEscape(t[1..], rest);
      ParseEscapeOne(t, tail, rest);
    }
  }

  lemma {:induction false} EscapeConcat(a: Text, b: Text)
    ensures Escape(a + b) == Escape(a) + Escape(b)
  {
    if a == [] {
      assert a + b == b;
    } else {
      assert (a + b)[1..] == a[1..] + b;
      EscapeConcat(a[1..], b);
    }
  }

  lemma EscapeCombined(h: CodePoint, l: CodePoint)
    requires High(h) && Low(l)
    ensures EscapeChar(Combine(h, l)) == EscapeChar(h) + EscapeChar(l)
  {
    hide UEscape, HexDigit;
  }

  lemma {:induction false} EscapeJoin(t: Text)
    ensures Escape(Join(t)) == Escape(t)
  {
    hide EscapeChar, Combine;
    if |t| >= 2 && High(t[0]) && Low(t[1]) {
      EscapeJoin(t[2..]);
      EscapeCombined(t[0], t[1]);
      EscapePair(t);
      EscapeCons(Combine(t[0], t[1]), Join(t[2..]));
      hide Escape;
    } else if t != [] {
      EscapeJoin(t[1..]);
      EscapeCons(t[0], Join(t[1..]));
    }
  }

  /* ---------- values ---------- */

  function Print(j: Json): (t: Text)
    ensures t != []
    ensures !IsDigit(t[0]) || j.JInt?
    decreases j, 1
  {
    match j
    case JNull => Lit("null")
    case JBool(b) => if b then Lit("true") else Lit("false")
    case JInt(n) => PrintInt(n)
    case JStr(text) => Quote(text)
    case JObj(ms) => [123] + PrintMembers(ms) + [125]
  }

  function PrintMember(m: Member): Text
    decreases m, 0
  {
    Quote(m.key) + [58] + Print(m.value)
  }

  function PrintMembers(ms: seq<Member>): Text
    decreases ms, 0
  {
    if ms == [] then []
    else if |ms| == 1 then PrintMember(ms[0])
    else PrintMember(ms[0]) + [44] + PrintMembers(ms[1..])
  }

  /** `json.dumps(value, ensure_ascii=True, sort_keys=True, separators=(",", ":"))`. */
  function Dumps(j: Json): Text { Print(SortKeys(j)) }

  function SkipWs(s: Text): (r: Text)
    ensures |r| <= |s|
  {
    if s != [] && (s[0] == 32 || s[0] == 9 || s[0] == 10 || s[0] == 13) then SkipWs(s[1..]) else s
  }

  predicate StartsWith(s: Text, head: Text) { |head| <= |s| && s[..|head|] == head }

  function ParseValue(s: Text): (r: Option<(Json, Text)>)
    ensures r.Some? ==> |r.value.1| < |s|
    decreases |s|, 0
  {
    if s == [] then None
    else if s[0] == 34 then
      match ParseChars(s[1..])
      case None => None
      case Some(p) => Some((JStr(p.0), p.1))
    else if s[0] == 123 then
      match ParseObject(s[1..])
      case None => None
      case Some(p) => if Distinct(p.0) then Some((JObj(p.0), p.1)) else None
    else if StartsWith(s, Lit("null")) then Some((JNull, s[4..]))
    else if StartsWith(s, Lit("true")) then Some((JBool(true), s[4..]))
    else if StartsWith(s, Lit("false")) then Some((JBool(false), s[5..]))
    else
      match ParseInt(s)
      case None => None
      case Some(p) => Some((JInt(p.0), p.1))
  }

  // What follows an opening brace.
  function ParseObject(s: Text): (r: Option<(seq<Member>, Text)>)
    ensures r.Some? ==> |r.value.1| < |s|
    decreases |s|, 2
  {
    var s := SkipWs(s);
    if s != [] && s[0] == 125 then Some(([], s[1..])) else ParseMembers(s)
  }

  function ParseMembers(s: Text): (r: Option<(seq<Member>, Text)>)
    ensures r.Some? ==> |r.value.1| < |s|
    decreases |s|, 1
  {
    match ParseMember(s)
    case None => None
    case Some((m, rest)) =>
      var rest := SkipWs(rest);
      if rest != [] && rest[0] == 125 then Some(([m], rest[1..]))
      else if rest != [] && rest[0] == 44 && |rest| < |s| then
        match ParseMembers(SkipWs(rest[1..]))
        case None => None
        case Some(more) => Some(([m] + more.0, more.1))
      else None
  }

  function ParseMember(s: Text): (r: Option<(Member, Text)>)
    ensures r.Some? ==> |r.value.1| < |s|
    decreases |s|, 0
  {
    if s == [] || s[0] != 34 then None
    else
      match ParseChars(s[1..])
      case None => None
      case Some((key, rest)) =>
        var colon := SkipWs(rest);
        if colon == [] || colon[0] != 58 then None
        else
          match ParseValue(SkipWs(colon[1..]))
          case None => None
          case Some((value, rest)) => Some((Member(key, value), rest))
  }

  /** `json.loads` with the strict object hook. */
  function Loads(t: Text): Option<Json> {
    match ParseValue(SkipWs(t))
    case None => None
    case Some((j, rest)) => if SkipWs(rest) == [] then Some(j) else None
  }

  function JoinJson(j: Json): Json
    decreases j, 0
  {
    match j
    case JStr(text) => JStr(Join(text))
    case JObj(ms) => JObj(JoinMembers(ms))
    case _ => j
  }

  function JoinMembers(ms: seq<Member>): (r: seq<Member>)
    ensures |r| == |ms|
    ensures forall i :: 0 <= i < |ms| ==> r[i] == Member(Join(ms[i].key), JoinJson(ms[i].value))
    decreases ms, 1
  {
    seq(|ms|, i requires 0 <= i < |ms| => Member(Join(ms[i].key), JoinJson(ms[i].value)))
  }

  // A Python dict tree: keys are distinct and contain no surrogate pair.
  ghost predicate Sound(j: Json)
    decreases j, 0
  {
    j.JObj? ==> Distinct(j.members) && SoundMembers(j.members)
  }

  ghost predicate SoundMembers(ms: seq<Member>)
    decreases ms, 1
  {
    forall i :: 0 <= i < |ms| ==> !HasPair(ms[i].key) && Sound(ms[i].value)
  }

  lemma JoinKeys(ms: seq<Member>)
    requires SoundMembers(ms)
    ensures forall i :: 0 <= i < |ms| ==> JoinMembers(ms)[i].key == ms[i].key
    ensures Distinct(ms) ==> Distinct(JoinMembers(ms))
  {
    forall i | 0 <= i < |ms| ensures JoinMembers(ms)[i].key == ms[i].key {
      JoinIdentity(ms[i].key);
    }
  }

  lemma ParsePrintConstant(j: Json, rest: Text)
    requires j.JNull? || j.JBool?
    ensures ParseValue(Print(j) + rest) == Some((j, rest))
  {
    hide PrintInt, ParseInt, ParseChars, ParseObject;
    var t, s := Print(j), Print(j) + rest;
    assert s[..|t|] == t && s[|t|..] == rest && s[0] == t[0];
  }

  lemma ParsePrintNumber(n: int, rest: Text)
    requires StopsDigits(rest)
    ensures ParseValue(Print(JInt(n)) + rest) == Some((JInt(n), rest))
  {
    var s := PrintInt(n) + rest;
    assert s[0] == PrintInt(n)[0];
    ParsePrintInt(n, rest);
    assert Lit("null")[0] == 110 && Lit("true")[0] == 116 && Lit("false")[0] == 102;
    hide PrintInt, ParseInt, ParseChars, ParseObject;
    assert forall head: Text :: StartsWith(s, head) && head != [] ==> head[0] == s[0];
  }

  lemma ParsePrintText(text: Text, rest: Text)
    ensures ParseValue(Print(JStr(text)) + rest) == Some((JStr(Join(text)), rest))
  {
    var s := Print(JStr(text)) + rest;
    ParseEscape(text, rest);
    hide PrintInt, ParseInt, ParseChars, ParseObject, Escape;
    assert s[1..] == Escape(text) + ([34] + rest);
  }

  lemma {:induction false} ParsePrint(j: Json, rest: Text)
    requires Sound(j) && StopsDigits(rest)
    ensures ParseValue(Print(j) + rest) == Some((JoinJson(j), rest))
    decreases j, 1
  {
    hide ParseValue, Print;
    match j
    case JInt(n) => ParsePrintNumber(n, rest);
    case JStr(text) => ParsePrintText(text, rest);
    case JObj(ms) => ParsePrintObject(ms, rest);
    case _ => ParsePrintConstant(j, rest);
  }

  lemma ParseObjectLayout(body: Text, ms: seq<Member>, rest: Text)
    requires body != [] && body[0] == 34 && ParseMembers(body) == Some((ms, rest)) && Distinct(ms)
    ensures ParseValue([123] + body) == Some((JObj(ms), rest))
  {
    hide ParseMembers;
    assert ([123] + body)[1..] == body && SkipWs(body) == body;
  }

  lemma {:induction false} ParsePrintObject(ms: seq<Member>, rest: Text)
    requires Distinct(ms) && SoundMembers(ms)
    ensures ParseValue(Print(JObj(ms)) + rest) == Some((JoinJson(JObj(ms)), rest))
    decreases ms, 2
  {
    JoinKeys(ms);
    var body := PrintMembers(ms) + ([125] + rest);
    assert Print(JObj(ms)) + rest == [123] + body;
    if ms == [] {
      assert body == [125] + rest && body[1..] == rest && ([123] + body)[1..] == body;
    } else {
      ParsePrintMembers(ms, rest);
      PrintMembersHead(ms);
      ParseObjectLayout(body, JoinMembers(ms), rest);
    }
  }

  lemma ParseMemberLayout(text: Text, key: Text, x: Text, value: Json, rest: Text)
    requires text != [] && text[0] == 34
    requires ParseChars(text[1..]) == Some((key, [58] + x))
    requires SkipWs(x) == x && ParseValue(x) == Some((value, rest))
    ensures ParseMember(text) == Some((Member(key, value), rest))
  {
    hide ParseChars, ParseValue;
    var colon := [58] + x;
    assert SkipWs(colon) == colon && colon[1..] == x;
  }

  lemma PrintMemberLayout(m: Member, x: Text)
    ensures PrintMember(m) + x == [34] + (Escape(m.key) + ([34] + ([58] + (Print(m.value) + x))))
  {
    hide Escape, Print;
    var e, v := Escape(m.key), Print(m.value);
    Associate([34] + e + [34] + [58], v, x);
    Associate([34] + e + [34], [58], v + x);
    Associate([34] + e, [34], [58] + (v + x));
    Associate([34], e, [34] + ([58] + (v + x)));
  }

  lemma {:induction false} ParsePrintMember(m: Member, x: Text)
    requires !HasPair(m.key) && Sound(m.value) && StopsDigits(x)
    ensures ParseMember(PrintMember(m) + x) == Some((Member(m.key, JoinJson(m.value)), x))
    decreases m, 0
  {
    var v := Print(m.value) + x;
    var s := PrintMember(m) + x;
    PrintMemberLayout(m, x);
    hide ParseMember, PrintMember, Escape, Print, ParseValue, JoinJson;
    ParseEscape(m.key, [58] + v);
    JoinIdentity(m.key);
    ParsePrint(m.value, x);
    NoLeadingSpace(m.value, x);
    ParseMemberLayout(s, m.key, v, JoinJson(m.value), x);
  }

  lemma NoLeadingSpace(j: Json, x: Text)
    ensures SkipWs(Print(j) + x) == Print(j) + x
  {
    assert (Print(j) + x)[0] == Print(j)[0];
    if j.JInt? { assert Print(j)[0] == 45 || IsDigit(Print(j)[0]); }
  }

  lemma ParseLastMember(s: Text, m: Member, rest: Text)
    requires ParseMember(s) == Some((m, [125] + rest))
    ensures ParseMembers(s) == Some(([m], rest))
  {
    assert ([125] + rest)[1..] == rest;
  }

  lemma ParseNextMember(s: Text, m: Member, x: Text)
    requires ParseMember(s) == Some((m, [44] + x))
    requires x != [] && x[0] == 34 && ParseMembers(x).Some?
    ensures ParseMembers(s) == Some(([m] + ParseMembers(x).value.0, ParseMembers(x).value.1))
  {
    var rest := [44] + x;
    assert SkipWs(rest) == rest && rest[1..] == x && SkipWs(x) == x;
  }

  lemma PrintMembersHead(ms: seq<Member>)
    requires ms != []
    ensures PrintMembers(ms) != [] && PrintMembers(ms)[0] == 34
  {
    assert PrintMember(ms[0])[0] == 34;
  }

  lemma PrintMembersCons(ms: seq<Member>, tail: Text)
    requires |ms| >= 2
    ensures PrintMembers(ms) + tail == PrintMember(ms[0]) + ([44] + (PrintMembers(ms[1..]) + tail))
  {
    Associate(PrintMember(ms[0]) + [44], PrintMembers(ms[1..]), tail);
    Associate(PrintMember(ms[0]), [44], PrintMembers(ms[1..]) + tail);
  }

  lemma ParseMembersCons(s: Text, m: Member, x: Text, more: seq<Member>, rest: Text)
    requires ParseMember(s) == Some((m, [44] + x))
    requires x != [] && x[0] == 34 && ParseMembers(x) == Some((more, rest))
    ensures ParseMembers(s) == Some(([m] + more, rest))
  {
    ParseNextMember(s, m, x);
  }

  lemma ParsePrintLast(ms: seq<Member>, rest: Text)
    requires |ms| == 1
    requires ParseMember(PrintMember(ms[0]) + ([125] + rest)) == Some((JoinMembers(ms)[0], [125] + rest))
    ensures ParseMembers(PrintMembers(ms) + ([125] + rest)) == Some((JoinMembers(ms), rest))
  {
    hide ParseMembers, ParseMember, PrintMember;
    ParseLastMember(PrintMember(ms[0]) + ([125] + rest), JoinMembers(ms)[0], rest);
    assert [JoinMembers(ms)[0]] == JoinMembers(ms);
  }

  lemma ParsePrintMore(ms: seq<Member>, x: Text, close: Text, rest: Text)
    requires |ms| >= 2 && x == PrintMembers(ms[1..]) + close
    requires ParseMember(PrintMember(ms[0]) + ([44] + x)) == Some((JoinMembers(ms)[0], [44] + x))
    requires ParseMembers(x) == Some((JoinMembers(ms[1..]), rest))
    ensures ParseMembers(PrintMembers(ms) + close) == Some((JoinMembers(ms), rest))
  {
    PrintMembersHead(ms[1..]);
    PrintMembersCons(ms, close);
    hide ParseMembers, ParseMember, PrintMember, PrintMembers;
    assert x[0] == 34;
    ParseMembersCons(PrintMember(ms[0]) + ([44] + x), JoinMembers(ms)[0], x, JoinMembers(ms[1..]), rest);
    assert JoinMembers(ms) == [JoinMembers(ms)[0]] + JoinMembers(ms[1..]);
  }

  lemma {:induction false} ParsePrintMembers(ms: seq<Member>, rest: Text)
    requires ms != [] && SoundMembers(ms)
    ensures ParseMembers(PrintMembers(ms) + ([125] + rest)) == Some((JoinMembers(ms), rest))
    decreases ms, 1
  {
    JoinKeys(ms);
    hide ParseMembers, ParseMember, PrintMember, PrintMembers, JoinJson, JoinMembers;
    if |ms| == 1 {
      ParsePrintMember(ms[0], [125] + rest);
      ParsePrintLast(ms, rest);
    } else {
      var x := PrintMembers(ms[1..]) + ([125] + rest);
      ParsePrintMember(ms[0], [44] + x);
      ParsePrintMembers(ms[1..], rest);
      ParsePrintMore(ms, x, [125] + rest, rest);
    }
  }

  lemma {:induction false} SortSound(j: Json)
    requires Sound(j)
    ensures Sound(SortKeys(j))
  {
    if j.JObj? {
      var each := SortEach(j.members);
      forall i | 0 <= i < |each| ensures !HasPair(each[i].key) && Sound(each[i].value) {
        SortSound(j.members[i].value);
      }
      SortDistinct(each);
      forall m | m in Sort(each) ensures !HasPair(m.key) && Sound(m.value) {
        InMultiset(Sort(each), each, m);
      }
    }
  }

  /** The round trip: what is printed is read back, sorted, with surrogate pairs fused. */
  lemma LoadsDumps(j: Json)
    requires Sound(j)
    ensures Loads(Dumps(j)) == Some(JoinJson(SortKeys(j)))
  {
    SortSound(j);
    ParsePrint(SortKeys(j), []);
    NoLeadingSpace(SortKeys(j), []);
    assert Print(SortKeys(j)) + [] == Print(SortKeys(j));
  }

  lemma {:induction false} PrintJoin(j: Json)
    ensures Print(JoinJson(j)) == Print(j)
    decreases j, 1
  {
    match j
    case JStr(text) => EscapeJoin(text);
    case JObj(ms) => PrintJoinMembers(ms);
    case _ =>
  }

  lemma {:induction false} PrintJoinMembers(ms: seq<Member>)
    ensures PrintMembers(JoinMembers(ms)) == PrintMembers(ms)
    decreases ms, 0
  {
    if ms != [] {
      EscapeJoin(ms[0].key);
      PrintJoin(ms[0].value);
      PrintJoinMembers(ms[1..]);
      assert JoinMembers(ms)[1..] == JoinMembers(ms[1..]);
    }
  }

  lemma {:induction false} JoinHasNoPair(t: Text)
    ensures !HasPair(Join(t))
    ensures Join(t) != [] && Low(Join(t)[0]) ==> t != [] && t[0] == Join(t)[0]
  {
    hide High, Low;
    if |t| >= 2 && High(t[0]) && Low(t[1]) {
      JoinHasNoPair(t[2..]);
      Fused(t[0], t[1]);
      PairsOf(Combine(t[0], t[1]), Join(t[2..]));
    } else if t != [] {
      JoinHasNoPair(t[1..]);
      PairsOf(t[0], Join(t[1..]));
    }
  }

  lemma Fused(h: CodePoint, l: CodePoint)
    requires High(h) && Low(l)
    ensures !High(Combine(h, l)) && !Low(Combine(h, l))
  {
  }

  lemma PairsOf(c: CodePoint, t: Text)
    requires !HasPair(t) && !(t != [] && High(c) && Low(t[0]))
    ensures !HasPair([c] + t)
  {
    hide High, Low;
    var u := [c] + t;
    forall i | 0 <= i < |u| - 1 ensures !(High(u[i]) && Low(u[i + 1])) {
      if i > 0 { assert u[i] == t[i - 1] && u[i + 1] == t[i]; }
    }
  }

  /** Text that has been joined stays as it is. */
  lemma JoinTwice(t: Text)
    ensures Join(Join(t)) == Join(t) && !HasPair(Join(t))
  {
    JoinHasNoPair(t);
    JoinIdentity(Join(t));
  }

  lemma {:induction false} JoinJsonTwice(j: Json)
    ensures JoinJson(JoinJson(j)) == JoinJson(j)
    decreases j, 1
  {
    match j
    case JStr(text) => JoinTwice(text);
    case JObj(ms) => JoinMembersTwice(ms);
    case _ =>
  }

  lemma {:induction false} JoinMembersTwice(ms: seq<Member>)
    ensures JoinMembers(JoinMembers(ms)) == JoinMembers(ms)
    decreases ms, 0
  {
    var once, twice := JoinMembers(ms), JoinMembers(JoinMembers(ms));
    forall i | 0 <= i < |ms| ensures twice[i] == once[i] {
      JoinTwice(ms[i].key);
      JoinJsonTwice(ms[i].value);
    }
  }

  /** Printed text reads back joined even where keys hold surrogate pairs, so long as the joined keys stay apart. */
  lemma LoadsPrint(j: Json)
    requires Sound(JoinJson(j))
    ensures Loads(Print(j)) == Some(JoinJson(j))
  {
    PrintJoin(j);
    JoinJsonTwice(j);
    ParsePrint(JoinJson(j), []);
    NoLeadingSpace(JoinJson(j), []);
    assert Print(j) + [] == Print(j);
    hide Print, JoinJson, Sound;
  }

  /** Two values have the same bytes iff they agree up to dict order and fused surrogates. */
  lemma DumpsInjective(a: Json, b: Json)
    requires Sound(a) && Sound(b)
    ensures Dumps(a) == Dumps(b) <==> JoinJson(SortKeys(a)) == JoinJson(SortKeys(b))
  {
    LoadsDumps(a);
    LoadsDumps(b);
    SortSound(a);
    SortSound(b);
    PrintJoin(SortKeys(a));
    PrintJoin(SortKeys(b));
  }
}
