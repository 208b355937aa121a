/** Byte-for-byte values of the wire formats: the vectors of section 10 of RFC 4648, JSON escapes, and a frame header. */
module Vectors {
  import opened Basics
  import opened Json
  import opened JsonText
  import opened Calendar
  import Base64
  import Frames
  import Csv

  /** "f", "fo", "foo" and "foobar" in base64. */
  lemma Base64Vectors()
    ensures Base64.Encode([102]) == Lit("Zg==") && Base64.Encode([102, 111]) == Lit("Zm8=")
    ensures Base64.Encode([102, 111, 111]) == Lit("Zm9v")
    ensures Base64.Encode([102, 111, 111, 98, 97, 114]) == Lit("Zm9vYmFy")
  {
    assert [102, 111, 111][3..] == [] && Base64.Encode([]) == [];
    assert [102, 111, 111, 98, 97, 114][3..] == [98, 97, 114] && [98, 97, 114][3..] == [];
    Groups();
    hide Base64.Group;
    assert Base64.Encode([98, 97, 114]) == Lit("YmFy");
    assert Lit("Zm9v") + Lit("YmFy") == Lit("Zm9vYmFy");
    assert Base64.Group(102, 0, 0)[..2] + [61, 61] == Lit("Zg==");
    assert Base64.Group(102, 111, 0)[..3] + [61] == Lit("Zm8=");
  }

  lemma Groups()
    ensures Base64.Group(102, 111, 111) == Lit("Zm9v") && Base64.Group(98, 97, 114) == Lit("YmFy")
    ensures Base64.Group(102, 0, 0) == Lit("ZgAA") && Base64.Group(102, 111, 0) == Lit("Zm8A")
  {
  }

  /** The short escapes. */
  lemma ShortEscapes()
    ensures EscapeChar(34) == Lit("\\\"") && EscapeChar(92) == Lit("\\\\") && EscapeChar(10) == Lit("\\n") && EscapeChar(13) == Lit("\\r")
    ensures EscapeChar(9) == Lit("\\t") && EscapeChar(8) == Lit("\\b") && EscapeChar(12) == Lit("\\f") && EscapeChar(47) == Lit("/")
  {
    hide UEscape;
  }

  /** A control character, DEL, a letter past ASCII, and an emoji as its surrogates. */
  lemma LongEscapes()
    ensures EscapeChar(31) == UEscape(0x1F) && EscapeChar(0x7F) == UEscape(0x7F) && EscapeChar(0xE9) == UEscape(0xE9)
    ensures EscapeChar(0x1F600) == UEscape(0xD83D) + UEscape(0xDE00)
    ensures UEscape(0xE9) == Lit("\\u00e9") && UEscape(0xD83D) == Lit("\\ud83d")
  {
    LowEscape();
    HighEscape();
    hide UEscape;
  }

  lemma LowEscape()
    ensures UEscape(0xE9) == Lit("\\u00e9")
  {
  }

  lemma HighEscape()
    ensures UEscape(0xD83D) == Lit("\\ud83d")
  {
  }

  /** The header is the length, most significant byte first. */
  lemma HeaderBytes(n: int)
    requires 0 <= n < Frames.LIMIT
    ensures var h := Frames.Header(n); var a: int, b: int, c: int, d: int := h[0], h[1], h[2], h[3]; n == a * 16_777_216 + b * 65_536 + c * 256 + d
  {
    Frames.UnheaderHeader(n);
  }

  /** Day numbers count from 0001-01-01: the Unix epoch, both sides of a leap day that is there and of one that is not, and the
      calendar's last day. */
  lemma DayVectors()
    ensures DayNumber(Date(1, 1, 1)) == 0 && DayNumber(Date(1970, 1, 1)) == 719_162 && DayNumber(Date(9999, 12, 31)) == 3_652_058
    ensures DayNumber(Date(2000, 3, 1)) - DayNumber(Date(2000, 2, 28)) == 2 && DayNumber(Date(1900, 3, 1)) - DayNumber(Date(1900, 2, 28)) == 1
  {
  }

  /** Commas, carriage returns and line feeds separate fields, a doubled quote is one quote. */
  lemma CsvVector()
    ensures Csv.Split(Lit("a,\"b\"\"\"\r\nc")) ==
            Ok(Csv.Then(Csv.Plain(Lit("a")), 44, Csv.Then(Csv.Quoted(Lit("b\"")), 13, Csv.Then(Csv.Plain([]), 10, Csv.Last(Csv.Plain(Lit("c")))))))
  {
    var d := Csv.Then(Csv.Plain(Lit("a")), 44, Csv.Then(Csv.Quoted(Lit("b\"")), 13, Csv.Then(Csv.Plain([]), 10, Csv.Last(Csv.Plain(Lit("c"))))));
    CsvValid();
    CsvText();
    hide Csv.Render, Csv.ValidDocument;
    Csv.SplitRender(d);
  }

  lemma CsvValid()
    ensures Csv.ValidDocument(Csv.Then(Csv.Plain(Lit("a")), 44, Csv.Then(Csv.Quoted(Lit("b\"")), 13, Csv.Then(Csv.Plain([]), 10, Csv.Last(Csv.Plain(Lit("c")))))))
  {
    var last := Csv.Last(Csv.Plain(Lit("c")));
    assert Csv.ValidDocument(last);
    var third := Csv.Then(Csv.Plain([]), 10, last);
    assert Csv.ValidDocument(third);
    var second := Csv.Then(Csv.Quoted(Lit("b\"")), 13, third);
    assert Csv.ValidDocument(second);
  }

  lemma CsvText()
    ensures Csv.Render(Csv.Then(Csv.Plain(Lit("a")), 44, Csv.Then(Csv.Quoted(Lit("b\"")), 13, Csv.Then(Csv.Plain([]), 10, Csv.Last(Csv.Plain(Lit("c")))))))
         == Lit("a,\"b\"\"\"\r\nc")
  {
    var last := Csv.Last(Csv.Plain(Lit("c")));
    assert Csv.Render(last) == [99];
    var third := Csv.Then(Csv.Plain([]), 10, last);
    assert Csv.Render(third) == [10, 99];
    var second := Csv.Then(Csv.Quoted(Lit("b\"")), 13, third);
    QuotedField();
    assert Csv.Render(second) == [34, 98, 34, 34, 34, 13, 10, 99] by { hide Csv.RenderField; }
  }

  lemma QuotedField()
    ensures Csv.RenderField(Csv.Quoted(Lit("b\""))) == [34, 98, 34, 34, 34]
  {
    var t := Lit("b\"");
    assert t[1..] == [34] && t[1..][1..] == [];
    assert Csv.Doubled([]) == [] && Csv.Doubled(t[1..]) == [34, 34];
    assert Csv.Doubled(t) == [98, 34, 34];
  }
}
