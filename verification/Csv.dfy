/**
 The quote scanner that runs before the CSV reader, and the grammar it accepts:
 document = field *(separator field), where a field is free of quotes and separators, or is a quoted run
 whose inner quotes are doubled (compare section 2 of RFC 4180).
 */
module Csv {
  import opened Basics

  const QUOTE: CodePoint := 34

  predicate Separator(c: CodePoint) { c == 44 || c == 13 || c == 10 }

  datatype Field = Plain(content: Text) | Quoted(content: Text)

  datatype Document = Last(field: Field) | Then(field: Field, separator: CodePoint, rest: Document)

  datatype QuotingError = CharactersAfterClosingQuote | EmbeddedQuote | UnterminatedField

  /* ---------- the grammar ---------- */

  predicate PlainChar(c: CodePoint) { c != QUOTE && !Separator(c) }

  predicate ValidField(f: Field) { f.Plain? ==> forall i :: 0 <= i < |f.content| ==> PlainChar(f.content[i]) }

  predicate ValidDocument(d: Document) {
    ValidField(d.field) && (d.Then? ==> Separator(d.separator) && ValidDocument(d.rest))
  }

  function Doubled(t: Text): Text {
    if t == [] then [] else (if t[0] == QUOTE then [QUOTE, QUOTE] else [t[0]]) + Doubled(t[1..])
  }

  function RenderField(f: Field): Text {
    match f
    case Plain(t) => t
    case Quoted(t) => [QUOTE] + (Doubled(t) + [QUOTE])
  }

  function RenderTail(d: Document): Text
    decreases d, 0
  {
    match d
    case Last(_) => []
    case Then(_, sep, rest) => [sep] + Render(rest)
  }

  function Render(d: Document): Text
    decreases d, 1
  {
    RenderField(d.field) + RenderTail(d)
  }

  /* ---------- the left-to-right reading of a text ---------- */

  // One more character at the front of the first field.
  function Prepend(c: CodePoint, r: Result<Document, QuotingError>): Result<Document, QuotingError> {
    match r
    case Ok(d) => Ok(d.(field := d.field.(content := [c] + d.field.content)))
    case Err(_) => r
  }

  function After(f: Field, sep: CodePoint, r: Result<Document, QuotingError>): Result<Document, QuotingError> {
    match r
    case Ok(d) => Ok(Then(f, sep, d))
    case Err(_) => r
  }

  // At the start of a field.
  function Split(u: Text): Result<Document, QuotingError>
    decreases |u|, 1
  {
    if u != [] && u[0] == QUOTE then InQuotes(u[1..]) else InPlain(u)
  }

  function InPlain(u: Text): Result<Document, QuotingError>
    decreases |u|, 0
  {
    if u == [] then Ok(Last(Plain([])))
    else if u[0] == QUOTE then Err(EmbeddedQuote)
    else if Separator(u[0]) then After(Plain([]), u[0], Split(u[1..]))
    else Prepend(u[0], InPlain(u[1..]))
  }

  function InQuotes(u: Text): Result<Document, QuotingError>
    decreases |u|, 0
  {
    if u == [] then Err(UnterminatedField)
    else if u[0] != QUOTE then Prepend(u[0], InQuotes(u[1..]))
    else if |u| > 1 && u[1] == QUOTE then Prepend(QUOTE, InQuotes(u[2..]))
    else AfterQuote(u[1..])
  }

  function AfterQuote(u: Text): Result<Document, QuotingError>
    decreases |u|, 0
  {
    if u == [] then Ok(Last(Quoted([])))
    else if Separator(u[0]) then After(Quoted([]), u[0], Split(u[1..]))
    else Err(CharactersAfterClosingQuote)
  }

  function Fault(r: Result<Document, QuotingError>): Option<QuotingError> {
    match r
    case Ok(_) => None
    case Err(e) => Some(e)
  }

  /* ---------- the scanner ---------- */

  // What the rest of the text means in the scanner's state.
  function Resume(inQuotes: bool, afterQuote: bool, fieldStart: bool, u: Text): Option<QuotingError> {
    if inQuotes then Fault(InQuotes(u))
    else if afterQuote then Fault(AfterQuote(u))
    else if fieldStart then Fault(Split(u))
    else Fault(InPlain(u))
  }

  // One character in each state.
  lemma ResumeStep(fieldStart: bool, u: Text)
    requires u != []
    ensures Resume(true, false, fieldStart, u) ==
              if u[0] != QUOTE then Resume(true, false, fieldStart, u[1..])
              else if |u| > 1 && u[1] == QUOTE then Resume(true, false, fieldStart, u[2..])
              else Resume(false, true, fieldStart, u[1..])
    ensures Resume(false, true, fieldStart, u) ==
              if Separator(u[0]) then Resume(false, false, true, u[1..]) else Some(CharactersAfterClosingQuote)
    ensures Resume(false, false, fieldStart, u) ==
              if u[0] != QUOTE then Resume(false, false, Separator(u[0]), u[1..])
              else if fieldStart then Resume(true, false, false, u[1..]) else Some(EmbeddedQuote)
  {
    assert u[0] != QUOTE ==> Split(u) == InPlain(u);
  }

  lemma ResumeEnd(inQuotes: bool, afterQuote: bool, fieldStart: bool)
    ensures Resume(inQuotes, afterQuote, fieldStart, []) == if inQuotes then Some(UnterminatedField) else None
  {
  }

  /** `_validate_csv_quoting`: None is acceptance, and the error is the first one in the text. */
  method ValidateCsvQuoting(text: Text) returns (fault: Option<QuotingError>)
    ensures fault == Fault(Split(text))
  {
    hide Split, Fault, Separator;
    var inQuotes, afterQuote, fieldStart := false, false, true;
    var index := 0;
    assert text[index..] == text;
    while index < |text|
      invariant 0 <= index <= |text|
      invariant !(inQuotes && afterQuote)
      invariant Resume(inQuotes, afterQuote, fieldStart, text[index..]) == Fault(Split(text))
      decreases |text| - index
    {
      var c := text[index];
      ghost var u := text[index..];
      assert u[0] == c && u[1..] == text[index + 1..];
      assert |u| > 1 ==> u[1] == text[index + 1] && u[2..] == text[index + 2..];
      ResumeStep(fieldStart, u);
      hide Resume;
      if inQuotes {
        if c == QUOTE {
          if index + 1 < |text| && text[index + 1] == QUOTE {
            index := index + 2;
            continue;
          }
          inQuotes := false;
          afterQuote := true;
        }
        index := index + 1;
        continue;
      }
      if afterQuote {
        if Separator(c) {
          afterQuote := false;
          fieldStart := true;
        } else {
          return Some(CharactersAfterClosingQuote);
        }
        index := index + 1;
        continue;
      }
      if c == QUOTE {
        if !fieldStart {
          return Some(EmbeddedQuote);
        }
        inQuotes := true;
        fieldStart := false;
      } else {
        fieldStart := Separator(c);
      }
      index := index + 1;
    }
    assert text[index..] == [];
    ResumeEnd(inQuotes, afterQuote, fieldStart);
    if inQuotes {
      return Some(UnterminatedField);
    }
    return None;
  }

  /* ---------- reading is the inverse of rendering ---------- */

  lemma {:induction false} PlainRun(t: Text, u: Text, d: Document)
    requires forall i :: 0 <= i < |t| ==> PlainChar(t[i])
    requires InPlain(u) == Ok(d) && d.field == Plain([])
    ensures InPlain(t + u) == Ok(d.(field := Plain(t)))
  {
    hide Separator;
    if t == [] {
      assert t + u == u;
    } else {
      assert PlainChar(t[0]);
      PlainRun(t[1..], u, d);
      HeadTail(t);
      Associate([t[0]], t[1..], u);
      Cons(t[0], t[1..] + u);
    }
  }

  lemma {:induction false} QuotedRun(t: Text, u: Text, d: Document)
    requires u == [] || u[0] != QUOTE
    requires AfterQuote(u) == Ok(d) && d.field == Quoted([])
    ensures InQuotes(Doubled(t) + [QUOTE] + u) == Ok(d.(field := Quoted(t)))
  {
    if t == [] {
      assert Doubled(t) + [QUOTE] + u == [QUOTE] + u;
      Cons(QUOTE, u);
      assert |[QUOTE] + u| > 1 ==> ([QUOTE] + u)[1] == u[0];
    } else {
      QuotedRun(t[1..], u, d);
      HeadTail(t);
      var v := Doubled(t[1..]) + [QUOTE] + u;
      EscapedStep(t[0], v);
      var e := if t[0] == QUOTE then [QUOTE, QUOTE] else [t[0]];
      Associate(e, Doubled(t[1..]), [QUOTE]);
      Associate(e, Doubled(t[1..]) + [QUOTE], u);
      hide Separator, AfterQuote, InQuotes;
    }
  }

  lemma EscapedStep(c: CodePoint, v: Text)
    ensures InQuotes((if c == QUOTE then [QUOTE, QUOTE] else [c]) + v) == Prepend(c, InQuotes(v))
  {
    hide AfterQuote;
    if c == QUOTE {
      assert ([QUOTE, QUOTE] + v)[2..] == v;
    } else {
      Cons(c, v);
    }
  }

  // What reading makes of everything after the first field.
  lemma TailRead(d: Document)
    requires ValidDocument(d) && (d.Then? ==> Split(Render(d.rest)) == Ok(d.rest))
    ensures InPlain(RenderTail(d)) == Ok(d.(field := Plain([])))
    ensures AfterQuote(RenderTail(d)) == Ok(d.(field := Quoted([])))
    ensures RenderTail(d) == [] || RenderTail(d)[0] != QUOTE
  {
    hide Split, Render, RenderField, ValidField;
    if d.Then? { Cons(d.separator, Render(d.rest)); }
  }

  /** A rendered document is accepted and splits back to itself. */
  lemma {:induction false} SplitRender(d: Document)
    requires ValidDocument(d)
    ensures Split(Render(d)) == Ok(d)
    decreases d
  {
    if d.Then? { SplitRender(d.rest); }
    TailRead(d);
    SplitFirst(d);
  }

  lemma SplitFirst(d: Document)
    requires ValidField(d.field)
    requires InPlain(RenderTail(d)) == Ok(d.(field := Plain([])))
    requires AfterQuote(RenderTail(d)) == Ok(d.(field := Quoted([])))
    requires RenderTail(d) == [] || RenderTail(d)[0] != QUOTE
    ensures Split(Render(d)) == Ok(d)
  {
    hide InPlain, InQuotes, AfterQuote, RenderTail;
    var u := RenderTail(d);
    match d.field
    case Plain(t) =>
      PlainRun(t, u, d.(field := Plain([])));
      assert t != [] ==> PlainChar(t[0]) && (t + u)[0] == t[0];
      assert t == [] ==> t + u == u;
    case Quoted(t) =>
      QuotedRun(t, u, d.(field := Quoted([])));
      Associate([QUOTE], Doubled(t) + [QUOTE], u);
      Cons(QUOTE, Doubled(t) + [QUOTE] + u);
  }

  // A document read from `u` in each state renders to what was read.
  ghost predicate Reads(start: Text, u: Text, r: Result<Document, QuotingError>) {
    r.Ok? ==> ValidDocument(r.value) && Render(r.value) == start + u
  }

  lemma PrependPlain(c: CodePoint, r: Result<Document, QuotingError>)
    requires PlainChar(c) && r.Ok? && r.value.field.Plain? && ValidDocument(r.value)
    ensures ValidDocument(Prepend(c, r).value) && Prepend(c, r).value.field.Plain?
    ensures Render(Prepend(c, r).value) == [c] + Render(r.value)
  {
    Associate([c], r.value.field.content, RenderTail(r.value));
    hide PlainChar;
  }

  lemma PrependQuoted(c: CodePoint, r: Result<Document, QuotingError>, u: Text)
    requires r.Ok? && r.value.field.Quoted? && ValidDocument(r.value) && Render(r.value) == [QUOTE] + u
    ensures ValidDocument(Prepend(c, r).value) && Prepend(c, r).value.field.Quoted?
    ensures Render(Prepend(c, r).value) == [QUOTE] + ((if c == QUOTE then [QUOTE, QUOTE] else [c]) + u)
  {
    var t, tail := r.value.field.content, RenderTail(r.value);
    var e := if c == QUOTE then [QUOTE, QUOTE] else [c];
    Cons(c, t);
    assert Doubled([c] + t) == e + Doubled(t);
    hide PlainChar, RenderTail, Doubled;
    Layout(e, Doubled(t), tail, u);
  }

  lemma Layout(e: Text, t: Text, tail: Text, u: Text)
    requires [QUOTE] + (t + [QUOTE]) + tail == [QUOTE] + u
    ensures [QUOTE] + (e + t + [QUOTE]) + tail == [QUOTE] + (e + u)
  {
    Associate([QUOTE], t + [QUOTE], tail);
    Cons(QUOTE, t + [QUOTE] + tail);
    Cons(QUOTE, u);
    Associate(e, t, [QUOTE]);
    Associate(e, t + [QUOTE], tail);
    Associate([QUOTE], e + (t + [QUOTE]), tail);
  }

  lemma AfterField(f: Field, sep: CodePoint, r: Result<Document, QuotingError>, u: Text)
    requires ValidField(f) && Separator(sep) && Reads([], u, r)
    ensures var d := After(f, sep, r);
            d.Ok? ==> ValidDocument(d.value) && d.value.field == f && Render(d.value) == RenderField(f) + ([sep] + u)
  {
    hide RenderField, ValidField, Separator;
    assert [] + u == u;
  }

  lemma {:induction false} SplitReads(u: Text)
    ensures Reads([], u, Split(u))
    decreases |u|, 1
  {
    hide Render;
    if u != [] && u[0] == QUOTE {
      QuotesRead(u[1..]);
      HeadTail(u);
    } else {
      PlainReads(u);
    }
    assert [] + u == u;
  }

  lemma {:induction false} PlainReads(u: Text)
    ensures InPlain(u).Ok? ==> ValidDocument(InPlain(u).value) && InPlain(u).value.field.Plain? && Render(InPlain(u).value) == u
    decreases |u|, 0
  {
    if u != [] {
      HeadTail(u);
      hide Render, Separator;
      if u[0] == QUOTE {
      } else if Separator(u[0]) {
        SplitReads(u[1..]);
        AfterField(Plain([]), u[0], Split(u[1..]), u[1..]);
        assert RenderField(Plain([])) + u == u;
      } else {
        PlainReads(u[1..]);
        if InPlain(u[1..]).Ok? { PrependPlain(u[0], InPlain(u[1..])); }
      }
    }
  }

  lemma {:induction false} QuotesRead(u: Text)
    ensures InQuotes(u).Ok? ==>
              ValidDocument(InQuotes(u).value) && InQuotes(u).value.field.Quoted? && Render(InQuotes(u).value) == [QUOTE] + u
    decreases |u|, 0
  {
    if u != [] {
      hide Render, Separator, AfterQuote;
      HeadTail(u);
      if u[0] != QUOTE {
        QuotesRead(u[1..]);
        if InQuotes(u).Ok? { PrependQuoted(u[0], InQuotes(u[1..]), u[1..]); }
      } else if |u| > 1 && u[1] == QUOTE {
        QuotesRead(u[2..]);
        assert u == [QUOTE, QUOTE] + u[2..];
        if InQuotes(u).Ok? { PrependQuoted(QUOTE, InQuotes(u[2..]), u[2..]); }
      } else {
        ClosedReads(u[1..]);
      }
    }
  }

  lemma {:induction false} ClosedReads(u: Text)
    ensures AfterQuote(u).Ok? ==>
              ValidDocument(AfterQuote(u).value) && AfterQuote(u).value.field.Quoted? &&
              Render(AfterQuote(u).value) == [QUOTE] + ([QUOTE] + u)
    decreases |u|, 0
  {
    assert RenderField(Quoted([])) == [QUOTE, QUOTE];
    assert [QUOTE] + ([QUOTE] + u) == [QUOTE, QUOTE] + u;
    if u != [] {
      hide Render, Separator, RenderField;
      HeadTail(u);
      if Separator(u[0]) {
        SplitReads(u[1..]);
        AfterField(Quoted([]), u[0], Split(u[1..]), u[1..]);
      }
    }
  }

  /** The scanner's language is the grammar, and the decomposition is unique. */
  lemma AcceptsIffGrammatical(text: Text)
    ensures Fault(Split(text)).None? <==> exists d :: ValidDocument(d) && Render(d) == text
    ensures forall d :: ValidDocument(d) && Render(d) == text ==> Split(text) == Ok(d)
  {
    hide Split, Render, ValidDocument;
    SplitReads(text);
    assert [] + text == text;
    forall d | ValidDocument(d) && Render(d) == text ensures Split(text) == Ok(d) { SplitRender(d); }
    if Split(text).Ok? { assert ValidDocument(Split(text).value) && Render(Split(text).value) == text; }
  }

  /* ---------- quoting any list of fields ---------- */

  function QuoteAll(fields: seq<Text>, separator: CodePoint): Document
    requires fields != []
  {
    if |fields| == 1 then Last(Quoted(fields[0])) else Then(Quoted(fields[0]), separator, QuoteAll(fields[1..], separator))
  }

  function FieldContents(d: Document): seq<Text> {
    [d.field.content] + (if d.Then? then FieldContents(d.rest) else [])
  }

  lemma {:induction false} QuoteAllValid(fields: seq<Text>, separator: CodePoint)
    requires fields != [] && Separator(separator)
    ensures ValidDocument(QuoteAll(fields, separator)) && FieldContents(QuoteAll(fields, separator)) == fields
  {
    hide Separator;
    if |fields| > 1 {
      QuoteAllValid(fields[1..], separator);
      HeadTail(fields);
    }
  }

  /** Quoting every field of any list, whatever the fields hold, gives accepted text that splits back to the list. */
  lemma QuotingIsAccepted(fields: seq<Text>, separator: CodePoint)
    requires fields != [] && Separator(separator)
    ensures var r := Split(Render(QuoteAll(fields, separator)));
            r.Ok? && FieldContents(r.value) == fields
  {
    QuoteAllValid(fields, separator);
    SplitRender(QuoteAll(fields, separator));
  }
}
