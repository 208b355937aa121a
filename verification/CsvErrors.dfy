/** Where the quote scanner's errors lie: what was read before each is a document of the grammar. */
module CsvErrors {
  import opened Basics
  import opened Csv

  function LastField(d: Document): Field { if d.Then? then LastField(d.rest) else d.field }

  // A valid document and then a character that cannot follow it, with this error.
  predicate Blocked(text: Text, d: Document, c: CodePoint, v: Text, e: QuotingError) {
    ValidDocument(d) && text == Render(d) + ([c] + v) &&
    match e
    case CharactersAfterClosingQuote => LastField(d).Quoted? && c != QUOTE && !Separator(c)
    case EmbeddedQuote => LastField(d).Plain? && LastField(d).content != [] && c == QUOTE
    case UnterminatedField => false
  }

  /* ---------- an error shows where it is ---------- */

  // As `Blocked`, but the first field may be the one still being read, and empty so far.
  predicate BlockedIn(text: Text, d: Document, c: CodePoint, v: Text, e: QuotingError) {
    ValidDocument(d) && text == Render(d) + ([c] + v) &&
    match e
    case CharactersAfterClosingQuote => LastField(d).Quoted? && c != QUOTE && !Separator(c)
    case EmbeddedQuote => LastField(d).Plain? && (LastField(d).content != [] || d.Last?) && c == QUOTE
    case UnterminatedField => false
  }

  lemma {:induction false} SplitBlocked(u: Text, e: QuotingError) returns (d: Document, c: CodePoint, v: Text)
    requires Split(u) == Err(e) && !e.UnterminatedField?
    ensures Blocked(u, d, c, v, e)
    decreases |u|, 1
  {
    hide Render, ValidDocument, Separator;
    if u != [] && u[0] == QUOTE {
      d, c, v := QuotesBlocked(u[1..], e);
      HeadTail(u);
    } else {
      d, c, v := PlainBlocked(u, e);
      EmptyRender();
      assert [] + ([c] + v) == [c] + v;
    }
  }

  lemma EmptyRender()
    ensures Render(Last(Plain([]))) == [] && ValidDocument(Last(Plain([])))
  {
  }

  lemma {:induction false} PlainBlocked(u: Text, e: QuotingError) returns (d: Document, c: CodePoint, v: Text)
    requires InPlain(u) == Err(e) && !e.UnterminatedField?
    ensures BlockedIn(u, d, c, v, e) && d.field.Plain?
    decreases |u|, 0
  {
    hide Render, ValidDocument, Separator;
    HeadTail(u);
    if u[0] == QUOTE {
      d, c, v := Last(Plain([])), QUOTE, u[1..];
      EmptyRender();
      assert [] + ([c] + v) == u;
    } else if Separator(u[0]) {
      var rest: Document;
      rest, c, v := SplitBlocked(u[1..], e);
      d := Then(Plain([]), u[0], rest);
      ThenRender(Plain([]), u[0], rest);
      Associate([u[0]], Render(rest), [c] + v);
      EmptyField();
      assert [] + ([u[0]] + Render(rest)) == [u[0]] + Render(rest);
    } else {
      var more: Document;
      more, c, v := PlainBlocked(u[1..], e);
      PrependPlain(u[0], Ok(more));
      d := Prepend(u[0], Ok(more)).value;
      Associate([u[0]], Render(more), [c] + v);
      PrependLast(u[0], more);
    }
  }

  lemma EmptyField()
    ensures RenderField(Plain([])) == [] && ValidField(Plain([]))
  {
  }

  lemma ThenRender(f: Field, sep: CodePoint, rest: Document)
    requires ValidField(f) && Separator(sep) && ValidDocument(rest)
    ensures ValidDocument(Then(f, sep, rest)) && Render(Then(f, sep, rest)) == RenderField(f) + ([sep] + Render(rest))
    ensures LastField(Then(f, sep, rest)) == LastField(rest)
  {
    hide RenderField, ValidField, Separator;
  }

  lemma PrependLast(c: CodePoint, d: Document)
    ensures var p := Prepend(c, Ok(d)).value;
            p.Last? == d.Last? && (d.Then? ==> LastField(p) == LastField(d)) &&
            (d.Last? ==> LastField(p) == d.field.(content := [c] + d.field.content))
  {
  }

  lemma {:induction false} QuotesBlocked(u: Text, e: QuotingError) returns (d: Document, c: CodePoint, v: Text)
    requires InQuotes(u) == Err(e) && !e.UnterminatedField?
    ensures Blocked([QUOTE] + u, d, c, v, e) && d.field.Quoted?
    decreases |u|, 0
  {
    hide Render, ValidDocument, Separator, AfterQuote;
    if u[0] != QUOTE {
      var more: Document;
      more, c, v := QuotesBlocked(u[1..], e);
      d := QuotedMore(u[0], more, c, v, u[1..], e);
      HeadTail(u);
    } else if |u| > 1 && u[1] == QUOTE {
      var more: Document;
      more, c, v := QuotesBlocked(u[2..], e);
      d := QuotedMore(QUOTE, more, c, v, u[2..], e);
      assert u == [QUOTE, QUOTE] + u[2..];
    } else {
      ClosedNonempty(u[1..], e);
      d, c, v := ClosedBlocked(u[1..], e);
      HeadTail(u);
    }
  }

  lemma QuotedMore(x: CodePoint, more: Document, c: CodePoint, v: Text, u: Text, e: QuotingError) returns (d: Document)
    requires Blocked([QUOTE] + u, more, c, v, e) && more.field.Quoted?
    ensures Blocked([QUOTE] + ((if x == QUOTE then [QUOTE, QUOTE] else [x]) + u), d, c, v, e) && d.field.Quoted?
  {
    hide ValidDocument, Separator;
    QuotedHead(more);
    var inner := Render(more)[1..];
    HeadTail(Render(more));
    hide Render;
    var tail := [c] + v;
    Associate([QUOTE], inner, tail);
    Cons(QUOTE, inner + tail);
    Cons(QUOTE, u);
    PrependQuoted(x, Ok(more), inner);
    d := Prepend(x, Ok(more)).value;
    PrependLast(x, more);
    var esc := if x == QUOTE then [QUOTE, QUOTE] else [x];
    Associate([QUOTE], esc + inner, tail);
    Associate(esc, inner, tail);
  }

  lemma QuotedHead(d: Document)
    requires d.field.Quoted?
    ensures Render(d) != [] && Render(d)[0] == QUOTE
  {
    hide RenderTail, Doubled;
  }

  lemma ClosedBlocked(u: Text, e: QuotingError) returns (d: Document, c: CodePoint, v: Text)
    requires AfterQuote(u) == Err(e) && !e.UnterminatedField? && u != [] && u[0] != QUOTE
    ensures Blocked([QUOTE] + ([QUOTE] + u), d, c, v, e) && d.field.Quoted?
    decreases |u|, 0
  {
    hide ValidDocument, Separator;
    QuotedEmpty();
    hide Render;
    HeadTail(u);
    if Separator(u[0]) {
      var rest: Document;
      rest, c, v := SplitBlocked(u[1..], e);
      d := Then(Quoted([]), u[0], rest);
      ThenRender(Quoted([]), u[0], rest);
      Associate([u[0]], Render(rest), [c] + v);
      Associate([QUOTE, QUOTE], [u[0]] + Render(rest), [c] + v);
    } else {
      d, c, v := Last(Quoted([])), u[0], u[1..];
    }
    assert [QUOTE] + ([QUOTE] + u) == [QUOTE, QUOTE] + u;
  }

  lemma ClosedNonempty(u: Text, e: QuotingError)
    requires AfterQuote(u) == Err(e)
    ensures u != []
  {
  }

  lemma QuotedEmpty()
    ensures Render(Last(Quoted([]))) == [QUOTE, QUOTE] && ValidDocument(Last(Quoted([])))
    ensures RenderField(Quoted([])) == [QUOTE, QUOTE] && ValidField(Quoted([]))
  {
    assert [QUOTE] + ([] + [QUOTE]) == [QUOTE, QUOTE];
    assert [QUOTE, QUOTE] + [] == [QUOTE, QUOTE];
  }

  lemma LastRender(f: Field)
    ensures Render(Last(f)) == RenderField(f)
  {
    hide RenderField;
    assert RenderField(f) + [] == RenderField(f);
  }

  /* ---------- what blocks a document is that error ---------- */

  lemma {:induction false} PlainStops(t: Text, u: Text, e: QuotingError)
    requires (forall i :: 0 <= i < |t| ==> PlainChar(t[i])) && InPlain(u) == Err(e)
    ensures InPlain(t + u) == Err(e)
  {
    hide Separator;
    if t == [] {
      assert t + u == u;
    } else {
      assert PlainChar(t[0]);
      PlainStops(t[1..], u, e);
      HeadTail(t);
      Associate([t[0]], t[1..], u);
      Cons(t[0], t[1..] + u);
    }
  }

  lemma {:induction false} QuotedStops(t: Text, u: Text, e: QuotingError)
    requires u != [] && u[0] != QUOTE && AfterQuote(u) == Err(e)
    ensures InQuotes(Doubled(t) + [QUOTE] + u) == Err(e)
  {
    if t == [] {
      assert Doubled(t) + [QUOTE] + u == [QUOTE] + u;
      Cons(QUOTE, u);
      assert ([QUOTE] + u)[1] == u[0];
    } else {
      QuotedStops(t[1..], u, e);
      HeadTail(t);
      var v := Doubled(t[1..]) + [QUOTE] + u;
      EscapedStep(t[0], v);
      var esc := if t[0] == QUOTE then [QUOTE, QUOTE] else [t[0]];
      Associate(esc, Doubled(t[1..]), [QUOTE]);
      Associate(esc, Doubled(t[1..]) + [QUOTE], u);
      hide Separator, AfterQuote, InQuotes;
    }
  }

  // A first field and then something that stops the reading in either state.
  lemma FieldStops(f: Field, u: Text, e: QuotingError)
    requires ValidField(f) && u != []
    requires f.Plain? ==> InPlain(u) == Err(e) && (f.content != [] || u[0] != QUOTE)
    requires f.Quoted? ==> AfterQuote(u) == Err(e) && u[0] != QUOTE
    ensures Split(RenderField(f) + u) == Err(e)
  {
    hide InPlain, InQuotes, AfterQuote;
    match f
    case Plain(t) =>
      PlainStops(t, u, e);
      assert t != [] ==> PlainChar(t[0]) && (t + u)[0] == t[0];
      assert t == [] ==> t + u == u;
    case Quoted(t) =>
      QuotedStops(t, u, e);
      Associate([QUOTE], Doubled(t) + [QUOTE], u);
      Cons(QUOTE, Doubled(t) + [QUOTE] + u);
  }

  lemma {:induction false} BlockedStops(text: Text, d: Document, c: CodePoint, v: Text, e: QuotingError)
    requires Blocked(text, d, c, v, e)
    ensures Split(text) == Err(e)
    decreases d
  {
    hide Split, RenderField, ValidField;
    match d
    case Last(f) =>
      Cons(c, v);
      LastRender(f);
      assert Render(d) + ([c] + v) == RenderField(f) + ([c] + v);
      FieldStops(f, [c] + v, e);
    case Then(f, sep, rest) =>
      ThenRender(f, sep, rest);
      hide Render;
      BlockedStops(Render(rest) + ([c] + v), rest, c, v, e);
      Cons(sep, Render(rest) + ([c] + v));
      Associate(RenderField(f), [sep] + Render(rest), [c] + v);
      Associate([sep], Render(rest), [c] + v);
      FieldStops(f, [sep] + (Render(rest) + ([c] + v)), e);
  }

  /* ---------- an unterminated field wants its quote ---------- */

  lemma {:induction false} SplitCloses(u: Text)
    requires Split(u) == Err(UnterminatedField)
    ensures Split(u + [QUOTE]).Ok?
    decreases |u|, 1
  {
    if u != [] {
      assert (u + [QUOTE])[0] == u[0] && (u + [QUOTE])[1..] == u[1..] + [QUOTE];
      if u[0] == QUOTE { QuotesClose(u[1..]); } else { PlainCloses(u); }
    }
  }

  lemma {:induction false} PlainCloses(u: Text)
    requires InPlain(u) == Err(UnterminatedField)
    ensures InPlain(u + [QUOTE]).Ok?
    decreases |u|, 0
  {
    hide Separator;
    assert (u + [QUOTE])[0] == u[0] && (u + [QUOTE])[1..] == u[1..] + [QUOTE];
    if Separator(u[0]) { SplitCloses(u[1..]); } else { PlainCloses(u[1..]); }
  }

  lemma {:induction false} QuotesClose(u: Text)
    requires InQuotes(u) == Err(UnterminatedField)
    ensures InQuotes(u + [QUOTE]).Ok?
    decreases |u|, 0
  {
    hide Separator, AfterQuote;
    var w := u + [QUOTE];
    if u == [] {
      assert w == [QUOTE] && w[1..] == [];
      ClosesEmpty();
    } else {
      assert w[0] == u[0] && w[1..] == u[1..] + [QUOTE];
      if u[0] != QUOTE {
        QuotesClose(u[1..]);
      } else if |u| > 1 && u[1] == QUOTE {
        assert w[1] == QUOTE && w[2..] == u[2..] + [QUOTE];
        QuotesClose(u[2..]);
      } else {
        ClosedGoesOn(u[1..]);
        if |u| > 1 { assert w[1] == u[1]; }
      }
    }
  }

  lemma ClosesEmpty()
    ensures AfterQuote([]).Ok?
  {
  }

  lemma {:induction false} ClosedGoesOn(u: Text)
    requires AfterQuote(u) == Err(UnterminatedField)
    ensures u != [] && AfterQuote(u + [QUOTE]).Ok?
    decreases |u|, 0
  {
    hide Separator;
    assert (u + [QUOTE])[0] == u[0] && (u + [QUOTE])[1..] == u[1..] + [QUOTE];
    SplitCloses(u[1..]);
  }

  /** Every error is what it says.  A character after a closing quote, or an embedded quote, stands right behind a document of the
      grammar that ends with a quoted field, or with a non-empty plain one, and nothing that follows can mend it; a text is
      unterminated exactly when it is refused and one more quote makes it acceptable. */
  lemma ErrorsLocated(text: Text)
    ensures Split(text) == Err(CharactersAfterClosingQuote) <==> exists d, c, v :: Blocked(text, d, c, v, CharactersAfterClosingQuote)
    ensures Split(text) == Err(EmbeddedQuote) <==> exists d, c, v :: Blocked(text, d, c, v, EmbeddedQuote)
    ensures Split(text) == Err(UnterminatedField) <==> Split(text).Err? && Split(text + [QUOTE]).Ok?
  {
    hide Split, Blocked;
    if Split(text).Err? {
      var e := Split(text).error;
      if e.UnterminatedField? {
        SplitCloses(text);
      } else {
        var d, c, v := SplitBlocked(text, e);
        BlockedLonger(text, d, c, v, e);
        BlockedStops(text + [QUOTE], d, c, v + [QUOTE], e);
      }
    }
    forall d, c, v, e | Blocked(text, d, c, v, e) ensures Split(text) == Err(e) { BlockedStops(text, d, c, v, e); }
  }

  lemma BlockedLonger(text: Text, d: Document, c: CodePoint, v: Text, e: QuotingError)
    requires Blocked(text, d, c, v, e)
    ensures Blocked(text + [QUOTE], d, c, v + [QUOTE], e)
  {
    hide Render, ValidDocument, Separator;
    Associate(Render(d), [c] + v, [QUOTE]);
    Associate([c], v, [QUOTE]);
  }
}
