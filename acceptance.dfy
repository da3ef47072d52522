/**
 * Whole-text consequences of the lexer and recogniser facts: blank input is
 * rejected, any whitespace layout of a formula's tokens is accepted, and a
 * few worked inputs of each kind.
 */
module Acceptance {
  import opened Results
  import opened Lexical
  import opened Grammar
  import opened LexicalFacts
  import opened Scanner
  import opened Recognizer

  /** Empty or whitespace-only text reads as `Eof` alone, which is no formula. */
  lemma BlankRejected(s: string)
    requires Blank(s)
    ensures Tokenize(s) == Ok([Eof])
    ensures !Verdict(s)
  {
    TokenizeLayout(s, [], []);
    assert s + Layout([], []) == s;
  }

  /** The verdict on a readable layout is the recogniser's answer on its tokens. */
  lemma LayoutVerdict(lead: string, ts: seq<Token>, gaps: seq<string>)
    requires Blank(lead) && Readable(ts, gaps)
    ensures Verdict(lead + Layout(ts, gaps)) <==> ParseWff(ts + [Eof]) == Some([Eof])
  {
    TokenizeLayout(lead, ts, gaps);
  }

  /** Any legal spacing of a formula's tokens is accepted. */
  lemma LayoutAccepted(lead: string, f: Wff, gaps: seq<string>)
    requires Blank(lead) && Readable(Render(f), gaps)
    ensures Verdict(lead + Layout(Render(f), gaps))
  {
    TokenizeLayout(lead, Render(f), gaps);
    ParseRender(f, [Eof]);
  }

  /** The tokens of `(\wedge 1 2)` and the whitespace after each. */
  const ConjunctionTokens: seq<Token> := [LParen, BinaryOp("\\wedge"), Prop("1"), Prop("2"), RParen]
  const ConjunctionGaps: seq<string> := ["", " ", " ", "", ""]

  lemma ConjunctionReadable()
    ensures Readable(ConjunctionTokens, ConjunctionGaps)
  {
    var ts, gaps := ConjunctionTokens, ConjunctionGaps;
    assert Readable(ts[4..], gaps[4..]);
    assert Readable(ts[3..], gaps[3..]);
    assert Readable(ts[2..], gaps[2..]);
    assert Readable(ts[1..], gaps[1..]);
  }

  lemma ConjunctionOperandsLayout()
    ensures Layout(ConjunctionTokens[2..], ConjunctionGaps[2..]) == "1 2)"
  {
    var ts, gaps := ConjunctionTokens, ConjunctionGaps;
    assert Layout(ts[4..], gaps[4..]) == ")";
    assert Layout(ts[3..], gaps[3..]) == "2)";
  }

  lemma ConjunctionLayout()
    ensures Layout(ConjunctionTokens, ConjunctionGaps) == "(\\wedge 1 2)"
  {
    var ts, gaps := ConjunctionTokens, ConjunctionGaps;
    ConjunctionOperandsLayout();
    assert Layout(ts[1..], gaps[1..]) == "\\wedge 1 2)";
  }

  lemma ConjunctionAccepted()
    ensures Verdict("(\\wedge 1 2)")
  {
    var f := BinaryApp("\\wedge", Atom("1"), Atom("2"));
    assert Render(f) == ConjunctionTokens;
    ConjunctionReadable();
    ConjunctionLayout();
    LayoutAccepted("", f, ConjunctionGaps);
    assert "" + "(\\wedge 1 2)" == "(\\wedge 1 2)";
  }

  /** The tokens of `(\neg true)` and the whitespace after each. */
  const NegationTokens: seq<Token> := [LParen, UnaryOp("\\neg"), Const("true"), RParen]
  const NegationGaps: seq<string> := ["", " ", "", ""]

  lemma NegationReadable()
    ensures Readable(NegationTokens, NegationGaps)
  {
    var ts, gaps := NegationTokens, NegationGaps;
    assert Readable(ts[3..], gaps[3..]);
    assert Readable(ts[2..], gaps[2..]);
    assert Readable(ts[1..], gaps[1..]);
  }

  lemma NegationLayout()
    ensures Layout(NegationTokens, NegationGaps) == "(\\neg true)"
  {
    var ts, gaps := NegationTokens, NegationGaps;
    assert Layout(ts[3..], gaps[3..]) == ")";
    assert Layout(ts[2..], gaps[2..]) == "true)";
    assert Layout(ts[1..], gaps[1..]) == "\\neg true)";
  }

  lemma NegationAccepted()
    ensures Verdict("(\\neg true)")
  {
    var f := UnaryApp("\\neg", Literal("true"));
    assert Render(f) == NegationTokens;
    NegationReadable();
    NegationLayout();
    LayoutAccepted("", f, NegationGaps);
    assert "" + "(\\neg true)" == "(\\neg true)";
  }

  lemma PropositionReadable()
    ensures Readable([Prop("12ab3")], [""])
  {
    assert WellFormed(Prop("12ab3"));
  }

  /** Digits then lower-case letters form one proposition name. */
  lemma PropositionTokens()
    ensures Tokenize("12ab3") == Ok([Prop("12ab3"), Eof])
  {
    PropositionReadable();
    assert Layout([Prop("12ab3")], [""]) == "12ab3";
    TokenizeLayout("", [Prop("12ab3")], [""]);
    assert "" + "12ab3" == "12ab3";
    assert [Prop("12ab3")] + [Eof] == [Prop("12ab3"), Eof];
  }

  lemma PropositionAccepted()
    ensures Verdict("12ab3")
  {
    PropositionTokens();
    assert ParseWff([Prop("12ab3"), Eof]) == Some([Eof]);
  }

  lemma ConstantAccepted()
    ensures Verdict("true")
  {
    assert Scan("true", 0) == Step(Ok(Const("true")), 4);
  }

  /** Two formulas in a row: the second is left over. */
  lemma TrailingFormulaRejected()
    ensures !Verdict("true true")
  {
    var ts := [Const("true"), Const("true")];
    LayoutVerdict("", ts, [" ", ""]);
    assert "" + Layout(ts, [" ", ""]) == "true true";
    assert ts + [Eof] == [Const("true"), Const("true"), Eof];
    assert ParseWff(ts + [Eof]) == Some([Const("true"), Eof]);
  }

  /** An opening parenthesis must be followed by an operator. */
  lemma BareParenthesisRejected()
    ensures !Verdict("(true)")
  {
    var ts := [LParen, Const("true"), RParen];
    LayoutVerdict("", ts, ["", "", ""]);
    assert "" + Layout(ts, ["", "", ""]) == "(true)";
  }

  /** A binary operator with one operand and no closing parenthesis. */
  lemma MissingOperandRejected()
    ensures !Verdict("(\\vee true")
  {
    var ts := [LParen, BinaryOp("\\vee"), Const("true")];
    LayoutVerdict("", ts, ["", " ", ""]);
    assert "" + Layout(ts, ["", " ", ""]) == "(\\vee true";
    assert ParseWff([Const("true"), Eof]) == Some([Eof]);
  }

  const TrailingWordText: string := "(\\wedge 1 2) extra"

  /** The word after the formula is read as the lookahead, and it is no constant. */
  lemma TrailingWordError()
    ensures TokensFrom(TrailingWordText, 13) == Err(InvalidWord("extra"))
  {
    var u := TrailingWordText;
    assert Span(u, 18, Letter) == 18;
    assert Span(u, 17, Letter) == 18;
    assert Span(u, 16, Letter) == 18;
    assert Span(u, 15, Letter) == 18;
    assert Span(u, 14, Letter) == 18;
    assert Span(u, 13, Letter) == 18;
    assert u[13..18] == "extra";
  }

  lemma TrailingWordClose()
    ensures TokensFrom(TrailingWordText, 11) == Prepend([RParen], TokensFrom(TrailingWordText, 13))
  {
    var u := TrailingWordText;
    assert u[11..12] == ")" && u[12..13] == " ";
    TokenThenGap(u, 11, 12, 13, RParen, " ", []);
  }

  lemma TrailingWordSecond()
    ensures TokensFrom(TrailingWordText, 10) == Prepend([Prop("2")], TokensFrom(TrailingWordText, 11))
  {
    var u := TrailingWordText;
    assert u[10..11] == "2" && u[11..11] == "" && u[11] == ')';
    assert WellFormed(Prop("2"));
    TokenThenGap(u, 10, 11, 11, Prop("2"), "", []);
  }

  lemma TrailingWordFirst()
    ensures TokensFrom(TrailingWordText, 8) == Prepend([Prop("1")], TokensFrom(TrailingWordText, 10))
  {
    var u := TrailingWordText;
    assert u[8..9] == "1" && u[9..10] == " ";
    assert WellFormed(Prop("1"));
    TokenThenGap(u, 8, 9, 10, Prop("1"), " ", []);
  }

  lemma TrailingWordOperator()
    ensures TokensFrom(TrailingWordText, 1) == Prepend([BinaryOp("\\wedge")], TokensFrom(TrailingWordText, 8))
  {
    var u := TrailingWordText;
    assert u[1..7] == "\\wedge" && u[7..8] == " ";
    TokenThenGap(u, 1, 7, 8, BinaryOp("\\wedge"), " ", []);
  }

  lemma TrailingWordOpen()
    ensures TokensFrom(TrailingWordText, 0) == Prepend([LParen], TokensFrom(TrailingWordText, 1))
  {
    var u := TrailingWordText;
    assert u[0..1] == "(" && u[1..1] == "" && u[1] == '\\';
    TokenThenGap(u, 0, 1, 1, LParen, "", []);
  }

  /**
   * A complete formula followed by a word: the lexer fails on reading the
   * word as the lookahead after `)`, so the rejection is a lexical one.
   */
  lemma TrailingWordRejected()
    ensures Tokenize("(\\wedge 1 2) extra") == Err(InvalidWord("extra"))
    ensures !Verdict("(\\wedge 1 2) extra")
  {
    TrailingWordError();
    TrailingWordClose();
    TrailingWordSecond();
    TrailingWordFirst();
    TrailingWordOperator();
    TrailingWordOpen();
  }

  const LaterErrorText: string := "true true $"

  lemma LaterErrorTail()
    ensures ReadFrom(LaterErrorText, 9) == Reading([], Some(InvalidChar('$')))
  {
    var u := LaterErrorText;
    SkipLeadingSpaces(u, 9, 10);
    assert Scan(u, 10) == Step(Err(InvalidChar('$')), 10);
  }

  lemma LaterErrorGap()
    ensures Scan(LaterErrorText, 4) == Scan(LaterErrorText, 5)
  {
    SkipLeadingSpaces(LaterErrorText, 4, 5);
  }

  lemma LaterErrorSecond()
    ensures Scan(LaterErrorText, 4) == Step(Ok(Const("true")), 9)
  {
    var u := LaterErrorText;
    LaterErrorGap();
    assert u[5..9] == "true";
    ScanWordToken(u, 5, "true");
  }

  lemma LaterErrorFirst()
    ensures Scan(LaterErrorText, 0) == Step(Ok(Const("true")), 4)
  {
    var u := LaterErrorText;
    assert u[0..4] == "true";
    ScanWordToken(u, 0, "true");
  }

  /**
   * `true true $`: a lexical error two tokens after a complete formula. The
   * lexer's reading carried on to its end stops on `$`, and its tokens start
   * a formula, so the completeness promise of `Parser.Formula` applies.
   */
  lemma LaterErrorReading()
    ensures ReadFrom(LaterErrorText, 0) == Reading([Const("true"), Const("true")], Some(InvalidChar('$')))
    ensures StartsFormula(ReadFrom(LaterErrorText, 0).tokens)
    ensures !Verdict(LaterErrorText)
  {
    LaterErrorTail();
    LaterErrorSecond();
    LaterErrorFirst();
    var ts := [Const("true"), Const("true")];
    assert ReadFrom(LaterErrorText, 4).tokens == [Const("true")];
    assert ParseWff(ts) == Some([Const("true")]);
    ReadFromStream(LaterErrorText, 0);
  }

  /** The only formula that `true true` starts with is the first constant. */
  lemma FirstConstant(f: Wff, rest: seq<Token>)
    requires [Const("true"), Const("true")] == Render(f) + rest
    ensures f == Literal("true") && rest == [Const("true")]
  {
    var ts := Render(f) + rest;
    assert ts[0] == Render(f)[0] == Const("true");
    RenderHead(f);
    assert ts[1..] == rest;
  }

  /**
   * The program on `true true $`: `formula` accepts the first constant, and
   * the second is then the lookahead, so `parse` rejects at its check for
   * `EOF` before any further token is requested.
   */
  method LaterErrorRun() returns (r: Result<bool, Error>, ghost f: Wff, next: Token)
    ensures r == Ok(true) && f == Literal("true") && next == Const("true")
  {
    LaterErrorReading();
    ghost var ts := ReadFrom(LaterErrorText, 0).tokens;
    var lexer := new Lexer(LaterErrorText);
    var created := Parser.Open(lexer);
    var parser := created.value;
    assert parser.ahead == ts && StartsFormula(ts);
    r, f := parser.Formula();
    FirstConstant(f, parser.ahead);
    next := parser.current;
  }

  /** An unknown command is a lexical error. */
  lemma UnknownCommandRejected()
    ensures Tokenize("\\foo") == Err(InvalidCommand("\\foo"))
    ensures !Verdict("\\foo")
  {
    var s := "\\foo";
    assert Span(s, 4, Letter) == 4;
    assert Span(s, 3, Letter) == 4;
    assert Span(s, 2, Letter) == 4;
    assert Span(s, 1, Letter) == 4;
    assert s[0..4] == "\\foo";
    assert Scan(s, 0) == Step(Err(InvalidCommand("\\foo")), 4);
  }
}
