/**
 * The grammar of fully parenthesised prefix formulas,
 *   F ::= CONST | PROP | ( UNOP F ) | ( BINOP F F ),
 * as an abstract syntax, its token rendering (the reference definition of
 * the language), and a pure recursive-descent recogniser proved equal to it.
 */
module Grammar {
  import opened Results
  import opened Lexical

  /** A well-formed formula; the recogniser never builds one, the proofs do. */
  datatype Wff =
    | Literal(word: string)
    | Atom(name: string)
    | UnaryApp(op: string, arg: Wff)
    | BinaryApp(op: string, left: Wff, right: Wff)

  /** The tokens that spell a formula. */
  function Render(f: Wff): (ts: seq<Token>)
    ensures |ts| > 0 && (ts[0].Const? || ts[0].Prop? || ts[0].LParen?)
  {
    match f
    case Literal(w) => [Const(w)]
    case Atom(n) => [Prop(n)]
    case UnaryApp(op, g) => [LParen, UnaryOp(op)] + Render(g) + [RParen]
    case BinaryApp(op, l, r) => [LParen, BinaryOp(op)] + Render(l) + Render(r) + [RParen]
  }

  /**
   * Recursive descent with one token of lookahead: the tokens left after one
   * formula at the front of `ts`, or None when no formula starts there.
   */
  function ParseWff(ts: seq<Token>): (r: Option<seq<Token>>)
    ensures r.Some? ==> |r.value| < |ts|
    decreases |ts|
  {
    if ts == [] then None
    else if ts[0].Const? || ts[0].Prop? then Some(ts[1..])
    else if ts[0].LParen? && |ts| > 1 && ts[1].UnaryOp? then
      Close(ParseWff(ts[2..]))
    else if ts[0].LParen? && |ts| > 1 && ts[1].BinaryOp? then
      match ParseWff(ts[2..])
      case None => None
      case Some(mid) => Close(ParseWff(mid))
    else None
  }

  /** After the operands: the tokens left once the closing parenthesis is consumed. */
  function Close(r: Option<seq<Token>>): (c: Option<seq<Token>>)
    ensures c.Some? ==> r.Some? && r.value != [] && r.value[0] == RParen && c.value == r.value[1..]
  {
    match r
    case Some(rest) => if rest != [] && rest[0] == RParen then Some(rest[1..]) else None
    case None => None
  }

  /** Completeness: the rendering of any formula is recognised, and exactly it is consumed. */
  lemma {:induction false} ParseRender(f: Wff, rest: seq<Token>)
    ensures ParseWff(Render(f) + rest) == Some(rest)
  {
    var ts := Render(f) + rest;
    match f
    case Literal(_) =>
      assert ts[1..] == rest;
    case Atom(_) =>
      assert ts[1..] == rest;
    case UnaryApp(op, g) =>
      UnaryTokens(op, g, rest);
      ParseRender(g, [RParen] + rest);
      UnaryStep(ts, [RParen] + rest);
    case BinaryApp(op, l, r) =>
      BinaryTokens(op, l, r, rest);
      ParseRender(l, Render(r) + ([RParen] + rest));
      ParseRender(r, [RParen] + rest);
      BinaryStep(ts, Render(r) + ([RParen] + rest), [RParen] + rest);
  }

  /** Where the operand of a rendered unary application sits. */
  lemma UnaryTokens(op: string, g: Wff, rest: seq<Token>)
    ensures var ts := Render(UnaryApp(op, g)) + rest;
      |ts| > 1 && ts[0] == LParen && ts[1] == UnaryOp(op) && ts[2..] == Render(g) + ([RParen] + rest)
  {
    var ts := Render(UnaryApp(op, g)) + rest;
    assert ts == [LParen, UnaryOp(op)] + (Render(g) + ([RParen] + rest));
  }

  /** Where the operands of a rendered binary application sit. */
  lemma BinaryTokens(op: string, l: Wff, r: Wff, rest: seq<Token>)
    ensures var ts := Render(BinaryApp(op, l, r)) + rest;
      |ts| > 1 && ts[0] == LParen && ts[1] == BinaryOp(op)
      && ts[2..] == Render(l) + (Render(r) + ([RParen] + rest))
  {
    var ts := Render(BinaryApp(op, l, r)) + rest;
    assert ts == [LParen, BinaryOp(op)] + (Render(l) + (Render(r) + ([RParen] + rest)));
  }

  /** One unary step of the recogniser: operator, operand, closing parenthesis. */
  lemma UnaryStep(ts: seq<Token>, after: seq<Token>)
    requires |ts| > 1 && ts[0] == LParen && ts[1].UnaryOp?
    requires ParseWff(ts[2..]) == Some(after) && after != [] && after[0] == RParen
    ensures ParseWff(ts) == Some(after[1..])
  {
  }

  /** One binary step of the recogniser: operator, two operands, closing parenthesis. */
  lemma BinaryStep(ts: seq<Token>, mid: seq<Token>, after: seq<Token>)
    requires |ts| > 1 && ts[0] == LParen && ts[1].BinaryOp?
    requires ParseWff(ts[2..]) == Some(mid) && ParseWff(mid) == Some(after)
    requires after != [] && after[0] == RParen
    ensures ParseWff(ts) == Some(after[1..])
  {
  }

  /** Soundness: whatever the recogniser consumes is the rendering of some formula. */
  lemma {:induction false} ParseSound(ts: seq<Token>) returns (f: Wff)
    requires ParseWff(ts).Some?
    ensures ts == Render(f) + ParseWff(ts).value
    decreases |ts|
  {
    if ts[0].Const? {
      f := Literal(ts[0].word);
      assert ts == [ts[0]] + ts[1..];
    } else if ts[0].Prop? {
      f := Atom(ts[0].name);
      assert ts == [ts[0]] + ts[1..];
    } else if ts[1].UnaryOp? {
      var g := ParseSound(ts[2..]);
      var after := ParseWff(ts[2..]).value;
      f := UnaryApp(ts[1].spelling, g);
      UnarySplit(ts, ts[1].spelling, g, after, ParseWff(ts).value);
    } else {
      var l := ParseSound(ts[2..]);
      var mid := ParseWff(ts[2..]).value;
      var r := ParseSound(mid);
      var after := ParseWff(mid).value;
      f := BinaryApp(ts[1].spelling, l, r);
      BinarySplit(ts, ts[1].spelling, l, r, mid, after, ParseWff(ts).value);
    }
  }

  /** The tokens of a unary application, followed by the rest, in the order they occur. */
  lemma UnarySplit(ts: seq<Token>, op: string, g: Wff, after: seq<Token>, out: seq<Token>)
    requires |ts| > 1 && ts[0] == LParen && ts[1] == UnaryOp(op)
    requires ts[2..] == Render(g) + after && after == [RParen] + out
    ensures ts == Render(UnaryApp(op, g)) + out
  {
    assert ts == [LParen, UnaryOp(op)] + ts[2..];
  }

  /** The tokens of a binary application, followed by the rest, in the order they occur. */
  lemma BinarySplit(ts: seq<Token>, op: string, l: Wff, r: Wff, mid: seq<Token>, after: seq<Token>, out: seq<Token>)
    requires |ts| > 1 && ts[0] == LParen && ts[1] == BinaryOp(op)
    requires ts[2..] == Render(l) + mid && mid == Render(r) + after && after == [RParen] + out
    ensures ts == Render(BinaryApp(op, l, r)) + out
  {
    assert ts == [LParen, BinaryOp(op)] + ts[2..];
  }

  /** A formula at the front of a token sequence is determined by the sequence. */
  lemma UniqueReading(f: Wff, a: seq<Token>, g: Wff, b: seq<Token>)
    requires Render(f) + a == Render(g) + b
    ensures a == b && f == g
  {
    SamePrefix(f, a, g, b);
    RenderInjective(f, g);
  }

  lemma SamePrefix(f: Wff, a: seq<Token>, g: Wff, b: seq<Token>)
    requires Render(f) + a == Render(g) + b
    ensures a == b && Render(f) == Render(g)
  {
    ParseRender(f, a);
    ParseRender(g, b);
    assert |Render(f)| == |Render(g)|;
    assert Render(f) == (Render(f) + a)[..|Render(f)|];
  }

  /** Distinct formulas have distinct renderings. */
  lemma {:induction false} RenderInjective(f: Wff, g: Wff)
    requires Render(f) == Render(g)
    ensures f == g
  {
    RenderHead(f);
    RenderHead(g);
    match f
    case Literal(_) =>
    case Atom(_) =>
    case UnaryApp(op, x) =>
      var y := g.arg;
      SamePrefix(x, [RParen], y, [RParen]);
      RenderInjective(x, y);
    case BinaryApp(op, l, r) =>
      var l', r' := g.left, g.right;
      SamePrefix(l, Render(r) + [RParen], l', Render(r') + [RParen]);
      SamePrefix(r, [RParen], r', [RParen]);
      RenderInjective(l, l');
      RenderInjective(r, r');
  }

  /** The first tokens of a rendering name its constructor, and the rest holds the operands. */
  lemma RenderHead(f: Wff)
    ensures f.Literal? ==> Render(f) == [Const(f.word)]
    ensures f.Atom? ==> Render(f) == [Prop(f.name)]
    ensures f.UnaryApp? ==>
              |Render(f)| > 2 && Render(f)[0] == LParen && Render(f)[1] == UnaryOp(f.op)
              && Render(f)[2..] == Render(f.arg) + [RParen]
    ensures f.BinaryApp? ==>
              |Render(f)| > 2 && Render(f)[0] == LParen && Render(f)[1] == BinaryOp(f.op)
              && Render(f)[2..] == Render(f.left) + (Render(f.right) + [RParen])
  {
    match f
    case Literal(_) =>
    case Atom(_) =>
    case UnaryApp(op, x) =>
      UnaryTokens(op, x, []);
      assert Render(f) + [] == Render(f);
    case BinaryApp(op, l, r) =>
      BinaryTokens(op, l, r, []);
      assert Render(f) + [] == Render(f);
  }

  /** A token sequence is one formula followed by `Eof` exactly when the recogniser says so. */
  lemma RecognizeMeaning(ts: seq<Token>)
    ensures ParseWff(ts) == Some([Eof]) <==> exists f :: ts == Render(f) + [Eof]
  {
    if ParseWff(ts) == Some([Eof]) {
      var f := ParseSound(ts);
      assert ts == Render(f) + [Eof];
    }
    if f :| ts == Render(f) + [Eof] {
      ParseRender(f, [Eof]);
    }
  }

  /** The verdict on a text: it tokenizes and is one formula followed by `Eof`. */
  function Verdict(s: string): bool {
    match Tokenize(s)
    case Err(_) => false
    case Ok(ts) => ParseWff(ts) == Some([Eof])
  }

  /** The verdict against the reference grammar, in both directions. */
  lemma VerdictMeaning(s: string)
    ensures Verdict(s) <==> exists f :: Tokenize(s) == Ok(Render(f) + [Eof])
  {
    if Tokenize(s).Ok? {
      RecognizeMeaning(Tokenize(s).value);
    }
  }
}
