/**
 * The LL(1) recursive-descent parser as the source has it: one lookahead
 * token, replaced on every consumption, and a recursive `Formula` that works
 * by side effects on it. Exceptions are `Err` values until the validation
 * entry point turns them into `false`.
 */
module Recognizer {
  import opened Results
  import opened Lexical
  import opened Grammar
  import opened Scanner

  /*
   * Several predicates below are written `forall x :: x == e ==> P(x)` rather
   * than `P(e)`. The two are equivalent; the quantified form keeps the
   * verifier from unfolding the recogniser or the lexer inside `P` except
   * where a proof names the term itself, which keeps each proof small.
   */

  /**
   * A formula starts at the front of `ts` and at least one token follows it.
   * The parser reads one token ahead, so consuming the last token of a
   * formula reads the next one: it succeeds exactly when that read does.
   */
  ghost predicate StartsFormula(ts: seq<Token>) {
    forall us :: us == ts ==> ParseWff(us).Some? && ParseWff(us).value != []
  }

  /** The same, at `(` followed by `ts`. */
  ghost predicate StartsFormulaAfterOpen(ts: seq<Token>) {
    forall us :: us == [LParen] + ts ==> ParseWff(us).Some? && ParseWff(us).value != []
  }

  /** A single token is never a formula with a token after it. */
  lemma LoneToken(t: Token)
    ensures !StartsFormula([t]) && !StartsFormulaAfterOpen([t])
  {
    assert ParseWff([t]).Some? ==> ParseWff([t]).value == [];
    var u := [LParen] + [t];
    assert u[2..] == [] && ParseWff(u[2..]).None?;
    assert ParseWff(u).None?;
  }

  /** No formula starts at a token other than a constant, a proposition or `(`. */
  lemma NoFormulaAhead(ts: seq<Token>)
    requires ts != [] && !ts[0].Const? && !ts[0].Prop? && !ts[0].LParen?
    ensures !StartsFormula(ts)
  {
    assert ParseWff(ts).None?;
  }

  /** Tokens that start a formula with `(` continue with an operator. */
  lemma AfterOpen(t0: seq<Token>, t1: seq<Token>)
    requires t0 == [LParen] + t1
    ensures StartsFormula(t0) ==>
              t1 != [] && (t1[0].UnaryOp? || t1[0].BinaryOp?) && StartsFormulaAfterOpen(t1)
  {
    if StartsFormula(t0) {
      assert ParseWff(t0).Some?;
      assert t0[1..] == t1;
    }
  }

  /** After `(` and an operator that start a formula, an operand starts next. */
  lemma OperandNext(t1: seq<Token>, t2: seq<Token>, op: Token)
    requires (op.UnaryOp? || op.BinaryOp?) && t1 == [op] + t2
    ensures StartsFormulaAfterOpen(t1) ==> StartsFormula(t2)
  {
    if StartsFormulaAfterOpen(t1) {
      assert ParseWff([LParen] + t1).Some?;
      assert ([LParen] + t1)[2..] == t2;
    }
  }

  /** After `(`, a binary operator and a first operand that start a formula, a second operand starts next. */
  lemma SecondOperandNext(t1: seq<Token>, t2: seq<Token>, t3: seq<Token>, op: Token, l: Wff)
    requires op.BinaryOp? && t1 == [op] + t2 && t2 == Render(l) + t3
    ensures StartsFormulaAfterOpen(t1) ==> StartsFormula(t3)
  {
    if StartsFormulaAfterOpen(t1) {
      assert ParseWff([LParen] + t1).Some?;
      assert ([LParen] + t1)[2..] == t2;
      ParseRender(l, t3);
    }
  }

  /** After `(`, a unary operator and its operand that start a formula, `)` and another token come next. */
  lemma UnaryCloseNext(t1: seq<Token>, t2: seq<Token>, t3: seq<Token>, op: Token, g: Wff)
    requires op.UnaryOp? && t1 == [op] + t2 && t2 == Render(g) + t3
    ensures StartsFormulaAfterOpen(t1) ==> |t3| > 1 && t3[0] == RParen
  {
    if StartsFormulaAfterOpen(t1) {
      assert ParseWff([LParen] + t1).Some?;
      assert ([LParen] + t1)[2..] == t2;
      ParseRender(g, t3);
    }
  }

  /** After `(`, a binary operator and both operands that start a formula, `)` and another token come next. */
  lemma BinaryCloseNext(t1: seq<Token>, t2: seq<Token>, t3: seq<Token>, t4: seq<Token>, op: Token, l: Wff, r: Wff)
    requires op.BinaryOp? && t1 == [op] + t2 && t2 == Render(l) + t3 && t3 == Render(r) + t4
    ensures StartsFormulaAfterOpen(t1) ==> |t4| > 1 && t4[0] == RParen
  {
    if StartsFormulaAfterOpen(t1) {
      assert ParseWff([LParen] + t1).Some?;
      assert ([LParen] + t1)[2..] == t2;
      ParseRender(l, t3);
      ParseRender(r, t4);
    }
  }

  /** The tokens consumed for `( UNOP F )` are its rendering. */
  lemma UnaryConsumed(op: Token, g: Wff, t1: seq<Token>, t2: seq<Token>, t3: seq<Token>, t4: seq<Token>)
    requires op.UnaryOp? && t1 == [op] + t2 && t2 == Render(g) + t3 && t3 == [RParen] + t4
    ensures [LParen] + t1 == Render(UnaryApp(op.spelling, g)) + t4
  {
    assert [LParen] + t1 == [LParen] + ([op] + (Render(g) + ([RParen] + t4)));
    assert [LParen] + ([op] + (Render(g) + ([RParen] + t4))) == ([LParen, op] + Render(g) + [RParen]) + t4;
  }

  /** The tokens consumed for `( BINOP F F )` are its rendering. */
  lemma BinaryConsumed(op: Token, l: Wff, r: Wff, t1: seq<Token>, t2: seq<Token>, t3: seq<Token>,
                       t4: seq<Token>, t5: seq<Token>)
    requires op.BinaryOp? && t1 == [op] + t2 && t2 == Render(l) + t3
    requires t3 == Render(r) + t4 && t4 == [RParen] + t5
    ensures [LParen] + t1 == Render(BinaryApp(op.spelling, l, r)) + t5
  {
    assert [LParen] + t1 == [LParen] + ([op] + (Render(l) + (Render(r) + ([RParen] + t5))));
    assert [LParen] + ([op] + (Render(l) + (Render(r) + ([RParen] + t5))))
        == ([LParen, op] + Render(l) + Render(r) + [RParen]) + t5;
  }

  /**
   * `ahead` and `failure` are the lookahead `t` followed by what the lexer
   * delivers from `p`: the tokens it reads and the error it stops on.
   */
  ghost predicate Follows(ahead: seq<Token>, failure: Option<Error>, t: Token, s: string, p: nat) {
    && (t == Eof ==> ahead == [Eof] && failure == None)
    && (t != Eof ==> forall q: nat :: q == p && q <= |s| ==>
                       ahead == [t] + ReadFrom(s, q).tokens && failure == ReadFrom(s, q).failure)
  }

  class Parser {
    const lexer: Lexer
    /** The lookahead token (`token_atual`). */
    var current: Token
    /** The tokens still to come: the lookahead, then all the lexer reads before it stops. */
    ghost var ahead: seq<Token>
    /** The lexical error the lexer stops on, or None when `ahead` ends with `Eof`. */
    ghost var failure: Option<Error>

    /** The parser invariant: the lookahead heads `ahead`, which is what the lexer delivers after it. */
    ghost predicate Valid()
      reads this, lexer
    {
      && lexer.Valid()
      && (current == Eof ==> lexer.pos == |lexer.text|)
      && Follows(ahead, failure, current, lexer.text, lexer.pos)
      && ahead != [] && ahead[0] == current
    }

    constructor (lexer: Lexer, first: Token)
      requires lexer.Valid() && (first == Eof ==> lexer.pos == |lexer.text|)
      ensures Valid() && this.lexer == lexer && current == first
      ensures first == Eof ==> ahead == [Eof] && failure == None
      ensures first != Eof ==>
                ahead == [first] + ReadFrom(lexer.text, lexer.pos).tokens
                && failure == ReadFrom(lexer.text, lexer.pos).failure
    {
      this.lexer := lexer;
      current := first;
      ahead := if first == Eof then [Eof] else [first] + ReadFrom(lexer.text, lexer.pos).tokens;
      failure := if first == Eof then None else ReadFrom(lexer.text, lexer.pos).failure;
    }

    /** Creating a parser reads the first token; a lexical error there is raised to the caller. */
    static method Open(lexer: Lexer) returns (r: Result<Parser, Error>)
      requires lexer.Valid()
      modifies lexer
      ensures r.Ok? ==> fresh(r.value) && r.value.lexer == lexer && r.value.Valid()
      ensures r.Ok? ==>
                r.value.ahead == old(ReadFrom(lexer.text, lexer.pos)).tokens
                && r.value.failure == old(ReadFrom(lexer.text, lexer.pos)).failure
      ensures r.Err? ==> old(ReadFrom(lexer.text, lexer.pos)) == Reading([], Some(r.error)) && r.error.IsLexical()
    {
      var t := lexer.NextToken();
      if t.Err? {
        return Err(t.error);
      }
      var parser := new Parser(lexer, t.value);
      return Ok(parser);
    }

    /**
     * Consumes the lookahead if it has the expected kind and reads the next
     * token; a wrong kind is a syntax error, a failing read a lexical one.
     */
    method Consume(expected: Kind) returns (r: Result<(), Error>)
      requires Valid()
      modifies this, lexer
      ensures lexer.Valid() && lexer.pos >= old(lexer.pos)
      ensures r.Ok? || !r.error.IsLexical() ==> Valid()
      ensures old(current).Kind() != expected ==>
                r == Err(Unexpected(expected, old(current).Kind())) && current == old(current) && unchanged(lexer)
      ensures old(current).Kind() == expected && r.Err? ==>
                old(ahead) == [old(current)] && old(failure) == Some(r.error) && r.error.IsLexical()
      ensures r.Ok? ==> old(current).Kind() == expected && failure == old(failure)
      ensures r.Ok? && old(current) != Eof ==> old(ahead) == [old(current)] + ahead
      ensures r.Ok? && current != Eof ==> lexer.pos > old(lexer.pos)
    {
      if current.Kind() == expected {
        ghost var rest := ReadFrom(lexer.text, lexer.pos);
        var t := lexer.NextToken();
        if t.Err? {
          return Err(t.error);
        }
        current := t.value;
        ahead := if current == Eof then [Eof] else [current] + ReadFrom(lexer.text, lexer.pos).tokens;
        failure := if current == Eof then None else ReadFrom(lexer.text, lexer.pos).failure;
        return Ok(());
      } else {
        return Err(Unexpected(expected, current.Kind()));
      }
    }

    /**
     * Parses one formula at the lookahead. Success consumes exactly the
     * rendering of a formula `f` (which is meaningful only then) and leaves
     * the lexer's failure as it was; whenever the tokens ahead start with a
     * formula and another token, parsing succeeds; a lexical error is the
     * one the lexer stops on.
     */
    method Formula() returns (r: Result<bool, Error>, ghost f: Wff)
      requires Valid()
      modifies this, lexer
      decreases |lexer.text| - lexer.pos, 0
      ensures lexer.Valid() && lexer.pos >= old(lexer.pos)
      ensures r.Ok? ==> Valid()
      ensures r == Ok(true) ==> old(ahead) == Render(f) + ahead && failure == old(failure)
      ensures StartsFormula(old(ahead)) ==> r == Ok(true)
      ensures r.Err? && r.error.IsLexical() ==> old(failure) == Some(r.error)
    {
      // A placeholder: `f` is meaningful only when the result is `Ok(true)`.
      f := Literal([]);
      if current.Const? {
        f := Literal(current.word);
        LoneToken(current);
        var c := Consume(Constant);
        if c.Err? {
          return Err(c.error), f;
        }
        return Ok(true), f;
      } else if current.Prop? {
        f := Atom(current.name);
        LoneToken(current);
        var c := Consume(Proposition);
        if c.Err? {
          return Err(c.error), f;
        }
        return Ok(true), f;
      } else if current.LParen? {
        ghost var t0 := ahead;
        LoneToken(LParen);
        var c := Consume(OpenParen);
        if c.Err? {
          return Err(c.error), f;
        }
        AfterOpen(t0, ahead);
        if current.UnaryOp? {
          r, f := UnaryTail();
        } else if current.BinaryOp? {
          r, f := BinaryTail();
        } else {
          r := Ok(false);
        }
        return;
      }
      NoFormulaAhead(ahead);
      return Ok(false), f;
    }

    /** After `(` with a unary operator as lookahead: the operator, one formula, then `)`. */
    method UnaryTail() returns (r: Result<bool, Error>, ghost f: Wff)
      requires Valid() && current.UnaryOp?
      modifies this, lexer
      decreases |lexer.text| - lexer.pos, 1
      ensures lexer.Valid() && lexer.pos >= old(lexer.pos)
      ensures r.Ok? ==> Valid()
      ensures r == Ok(true) ==>
                f.UnaryApp? && [LParen] + old(ahead) == Render(f) + ahead && failure == old(failure)
      ensures StartsFormulaAfterOpen(old(ahead)) ==> r == Ok(true)
      ensures r.Err? && r.error.IsLexical() ==> old(failure) == Some(r.error)
    {
      ghost var t1 := ahead;
      ghost var op := current;
      // A placeholder: `f` is meaningful only when the result is `Ok(true)`.
      f := Literal([]);
      LoneToken(op);
      var c := Consume(UnaryOperator);
      if c.Err? {
        return Err(c.error), f;
      }
      ghost var t2 := ahead;
      OperandNext(t1, t2, op);
      var sub;
      ghost var g;
      sub, g := Formula();
      if sub.Err? {
        return Err(sub.error), f;
      }
      if !sub.value {
        return Ok(false), f;
      }
      ghost var t3 := ahead;
      UnaryCloseNext(t1, t2, t3, op, g);
      c := Consume(CloseParen);
      if c.Err? {
        return Err(c.error), f;
      }
      UnaryConsumed(op, g, t1, t2, t3, ahead);
      return Ok(true), UnaryApp(op.spelling, g);
    }

    /** After `(` with a binary operator as lookahead: the operator, two formulas, then `)`. */
    method BinaryTail() returns (r: Result<bool, Error>, ghost f: Wff)
      requires Valid() && current.BinaryOp?
      modifies this, lexer
      decreases |lexer.text| - lexer.pos, 1
      ensures lexer.Valid() && lexer.pos >= old(lexer.pos)
      ensures r.Ok? ==> Valid()
      ensures r == Ok(true) ==>
                f.BinaryApp? && [LParen] + old(ahead) == Render(f) + ahead && failure == old(failure)
      ensures StartsFormulaAfterOpen(old(ahead)) ==> r == Ok(true)
      ensures r.Err? && r.error.IsLexical() ==> old(failure) == Some(r.error)
    {
      ghost var t1 := ahead;
      ghost var op := current;
      // A placeholder: `f` is meaningful only when the result is `Ok(true)`.
      f := Literal([]);
      LoneToken(op);
      var c := Consume(BinaryOperator);
      if c.Err? {
        return Err(c.error), f;
      }
      ghost var t2 := ahead;
      OperandNext(t1, t2, op);
      var left;
      ghost var l;
      left, l := Formula();
      if left.Err? {
        return Err(left.error), f;
      }
      if !left.value {
        return Ok(false), f;
      }
      ghost var t3 := ahead;
      SecondOperandNext(t1, t2, t3, op, l);
      var right;
      ghost var rt;
      right, rt := Formula();
      if right.Err? {
        return Err(right.error), f;
      }
      if !right.value {
        return Ok(false), f;
      }
      ghost var t4 := ahead;
      BinaryCloseNext(t1, t2, t3, t4, op, l, rt);
      c := Consume(CloseParen);
      if c.Err? {
        return Err(c.error), f;
      }
      BinaryConsumed(op, l, rt, t1, t2, t3, t4, ahead);
      return Ok(true), BinaryApp(op.spelling, l, rt);
    }

    /**
     * Parses one formula and demands `Eof` after it; any error is a rejection.
     * Accepted exactly when the lexer does not fail and its tokens are one
     * formula then `Eof`.
     */
    method Parse() returns (ok: bool)
      requires Valid()
      modifies this, lexer
      ensures ok <==> old(failure).None? && ParseWff(old(ahead)) == Some([Eof])
    {
      ghost var t0 := ahead;
      var res;
      ghost var f;
      res, f := Formula();
      assert ParseWff(t0) == Some([Eof]) ==> StartsFormula(t0);
      if res.Err? {
        return false;
      }
      if res.value {
        ParseRender(f, ahead);
      }
      if current != Eof {
        return false;
      }
      return res.value;
    }
  }

  /**
   * The validation entry point: a text is valid exactly when it tokenizes
   * without a lexical error into one formula of the grammar followed by `Eof`.
   */
  method ValidateExpression(s: string) returns (ok: bool)
    ensures ok == Verdict(s)
    ensures ok <==> exists f :: Tokenize(s) == Ok(Render(f) + [Eof])
  {
    var lexer := new Lexer(s);
    ReadFromStream(s, 0);
    var created := Parser.Open(lexer);
    if created.Err? {
      ok := false;
    } else {
      var parser := created.value;
      ok := parser.Parse();
    }
    VerdictMeaning(s);
  }
}
