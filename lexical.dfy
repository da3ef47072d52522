/**
 * The lexical layer of the validator as pure functions: character classes,
 * tokens, the scan of one token from a position, and the token stream of a
 * whole text. The `Lexer` class in module Scanner is proved against these.
 */
module Lexical {
  import opened Results

  /** The token kinds the parser asks for, one per `tipo` string of the source. */
  datatype Kind =
    | UnaryOperator | BinaryOperator | Proposition | Constant
    | OpenParen | CloseParen | EndOfInput

  /** A token: operators, propositions and constants carry their spelling. */
  datatype Token =
    | UnaryOp(spelling: string)
    | BinaryOp(spelling: string)
    | Prop(name: string)
    | Const(word: string)
    | LParen
    | RParen
    | Eof
  {
    function Kind(): Kind {
      match this
      case UnaryOp(_) => UnaryOperator
      case BinaryOp(_) => BinaryOperator
      case Prop(_) => Proposition
      case Const(_) => Constant
      case LParen => OpenParen
      case RParen => CloseParen
      case Eof => EndOfInput
    }
  }

  /** Lexical errors keep the offending fragment; syntax errors the two kinds involved. */
  datatype Error =
    | InvalidCommand(command: string)
    | InvalidWord(word: string)
    | InvalidChar(c: char)
    | Unexpected(expected: Kind, found: Kind)
  {
    predicate IsLexical() { !Unexpected? }
  }

  /** The diagnostic lexical mode (`estado`). */
  datatype Mode = Initial | ReadingNumber | ReadingProposition | ReadingCommand | ReadingWord

  /*
   * Character classes. Python's `isspace`, `isdigit`, `isalpha` and `islower`
   * are modelled on ASCII only. Python counts 9..13 and 28..32 as whitespace
   * in that range.
   */
  predicate IsSpace(c: char) { 9 <= c as int <= 13 || 28 <= c as int <= 32 }
  predicate IsDigit(c: char) { '0' <= c <= '9' }
  predicate IsLower(c: char) { 'a' <= c <= 'z' }
  predicate IsLetter(c: char) { IsLower(c) || 'A' <= c <= 'Z' }

  /** The classes whose maximal runs the lexer consumes. */
  datatype CharClass = Space | Letter | Digit | DigitOrLower

  predicate InClass(c: char, k: CharClass) {
    match k
    case Space => IsSpace(c)
    case Letter => IsLetter(c)
    case Digit => IsDigit(c)
    case DigitOrLower => IsDigit(c) || IsLower(c)
  }

  /** The end of the maximal run of class `k` that starts at `p`. */
  function Span(s: string, p: nat, k: CharClass): (e: nat)
    requires p <= |s|
    ensures p <= e <= |s|
    ensures e < |s| ==> !InClass(s[e], k)
    decreases |s| - p
  {
    if p < |s| && InClass(s[p], k) then Span(s, p + 1, k) else p
  }

  /** Every character of the run belongs to its class. */
  lemma {:induction false} SpanRun(s: string, p: nat, k: CharClass)
    requires p <= |s|
    ensures forall j :: p <= j < Span(s, p, k) ==> InClass(s[j], k)
    decreases |s| - p
  {
    if p < |s| && InClass(s[p], k) {
      SpanRun(s, p + 1, k);
    }
  }

  /** Any maximal run of class `k` from `p` ends where `Span` says. */
  lemma {:induction false} SpanEnds(s: string, p: nat, e: nat, k: CharClass)
    requires p <= e <= |s|
    requires forall j :: p <= j < e ==> InClass(s[j], k)
    requires e < |s| ==> !InClass(s[e], k)
    ensures Span(s, p, k) == e
    decreases e - p
  {
    if p < e {
      SpanEnds(s, p + 1, e, k);
    }
  }

  /** A run of class `k` from `p` to `q` does not change where the run ends. */
  lemma SpanSkip(s: string, p: nat, q: nat, k: CharClass)
    requires p <= q <= |s|
    requires forall j :: p <= j < q ==> InClass(s[j], k)
    ensures Span(s, p, k) == Span(s, q, k)
  {
    SpanRun(s, q, k);
    SpanEnds(s, p, Span(s, q, k), k);
  }

  /** The four accepted binary-operator spellings. */
  const BinarySpellings: set<string> := {"\\wedge", "\\vee", "\\rightarrow", "\\leftrightarrow"}

  /** The token for an accumulated command spelling, or the lexical error. */
  function ClassifyCommand(command: string): (r: Result<Token, Error>)
    ensures r.Ok? ==> (r.value.UnaryOp? || r.value.BinaryOp?) && r.value.spelling == command
    ensures r.Err? ==> r.error == InvalidCommand(command)
  {
    if command == "\\neg" then Ok(UnaryOp(command))
    else if command in BinarySpellings then Ok(BinaryOp(command))
    else Err(InvalidCommand(command))
  }

  /** The token for an alphabetic word, or the lexical error. */
  function ClassifyWord(word: string): (r: Result<Token, Error>)
    ensures r.Ok? ==> r.value == Const(word)
    ensures r.Err? ==> r.error == InvalidWord(word)
  {
    if word == "true" || word == "false" then Ok(Const(word)) else Err(InvalidWord(word))
  }

  /** One call of the lexer: what it returns and where its cursor stops. */
  datatype Step = Step(result: Result<Token, Error>, next: nat)

  /** The end of a proposition: a digit run, then a run of digits or lower-case letters. */
  function PropositionEnd(s: string, p: nat): (e: nat)
    requires p <= |s|
    ensures p <= e <= |s|
  {
    Span(s, Span(s, p, Digit), DigitOrLower)
  }

  /** The token read from position `p` and the position after it. */
  function Scan(s: string, p: nat): (st: Step)
    requires p <= |s|
    ensures p <= st.next <= |s|
    ensures st.result == Ok(Eof) ==> st.next == |s|
    ensures st.result.Ok? && st.result.value != Eof ==> p < st.next
    ensures st.result.Err? ==> st.result.error.IsLexical()
  {
    ScanAt(s, Span(s, p, Space))
  }

  /** Once the whitespace from `p` is skipped, scanning from `p` is scanning from there. */
  lemma ScanSkipped(s: string, p: nat, i: nat)
    requires p <= i <= |s| && Span(s, i, Space) == Span(s, p, Space)
    requires i == |s| || !IsSpace(s[i])
    ensures Scan(s, p) == ScanAt(s, i)
  {
  }

  /** The token that starts at `i`, where there is no whitespace to skip. */
  function ScanAt(s: string, i: nat): (st: Step)
    requires i <= |s|
    ensures i <= st.next <= |s|
    ensures st.result == Ok(Eof) <==> i == |s|
  {
    if i == |s| then Step(Ok(Eof), i)
    else if s[i] == '(' then Step(Ok(LParen), i + 1)
    else if s[i] == ')' then Step(Ok(RParen), i + 1)
    else if s[i] == '\\' then
      var j := Span(s, i + 1, Letter);
      Step(ClassifyCommand(s[i..j]), j)
    else if IsDigit(s[i]) then
      var j := PropositionEnd(s, i);
      Step(Ok(Prop(s[i..j])), j)
    else if IsLetter(s[i]) then
      var j := Span(s, i, Letter);
      Step(ClassifyWord(s[i..j]), j)
    else Step(Err(InvalidChar(s[i])), i)
  }

  /** Puts tokens in front of a stream; an erroneous stream stays erroneous. */
  function Prepend(ts: seq<Token>, rest: Result<seq<Token>, Error>): Result<seq<Token>, Error> {
    match rest
    case Ok(us) => Ok(ts + us)
    case Err(e) => Err(e)
  }

  /**
   * The tokens read from position `p` up to and including `Eof`, or the first
   * lexical error on the way.
   */
  function TokensFrom(s: string, p: nat): (r: Result<seq<Token>, Error>)
    requires p <= |s|
    ensures r.Ok? ==> r.value != [] && r.value[|r.value| - 1] == Eof
    ensures r.Err? ==> r.error.IsLexical()
    decreases |s| - p
  {
    var st := Scan(s, p);
    match st.result
    case Err(e) => Err(e)
    case Ok(t) => if t == Eof then Ok([Eof]) else Prepend([t], TokensFrom(s, st.next))
  }

  /** The whole token stream of a text. */
  function Tokenize(s: string): (r: Result<seq<Token>, Error>)
    ensures r.Ok? ==> r.value != [] && r.value[|r.value| - 1] == Eof
    ensures r.Err? ==> r.error.IsLexical()
  {
    TokensFrom(s, 0)
  }

  /**
   * What the lexer delivers from a position before it stops: the tokens read
   * successfully, and the lexical error it stops on, if any. Unlike
   * `TokensFrom`, the tokens in front of an error are kept.
   */
  datatype Reading = Reading(tokens: seq<Token>, failure: Option<Error>)

  function ReadFrom(s: string, p: nat): Reading
    requires p <= |s|
    decreases |s| - p
  {
    var st := Scan(s, p);
    match st.result
    case Err(e) => Reading([], Some(e))
    case Ok(t) =>
      if t == Eof then Reading([Eof], None)
      else
        var rest := ReadFrom(s, st.next);
        Reading([t] + rest.tokens, rest.failure)
  }

  /**
   * The token stream from `p` is the reading when the lexer does not fail,
   * and the reading's error when it does; a failing reading holds no `Eof`.
   */
  lemma {:induction false} ReadFromStream(s: string, p: nat)
    requires p <= |s|
    ensures ReadFrom(s, p).failure.None? ==> TokensFrom(s, p) == Ok(ReadFrom(s, p).tokens)
    ensures ReadFrom(s, p).failure.Some? ==> TokensFrom(s, p) == Err(ReadFrom(s, p).failure.value)
    ensures ReadFrom(s, p).failure.Some? ==> Eof !in ReadFrom(s, p).tokens
    decreases |s| - p
  {
    var st := Scan(s, p);
    if st.result.Ok? && st.result.value != Eof {
      ReadFromStream(s, st.next);
    }
  }
}
