/**
 * What the lexer promises: progress, the shape of every token, whitespace
 * insensitivity, and a round trip between token sequences and their layouts.
 */
module LexicalFacts {
  import opened Results
  import opened Lexical

  /** A token the lexer can produce other than `Eof`. */
  predicate WellFormed(t: Token) {
    match t
    case UnaryOp(c) => c == "\\neg"
    case BinaryOp(c) => c in BinarySpellings
    case Prop(n) => |n| > 0 && IsDigit(n[0]) && forall j :: 0 <= j < |n| ==> InClass(n[j], DigitOrLower)
    case Const(w) => w == "true" || w == "false"
    case LParen => true
    case RParen => true
    case Eof => false
  }

  /** The characters that spell a token. */
  function Text(t: Token): string {
    match t
    case UnaryOp(c) => c
    case BinaryOp(c) => c
    case Prop(n) => n
    case Const(w) => w
    case LParen => "("
    case RParen => ")"
    case Eof => ""
  }

  /** A character that would be absorbed into the token if written right after it. */
  predicate Glues(t: Token, c: char) {
    match t
    case UnaryOp(_) => IsLetter(c)
    case BinaryOp(_) => IsLetter(c)
    case Const(_) => IsLetter(c)
    case Prop(_) => InClass(c, DigitOrLower)
    case _ => false
  }

  predicate Blank(w: string) {
    forall j :: 0 <= j < |w| ==> IsSpace(w[j])
  }

  /** Command spellings consist of a backslash followed by letters. */
  lemma CommandLetters(c: string)
    requires c == "\\neg" || c in BinarySpellings
    ensures |c| > 1 && c[0] == '\\' && forall j :: 1 <= j < |c| ==> IsLetter(c[j])
  {
    if c == "\\neg" {
    } else if c == "\\wedge" {
    } else if c == "\\vee" {
    } else if c == "\\rightarrow" {
    } else {
      assert c == "\\leftrightarrow";
    }
  }

  /** `Eof` is returned exactly when only whitespace is left. */
  lemma EofOnlyAtEnd(s: string, p: nat)
    requires p <= |s|
    ensures Scan(s, p).result == Ok(Eof) <==> forall j :: p <= j < |s| ==> IsSpace(s[j])
  {
    SpanRun(s, p, Space);
  }

  /** Leading whitespace changes neither the next token nor the rest of the stream. */
  lemma SkipLeadingSpaces(s: string, p: nat, q: nat)
    requires p <= q <= |s|
    requires forall j :: p <= j < q ==> IsSpace(s[j])
    ensures Scan(s, p) == Scan(s, q)
    ensures TokensFrom(s, p) == TokensFrom(s, q)
  {
    SpanSkip(s, p, q, Space);
  }

  /**
   * A backslash starts a command spelled by it and the letters after it; that
   * spelling is a unary operator iff it is `\neg`, a binary operator iff it is
   * one of the four binary spellings, and a lexical error otherwise.
   */
  lemma CommandScan(s: string, p: nat)
    requires p <= |s|
    requires Span(s, p, Space) < |s| && s[Span(s, p, Space)] == '\\'
    ensures var i := Span(s, p, Space);
            var e := Span(s, i + 1, Letter);
            var c := s[i..e];
            && Scan(s, p).next == e
            && c[0] == '\\' && (forall j :: 1 <= j < |c| ==> IsLetter(c[j]))
            && (Scan(s, p).result == Ok(UnaryOp(c)) <==> c == "\\neg")
            && (Scan(s, p).result == Ok(BinaryOp(c)) <==> c in BinarySpellings)
            && (Scan(s, p).result.Err? <==> c != "\\neg" && c !in BinarySpellings)
  {
    SpanRun(s, Span(s, p, Space) + 1, Letter);
  }

  /**
   * A lexical error on a command or a word comes after its run has been
   * consumed; an invalid character is reported without being consumed.
   */
  lemma ErrorProgress(s: string, p: nat)
    requires p <= |s|
    ensures var i := Span(s, p, Space);
            var st := Scan(s, p);
            && (st.result.Err? && st.result.error.InvalidChar? ==>
                  i < |s| && st.next == i && st.result.error.c == s[i])
            && (st.result.Err? && !st.result.error.InvalidChar? ==> i < st.next)
  {
  }

  /** An alphabetic run not after a backslash is a constant only when it is `true` or `false`. */
  lemma WordScan(s: string, p: nat)
    requires p <= |s|
    requires Span(s, p, Space) < |s| && IsLetter(s[Span(s, p, Space)])
    ensures var i := Span(s, p, Space);
            var e := Span(s, i, Letter);
            var w := s[i..e];
            && Scan(s, p).next == e
            && (Scan(s, p).result.Ok? <==> w == "true" || w == "false")
            && (Scan(s, p).result.Ok? ==> Scan(s, p).result.value == Const(w))
            && (Scan(s, p).result.Err? ==> Scan(s, p).result.error == InvalidWord(w))
  {
  }

  /**
   * A digit starts a proposition: the maximal run of digits and lower-case
   * letters from there, which is exactly what is consumed.
   */
  lemma PropositionScan(s: string, p: nat)
    requires p <= |s|
    requires Span(s, p, Space) < |s| && IsDigit(s[Span(s, p, Space)])
    ensures var i := Span(s, p, Space);
            var e := Span(s, i, DigitOrLower);
            && Scan(s, p) == Step(Ok(Prop(s[i..e])), e)
            && WellFormed(Prop(s[i..e]))
  {
    var i := Span(s, p, Space);
    var d := Span(s, i, Digit);
    var e := PropositionEnd(s, i);
    SpanRun(s, i, Digit);
    SpanRun(s, d, DigitOrLower);
    assert forall j :: i <= j < d ==> InClass(s[j], DigitOrLower);
    SpanSkip(s, i, d, DigitOrLower);
  }

  /** A well-formed token followed by a character it does not absorb is scanned back as itself. */
  lemma ScanWellFormed(u: string, p: nat, t: Token)
    requires WellFormed(t)
    requires p + |Text(t)| <= |u| && u[p..p + |Text(t)|] == Text(t)
    requires p + |Text(t)| == |u| || !Glues(t, u[p + |Text(t)|])
    ensures Scan(u, p) == Step(Ok(t), p + |Text(t)|)
  {
    assert u[p] == Text(t)[0];
    match t
    case LParen =>
    case RParen =>
    case UnaryOp(c) => ScanCommandToken(u, p, c);
    case BinaryOp(c) => ScanCommandToken(u, p, c);
    case Const(w) => ScanWordToken(u, p, w);
    case Prop(n) => ScanPropToken(u, p, n);
  }

  lemma ScanCommandToken(u: string, p: nat, c: string)
    requires c == "\\neg" || c in BinarySpellings
    requires p + |c| <= |u| && u[p..p + |c|] == c
    requires p + |c| == |u| || !IsLetter(u[p + |c|])
    ensures Scan(u, p) == Step(ClassifyCommand(c), p + |c|)
  {
    CommandLetters(c);
    CopiedLetters(u, p, c, 1);
    SpanEnds(u, p + 1, p + |c|, Letter);
    assert u[p] == '\\';
  }

  lemma ScanWordToken(u: string, p: nat, w: string)
    requires w == "true" || w == "false"
    requires p + |w| <= |u| && u[p..p + |w|] == w
    requires p + |w| == |u| || !IsLetter(u[p + |w|])
    ensures Scan(u, p) == Step(Ok(Const(w)), p + |w|)
  {
    assert forall j :: 0 <= j < |w| ==> IsLetter(w[j]);
    CopiedLetters(u, p, w, 0);
    SpanEnds(u, p, p + |w|, Letter);
    assert IsLetter(u[p]) && !IsDigit(u[p]);
  }

  lemma ScanPropToken(u: string, p: nat, n: string)
    requires WellFormed(Prop(n))
    requires p + |n| <= |u| && u[p..p + |n|] == n
    requires p + |n| == |u| || !InClass(u[p + |n|], DigitOrLower)
    ensures Scan(u, p) == Step(Ok(Prop(n)), p + |n|)
  {
    var q := p + |n|;
    assert u[p] == n[0];
    PropositionScan(u, p);
    forall j | p <= j < q ensures InClass(u[j], DigitOrLower) {
      assert u[j] == n[j - p];
    }
    SpanEnds(u, p, q, DigitOrLower);
  }

  lemma CopiedLetters(u: string, p: nat, c: string, k: nat)
    requires p + |c| <= |u| && u[p..p + |c|] == c
    requires forall j :: k <= j < |c| ==> IsLetter(c[j])
    ensures forall j :: p + k <= j < p + |c| ==> IsLetter(u[j])
  {
    forall j | p + k <= j < p + |c| ensures IsLetter(u[j]) {
      assert u[j] == c[j - p];
    }
  }

  /**
   * The tokens read from `p` are well-formed and followed by exactly one
   * `Eof`, unless a lexical error comes first.
   */
  lemma {:induction false} TokensFromShape(s: string, p: nat)
    requires p <= |s|
    ensures TokensFrom(s, p).Err? ==> TokensFrom(s, p).error.IsLexical()
    ensures TokensFrom(s, p).Ok? ==>
              var ts := TokensFrom(s, p).value;
              |ts| > 0 && ts[|ts| - 1] == Eof && forall k :: 0 <= k < |ts| - 1 ==> WellFormed(ts[k])
    decreases |s| - p
  {
    var st := Scan(s, p);
    var i := Span(s, p, Space);
    if st.result.Ok? && st.result.value != Eof {
      TokensFromShape(s, st.next);
      var t := st.result.value;
      assert WellFormed(t) by {
        if s[i] == '\\' {
          CommandScan(s, p);
        } else if IsDigit(s[i]) {
          PropositionScan(s, p);
        } else if IsLetter(s[i]) {
          WordScan(s, p);
        }
      }
    }
  }

  /** Every text lexes into well-formed tokens ending in `Eof`, or into a lexical error. */
  lemma TokenizeShape(s: string)
    ensures Tokenize(s).Err? ==> Tokenize(s).error.IsLexical()
    ensures Tokenize(s).Ok? ==>
              var ts := Tokenize(s).value;
              |ts| > 0 && ts[|ts| - 1] == Eof && forall k :: 0 <= k < |ts| - 1 ==> WellFormed(ts[k])
  {
    TokensFromShape(s, 0);
  }

  /** Writes tokens out, each followed by its own run of whitespace. */
  function Layout(ts: seq<Token>, gaps: seq<string>): string
    requires |gaps| == |ts|
  {
    if ts == [] then "" else Text(ts[0]) + gaps[0] + Layout(ts[1..], gaps[1..])
  }

  /**
   * A layout the lexer reads back: gaps are whitespace, and a token is
   * directly followed by the next only when the latter's first character
   * does not glue to it.
   */
  predicate Readable(ts: seq<Token>, gaps: seq<string>)
    decreases |ts|
  {
    && |gaps| == |ts|
    && (ts != [] ==>
          && WellFormed(ts[0]) && Blank(gaps[0])
          && (|ts| > 1 && gaps[0] == [] && Text(ts[1]) != [] ==> !Glues(ts[0], Text(ts[1])[0]))
          && Readable(ts[1..], gaps[1..]))
  }

  /** A token other than `Eof` then whitespace: the stream after both follows the token. */
  lemma ScanThenSkip(u: string, p: nat, q: nat, r: nat, t: Token)
    requires p <= q <= r <= |u| && Scan(u, p) == Step(Ok(t), q) && t != Eof
    requires forall j :: q <= j < r ==> IsSpace(u[j])
    ensures TokensFrom(u, p) == Prepend([t], TokensFrom(u, r))
  {
    assert TokensFrom(u, p) == Prepend([t], TokensFrom(u, q));
    SkipLeadingSpaces(u, q, r);
  }

  lemma CopiedBlank(u: string, q: nat, g: string)
    requires Blank(g) && q + |g| <= |u| && u[q..q + |g|] == g
    ensures forall j :: q <= j < q + |g| ==> IsSpace(u[j])
  {
    forall j | q <= j < q + |g| ensures IsSpace(u[j]) {
      assert u[j] == g[j - q];
    }
  }

  /** A well-formed token, then whitespace: the token is read back. */
  lemma ScanBeforeGap(u: string, p: nat, t: Token, g: string)
    requires WellFormed(t) && Blank(g)
    requires p + |Text(t)| + |g| <= |u|
    requires u[p..p + |Text(t)|] == Text(t) && u[p + |Text(t)|..p + |Text(t)| + |g|] == g
    requires g != [] || p + |Text(t)| == |u| || !Glues(t, u[p + |Text(t)|])
    ensures Scan(u, p) == Step(Ok(t), p + |Text(t)|)
    ensures forall j :: p + |Text(t)| <= j < p + |Text(t)| + |g| ==> IsSpace(u[j])
  {
    var q := p + |Text(t)|;
    CopiedBlank(u, q, g);
    if g != [] {
      assert IsSpace(u[q]);
    }
    ScanWellFormed(u, p, t);
  }

  lemma SplitThree(u: string, p: nat, q: nat, r: nat, a: string, b: string, c: string)
    requires p <= |u| && u[p..] == a + (b + c) && q == p + |a| && r == q + |b|
    ensures r <= |u| && u[p..q] == a && u[q..r] == b && u[r..] == c
  {
    assert u[p..q] == (a + (b + c))[..|a|];
    assert u[q..] == b + c;
  }

  /** Two tokens written with no gap between them do not glue in a readable layout. */
  lemma LayoutNoGlue(u: string, q: nat, ts: seq<Token>, gaps: seq<string>)
    requires Readable(ts, gaps) && |ts| > 1 && gaps[0] == []
    requires q < |u| && u[q..] == Layout(ts[1..], gaps[1..])
    ensures !Glues(ts[0], u[q])
  {
    var next := ts[1..];
    assert WellFormed(next[0]) && next[0] == ts[1];
    TextNonEmpty(next[0]);
    LayoutFirstChar(next, gaps[1..]);
    assert u[q] == u[q..][0];
  }

  lemma TextNonEmpty(t: Token)
    requires WellFormed(t)
    ensures Text(t) != []
  {
    if t.UnaryOp? || t.BinaryOp? {
      CommandLetters(t.spelling);
    }
  }

  /** A layout starts with the first character of its first token. */
  lemma LayoutFirstChar(ts: seq<Token>, gaps: seq<string>)
    requires |gaps| == |ts| && ts != [] && Text(ts[0]) != []
    ensures Layout(ts, gaps) != [] && Layout(ts, gaps)[0] == Text(ts[0])[0]
  {
  }

  /** How a readable layout splits into its first token, that token's gap, and the rest. */
  lemma LayoutHead(u: string, p: nat, ts: seq<Token>, gaps: seq<string>) returns (q: nat, p': nat)
    requires Readable(ts, gaps) && ts != []
    requires p <= |u| && u[p..] == Layout(ts, gaps)
    ensures q == p + |Text(ts[0])| && p' == q + |gaps[0]| && p' <= |u|
    ensures u[p..q] == Text(ts[0]) && u[q..p'] == gaps[0] && u[p'..] == Layout(ts[1..], gaps[1..])
    ensures gaps[0] != [] || q == |u| || !Glues(ts[0], u[q])
    ensures WellFormed(ts[0]) && Blank(gaps[0]) && Readable(ts[1..], gaps[1..])
  {
    var rest := Layout(ts[1..], gaps[1..]);
    q := p + |Text(ts[0])|;
    p' := q + |gaps[0]|;
    SplitThree(u, p, q, p', Text(ts[0]), gaps[0], rest);
    if gaps[0] == [] && q < |u| {
      assert |ts| > 1;
      LayoutNoGlue(u, q, ts, gaps);
    }
  }

  /** A well-formed token, then whitespace: the stream reads the token and skips the gap. */
  lemma TokenThenGap(u: string, p: nat, q: nat, p': nat, t: Token, g: string, rest: seq<Token>)
    requires WellFormed(t) && Blank(g)
    requires q == p + |Text(t)| && p' == q + |g| && p' <= |u|
    requires u[p..q] == Text(t) && u[q..p'] == g
    requires g != [] || q == |u| || !Glues(t, u[q])
    ensures TokensFrom(u, p) == Prepend([t], TokensFrom(u, p'))
    ensures ReadsAt(u, p', rest) ==> ReadsAt(u, p, [t] + rest)
  {
    ScanBeforeGap(u, p, t, g);
    ScanThenSkip(u, p, q, p', t);
  }

  /**
   * The stream from `p` is `ts`. Stated through a bound position so that the
   * stream is only unfolded where a proof names it.
   */
  ghost predicate ReadsAt(u: string, p: nat, ts: seq<Token>) {
    forall q: nat :: q == p && q <= |u| ==> TokensFrom(u, q) == Ok(ts)
  }

  lemma {:induction false} LayoutFrom(u: string, p: nat, ts: seq<Token>, gaps: seq<string>)
    requires Readable(ts, gaps)
    requires p <= |u| && u[p..] == Layout(ts, gaps)
    ensures ReadsAt(u, p, ts + [Eof])
    decreases |ts|
  {
    if ts == [] {
      assert ts + [Eof] == [Eof];
      AtEnd(u, p);
    } else {
      var q, p' := LayoutHead(u, p, ts, gaps);
      TokenThenGap(u, p, q, p', ts[0], gaps[0], ts[1..] + [Eof]);
      LayoutFrom(u, p', ts[1..], gaps[1..]);
      ConsReads(u, p, ts);
    }
  }

  /** The stream written as its first token and the rest is the same stream. */
  lemma ConsReads(u: string, p: nat, ts: seq<Token>)
    requires ts != []
    ensures ReadsAt(u, p, [ts[0]] + (ts[1..] + [Eof])) ==> ReadsAt(u, p, ts + [Eof])
  {
    assert [ts[0]] + (ts[1..] + [Eof]) == ts + [Eof];
  }

  /** Nothing left to read: the stream is `Eof` alone. */
  lemma AtEnd(u: string, p: nat)
    requires p <= |u| && u[p..] == []
    ensures ReadsAt(u, p, [Eof])
  {
    assert Scan(u, p) == Step(Ok(Eof), p);
  }

  /** Round trip: a readable layout, after any leading whitespace, lexes back to its tokens. */
  lemma TokenizeLayout(lead: string, ts: seq<Token>, gaps: seq<string>)
    requires Blank(lead) && Readable(ts, gaps)
    ensures Tokenize(lead + Layout(ts, gaps)) == Ok(ts + [Eof])
  {
    var u := lead + Layout(ts, gaps);
    assert forall j :: 0 <= j < |lead| ==> IsSpace(u[j]);
    SkipLeadingSpaces(u, 0, |lead|);
    assert u[|lead|..] == Layout(ts, gaps);
    LayoutFrom(u, |lead|, ts, gaps);
    assert TokensFrom(u, |lead|) == Ok(ts + [Eof]);
  }
}
