# Prefix propositional formula validator, modelled in Dafny

The system decides whether a text is a well-formed propositional formula in
fully parenthesised prefix notation with LaTeX operator commands:

    F ::= true | false | PROP | ( \neg F ) | ( BINOP F F )
    BINOP ::= \wedge | \vee | \rightarrow | \leftrightarrow
    PROP  ::= a digit, then any digits and lower-case letters

It has two parts. The lexer is a cursor over the text; it skips whitespace
and classifies the next token, raising an error on an unknown command, an
unknown word or a stray character. The parser is an LL(1) recursive-descent
recogniser that keeps one lookahead token. `validar_expressao` answers
`False` for every lexical or syntax error.

The model has two layers.

- Pure reference definitions:
  - `Lexical.Scan` reads one token from a position and `Lexical.Tokenize`
    reads the token stream of a whole text; both are in `lexical.dfy`.
  - `Grammar.Render` is the token spelling of a formula tree (`Wff`), and so
    the reference definition of the language. `Grammar.ParseWff` is a pure
    recogniser proved equal to it in both directions. `Grammar.Verdict`
    composes the two. All three are in `grammar.dfy`.
  - `lexical_facts.dfy` holds what the lexer promises about each token kind.
    Its main result is a round trip: any whitespace layout of well-formed
    tokens lexes back to those tokens.
- Imperative classes that mirror the source:
  - `Scanner.Lexer` (`scanner.dfy`) has the fields `pos`, `current` and
    `mode`, and its loops accumulate the token spellings. `NextToken` and
    `ReadToken` are proved to return what `Scan` and `ScanAt` return and to
    leave the cursor where they say. The smaller methods are proved against
    the pieces those are built from: `Advance` against `pos + 1`,
    `SkipSpaces` against `Span`, and `ReadCommand`, `ReadProposition` and
    `ReadWord` against `Span`, `PropositionEnd`, `ClassifyCommand` and
    `ClassifyWord`.
  - `Recognizer.Parser` (`recognizer.dfy`) holds the lookahead. Two ghost
    fields stand for what is still to come. `ahead` is the lookahead followed
    by every token the lexer reads from its position before it stops
    (`Lexical.ReadFrom`). `failure` is the lexical error it stops on, if any.
    Lexing stays lazy: a lexical error later in the text does not hide the
    tokens in front of it, so the parser's promises about a formula hold
    even when the text goes wrong after it.
  - `Recognizer.ValidateExpression` is proved to return exactly `Verdict(s)`.
    It is therefore true exactly when `s` tokenizes into the rendering of a
    formula followed by `Eof`.

Exceptions become `Result` values (`results.dfy`) with a lexical/syntax
distinction (`Error.IsLexical`), and they collapse to `false` only in
`Parse` and `ValidateExpression`. `acceptance.dfy` proves the whole-text
consequences: blank texts are rejected, any legal spacing of a formula is
accepted, and a set of worked inputs come out as expected.

In `(\wedge 1 2) extra` the word `extra` is never a trailing token. Consuming
`)` reads the next token, and reading `extra` raises a lexical error
(main.py:79-81, 125). `Acceptance.TrailingWordRejected` proves that the token
stream is `Err(InvalidWord("extra"))`, so the text is rejected.

## Model

| member | source | states |
|---|---|---|
| Lexical.Span | main.py:34-36 | the maximal run of one class stays within the text and stops at a character outside the class or at the end |
| Lexical.PropositionEnd | main.py:58-66 | the end of a digit run followed by a digit-or-lower-case run lies within the text, at or after the start |
| Lexical.Scan | main.py:83-110 | the cursor never moves back or past the end; `Eof` only at the end of the text; every other token consumes at least one character; every error it reports is lexical |
| Lexical.ScanAt | main.py:89-108 | with no whitespace to skip, `Eof` is returned exactly when the position is the end of the text |
| Lexical.SpanEnds | main.py:34-36 | a run of one class that stops at a character outside the class, or at the end, ends where the maximal run does |
| Lexical.ScanSkipped | main.py:84-87 | once the whitespace is skipped, the scan from the original position is the scan from the new one |
| Lexical.ClassifyCommand | main.py:47-53 | an accepted command is an operator token with the accumulated spelling; otherwise the error carries the spelling |
| Lexical.ClassifyWord | main.py:78-81 | an accepted word is the constant with that word; otherwise the error carries the word |
| Lexical.TokensFrom | main.py:83-110 | repeated `get_next_token` from a position: a stream ending in `EOF`, or the first error, which is lexical |
| Lexical.Tokenize | main.py:118-125 | the tokens the parser pulls from a fresh lexer, first at creation and then at each `consumir`: the same from the start of the text |
| LexicalFacts.EofOnlyAtEnd | main.py:83-110 | `EOF` is returned if and only if only whitespace is left |
| LexicalFacts.SkipLeadingSpaces | main.py:84-87 | leading whitespace changes neither the next token nor the rest of the token stream |
| LexicalFacts.CommandScan | main.py:38-53 | the spelling is `\` plus the maximal run of letters after it, and the cursor stops after that run; it is a unary operator iff it is `\neg`, a binary operator iff it is one of the four binary spellings, an error otherwise (a bare `\` included) |
| LexicalFacts.WordScan | main.py:71-81 | a letter run not after `\` is entirely consumed; it is a constant iff it is `true` or `false`, and otherwise the error carries the word |
| LexicalFacts.PropositionScan | main.py:55-69 | a proposition is the maximal run of digits and lower-case letters from its first digit, exactly the characters consumed, and its name is non-empty, starts with a digit and has only digits and lower-case letters |
| LexicalFacts.ErrorProgress | main.py:89-108 | an error on a command or a word comes after its run is consumed; an invalid character is reported at the cursor without being consumed |
| LexicalFacts.ScanWellFormed | main.py:89-108 | a well-formed token's spelling, followed by a character the token does not absorb, is read back as that token and consumed exactly |
| LexicalFacts.TokensFromShape | main.py:83-110 | from any position the lexer reads well-formed tokens ending in exactly one `EOF`, or stops on a lexical error |
| LexicalFacts.TokenizeShape | main.py:83-110 | the same for a whole text |
| LexicalFacts.TokenizeLayout | main.py:83-110 | round trip: whitespace, then any readable layout of well-formed tokens, lexes back to exactly those tokens followed by `EOF` |
| Lexical.ReadFromStream | main.py:83-110 | what the lexer delivers before it stops agrees with the token stream: with no error it is the stream, with an error the stream is that error and no `EOF` was read |
| Grammar.Render | main.py:129-160 | every formula is spelled by at least one token, starting with a constant, a proposition or `(` |
| Grammar.ParseWff | main.py:129-160 | whenever a formula is recognised at least one token is consumed |
| Grammar.ParseRender | main.py:129-160 | completeness: the recogniser accepts the rendering of every formula, and consumes exactly it whatever follows |
| Grammar.ParseSound | main.py:129-160 | soundness: whatever the recogniser accepts is the rendering of a formula followed by what is left |
| Grammar.UniqueReading | main.py:129-160 | two formulas whose renderings start the same stream are the same formula and leave the same rest (prefix notation is unambiguous) |
| Grammar.RenderInjective | main.py:129-160 | distinct formulas have distinct renderings |
| Grammar.RecognizeMeaning | main.py:162-169 | one formula then `EOF` is recognised iff the tokens are the rendering of some formula followed by `EOF` |
| Grammar.VerdictMeaning | main.py:171-177 | a text is valid iff it tokenizes without error into the rendering of some formula followed by `EOF` |
| Scanner.Lexer.constructor | main.py:21-25 | the cursor is at 0, consistent with the text, in the initial mode |
| Scanner.Lexer.Valid | main.py:21-32 | the cursor invariant every lexer method keeps: `pos` is within the text and `current` is the character at `pos`, or none at the end |
| Scanner.Lexer.Advance | main.py:27-32 | moves the cursor by one and keeps `current` equal to the character at `pos`, or none at the end |
| Scanner.Lexer.SkipSpaces | main.py:34-36 | stops at the end of the maximal whitespace run |
| Scanner.Lexer.ReadCommand | main.py:38-53 | the accumulated spelling is `\` plus the maximal letter run, classified as unary, binary or error; mode ends initial |
| Scanner.Lexer.ReadProposition | main.py:55-69 | consumes the digit run, then the digit-or-lower-case run; the token's name is exactly the consumed text; mode ends initial |
| Scanner.Lexer.ReadWord | main.py:71-81 | consumes the maximal letter run and classifies it as a constant or an error; mode ends initial |
| Scanner.Lexer.NextToken | main.py:83-110 | result and new position are exactly `Scan` from the old position; the mode is initial after any result other than `EOF`, errors included, and untouched when only whitespace was left |
| Scanner.Lexer.ReadToken | main.py:89-108 | the dispatch on the first character other than whitespace agrees with `ScanAt` |
| Recognizer.Parser.Valid | main.py:116-127 | the parser invariant: the lexer is valid, an `EOF` lookahead means the text is used up, and the lookahead heads the tokens still to come |
| Recognizer.Parser.constructor | main.py:116-118 | a parser whose lookahead is the given token, followed by what the lexer reads from its position and the error it stops on |
| Recognizer.Parser.Open | main.py:116-118 | reading the first token: on success the parser sees every token the lexer reads from the start and the error it stops on; a failure is the lexical error at the very first token |
| Recognizer.Parser.Consume | main.py:120-127 | a wrong kind is a syntax error naming both kinds and changes nothing; otherwise the lookahead is dropped from the tokens still to come, and a failing read fails with the lexical error the lexer stops on, right after the lookahead |
| Recognizer.Parser.Formula | main.py:129-160 | on success the consumed tokens are the rendering of the formula returned; whenever the tokens still to come start with a formula and the lexer reads on past it, it succeeds, whatever lexical error lies later; a lexical error is the one the lexer stops on |
| Recognizer.Parser.UnaryTail | main.py:141-146 | after `(` and `\neg`: success consumes the rendering of a unary formula, and it succeeds whenever the tokens after `(` continue one and the lexer reads on past it |
| Recognizer.Parser.BinaryTail | main.py:148-155 | the same for a binary operator and two operands |
| Recognizer.Parser.Parse | main.py:162-169 | true iff the lexer stops without error and the tokens still to come are one formula followed by `EOF` |
| Recognizer.ValidateExpression | main.py:171-177 | the result is the reference verdict, i.e. true iff the text tokenizes into the rendering of some formula followed by `EOF` |
| Acceptance.BlankRejected | main.py:171-177 | empty and whitespace-only texts tokenize to `EOF` alone and are rejected |
| Acceptance.LayoutVerdict | main.py:171-177 | for a text laid out from tokens, the verdict is the recogniser's answer on those tokens |
| Acceptance.LayoutAccepted | main.py:171-177 | any spacing of a formula's tokens that keeps them apart is accepted |
| Acceptance.ConstantAccepted | main.py:130-132 | `true` is valid |
| Acceptance.PropositionTokens | main.py:55-69 | `12ab3` is one proposition token |
| Acceptance.PropositionAccepted | main.py:134-136 | `12ab3` is valid |
| Acceptance.NegationAccepted | main.py:141-146 | `(\neg true)` is valid |
| Acceptance.ConjunctionAccepted | main.py:148-155 | `(\wedge 1 2)` is valid |
| Acceptance.TrailingFormulaRejected | main.py:165-166 | `true true` is rejected because a token is left before `EOF` |
| Acceptance.BareParenthesisRejected | main.py:157-158 | `(true)` is rejected: `(` must be followed by an operator |
| Acceptance.MissingOperandRejected | main.py:148-155 | `(\vee true` is rejected |
| Acceptance.TrailingWordRejected | main.py:123-127 | `(\wedge 1 2) extra` fails on a lexical error when `)` is consumed, and is rejected |
| Acceptance.UnknownCommandRejected | main.py:48-53 | `\foo` is a lexical error carrying the spelling, and is rejected |
| Acceptance.LaterErrorReading | main.py:129-136 | on `true true $` the lexer's reading carried on to its end holds both constants and stops on `$`; those tokens start a formula, so the completeness promise of `Parser.Formula` applies, and the text is rejected |
| Acceptance.LaterErrorRun | main.py:129-132 | running the lexer, the parser's creation and `formula` on `true true $`: `formula` succeeds with the first constant and leaves the second as the lookahead, which is not `EOF`, so the check at main.py:165-166 rejects |

## Left out

- `main` (main.py:188-203) reads a file named on the command line, prints one verdict per line and exits. It is I/O and not modelled.
- `debug_lexer` (main.py:179-186) and `Token.__str__` (main.py:17-18) only print or format. They are not modelled.
- `get_estado_atual` (main.py:112-113) only returns the mode. It is the field `Scanner.Lexer.mode`, and `NextToken` states what that field holds afterwards.
- The message texts of the exceptions (main.py:53, 81, 108, 121, 127) are not modelled. Errors keep their kind and the offending fragment (`Lexical.Error`).
- Python's `isspace`, `isdigit`, `isalpha` and `islower` are Unicode predicates. The model uses their ASCII part only (`Lexical.IsSpace` and the others); non-ASCII digits, letters and whitespace are not covered.
- Python raises `RecursionError` on very deep nesting, and the `except` in `parse` (main.py:168-169) turns it into `False`. The model has unbounded recursion, so such inputs get the grammatical verdict.
- Scanner.Lexer.Advance: requires a current character. Every call site in the source advances only while `char_atual` is set, so the case of advancing at the end is never reached.
- `Parser.__init__` (main.py:116-118) reads the first token and may raise. It is split into `Recognizer.Parser.Open`, which reads the token and returns an error value, and the constructor, which builds the parser from a token already read.
- The two operator branches of `formula` (main.py:141-155) are the methods `UnaryTail` and `BinaryTail`. The dispatch of `get_next_token` (main.py:89-108) is the method `ReadToken`, and its whitespace loop stays in `NextToken`.
- Idempotence of validation needs no lemma: `ValidateExpression` returns the function `Verdict(s)` of its input, so two runs on one text agree.
