/**
 * The lexer as the source has it: a cursor over the text whose methods move
 * `pos`, keep `current` (the character at `pos`) in step, and set the
 * diagnostic `mode`. Each method is proved to do what the pure functions of
 * module Lexical say.
 */
module Scanner {
  import opened Results
  import opened Lexical

  class Lexer {
    const text: string
    var pos: nat
    /** The character at `pos`, or None at the end of the text. */
    var current: Option<char>
    /** The diagnostic lexical mode; reading it is all `get_estado_atual` does. */
    var mode: Mode

    /** The cursor invariant: `pos` is within the text and `current` agrees with it. */
    ghost predicate Valid()
      reads this
    {
      && pos <= |text|
      && current == (if pos < |text| then Some(text[pos]) else None)
    }

    constructor (text: string)
      ensures Valid()
      ensures this.text == text && pos == 0 && mode == Initial
    {
      this.text := text;
      pos := 0;
      current := if text != [] then Some(text[0]) else None;
      mode := Initial;
    }

    /** Moves the cursor one character on; callers only do so before the end. */
    method Advance()
      requires Valid() && current.Some?
      modifies this`pos, this`current
      ensures Valid() && pos == old(pos) + 1
    {
      pos := pos + 1;
      if pos >= |text| {
        current := None;
      } else {
        current := Some(text[pos]);
      }
    }

    /** Skips the maximal run of whitespace at the cursor. */
    method SkipSpaces()
      requires Valid()
      modifies this`pos, this`current
      ensures Valid() && pos == Span(text, old(pos), Space)
    {
      while current.Some? && IsSpace(current.value)
        invariant Valid() && old(pos) <= pos
        invariant forall j :: old(pos) <= j < pos ==> IsSpace(text[j])
        decreases |text| - pos
      {
        Advance();
      }
      SpanEnds(text, old(pos), pos, Space);
    }

    /**
     * Reads a command: the backslash at the cursor and the letters after it;
     * the spelling decides the operator or the lexical error.
     */
    method ReadCommand() returns (r: Result<Token, Error>)
      requires Valid() && current.Some?
      modifies this`pos, this`current, this`mode
      ensures Valid() && mode == Initial
      ensures pos == Span(text, old(pos) + 1, Letter)
      ensures r == ClassifyCommand(['\\'] + text[old(pos) + 1..pos])
    {
      mode := ReadingCommand;
      var command := "\\";
      Advance();
      while current.Some? && IsLetter(current.value)
        invariant Valid() && old(pos) < pos
        invariant forall j :: old(pos) + 1 <= j < pos ==> IsLetter(text[j])
        invariant command == ['\\'] + text[old(pos) + 1..pos]
        decreases |text| - pos
      {
        assert text[old(pos) + 1..pos + 1] == text[old(pos) + 1..pos] + [text[pos]];
        command := command + [current.value];
        Advance();
      }
      SpanEnds(text, old(pos) + 1, pos, Letter);
      mode := Initial;
      r := ClassifyCommand(command);
    }

    /** Reads a proposition: a run of digits, then a run of digits and lower-case letters. */
    method ReadProposition() returns (t: Token)
      requires Valid()
      modifies this`pos, this`current, this`mode
      ensures Valid() && mode == Initial
      ensures pos == PropositionEnd(text, old(pos))
      ensures t == Prop(text[old(pos)..pos])
    {
      mode := ReadingNumber;
      var number := "";
      while current.Some? && IsDigit(current.value)
        invariant Valid() && old(pos) <= pos
        invariant forall j :: old(pos) <= j < pos ==> IsDigit(text[j])
        invariant number == text[old(pos)..pos]
        decreases |text| - pos
      {
        assert text[old(pos)..pos + 1] == text[old(pos)..pos] + [text[pos]];
        number := number + [current.value];
        Advance();
      }
      ghost var digitsEnd := pos;
      SpanEnds(text, old(pos), digitsEnd, Digit);
      mode := ReadingProposition;
      var identifier := number;
      while current.Some? && (IsDigit(current.value) || IsLower(current.value))
        invariant Valid() && old(pos) <= digitsEnd <= pos
        invariant forall j :: digitsEnd <= j < pos ==> IsDigit(text[j]) || IsLower(text[j])
        invariant identifier == text[old(pos)..pos]
        decreases |text| - pos
      {
        assert text[old(pos)..pos + 1] == text[old(pos)..pos] + [text[pos]];
        identifier := identifier + [current.value];
        Advance();
      }
      SpanEnds(text, digitsEnd, pos, DigitOrLower);
      mode := Initial;
      t := Prop(identifier);
    }

    /** Reads a word: a run of letters, accepted only as `true` or `false`. */
    method ReadWord() returns (r: Result<Token, Error>)
      requires Valid()
      modifies this`pos, this`current, this`mode
      ensures Valid() && mode == Initial
      ensures pos == Span(text, old(pos), Letter)
      ensures r == ClassifyWord(text[old(pos)..pos])
    {
      mode := ReadingWord;
      var word := "";
      while current.Some? && IsLetter(current.value)
        invariant Valid() && old(pos) <= pos
        invariant forall j :: old(pos) <= j < pos ==> IsLetter(text[j])
        invariant word == text[old(pos)..pos]
        decreases |text| - pos
      {
        assert text[old(pos)..pos + 1] == text[old(pos)..pos] + [text[pos]];
        word := word + [current.value];
        Advance();
      }
      SpanEnds(text, old(pos), pos, Letter);
      mode := Initial;
      r := ClassifyWord(word);
    }

    /**
     * Skips whitespace and reads the next token. The result and the new
     * position are exactly those of `Scan`; the mode is left `Initial`
     * whenever a character other than whitespace was looked at.
     */
    method NextToken() returns (r: Result<Token, Error>)
      requires Valid()
      modifies this`pos, this`current, this`mode
      ensures Valid()
      ensures Scan(text, old(pos)) == Step(r, pos)
      ensures if r == Ok(Eof) then mode == old(mode) else mode == Initial
    {
      while current.Some?
        invariant Valid() && old(pos) <= pos && mode == old(mode)
        invariant Span(text, pos, Space) == Span(text, old(pos), Space)
        decreases |text| - pos
      {
        if IsSpace(current.value) {
          SkipSpaces();
          continue;
        }
        ScanSkipped(text, old(pos), pos);
        r := ReadToken();
        return;
      }
      ScanSkipped(text, old(pos), pos);
      return Ok(Eof);
    }

    /**
     * The dispatch of `NextToken` on a character other than whitespace:
     * a parenthesis, a command, a proposition, a word, or an invalid character.
     */
    method ReadToken() returns (r: Result<Token, Error>)
      requires Valid() && current.Some? && !IsSpace(current.value)
      modifies this`pos, this`current, this`mode
      ensures Valid() && mode == Initial
      ensures ScanAt(text, old(pos)) == Step(r, pos)
    {
      mode := Initial;
      if current.value == '(' {
        Advance();
        return Ok(LParen);
      }
      if current.value == ')' {
        Advance();
        return Ok(RParen);
      }
      if current.value == '\\' {
        r := ReadCommand();
        assert text[old(pos)..pos] == ['\\'] + text[old(pos) + 1..pos];
        return;
      }
      if IsDigit(current.value) {
        var t := ReadProposition();
        return Ok(t);
      }
      if IsLetter(current.value) {
        r := ReadWord();
        return;
      }
      return Err(InvalidChar(current.value));
    }
  }
}
