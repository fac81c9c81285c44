/** The token dispatcher and the five handlers of Tokenizers.cs. `Lex` and
    `NextToken` are the meaning of one handler and of the dispatcher on a
    cursor value; the methods below run the same steps on an `Input` and are
    proved to agree with them. */
module Tokenizers {
  import opened Results
  import opened Chars
  import opened Inputs

  /** The `Type` strings the handlers write into a token. */
  datatype TokenType =
    | BoolType | NullType | NumberType | WhitespaceType | StringType
    | OpeningBrace | ClosingBrace | Colon | Comma | OpeningBracket | ClosingBracket

  /** `position` is the cursor position before the token's first character. */
  datatype Token = Token(position: int, lineNumber: int, tokenType: TokenType, value: string)

  datatype Handler =
    | StringTokenizer
    | KeyWordsTokenizer
    | NumberTokenizer
    | WhiteSpaceTokenizer
    | SpecialCharacterTokenizer

  const SpecialChars: string := "}{:,]["

  /** The characters the number handler accepts after the first digit; none
      of them ends a value in JSON text (a separator, a quote, white space or
      the sentinel). */
  predicate IsNumberChar(ch: char)
    ensures IsNumberChar(ch) ==> ch !in SpecialChars && ch != '"' && !IsWhiteSpace(ch) && ch != '\0'
  {
    IsDigit(ch) || ch == 'e' || ch == '.' || ch == 'E' || ch == '+' || ch == '-'
  }

  /** The loop conditions of the run-based handlers; each looks at peek(),
      and so holds only while a character is left. */
  predicate IsLetterAhead(c: Cursor)
    ensures IsLetterAhead(c) ==> 0 <= c.pos + 1 < |c.text| && IsLetter(c.text[c.pos + 1])
  {
    IsLetter(c.Ahead(1))
  }

  predicate IsNumberCharAhead(c: Cursor)
    ensures IsNumberCharAhead(c) ==> 0 <= c.pos + 1 < |c.text| && IsNumberChar(c.text[c.pos + 1])
  {
    IsNumberChar(c.Ahead(1))
  }

  predicate IsWhiteSpaceAhead(c: Cursor)
    ensures IsWhiteSpaceAhead(c) ==> 0 <= c.pos + 1 < |c.text| && IsWhiteSpace(c.text[c.pos + 1])
  {
    IsWhiteSpace(c.Ahead(1))
  }

  /** The `tokenizable` guard of each handler. */
  predicate Tokenizable(h: Handler, c: Cursor) {
    match h
    case StringTokenizer => c.HasMore(1) == Success(true) && c.Ahead(1) == '"'
    case KeyWordsTokenizer => IsLetter(c.Ahead(1))
    case NumberTokenizer => IsDigit(c.Ahead(1))
    case WhiteSpaceTokenizer => IsWhiteSpace(c.Ahead(1))
    case SpecialCharacterTokenizer => c.Ahead(1) in SpecialChars
  }

  /** The type the special-character handler gives a character; anything that
      is not one of the five others falls into its last branch. */
  function SpecialType(ch: char): (r: TokenType)
    ensures r == OpeningBrace <==> ch == '{'
    ensures r == ClosingBrace <==> ch == '}'
    ensures r == Colon <==> ch == ':'
    ensures r == Comma <==> ch == ','
    ensures r == OpeningBracket <==> ch == '['
    ensures r == ClosingBracket <==> ch !in "{}:,["
  {
    if ch == '{' then OpeningBrace
    else if ch == '}' then ClosingBrace
    else if ch == ':' then Colon
    else if ch == ',' then Comma
    else if ch == '[' then OpeningBracket
    else ClosingBracket
  }

  /** Where the string handler stops: it steps one character at a time and,
      when the character two ahead is a quote, takes two and stops. */
  function StringEnd(c: Cursor): (e: int)
    requires c.Valid()
    ensures c.pos <= e < |c.text|
    decreases |c.text| - c.pos
  {
    if c.HasMore(1) != Success(true) then c.pos
    else if c.Ahead(2) == '"' then c.pos + 2
    else StringEnd(c.(pos := c.pos + 1))
  }

  /** Without a quote two ahead, the string handler steps once and goes on. */
  lemma StringEndSteps(c: Cursor)
    requires c.Valid() && c.HasMore(1) == Success(true) && c.Ahead(2) != '"'
    ensures StringEnd(c) == StringEnd(c.(pos := c.pos + 1))
  {
  }

  /** With a quote two ahead, the string handler takes two steps and stops. */
  lemma StringEndQuote(c: Cursor)
    requires c.Valid() && c.HasMore(1) == Success(true) && c.Peek(2) == Success('"')
    ensures c.pos + 2 < |c.text| && StringEnd(c) == c.pos + 2
  {
  }

  /** The string token, given where the handler stops. */
  lemma LexStringIs(c: Cursor, e: int, v: string)
    requires c.Valid() && StringEnd(c) == e && v == c.text[c.pos + 1 .. e + 1]
    ensures LexString(c) == Outcome(Success(Token(c.pos, c.line, StringType, v)), c.(pos := e))
  {
  }

  /** The characters stepped over going from `c` to `d`. */
  function Consumed(c: Cursor, d: Cursor): string
    requires c.Valid() && c.Reaches(d)
  {
    c.text[c.pos + 1 .. d.pos + 1]
  }

  /** What `h.tokenize` does at `c`, whether or not its guard holds. */
  function Lex(h: Handler, c: Cursor): (o: Outcome<Token>)
    requires c.Valid()
    ensures c.Reaches(o.after)
    ensures Tokenizable(h, c) ==> o.after.pos > c.pos
    ensures o.result.Success? ==>
      && o.result.value.position == c.pos
      && o.result.value.lineNumber == c.line
      && o.result.value.value ==
           (if h == KeyWordsTokenizer then ToLower(Consumed(c, o.after)) else Consumed(c, o.after))
  {
    match h
    case StringTokenizer => LexString(c)
    case KeyWordsTokenizer => LexKeyWord(c)
    case NumberTokenizer => LexNumber(c)
    case WhiteSpaceTokenizer => LexWhiteSpace(c)
    case SpecialCharacterTokenizer => LexSpecial(c)
  }

  /** StringTokenizer.tokenize: everything up to StringEnd. */
  function LexString(c: Cursor): (o: Outcome<Token>)
    requires c.Valid()
    ensures c.Reaches(o.after)
    ensures Tokenizable(StringTokenizer, c) ==> o.after.pos > c.pos
    ensures o.result.Success? ==>
      && o.result.value.position == c.pos && o.result.value.lineNumber == c.line
      && o.result.value.value == Consumed(c, o.after)
  {
    var e := StringEnd(c);
    Outcome(Success(Token(c.pos, c.line, StringType, c.text[c.pos + 1 .. e + 1])), c.(pos := e))
  }

  /** KeyWordsTokenizer.tokenize: the run of letters, lower-cased, accepted
      only as true, false or null. */
  function LexKeyWord(c: Cursor): (o: Outcome<Token>)
    requires c.Valid()
    ensures c.Reaches(o.after)
    ensures Tokenizable(KeyWordsTokenizer, c) ==> o.after.pos > c.pos
    ensures o.result.Success? ==>
      && o.result.value.position == c.pos && o.result.value.lineNumber == c.line
      && o.result.value.value == ToLower(Consumed(c, o.after))
  {
    var e := c.RunEnd(IsLetterAhead);
    var word := ToLower(c.text[c.pos + 1 .. e + 1]);
    if word == "true" || word == "false" then
      Outcome(Success(Token(c.pos, c.line, BoolType, word)), c.(pos := e))
    else if word == "null" then
      Outcome(Success(Token(c.pos, c.line, NullType, word)), c.(pos := e))
    else
      Outcome(Failure(InvalidValue), c.(pos := e))
  }

  /** NumberTokenizer.tokenize: the run of number characters. */
  function LexNumber(c: Cursor): (o: Outcome<Token>)
    requires c.Valid()
    ensures c.Reaches(o.after)
    ensures Tokenizable(NumberTokenizer, c) ==> o.after.pos > c.pos
    ensures o.result.Success? ==>
      && o.result.value.position == c.pos && o.result.value.lineNumber == c.line
      && o.result.value.value == Consumed(c, o.after)
  {
    var e := c.RunEnd(IsNumberCharAhead);
    Outcome(Success(Token(c.pos, c.line, NumberType, c.text[c.pos + 1 .. e + 1])), c.(pos := e))
  }

  /** WhiteSpaceTokenizer.tokenize: the run of whitespace. */
  function LexWhiteSpace(c: Cursor): (o: Outcome<Token>)
    requires c.Valid()
    ensures c.Reaches(o.after)
    ensures Tokenizable(WhiteSpaceTokenizer, c) ==> o.after.pos > c.pos
    ensures o.result.Success? ==>
      && o.result.value.position == c.pos && o.result.value.lineNumber == c.line
      && o.result.value.value == Consumed(c, o.after)
  {
    var e := c.RunEnd(IsWhiteSpaceAhead);
    Outcome(Success(Token(c.pos, c.line, WhitespaceType, c.text[c.pos + 1 .. e + 1])), c.(pos := e))
  }

  /** SpecialCharacterTokenizer.tokenize: one step, typed by the character. */
  function LexSpecial(c: Cursor): (o: Outcome<Token>)
    requires c.Valid()
    ensures c.Reaches(o.after)
    ensures Tokenizable(SpecialCharacterTokenizer, c) ==> o.after.pos > c.pos
    ensures o.result.Success? ==>
      && o.result.value.position == c.pos && o.result.value.lineNumber == c.line
      && o.result.value.value == Consumed(c, o.after)
  {
    if c.HasMore(1) != Success(true) then Outcome(Failure(NoMoreStep), c)
    else Outcome(Success(Token(c.pos, c.line, SpecialType(c.Ahead(1)), [c.text[c.pos + 1]])), c.(pos := c.pos + 1))
  }

  /** The index of the first handler whose guard holds, or |handlers| if none does. */
  function FirstTokenizable(handlers: seq<Handler>, c: Cursor): (i: nat)
    ensures i <= |handlers|
    ensures forall j | 0 <= j < i :: !Tokenizable(handlers[j], c)
    ensures i < |handlers| ==> Tokenizable(handlers[i], c)
  {
    if handlers == [] then 0
    else if Tokenizable(handlers[0], c) then 0
    else 1 + FirstTokenizable(handlers[1..], c)
  }

  /** FirstTokenizable is the one index before which no guard holds and at
      which one does. */
  lemma {:induction false} FirstTokenizableIs(handlers: seq<Handler>, c: Cursor, i: nat)
    requires i <= |handlers|
    requires forall j | 0 <= j < i :: !Tokenizable(handlers[j], c)
    requires i < |handlers| ==> Tokenizable(handlers[i], c)
    ensures FirstTokenizable(handlers, c) == i
    decreases |handlers|
  {
    if i > 0 {
      assert !Tokenizable(handlers[0], c);
      forall j | 0 <= j < i - 1 ensures !Tokenizable(handlers[1..][j], c) {
        assert handlers[1..][j] == handlers[j + 1];
      }
      FirstTokenizableIs(handlers[1..], c, i - 1);
    }
  }

  /** What `Tokenizer.tokenize` does at `c`: the first handler whose guard holds
      produces the token; when none holds the result is null (None). */
  function NextToken(handlers: seq<Handler>, c: Cursor): (o: Outcome<Option<Token>>)
    requires c.Valid()
    ensures c.Reaches(o.after)
    ensures o.result.Success? && o.result.value.Some? ==> o.after.pos > c.pos
  {
    var i := FirstTokenizable(handlers, c);
    if i == |handlers| then Outcome(Success(None), c)
    else
      var lexed := Lex(handlers[i], c);
      match lexed.result
      case Success(token) => Outcome(Success(Some(token)), lexed.after)
      case Failure(e) => Outcome(Failure(e), lexed.after)
  }

  class Tokenizer {
    const input: Input
    const handlers: seq<Handler>

    constructor FromInput(source: Input, handlers: seq<Handler>)
      ensures input == source && this.handlers == handlers
    {
      input := source;
      this.handlers := handlers;
    }

    constructor FromText(source: string, handlers: seq<Handler>)
      ensures fresh(input) && input.State() == Cursor(source, -1, 1) && this.handlers == handlers
    {
      input := new Input(source);
      this.handlers := handlers;
    }

    /** tokenize(): tries the handlers in order. */
    method Tokenize() returns (r: Result<Option<Token>>)
      requires input.Valid()
      modifies input`position
      ensures Outcome(r, input.State()) == NextToken(handlers, old(input.State()))
    {
      for i := 0 to |handlers|
        invariant input.State() == old(input.State())
        invariant forall j | 0 <= j < i :: !Tokenizable(handlers[j], input.State())
      {
        if Tokenizable(handlers[i], input.State()) {
          FirstTokenizableIs(handlers, input.State(), i);
          var token := HandlerTokenize(handlers[i], input);
          return if token.Success? then Success(Some(token.value)) else Failure(token.error);
        }
      }
      FirstTokenizableIs(handlers, input.State(), |handlers|);
      return Success(None);
    }
  }

  /** handler.tokenize(t), by the handler's class. */
  method HandlerTokenize(h: Handler, input: Input) returns (r: Result<Token>)
    requires input.Valid()
    modifies input`position
    ensures Outcome(r, input.State()) == Lex(h, old(input.State()))
  {
    match h
    case StringTokenizer => r := StringTokenize(input);
    case KeyWordsTokenizer => r := KeyWordsTokenize(input);
    case NumberTokenizer => r := NumberTokenize(input);
    case WhiteSpaceTokenizer => r := WhiteSpaceTokenize(input);
    case SpecialCharacterTokenizer => r := SpecialCharacterTokenize(input);
  }

  method KeyWordsTokenize(input: Input) returns (r: Result<Token>)
    requires input.Valid()
    modifies input`position
    ensures Outcome(r, input.State()) == Lex(KeyWordsTokenizer, old(input.State()))
  {
    var position, line := input.position, input.lineNumber;
    var run := input.Loop(IsLetterAhead);
    var value := ToLower(run);
    if value == "true" || value == "false" {
      r := Success(Token(position, line, BoolType, value));
    } else if value == "null" {
      r := Success(Token(position, line, NullType, value));
    } else {
      r := Failure(InvalidValue);
    }
  }

  method NumberTokenize(input: Input) returns (r: Result<Token>)
    requires input.Valid()
    modifies input`position
    ensures Outcome(r, input.State()) == Lex(NumberTokenizer, old(input.State()))
  {
    var position, line := input.position, input.lineNumber;
    var run := input.Loop(IsNumberCharAhead);
    r := Success(Token(position, line, NumberType, run));
  }

  method WhiteSpaceTokenize(input: Input) returns (r: Result<Token>)
    requires input.Valid()
    modifies input`position
    ensures Outcome(r, input.State()) == Lex(WhiteSpaceTokenizer, old(input.State()))
  {
    var position, line := input.position, input.lineNumber;
    var run := input.Loop(IsWhiteSpaceAhead);
    r := Success(Token(position, line, WhitespaceType, run));
  }

  method SpecialCharacterTokenize(input: Input) returns (r: Result<Token>)
    requires input.Valid()
    modifies input`position
    ensures Outcome(r, input.State()) == Lex(SpecialCharacterTokenizer, old(input.State()))
  {
    var position, line := input.position, input.lineNumber;
    var peek := input.State().Ahead(1);
    var stepped := input.Step(1);
    if stepped.Failure? {
      return Failure(stepped.error);
    }
    r := Success(Token(position, line, SpecialType(peek), [input.Character()]));
  }

  /** `value += input.step().Character`: one step and the character stepped
      onto appended to the text read since `position`. */
  method StepOnto(input: Input, position: int, value: string) returns (more: string)
    requires input.Valid() && input.State().HasMore(1) == Success(true)
    requires -1 <= position <= input.position && value == input.text[position + 1 .. input.position + 1]
    modifies input`position
    ensures input.position == old(input.position) + 1
    ensures more == input.text[position + 1 .. input.position + 1]
  {
    var _ := input.Step(1);
    SliceGrows(input.text, position + 1, input.position);
    more := value + [input.Character()];
  }

  method StringTokenize(input: Input) returns (r: Result<Token>)
    requires input.Valid()
    modifies input`position
    ensures Outcome(r, input.State()) == Lex(StringTokenizer, old(input.State()))
  {
    var position, line := input.position, input.lineNumber;
    ghost var start := input.State();
    ghost var end := StringEnd(start);
    var value := "";
    while input.State().HasMore(1) == Success(true)
      invariant input.Valid() && position <= input.position
      invariant input.lineNumber == line
      invariant StringEnd(input.State()) == end
      invariant value == input.text[position + 1 .. input.position + 1]
      decreases |input.text| - input.position
    {
      ghost var here := input.State();
      if input.State().Peek(2) == Success('"') {
        StringEndQuote(here);
        value := StepOnto(input, position, value);
        value := StepOnto(input, position, value);
        break;
      } else {
        StringEndSteps(here);
        value := StepOnto(input, position, value);
      }
    }
    assert input.State() == start.(pos := end);
    r := Success(Token(position, line, StringType, value));
    LexStringIs(start, end, value);
  }
}
