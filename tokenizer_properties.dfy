/** What the dispatcher and each handler promise, proved about `NextToken` and
    `Lex`. */
module TokenizerProperties {
  import opened Results
  import opened Chars
  import opened Inputs
  import opened Tokenizers

  /** tokenize() returns null exactly when no guard holds, and then it has
      not moved. */
  lemma NextTokenNone(handlers: seq<Handler>, c: Cursor)
    requires c.Valid()
    ensures NextToken(handlers, c).result == Success(None) <==>
              forall h | h in handlers :: !Tokenizable(h, c)
    ensures NextToken(handlers, c).result == Success(None) ==> NextToken(handlers, c).after == c
  {
    var i := FirstTokenizable(handlers, c);
    if i < |handlers| {
      assert handlers[i] in handlers;
    } else {
      forall h | h in handlers ensures !Tokenizable(h, c) {
        var j :| 0 <= j < |handlers| && handlers[j] == h;
      }
    }
  }

  /** tokenize() is the handler at index i when i is the first whose guard holds. */
  lemma NextTokenIsFirst(handlers: seq<Handler>, c: Cursor, i: nat)
    requires c.Valid()
    requires i < |handlers| && Tokenizable(handlers[i], c)
    requires forall j | 0 <= j < i :: !Tokenizable(handlers[j], c)
    ensures var o, lexed := NextToken(handlers, c), Lex(handlers[i], c);
      && o.after == lexed.after
      && (lexed.result.Success? ==> o.result == Success(Some(lexed.result.value)))
      && (lexed.result.Failure? ==> o.result == Failure(lexed.result.error))
  {
    FirstTokenizableIs(handlers, c, i);
  }

  /** Every guard looks at the next character, and the sentinel '\0' passes
      none of them: a guard holds only while a character is left. */
  lemma GuardNeedsCharacter(h: Handler, c: Cursor)
    requires Tokenizable(h, c)
    ensures 0 <= c.pos + 1 < |c.text| && c.Ahead(1) == c.text[c.pos + 1]
  {
  }

  /** The five guards look at disjoint classes of the next character, so at
      most one of them holds and the order of the handler list only decides
      which guard is asked first. */
  lemma GuardsExclusive(c: Cursor, g: Handler, h: Handler)
    requires g != h && Tokenizable(g, c)
    ensures !Tokenizable(h, c)
  {
  }

  /** Every token carries the position before its first character and the
      cursor's line: with no method changing the line, that is always 1. */
  lemma TokenPlace(handlers: seq<Handler>, c: Cursor)
    requires c.Valid()
    ensures var o := NextToken(handlers, c);
      o.result.Success? && o.result.value.Some? ==>
        o.result.value.value.position == c.pos && o.result.value.value.lineNumber == c.line
  {
  }

  /** The key-word handler takes the longest run of letters and lower-cases it;
      only true, false and null are accepted, and a rejected run stays consumed. */
  lemma KeyWordsLex(c: Cursor)
    requires c.Valid()
    ensures var o := Lex(KeyWordsTokenizer, c);
      var run := Consumed(c, o.after);
      && (forall i | 0 <= i < |run| :: IsLetter(run[i]))
      && (IsLetter(c.Ahead(1)) ==> |run| > 0)
      && !IsLetter(o.after.Ahead(1))
      && (o.result.Success? <==> ToLower(run) in {"true", "false", "null"})
      && (o.result.Success? ==>
            && o.result.value.value == ToLower(run)
            && (o.result.value.tokenType == BoolType <==> ToLower(run) != "null")
            && (o.result.value.tokenType == NullType <==> ToLower(run) == "null"))
      && (o.result.Failure? ==> o.result.error == InvalidValue)
  {
    var e := c.RunEnd(IsLetterAhead);
    RunEndStops(c, IsLetterAhead, e);
    var run := c.text[c.pos + 1 .. e + 1];
    forall i | 0 <= i < |run| ensures IsLetter(run[i]) {
      assert IsLetterAhead(c.(pos := c.pos + i));
    }
  }

  /** A number token starts with a digit and is the longest run of digits,
      '.', 'e', 'E', '+' and '-'. */
  lemma NumberLex(c: Cursor)
    requires c.Valid() && Tokenizable(NumberTokenizer, c)
    ensures var o := Lex(NumberTokenizer, c);
      && o.result.Success? && o.result.value.tokenType == NumberType
      && var v := o.result.value.value;
      && v == Consumed(c, o.after)
      && |v| > 0 && IsDigit(v[0])
      && (forall i | 0 <= i < |v| :: IsNumberChar(v[i]))
      && !IsNumberChar(o.after.Ahead(1))
  {
    var e := c.RunEnd(IsNumberCharAhead);
    RunEndStops(c, IsNumberCharAhead, e);
    var v := c.text[c.pos + 1 .. e + 1];
    forall i | 0 <= i < |v| ensures IsNumberChar(v[i]) {
      assert IsNumberCharAhead(c.(pos := c.pos + i));
    }
  }

  /** A whitespace token is the longest run of whitespace. */
  lemma WhiteSpaceLex(c: Cursor)
    requires c.Valid() && Tokenizable(WhiteSpaceTokenizer, c)
    ensures var o := Lex(WhiteSpaceTokenizer, c);
      && o.result.Success? && o.result.value.tokenType == WhitespaceType
      && var v := o.result.value.value;
      && v == Consumed(c, o.after)
      && |v| > 0
      && (forall i | 0 <= i < |v| :: IsWhiteSpace(v[i]))
      && !IsWhiteSpace(o.after.Ahead(1))
  {
    var e := c.RunEnd(IsWhiteSpaceAhead);
    RunEndStops(c, IsWhiteSpaceAhead, e);
    var v := c.text[c.pos + 1 .. e + 1];
    forall i | 0 <= i < |v| ensures IsWhiteSpace(v[i]) {
      assert IsWhiteSpaceAhead(c.(pos := c.pos + i));
    }
  }

  /** A special token is exactly one of the six characters, typed by it. */
  lemma SpecialLex(c: Cursor)
    requires c.Valid() && Tokenizable(SpecialCharacterTokenizer, c)
    ensures var o := Lex(SpecialCharacterTokenizer, c);
      var ch := c.Ahead(1);
      && o.result == Success(Token(c.pos, c.line, SpecialType(ch), [ch]))
      && o.after == c.(pos := c.pos + 1)
      && o.result.value.tokenType ==
           (match ch
            case '{' => OpeningBrace
            case '}' => ClosingBrace
            case ':' => Colon
            case ',' => Comma
            case '[' => OpeningBracket
            case _ => ClosingBracket)
      && (o.result.value.tokenType == ClosingBracket ==> ch == ']')
  {
  }

  /** From a state where a quote is next, StringEnd stops on the first quote
      at least two characters ahead, or at the last character. */
  lemma {:induction false} StringEndFindsQuote(c: Cursor)
    requires c.Valid() && c.HasMore(1) == Success(true)
    ensures var e := StringEnd(c);
      && c.pos + 1 <= e
      && (forall k | c.pos + 2 <= k < e :: c.text[k] != '"')
      && ((c.pos + 2 <= e && c.text[e] == '"') || e == |c.text| - 1)
    decreases |c.text| - c.pos
  {
    if c.Ahead(2) != '"' {
      var d := c.(pos := c.pos + 1);
      if d.HasMore(1) == Success(true) {
        StringEndFindsQuote(d);
      }
    }
  }

  /** A string token runs from the opening quote through the next quote, with
      no escape handling; with no closing quote it takes the rest of the input. */
  lemma StringLex(c: Cursor)
    requires c.Valid() && Tokenizable(StringTokenizer, c)
    ensures var o := Lex(StringTokenizer, c);
      && o.result.Success? && o.result.value.tokenType == StringType
      && var v := o.result.value.value;
      && v == Consumed(c, o.after)
      && |v| > 0 && v[0] == '"'
      && (forall i | 1 <= i < |v| - 1 :: v[i] != '"')
      && ((|v| >= 2 && v[|v| - 1] == '"') || o.after.pos == |c.text| - 1)
  {
    StringEndFindsQuote(c);
  }
}
