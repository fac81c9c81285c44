/** What getObject, getArray and parse do with the JSON handler array, proved
    about the specification functions of module Json: the dispatch on the next
    character, the value mapping of parse, and the quirks of the member and
    element loops, shown in general and on small inputs. */
module JsonProperties {
  import opened Results
  import opened Chars
  import opened Inputs
  import opened Tokenizers
  import opened Json
  import opened TokenizerProperties

  /** The token a handler produced, as tokenize() returns it. */
  function AsNext(o: Outcome<Token>): Outcome<Option<Token>> {
    match o.result
    case Success(token) => Outcome(Success(Some(token)), o.after)
    case Failure(e) => Outcome(Failure(e), o.after)
  }

  /** The handler each kind of next character selects, with the handlers in
      the order getObject and getArray give them. */
  lemma StringDispatch(c: Cursor)
    requires c.Valid() && c.Ahead(1) == '"'
    ensures NextToken(JsonHandlers, c) == AsNext(Lex(StringTokenizer, c))
  {
    NextTokenIsFirst(JsonHandlers, c, 0);
  }

  lemma KeyWordDispatch(c: Cursor)
    requires c.Valid() && IsLetter(c.Ahead(1))
    ensures NextToken(JsonHandlers, c) == AsNext(Lex(KeyWordsTokenizer, c))
  {
    NextTokenIsFirst(JsonHandlers, c, 1);
  }

  lemma NumberDispatch(c: Cursor)
    requires c.Valid() && IsDigit(c.Ahead(1))
    ensures NextToken(JsonHandlers, c) == AsNext(Lex(NumberTokenizer, c))
  {
    NextTokenIsFirst(JsonHandlers, c, 2);
  }

  lemma WhiteSpaceDispatch(c: Cursor)
    requires c.Valid() && IsWhiteSpace(c.Ahead(1))
    ensures NextToken(JsonHandlers, c) == AsNext(Lex(WhiteSpaceTokenizer, c))
  {
    NextTokenIsFirst(JsonHandlers, c, 3);
  }

  lemma SpecialDispatch(c: Cursor)
    requires c.Valid() && c.Ahead(1) in SpecialChars
    ensures NextToken(JsonHandlers, c) == AsNext(Lex(SpecialCharacterTokenizer, c))
  {
    NextTokenIsFirst(JsonHandlers, c, 4);
  }

  /** Any other next character, and the end of the input in particular, gives
      a null token without moving. */
  lemma NoHandlerDispatch(c: Cursor)
    requires c.Valid()
    requires c.Ahead(1) != '"' && !IsLetter(c.Ahead(1)) && !IsDigit(c.Ahead(1))
    requires !IsWhiteSpace(c.Ahead(1)) && c.Ahead(1) !in SpecialChars
    ensures NextToken(JsonHandlers, c) == Outcome(Success(None), c)
  {
    NextTokenNone(JsonHandlers, c);
  }

  lemma EndDispatch(c: Cursor)
    requires c.Valid() && c.pos + 1 >= |c.text|
    ensures NextToken(JsonHandlers, c) == Outcome(Success(None), c)
  {
    SentinelIsNoClass();
    NoHandlerDispatch(c);
  }

  /** One of the six special characters is read as a one-character token, with
      or without skipping whitespace first. */
  lemma SpecialNext(c: Cursor, ch: char)
    requires c.Valid() && c.Ahead(1) == ch && ch in SpecialChars
    ensures var o := Outcome(Success(Some(Token(c.pos, c.line, SpecialType(ch), [ch]))), c.(pos := c.pos + 1));
      NextToken(JsonHandlers, c) == o && SignificantFrom(c) == o
  {
    SpecialDispatch(c);
    SpecialLex(c);
    SignificantIsNext(c, Token(c.pos, c.line, SpecialType(ch), [ch]), c.(pos := c.pos + 1));
  }

  /** A token that is not whitespace is the significant token too. */
  lemma SignificantIsNext(c: Cursor, token: Token, after: Cursor)
    requires c.Valid() && NextToken(JsonHandlers, c) == Outcome(Success(Some(token)), after)
    requires token.tokenType != WhitespaceType
    ensures SignificantFrom(c) == Outcome(Success(Some(token)), after)
  {
  }

  /** Where the next character opens no object and no array, a value is
      what parse makes of the next token. */
  lemma ValueOfToken(c: Cursor, token: Token, after: Cursor)
    requires c.Valid() && c.Ahead(1) != '{' && c.Ahead(1) != '['
    requires NextToken(JsonHandlers, c) == Outcome(Success(Some(token)), after)
    ensures after.Valid() && ValueFrom(c) == ParseFrom(token, after)
  {
  }

  /** A digit that no number character follows is a one-digit number token. */
  lemma DigitNext(c: Cursor)
    requires c.Valid() && IsDigit(c.Ahead(1)) && !IsNumberChar(c.Ahead(2))
    ensures var o := Outcome(Success(Some(Token(c.pos, c.line, NumberType, [c.Ahead(1)]))),
                             c.(pos := c.pos + 1));
      NextToken(JsonHandlers, c) == o && SignificantFrom(c) == o
  {
    NumberDispatch(c);
    DigitLex(c);
    SignificantIsNext(c, Token(c.pos, c.line, NumberType, [c.Ahead(1)]), c.(pos := c.pos + 1));
  }

  /** The number handler on a lone digit. */
  lemma DigitLex(c: Cursor)
    requires c.Valid() && IsDigit(c.Ahead(1)) && !IsNumberChar(c.Ahead(2))
    ensures Lex(NumberTokenizer, c) == Outcome(Success(Token(c.pos, c.line, NumberType, [c.Ahead(1)])), c.(pos := c.pos + 1))
  {
    var d := c.(pos := c.pos + 1);
    assert c.RunEnd(IsNumberCharAhead) == d.RunEnd(IsNumberCharAhead) == d.pos;
    assert c.text[c.pos + 1 .. d.pos + 1] == [c.Ahead(1)];
  }

  /** A quote, one other character and a quote make a three-character string token. */
  lemma ShortStringNext(c: Cursor)
    requires c.Valid() && c.Ahead(1) == '"' && c.Ahead(2) != '"' && c.Ahead(3) == '"'
    ensures var o := Outcome(Success(Some(Token(c.pos, c.line, StringType, ['"', c.Ahead(2), '"']))),
                             c.(pos := c.pos + 3));
      NextToken(JsonHandlers, c) == o && SignificantFrom(c) == o
  {
    StringDispatch(c);
    ShortStringLex(c);
    SignificantIsNext(c, Token(c.pos, c.line, StringType, ['"', c.Ahead(2), '"']), c.(pos := c.pos + 3));
  }

  /** The string handler on a three-character string. */
  lemma ShortStringLex(c: Cursor)
    requires c.Valid() && c.Ahead(1) == '"' && c.Ahead(2) != '"' && c.Ahead(3) == '"'
    ensures Lex(StringTokenizer, c) ==
              Outcome(Success(Token(c.pos, c.line, StringType, ['"', c.Ahead(2), '"'])), c.(pos := c.pos + 3))
  {
    var d := c.(pos := c.pos + 1);
    assert StringEnd(d) == c.pos + 3;
    assert StringEnd(c) == c.pos + 3;
    assert c.text[c.pos + 1 .. c.pos + 4] == ['"', c.Ahead(2), '"'];
  }

  /** A run of letters is read as a key word, lower-cased, wherever the
      letters stand: true, false and null in any case are accepted. */
  lemma KeyWordNext(c: Cursor)
    requires c.Valid() && IsLetter(c.Ahead(1))
    ensures var o := NextToken(JsonHandlers, c);
      var run := Consumed(c, o.after);
      && (o.result.Success? <==> ToLower(run) in {"true", "false", "null"})
      && (o.result.Success? ==> o.result.value.Some? && o.result.value.value.value == ToLower(run))
      && (o.result.Failure? ==> o.result.error == InvalidValue)
  {
    KeyWordDispatch(c);
    KeyWordsLex(c);
  }

  /** parse(token): a number keeps its text, a string its token text (quotes
      included), and every other token, true, false and null among them, is an
      empty JString; only an opening brace reads further. */
  lemma ParseMapping(token: Token, c: Cursor)
    requires c.Valid()
    ensures var o := ParseFrom(token, c);
      && (token.tokenType == NumberType ==> o == Outcome(Success(JNumber(token.value)), c))
      && (token.tokenType == StringType ==> o == Outcome(Success(JString(Some(token.value))), c))
      && (token.tokenType != NumberType && token.tokenType != StringType && token.tokenType != OpeningBrace ==>
            o == Outcome(Success(JString(None)), c))
      && (token.tokenType == OpeningBrace ==> o == ObjectFrom(c))
      && (o.result.Success? ==> !o.result.value.JBool? && !o.result.value.JNull?)
  {
  }

  /** No tree the reader returns holds a JBool or a JNull, at any depth. */
  lemma {:induction false} NoBoolOrNull(v: JSONValue)
    requires Produced(v)
    ensures !v.JBool? && !v.JNull?
    ensures v.JObject? ==> forall m | m in v.members :: !m.value.JBool? && !m.value.JNull?
    ensures v.JArray? ==> forall x | x in v.elements :: !x.JBool? && !x.JNull?
  {
    match v
    case JObject(members) =>
      forall m | m in members ensures !m.value.JBool? && !m.value.JNull? {
        NoBoolOrNull(m.value);
      }
    case JArray(elements) =>
      forall x | x in elements ensures !x.JBool? && !x.JNull? {
        NoBoolOrNull(x);
      }
    case _ =>
  }

  /** Everything the reader returns is a tree it can build (`Produced`): the
      lemmas below follow the mutual recursion of the functions they are about. */
  lemma {:induction false} ParseProduced(token: Token, c: Cursor)
    requires c.Valid()
    ensures var o := ParseFrom(token, c); o.result.Success? ==> Produced(o.result.value)
    decreases |c.text| - c.pos, 2
  {
    if token.tokenType == OpeningBrace {
      ObjectProduced(c);
    }
  }

  lemma {:induction false} ObjectProduced(c: Cursor)
    requires c.Valid()
    ensures var o := ObjectFrom(c); o.result.Success? ==> Produced(o.result.value)
    decreases |c.text| - c.pos, 1
  {
    if c.Ahead(1) == '{' {
      var open := NonNull(NextToken(JsonHandlers, c), NullToken);
      if open.result.Success? {
        MembersProduced(open.after, []);
      }
    }
  }

  lemma {:induction false} MemberProduced(c: Cursor)
    requires c.Valid()
    ensures var o := MemberFrom(c); o.result.Success? ==> Produced(o.result.value.value)
    decreases |c.text| - c.pos, 2
  {
    var key := NonNull(SignificantFrom(c), NotAKey);
    if key.result.Success? && key.result.value.tokenType == StringType {
      var colon := NonNull(SignificantFrom(key.after), NullToken);
      if colon.result.Success? && colon.result.value.tokenType == Colon {
        var gap := SpacesFrom(colon.after);
        if gap.result.Success? {
          ValueProduced(gap.after);
        }
      }
    }
  }

  lemma {:induction false} MembersProduced(c: Cursor, entries: seq<Member>)
    requires c.Valid() && Produced(JObject(entries))
    ensures var o := MembersFrom(c, entries); o.result.Success? ==> Produced(o.result.value)
    decreases |c.text| - c.pos, 3
  {
    if c.HasMore(1) == Success(true) {
      var member := MemberFrom(c);
      if member.result.Success? {
        MemberProduced(c);
        var shared := Copies(member.result.value, |entries| + 1);
        assert Produced(JObject(shared)) by {
          forall m | m in shared ensures Produced(m.value) {
          }
        }
        var sep := NonNull(SignificantFrom(member.after), NullToken);
        if sep.result.Success? && sep.result.value.tokenType == Comma {
          MembersProduced(sep.after, shared);
        }
      }
    }
  }

  lemma {:induction false} ArrayProduced(c: Cursor)
    requires c.Valid()
    ensures var o := ArrayFrom(c); o.result.Success? ==> Produced(o.result.value)
    decreases |c.text| - c.pos, 0
  {
    var open := NonNull(NextToken(JsonHandlers, c), NullToken);
    if open.result.Success? {
      ElementsProduced(open.after, []);
    }
  }

  lemma {:induction false} ElementsProduced(c: Cursor, elements: seq<JSONValue>)
    requires c.Valid() && Produced(JArray(elements))
    ensures var o := ElementsFrom(c, elements); o.result.Success? ==> Produced(o.result.value)
    decreases |c.text| - c.pos, 3
  {
    if c.HasMore(1) == Success(true) {
      var gap := SpacesFrom(c);
      if gap.result.Success? {
        var v := ValueFrom(gap.after);
        ValueProduced(gap.after);
        if v.result.Success? {
          var more := elements + [v.result.value];
          assert Produced(JArray(more)) by {
            forall x | x in more ensures Produced(x) {
              if x !in elements {
                assert x == v.result.value;
              }
            }
          }
          var gap' := SpacesFrom(v.after);
          if gap'.result.Success? {
            var sep := NonNull(NextToken(JsonHandlers, gap'.after), NullToken);
            if sep.result.Success? && sep.result.value.tokenType == Comma {
              ElementsProduced(sep.after, more);
            }
          }
        }
      }
    }
  }

  lemma {:induction false} ValueProduced(c: Cursor)
    requires c.Valid()
    ensures var o := ValueFrom(c); o.result.Success? ==> Produced(o.result.value)
    decreases |c.text| - c.pos, 2
  {
    if c.Ahead(1) == '{' {
      ObjectProduced(c);
    } else if c.Ahead(1) == '[' {
      ArrayProduced(c);
    } else {
      var token := NonNull(NextToken(JsonHandlers, c), NullToken);
      if token.result.Success? {
        ParseProduced(token.result.value, token.after);
      }
    }
  }

  /** Every object the reader returns shows one member as often as it read
      members: each entry is the last member read; and neither it nor any
      member holds a JBool or a JNull. */
  lemma ObjectEntriesAlike(c: Cursor)
    requires c.Valid()
    ensures var o := ObjectFrom(c);
      o.result.Success? ==>
        && o.result.value.JObject?
        && (forall i, j | 0 <= i < j < |o.result.value.members| ::
              o.result.value.members[i] == o.result.value.members[j])
        && (forall m | m in o.result.value.members :: !m.value.JBool? && !m.value.JNull?)
  {
    ObjectProduced(c);
    var o := ObjectFrom(c);
    if o.result.Success? {
      NoBoolOrNull(o.result.value);
    }
  }

  /** The same for arrays: no element is a JBool or a JNull. */
  lemma ArrayHasNoBoolOrNull(c: Cursor)
    requires c.Valid()
    ensures var o := ArrayFrom(c);
      o.result.Success? ==>
        o.result.value.JArray? && forall x | x in o.result.value.elements :: !x.JBool? && !x.JNull?
  {
    ArrayProduced(c);
    var o := ArrayFrom(c);
    if o.result.Success? {
      NoBoolOrNull(o.result.value);
    }
  }

  /** getObject looks at the next character only: an opening brace starts the
      member loop, an opening bracket reads an array and throws it away, and
      anything else is "not object". */
  lemma ObjectDispatch(c: Cursor)
    requires c.Valid()
    ensures var o := ObjectFrom(c);
      && (c.Ahead(1) == '{' ==> o == MembersFrom(c.(pos := c.pos + 1), []))
      && (c.Ahead(1) == '[' ==>
            var a := ArrayFrom(c);
            && o.after == a.after
            && (o.result.Success? <==> a.result.Success?)
            && (o.result.Success? ==> o.result.value == JObject([]))
            && (o.result.Failure? ==> o.result.error == a.result.error))
      && (c.Ahead(1) != '{' && c.Ahead(1) != '[' ==> o == Outcome(Failure(NotObject), c))
  {
    if c.Ahead(1) == '{' {
      SpecialNext(c, '{');
    }
  }

  /** After the opening brace, the first token that is not whitespace has to
      be a string; otherwise getObject throws "Not a key". A brace that ends
      the input makes an empty object. */
  lemma FirstKeyMustBeString(c: Cursor)
    requires c.Valid() && c.Ahead(1) == '{'
    ensures var d := c.(pos := c.pos + 1);
      && (c.pos + 2 >= |c.text| ==> ObjectFrom(c) == Outcome(Success(JObject([])), d))
      && (c.pos + 2 < |c.text| ==>
            var k := SignificantFrom(d);
            k.result.Success? && (k.result.value.None? || k.result.value.value.tokenType != StringType) ==>
              ObjectFrom(c) == Outcome(Failure(NotAKey), k.after))
  {
    ObjectDispatch(c);
  }

  /** One member read, then the token after it decides: a comma reads on,
      any other token ends the object without an error, a null token throws. */
  lemma AfterMember(c: Cursor, entries: seq<Member>)
    requires c.Valid() && c.pos + 1 < |c.text|
    requires MemberFrom(c).result.Success?
    ensures var m := MemberFrom(c);
      var s := SignificantFrom(m.after);
      var shared := Copies(m.result.value, |entries| + 1);
      && (s.result.Success? && s.result.value.Some? && s.result.value.value.tokenType == Comma ==>
            MembersFrom(c, entries) == MembersFrom(s.after, shared))
      && (s.result.Success? && s.result.value.Some? && s.result.value.value.tokenType != Comma ==>
            MembersFrom(c, entries) == Outcome(Success(JObject(shared)), s.after))
      && (s.result == Success(None) ==> MembersFrom(c, entries) == Outcome(Failure(NullToken), s.after))
  {
    MembersStep(c, entries);
  }

  /** The element loop of getArray reads past every element; the token after
      it has to be a comma or a closing bracket, or getArray throws. */
  lemma ArraySeparator(c: Cursor, elements: seq<JSONValue>)
    requires c.Valid() && c.pos + 1 < |c.text|
    ensures var gap := SpacesFrom(c);
      gap.result.Success? ==>
        var v := ValueFrom(gap.after);
        v.result.Success? ==>
          var gap' := SpacesFrom(v.after);
          gap'.result.Success? ==>
            var s := NextToken(JsonHandlers, gap'.after);
            var more := elements + [v.result.value];
            && (s.result == Success(None) ==> ElementsFrom(c, elements) == Outcome(Failure(NullToken), s.after))
            && (s.result.Success? && s.result.value.Some? ==>
                  var tt := s.result.value.value.tokenType;
                  && (tt == ClosingBracket ==> ElementsFrom(c, elements) == Outcome(Success(JArray(more)), s.after))
                  && (tt == Comma ==> ElementsFrom(c, elements) == ElementsFrom(s.after, more))
                  && (tt != Comma && tt != ClosingBracket ==>
                        ElementsFrom(c, elements) == Outcome(Failure(InvalidSeparator), s.after)))
  {
  }

  /** The whitespace loop does nothing when no whitespace is next. */
  lemma NoSpaces(c: Cursor)
    requires c.Valid() && !IsWhiteSpace(c.Ahead(1))
    ensures SpacesFrom(c) == Outcome(Success(()), c)
  {
  }

  /** A member read from its key, colon and value, with whitespace allowed
      before each of them. */
  lemma MemberOfParts(c: Cursor, key: Token, k: Cursor, colon: Token, col: Cursor, g: Cursor,
                      v: JSONValue, after: Cursor)
    requires c.Valid() && k.Valid() && col.Valid()
    requires SignificantFrom(c) == Outcome(Success(Some(key)), k) && key.tokenType == StringType
    requires SignificantFrom(k) == Outcome(Success(Some(colon)), col) && colon.tokenType == Colon
    requires SpacesFrom(col) == Outcome(Success(()), g)
    requires ValueFrom(g) == Outcome(Success(v), after)
    ensures MemberFrom(c) == Outcome(Success(Member(key.value, v)), after)
  {
  }

  /** A member has to start with a string token: a null token or a token of
      any other type throws "Not a key". */
  lemma KeyMustBeString(c: Cursor)
    requires c.Valid()
    ensures var k := SignificantFrom(c);
      k.result.Success? && (k.result.value.None? || k.result.value.value.tokenType != StringType) ==>
        MemberFrom(c) == Outcome(Failure(NotAKey), k.after)
  {
  }

  /** After the key the next significant token has to be a colon: a null
      token throws, and a token of any other type throws "No colon". */
  lemma ColonMustFollowKey(c: Cursor)
    requires c.Valid()
    ensures var k := SignificantFrom(c);
      k.result.Success? && k.result.value.Some? && k.result.value.value.tokenType == StringType ==>
        var col := SignificantFrom(k.after);
        && (col.result == Success(None) ==> MemberFrom(c) == Outcome(Failure(NullToken), col.after))
        && (col.result.Success? && col.result.value.Some? && col.result.value.value.tokenType != Colon ==>
              MemberFrom(c) == Outcome(Failure(NoColon), col.after))
  {
  }

  /** A one-digit value that no number character follows. */
  lemma DigitValue(c: Cursor, d: char)
    requires c.Valid() && c.Ahead(1) == d && IsDigit(d) && !IsNumberChar(c.Ahead(2))
    ensures ValueFrom(c) == Outcome(Success(JNumber([d])), c.(pos := c.pos + 1))
  {
    DigitNext(c);
    var token := Token(c.pos, c.line, NumberType, [d]);
    ValueOfToken(c, token, c.(pos := c.pos + 1));
    ParseMapping(token, c.(pos := c.pos + 1));
  }

  /** The key word `true` as a value: accepted by the tokenizer, and parse
      makes it an empty JString. */
  lemma TrueValue(c: Cursor)
    requires c.Valid()
    requires c.Ahead(1) == 't' && c.Ahead(2) == 'r' && c.Ahead(3) == 'u' && c.Ahead(4) == 'e'
    requires !IsLetter(c.Ahead(5))
    ensures ValueFrom(c) == Outcome(Success(JString(None)), c.(pos := c.pos + 4))
  {
    KeyWordDispatch(c);
    TrueLex(c);
    var token := Token(c.pos, c.line, BoolType, "true");
    ValueOfToken(c, token, c.(pos := c.pos + 4));
    ParseMapping(token, c.(pos := c.pos + 4));
  }

  /** The key-word handler on the letters of true. */
  lemma TrueLex(c: Cursor)
    requires c.Valid()
    requires c.Ahead(1) == 't' && c.Ahead(2) == 'r' && c.Ahead(3) == 'u' && c.Ahead(4) == 'e'
    requires !IsLetter(c.Ahead(5))
    ensures Lex(KeyWordsTokenizer, c) == Outcome(Success(Token(c.pos, c.line, BoolType, "true")), c.(pos := c.pos + 4))
  {
    assert c.RunEnd(IsLetterAhead) == c.pos + 4 by {
      assert c.(pos := c.pos + 4).RunEnd(IsLetterAhead) == c.pos + 4;
      assert c.(pos := c.pos + 3).RunEnd(IsLetterAhead) == c.pos + 4;
      assert c.(pos := c.pos + 2).RunEnd(IsLetterAhead) == c.pos + 4;
      assert c.(pos := c.pos + 1).RunEnd(IsLetterAhead) == c.pos + 4;
    }
    TrueWord(c.text[c.pos + 1 .. c.pos + 5]);
  }

  /** Four letters t, r, u, e lower-case to the key word true. */
  lemma TrueWord(s: string)
    requires |s| == 4 && s[0] == 't' && s[1] == 'r' && s[2] == 'u' && s[3] == 'e'
    ensures ToLower(s) == "true"
  {
    var r := ToLower(s);
    assert r[0] == 't' && r[1] == 'r' && r[2] == 'u' && r[3] == 'e';
  }

  /** A closing bracket where a value is expected is parsed as an empty JString. */
  lemma BracketValue(c: Cursor)
    requires c.Valid() && c.Ahead(1) == ']'
    ensures ValueFrom(c) == Outcome(Success(JString(None)), c.(pos := c.pos + 1))
  {
    SpecialNext(c, ']');
    var token := Token(c.pos, c.line, ClosingBracket, [']']);
    ValueOfToken(c, token, c.(pos := c.pos + 1));
    ParseMapping(token, c.(pos := c.pos + 1));
  }

  /** A one-character key and the colon after it. */
  lemma ShortKeyAndColon(c: Cursor, k: char)
    requires c.Valid()
    requires c.Ahead(1) == '"' && c.Ahead(2) == k && c.Ahead(3) == '"' && c.Ahead(4) == ':' && k != '"'
    ensures SignificantFrom(c) == Outcome(Success(Some(Token(c.pos, c.line, StringType, ['"', k, '"']))), c.(pos := c.pos + 3))
    ensures SignificantFrom(c.(pos := c.pos + 3)) ==
              Outcome(Success(Some(Token(c.pos + 3, c.line, Colon, [':']))), c.(pos := c.pos + 4))
  {
    var c3 := c.(pos := c.pos + 3);
    Shifted(c, 3, c3);
    ShortStringNext(c);
    SpecialNext(c3, ':');
  }

  /** The member `"k":d`, for one key character k and one digit d, read from
      the state before its opening quote. */
  lemma ReadsShortMember(c: Cursor, k: char, d: char)
    requires c.Valid()
    requires c.Ahead(1) == '"' && c.Ahead(2) == k && c.Ahead(3) == '"' && c.Ahead(4) == ':' && c.Ahead(5) == d
    requires k != '"' && IsDigit(d) && !IsNumberChar(c.Ahead(6))
    ensures MemberFrom(c) == Outcome(Success(Member(['"', k, '"'], JNumber([d]))), c.(pos := c.pos + 5))
  {
    var c4 := c.(pos := c.pos + 4);
    DigitAfterColon(c, d, c4);
    KeyThenValue(c, k, c4, JNumber([d]), c.(pos := c.pos + 5));
  }

  /** The digit d as the value after a colon at offset 4. */
  lemma DigitAfterColon(c: Cursor, d: char, c4: Cursor)
    requires c.Valid() && c.Ahead(5) == d && IsDigit(d) && !IsNumberChar(c.Ahead(6))
    requires c4 == c.(pos := c.pos + 4)
    ensures c4.Valid() && !IsWhiteSpace(c4.Ahead(1))
    ensures ValueFrom(c4) == Outcome(Success(JNumber([d])), c.(pos := c.pos + 5))
  {
    Shifted(c, 4, c4);
    DigitValue(c4, d);
  }

  /** A one-character key, a colon and a value right after it. */
  lemma KeyThenValue(c: Cursor, k: char, c4: Cursor, v: JSONValue, after: Cursor)
    requires c.Valid()
    requires c.Ahead(1) == '"' && c.Ahead(2) == k && c.Ahead(3) == '"' && c.Ahead(4) == ':' && k != '"'
    requires c4 == c.(pos := c.pos + 4) && !IsWhiteSpace(c4.Ahead(1)) && ValueFrom(c4) == Outcome(Success(v), after)
    ensures MemberFrom(c) == Outcome(Success(Member(['"', k, '"'], v)), after)
  {
    ShortKeyAndColon(c, k);
    NoSpaces(c4);
    MemberOfParts(c, Token(c.pos, c.line, StringType, ['"', k, '"']), c.(pos := c.pos + 3),
                  Token(c.pos + 3, c.line, Colon, [':']), c4, c4, v, after);
  }

  /** The member `"k":true`, read from the state before its opening quote. */
  lemma ReadsTrueMember(c: Cursor, k: char)
    requires c.Valid()
    requires c.Ahead(1) == '"' && c.Ahead(2) == k && c.Ahead(3) == '"' && c.Ahead(4) == ':' && k != '"'
    requires c.Ahead(5) == 't' && c.Ahead(6) == 'r' && c.Ahead(7) == 'u' && c.Ahead(8) == 'e'
    requires !IsLetter(c.Ahead(9))
    ensures MemberFrom(c) == Outcome(Success(Member(['"', k, '"'], JString(None))), c.(pos := c.pos + 8))
  {
    var c4 := c.(pos := c.pos + 4);
    TrueAfterColon(c, c4);
    KeyThenValue(c, k, c4, JString(None), c.(pos := c.pos + 8));
  }

  /** The key word true as the value after a colon at offset 4. */
  lemma TrueAfterColon(c: Cursor, c4: Cursor)
    requires c.Valid() && c.Ahead(5) == 't' && c.Ahead(6) == 'r' && c.Ahead(7) == 'u' && c.Ahead(8) == 'e'
    requires !IsLetter(c.Ahead(9)) && c4 == c.(pos := c.pos + 4)
    ensures c4.Valid() && !IsWhiteSpace(c4.Ahead(1))
    ensures ValueFrom(c4) == Outcome(Success(JString(None)), c.(pos := c.pos + 8))
  {
    Shifted(c, 4, c4);
    TrueValue(c4);
  }

  /** A member and then a token after it: a comma reads on with one more
      entry, any other token ends the object; either way every entry is the
      member just read. */
  lemma MemberThenToken(c: Cursor, entries: seq<Member>, m: Member, after: Cursor, token: Token,
                        next: Cursor, shared: seq<Member>)
    requires c.Valid() && after.Valid() && c.HasMore(1) == Success(true)
    requires MemberFrom(c) == Outcome(Success(m), after)
    requires SignificantFrom(after) == Outcome(Success(Some(token)), next)
    requires shared == Copies(m, |entries| + 1)
    ensures token.tokenType == Comma ==> MembersFrom(c, entries) == MembersFrom(next, shared)
    ensures token.tokenType != Comma ==> MembersFrom(c, entries) == Outcome(Success(JObject(shared)), next)
  {
    MembersStep(c, entries);
  }

  /** The same when the token is a special character `s` right after the member. */
  lemma MemberThenSpecial(c: Cursor, entries: seq<Member>, m: Member, after: Cursor, s: char,
                          next: Cursor, shared: seq<Member>)
    requires c.Valid() && after.Valid() && c.pos + 1 < |c.text|
    requires MemberFrom(c) == Outcome(Success(m), after)
    requires after.Ahead(1) == s && s in SpecialChars
    requires next == after.(pos := after.pos + 1) && shared == Copies(m, |entries| + 1)
    ensures s == ',' ==> MembersFrom(c, entries) == MembersFrom(next, shared)
    ensures s != ',' ==> MembersFrom(c, entries) == Outcome(Success(JObject(shared)), next)
  {
    SpecialNext(after, s);
    var token := Token(after.pos, after.line, SpecialType(s), [s]);
    MemberThenToken(c, entries, m, after, token, next, shared);
  }

  /** With no character left the member loop ends with the entries it has. */
  lemma MembersAtEnd(c: Cursor, entries: seq<Member>)
    requires c.Valid() && c.pos + 1 >= |c.text|
    ensures MembersFrom(c, entries) == Outcome(Success(JObject(entries)), c)
  {
  }

  /** An opening brace starts the member loop with no entries. */
  lemma OpenBrace(c: Cursor)
    requires c.Valid() && c.Ahead(1) == '{'
    ensures ObjectFrom(c) == MembersFrom(c.(pos := c.pos + 1), [])
  {
    ObjectDispatch(c);
  }

  /** `{}` wherever it stands: the closing brace is taken for a key, so
      getObject throws "Not a key". */
  lemma EmptyBracesThrow(c: Cursor)
    requires c.Valid() && c.Ahead(1) == '{' && c.Ahead(2) == '}'
    ensures ObjectFrom(c) == Outcome(Failure(NotAKey), c.(pos := c.pos + 2))
  {
    var c1 := c.(pos := c.pos + 1);
    Shifted(c, 1, c1);
    FirstKeyMustBeString(c);
    SpecialNext(c1, '}');
  }

  /** `{` as the last character: the loop never starts and the object is empty. */
  lemma LoneBraceIsEmpty(c: Cursor)
    requires c.Valid() && c.Ahead(1) == '{' && c.pos + 2 == |c.text|
    ensures ObjectFrom(c) == Outcome(Success(JObject([])), c.(pos := c.pos + 1))
  {
    FirstKeyMustBeString(c);
  }

  /** The member `"k":d` and then a special character `s`: a comma reads on
      with one more entry, any other ends the object, with every entry that
      member. */
  lemma ShortMemberThen(c: Cursor, entries: seq<Member>, k: char, d: char, s: char)
    requires c.Valid()
    requires c.Ahead(1) == '"' && c.Ahead(2) == k && c.Ahead(3) == '"' && c.Ahead(4) == ':' && c.Ahead(5) == d
    requires c.Ahead(6) == s && k != '"' && IsDigit(d) && s in SpecialChars
    ensures var shared := Copies(Member(['"', k, '"'], JNumber([d])), |entries| + 1);
      && (s == ',' ==> MembersFrom(c, entries) == MembersFrom(c.(pos := c.pos + 6), shared))
      && (s != ',' ==> MembersFrom(c, entries) == Outcome(Success(JObject(shared)), c.(pos := c.pos + 6)))
  {
    var m := Member(['"', k, '"'], JNumber([d]));
    var c5 := c.(pos := c.pos + 5);
    Shifted(c, 5, c5);
    ReadsShortMember(c, k, d);
    MemberThenSpecial(c, entries, m, c5, s, c.(pos := c.pos + 6), Copies(m, |entries| + 1));
  }

  /** `{"a":1,"b":2}` wherever it stands: both entries are the one JKeyValue,
      so both show the last member. */
  lemma SharedEntryShowsLastMember(c: Cursor)
    requires c.Valid()
    requires c.Ahead(1) == '{' && c.Ahead(2) == '"' && c.Ahead(3) == 'a' && c.Ahead(4) == '"'
    requires c.Ahead(5) == ':' && c.Ahead(6) == '1' && c.Ahead(7) == ','
    requires c.Ahead(8) == '"' && c.Ahead(9) == 'b' && c.Ahead(10) == '"'
    requires c.Ahead(11) == ':' && c.Ahead(12) == '2' && c.Ahead(13) == '}'
    ensures ObjectFrom(c) ==
      Outcome(Success(JObject([Member("\"b\"", JNumber("2")), Member("\"b\"", JNumber("2"))])), c.(pos := c.pos + 13))
  {
    var c1, c7 := c.(pos := c.pos + 1), c.(pos := c.pos + 7);
    Shifted(c, 1, c1);
    Shifted(c, 7, c7);
    OpenBrace(c);
    FirstOfTwo(c1);
    SecondOfTwo(c7, Member("\"a\"", JNumber("1")));
  }

  /** `"a":1,` read from the state before `"a"`: one entry, and the loop reads on. */
  lemma FirstOfTwo(c: Cursor)
    requires c.Valid()
    requires c.Ahead(1) == '"' && c.Ahead(2) == 'a' && c.Ahead(3) == '"' && c.Ahead(4) == ':'
    requires c.Ahead(5) == '1' && c.Ahead(6) == ','
    ensures MembersFrom(c, []) == MembersFrom(c.(pos := c.pos + 6), [Member("\"a\"", JNumber("1"))])
  {
    var first := Member("\"a\"", JNumber("1"));
    assert first == Member(['"', 'a', '"'], JNumber(['1']));
    assert Copies(first, 1) == [first];
    ShortMemberThen(c, [], 'a', '1', ',');
  }

  /** The second half of `{"a":1,"b":2}`, read from the state before `"b"`. */
  lemma SecondOfTwo(c: Cursor, first: Member)
    requires c.Valid()
    requires c.Ahead(1) == '"' && c.Ahead(2) == 'b' && c.Ahead(3) == '"' && c.Ahead(4) == ':'
    requires c.Ahead(5) == '2' && c.Ahead(6) == '}'
    ensures MembersFrom(c, [first]) ==
      Outcome(Success(JObject([Member("\"b\"", JNumber("2")), Member("\"b\"", JNumber("2"))])), c.(pos := c.pos + 6))
  {
    var second := Member("\"b\"", JNumber("2"));
    assert Copies(second, 2) == [second, second];
    ShortMemberThen(c, [first], 'b', '2', '}');
  }

  /** `{"a":1 "b":2}` wherever it stands: a missing comma ends the object after
      the first member with no error, and what follows is left unread. */
  lemma MissingCommaEndsObject(c: Cursor)
    requires c.Valid()
    requires c.Ahead(1) == '{' && c.Ahead(2) == '"' && c.Ahead(3) == 'a' && c.Ahead(4) == '"'
    requires c.Ahead(5) == ':' && c.Ahead(6) == '1' && c.Ahead(7) == ' '
    requires c.Ahead(8) == '"' && c.Ahead(9) == 'b' && c.Ahead(10) == '"'
    ensures ObjectFrom(c) == Outcome(Success(JObject([Member("\"a\"", JNumber("1"))])), c.(pos := c.pos + 10))
  {
    var c1 := c.(pos := c.pos + 1);
    Shifted(c, 1, c1);
    OpenBrace(c);
    MemberThenString(c1);
  }

  /** The member `"a":1` and then ` "b"`: the string is not a comma, so the
      loop ends after one entry. */
  lemma MemberThenString(c: Cursor)
    requires c.Valid()
    requires c.Ahead(1) == '"' && c.Ahead(2) == 'a' && c.Ahead(3) == '"' && c.Ahead(4) == ':'
    requires c.Ahead(5) == '1' && c.Ahead(6) == ' ' && c.Ahead(7) == '"' && c.Ahead(8) == 'b' && c.Ahead(9) == '"'
    ensures MembersFrom(c, []) == Outcome(Success(JObject([Member("\"a\"", JNumber("1"))])), c.(pos := c.pos + 9))
  {
    var first := Member("\"a\"", JNumber("1"));
    assert first == Member(['"', 'a', '"'], JNumber(['1']));
    assert Copies(first, 1) == [first];
    var c5 := c.(pos := c.pos + 5);
    Shifted(c, 5, c5);
    ReadsShortMember(c, 'a', '1');
    SpaceThenShortString(c5, 'b');
    var next := c5.(pos := c5.pos + 4);
    MemberThenToken(c, [], first, c5, Token(c5.pos + 1, c5.line, StringType, ['"', 'b', '"']), next, [first]);
    assert next == c.(pos := c.pos + 9);
  }

  /** One space and then a string `"k"`: the space is skipped and the string
      is the significant token. */
  lemma SpaceThenShortString(c: Cursor, k: char)
    requires c.Valid() && c.Ahead(1) == ' ' && c.Ahead(2) == '"' && c.Ahead(3) == k && c.Ahead(4) == '"' && k != '"'
    ensures SignificantFrom(c) ==
              Outcome(Success(Some(Token(c.pos + 1, c.line, StringType, ['"', k, '"']))), c.(pos := c.pos + 4))
  {
    WhiteSpaceDispatch(c);
    var d := c.(pos := c.pos + 1);
    assert c.RunEnd(IsWhiteSpaceAhead) == d.RunEnd(IsWhiteSpaceAhead) == d.pos;
    assert c.text[c.pos + 1 .. d.pos + 1] == [' '];
    ShortStringNext(d);
  }

  /** `{"a":1,` at the end of the input: the comma ends the loop normally. */
  lemma TrailingCommaAtEnd(c: Cursor)
    requires c.Valid() && c.pos + 8 == |c.text|
    requires c.Ahead(1) == '{' && c.Ahead(2) == '"' && c.Ahead(3) == 'a' && c.Ahead(4) == '"'
    requires c.Ahead(5) == ':' && c.Ahead(6) == '1' && c.Ahead(7) == ','
    ensures ObjectFrom(c) == Outcome(Success(JObject([Member("\"a\"", JNumber("1"))])), c.(pos := c.pos + 7))
  {
    var c1, c7 := c.(pos := c.pos + 1), c.(pos := c.pos + 7);
    Shifted(c, 1, c1);
    OpenBrace(c);
    FirstOfTwo(c1);
    MembersAtEnd(c7, [Member("\"a\"", JNumber("1"))]);
  }

  /** A closing brace where the member loop expects a key is taken for a key
      and throws "Not a key", whatever entries were read before. */
  lemma BraceWhereKey(c: Cursor, entries: seq<Member>)
    requires c.Valid() && c.Ahead(1) == '}'
    ensures MembersFrom(c, entries) == Outcome(Failure(NotAKey), c.(pos := c.pos + 1))
  {
    SpecialNext(c, '}');
    KeyMustBeString(c);
    MembersStep(c, entries);
  }

  /** `{"a":1,}` wherever it stands: after the comma the closing brace is read
      as the next key, so getObject throws "Not a key". */
  lemma CommaThenBraceThrows(c: Cursor)
    requires c.Valid()
    requires c.Ahead(1) == '{' && c.Ahead(2) == '"' && c.Ahead(3) == 'a' && c.Ahead(4) == '"'
    requires c.Ahead(5) == ':' && c.Ahead(6) == '1' && c.Ahead(7) == ',' && c.Ahead(8) == '}'
    ensures ObjectFrom(c) == Outcome(Failure(NotAKey), c.(pos := c.pos + 8))
  {
    var c1, c7 := c.(pos := c.pos + 1), c.(pos := c.pos + 7);
    Shifted(c, 1, c1);
    Shifted(c, 7, c7);
    OpenBrace(c);
    FirstOfTwo(c1);
    BraceWhereKey(c7, [Member("\"a\"", JNumber("1"))]);
  }

  /** `{"a":true}` wherever it stands: the member's value is an empty JString. */
  lemma TrueBecomesEmptyString(c: Cursor)
    requires c.Valid()
    requires c.Ahead(1) == '{' && c.Ahead(2) == '"' && c.Ahead(3) == 'a' && c.Ahead(4) == '"' && c.Ahead(5) == ':'
    requires c.Ahead(6) == 't' && c.Ahead(7) == 'r' && c.Ahead(8) == 'u' && c.Ahead(9) == 'e' && c.Ahead(10) == '}'
    ensures ObjectFrom(c) == Outcome(Success(JObject([Member("\"a\"", JString(None))])), c.(pos := c.pos + 10))
  {
    var first := Member("\"a\"", JString(None));
    var c1 := c.(pos := c.pos + 1);
    Shifted(c, 1, c1);
    OpenBrace(c);
    TrueMemberThenBrace(c1);
    assert Copies(first, 1) == [first];
  }

  /** The member `"a":true` and a closing brace, read from the state before `"a"`. */
  lemma TrueMemberThenBrace(c: Cursor)
    requires c.Valid()
    requires c.Ahead(1) == '"' && c.Ahead(2) == 'a' && c.Ahead(3) == '"' && c.Ahead(4) == ':'
    requires c.Ahead(5) == 't' && c.Ahead(6) == 'r' && c.Ahead(7) == 'u' && c.Ahead(8) == 'e' && c.Ahead(9) == '}'
    ensures MembersFrom(c, []) == Outcome(Success(JObject(Copies(Member("\"a\"", JString(None)), 1))), c.(pos := c.pos + 9))
  {
    var first := Member(['"', 'a', '"'], JString(None));
    var c8 := c.(pos := c.pos + 8);
    Shifted(c, 8, c8);
    ReadsTrueMember(c, 'a');
    MemberThenSpecial(c, [], first, c8, '}', c.(pos := c.pos + 9), Copies(first, 1));
  }

  /** An opening bracket starts the element loop with no elements. */
  lemma OpenBracket(c: Cursor)
    requires c.Valid() && c.Ahead(1) == '['
    ensures ArrayFrom(c) == ElementsFrom(c.(pos := c.pos + 1), [])
  {
    SpecialNext(c, '[');
  }

  /** One element, with the whitespace before it and after it, and the token
      that follows: a null token throws, a closing bracket ends the array, a
      comma reads on and any other token is an invalid separator. */
  lemma ElementThen(c: Cursor, elements: seq<JSONValue>, g: Cursor, v: JSONValue, after: Cursor,
                    g': Cursor, s: Outcome<Option<Token>>, more: seq<JSONValue>)
    requires c.Valid() && c.pos + 1 < |c.text|
    requires SpacesFrom(c) == Outcome(Success(()), g) && ValueFrom(g) == Outcome(Success(v), after)
    requires SpacesFrom(after) == Outcome(Success(()), g') && NextToken(JsonHandlers, g') == s
    requires more == elements + [v]
    ensures s.result == Success(None) ==> ElementsFrom(c, elements) == Outcome(Failure(NullToken), s.after)
    ensures s.result.Success? && s.result.value.Some? && s.result.value.value.tokenType == ClosingBracket ==>
              ElementsFrom(c, elements) == Outcome(Success(JArray(more)), s.after)
    ensures s.result.Success? && s.result.value.Some? && s.result.value.value.tokenType == Comma ==>
              ElementsFrom(c, elements) == ElementsFrom(s.after, more)
    ensures s.result.Success? && s.result.value.Some? &&
            s.result.value.value.tokenType != Comma && s.result.value.value.tokenType != ClosingBracket ==>
              ElementsFrom(c, elements) == Outcome(Failure(InvalidSeparator), s.after)
  {
    ArraySeparator(c, elements);
  }

  /** `[]` at the end of the input: the closing bracket is parsed as a value
      and the separator after it is a null token, so getArray throws. */
  lemma EmptyArrayAtEndThrows(c: Cursor)
    requires c.Valid() && c.Ahead(1) == '[' && c.Ahead(2) == ']' && c.pos + 3 == |c.text|
    ensures ArrayFrom(c) == Outcome(Failure(NullToken), c.(pos := c.pos + 2))
  {
    OpenBracket(c);
    var c0, c1 := c.(pos := c.pos + 1), c.(pos := c.pos + 2);
    BracketValue(c0);
    EndDispatch(c1);
    NoSpaces(c0);
    NoSpaces(c1);
    ElementThen(c0, [], c0, JString(None), c1, c1, Outcome(Success(None), c1), [JString(None)]);
  }

  /** `[]]` wherever it stands: the first closing bracket becomes an empty
      JString element and the second one closes the array. */
  lemma EmptyArrayReadsBracketAsValue(c: Cursor)
    requires c.Valid() && c.Ahead(1) == '[' && c.Ahead(2) == ']' && c.Ahead(3) == ']'
    ensures ArrayFrom(c) == Outcome(Success(JArray([JString(None)])), c.(pos := c.pos + 3))
  {
    var c1 := c.(pos := c.pos + 1);
    Shifted(c, 1, c1);
    OpenBracket(c);
    BracketThenBracket(c1);
  }

  /** `]]` after the opening bracket: one empty JString element, then the end. */
  lemma BracketThenBracket(c: Cursor)
    requires c.Valid() && c.Ahead(1) == ']' && c.Ahead(2) == ']'
    ensures ElementsFrom(c, []) == Outcome(Success(JArray([JString(None)])), c.(pos := c.pos + 2))
  {
    var c1 := c.(pos := c.pos + 1);
    TwoBrackets(c, c1);
    NoSpaces(c);
    NoSpaces(c1);
    ElementThen(c, [], c, JString(None), c1, c1,
                Outcome(Success(Some(Token(c1.pos, c.line, ClosingBracket, [']']))), c.(pos := c.pos + 2)),
                [JString(None)]);
  }

  /** The tokens of `]]`: the first read as a value, the second as the token after it. */
  lemma TwoBrackets(c: Cursor, c1: Cursor)
    requires c.Valid() && c.Ahead(1) == ']' && c.Ahead(2) == ']' && c1 == c.(pos := c.pos + 1)
    ensures c.pos + 1 < |c.text| && c1.Valid() && !IsWhiteSpace(c.Ahead(1)) && !IsWhiteSpace(c1.Ahead(1))
    ensures ValueFrom(c) == Outcome(Success(JString(None)), c1)
    ensures NextToken(JsonHandlers, c1) ==
              Outcome(Success(Some(Token(c1.pos, c.line, ClosingBracket, [']']))), c.(pos := c.pos + 2))
  {
    BracketValue(c);
    Shifted(c, 1, c1);
    SpecialNext(c1, ']');
    assert SpecialType(']') == ClosingBracket;
  }
}
