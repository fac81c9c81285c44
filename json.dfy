/** The tree builder of JSON.cs. `ObjectFrom`, `ArrayFrom`, `ParseFrom` and the
    functions they use are the meaning of getObject, getArray and parse on a
    cursor value; the class `JSON` runs the same steps on its shared `Input`
    and is proved to agree with them. */
module Json {
  import opened Results
  import opened Chars
  import opened Inputs
  import opened Tokenizers

  /** The JSONValue family. A JString made by `new JString()` holds no value
      (None). A JNumber keeps the text that double.Parse would convert. */
  datatype JSONValue =
    | JObject(members: seq<Member>)
    | JArray(elements: seq<JSONValue>)
    | JString(value: Option<string>)
    | JNumber(text: string)
    | JBool(flag: bool)
    | JNull

  /** The key and value a JKeyValue reference shows once parsing is over. */
  datatype Member = Member(key: string, value: JSONValue)

  /** Every entry of the list is the same as the last one. */
  predicate AllAlike(members: seq<Member>) {
    forall i | 0 <= i < |members| :: members[i] == members[|members| - 1]
  }

  /** The trees the reader can build: every object's entries are alike (they
      are one aliased JKeyValue) and no JBool or JNull occurs anywhere. */
  predicate Produced(v: JSONValue) {
    match v
    case JObject(members) => AllAlike(members) && forall m | m in members :: Produced(m.value)
    case JArray(elements) => forall x | x in elements :: Produced(x)
    case JString(_) => true
    case JNumber(_) => true
    case JBool(_) => false
    case JNull => false
  }

  /** The handler array getObject and getArray give their tokenizers. */
  const JsonHandlers: seq<Handler> :=
    [StringTokenizer, KeyWordsTokenizer, NumberTokenizer, WhiteSpaceTokenizer, SpecialCharacterTokenizer]

  /** A token that the code goes on to use: a null one fails with `e`. */
  function NonNull(o: Outcome<Option<Token>>, e: Error): Outcome<Token> {
    match o.result
    case Failure(err) => Outcome(Failure(err), o.after)
    case Success(None) => Outcome(Failure(e), o.after)
    case Success(Some(token)) => Outcome(Success(token), o.after)
  }

  /** The whitespace loop before a value and before an array separator: while
      peek() is whitespace, one more token is read (and dereferenced). */
  function SpacesFrom(c: Cursor): (o: Outcome<()>)
    requires c.Valid()
    ensures c.Reaches(o.after)
    ensures o.result.Success? ==> !IsWhiteSpace(o.after.Ahead(1))
    decreases |c.text| - c.pos
  {
    if IsWhiteSpace(c.Ahead(1)) then
      var ws :- NonNull(NextToken(JsonHandlers, c), NullToken);
      SpacesFrom(ws.at)
    else
      Outcome(Success(()), c)
  }

  /** The next token that is not whitespace, or null when the tokenizer has
      none (the key and colon reads of getObject and its separator read). */
  function SignificantFrom(c: Cursor): (o: Outcome<Option<Token>>)
    requires c.Valid()
    ensures c.Reaches(o.after)
    ensures o.result.Success? && o.result.value.Some? ==>
              o.after.pos > c.pos && o.result.value.value.tokenType != WhitespaceType
    decreases |c.text| - c.pos
  {
    var next := NextToken(JsonHandlers, c);
    if next.result.Success? && next.result.value.Some? && next.result.value.value.tokenType == WhitespaceType
    then SignificantFrom(next.after)
    else next
  }

  /** parse(token), with the cursor where it is called. */
  function ParseFrom(token: Token, c: Cursor): (o: Outcome<JSONValue>)
    requires c.Valid()
    ensures c.Reaches(o.after)
    decreases |c.text| - c.pos, 2
  {
    match token.tokenType
    case NumberType => Outcome(Success(JNumber(token.value)), c)
    case OpeningBrace => ObjectFrom(c)
    case StringType => Outcome(Success(JString(Some(token.value))), c)
    case _ => Outcome(Success(JString(None)), c)
  }

  /** getObject(). */
  function ObjectFrom(c: Cursor): (o: Outcome<JSONValue>)
    requires c.Valid()
    ensures c.Reaches(o.after)
    ensures o.result.Success? ==> o.result.value.JObject?
    decreases |c.text| - c.pos, 1
  {
    if c.Ahead(1) == '{' then
      var open :- NonNull(NextToken(JsonHandlers, c), NullToken);
      MembersFrom(open.at, [])
    else if c.Ahead(1) == '[' then
      var discarded :- ArrayFrom(c);
      Outcome(Success(JObject([])), discarded.at)
    else
      Outcome(Failure(NotObject), c)
  }

  /** One member of getObject: a string key, a colon and a value, each after
      optional whitespace. */
  function MemberFrom(c: Cursor): (o: Outcome<Member>)
    requires c.Valid()
    ensures c.Reaches(o.after)
    ensures o.result.Success? ==> o.after.pos > c.pos
    decreases |c.text| - c.pos, 2
  {
    var key :- NonNull(SignificantFrom(c), NotAKey);
    if key.it.tokenType != StringType then
      Outcome(Failure(NotAKey), key.at)
    else
      var colon :- NonNull(SignificantFrom(key.at), NullToken);
      if colon.it.tokenType != Colon then
        Outcome(Failure(NoColon), colon.at)
      else
        var gap :- SpacesFrom(colon.at);
        var v :- ValueFrom(gap.at);
        Outcome(Success(Member(key.it.value, v.it)), v.at)
  }

  /** n entries that are all `m`. */
  function Copies(m: Member, n: nat): (r: seq<Member>)
    ensures |r| == n && forall i | 0 <= i < n :: r[i] == m
  {
    seq(n, _ => m)
  }

  /** The member loop of getObject, with the entries added so far. Re-adding
      the one JKeyValue makes every entry show the member just read. */
  function MembersFrom(c: Cursor, entries: seq<Member>): (o: Outcome<JSONValue>)
    requires c.Valid()
    ensures c.Reaches(o.after)
    ensures o.result.Success? ==> o.result.value.JObject?
    decreases |c.text| - c.pos, 3
  {
    if c.HasMore(1) != Success(true) then
      Outcome(Success(JObject(entries)), c)
    else
      var member :- MemberFrom(c);
      var shared := Copies(member.it, |entries| + 1);
      var sep :- NonNull(SignificantFrom(member.at), NullToken);
      if sep.it.tokenType == Comma then
        MembersFrom(sep.at, shared)
      else
        Outcome(Success(JObject(shared)), sep.at)
  }

  /** One turn of the member loop, in terms of the member read and the token after it. */
  lemma MembersStep(c: Cursor, entries: seq<Member>)
    requires c.Valid() && c.HasMore(1) == Success(true)
    ensures var m := MemberFrom(c);
      m.result.Failure? ==> MembersFrom(c, entries) == Outcome(Failure(m.result.error), m.after)
    ensures var m := MemberFrom(c);
      m.result.Success? ==>
        var shared := Copies(m.result.value, |entries| + 1);
        var sep := SignificantFrom(m.after);
        MembersFrom(c, entries) ==
          match sep.result
          case Failure(e) => Outcome(Failure(e), sep.after)
          case Success(None) => Outcome(Failure(NullToken), sep.after)
          case Success(Some(token)) =>
            if token.tokenType == Comma then MembersFrom(sep.after, shared)
            else Outcome(Success(JObject(shared)), sep.after)
  {
  }

  /** getArray(). */
  function ArrayFrom(c: Cursor): (o: Outcome<JSONValue>)
    requires c.Valid()
    ensures c.Reaches(o.after)
    ensures o.result.Success? ==> o.result.value.JArray?
    decreases |c.text| - c.pos, 0
  {
    var open :- NonNull(NextToken(JsonHandlers, c), NullToken);
    ElementsFrom(open.at, [])
  }

  /** The element loop of getArray, with the elements added so far. */
  function ElementsFrom(c: Cursor, elements: seq<JSONValue>): (o: Outcome<JSONValue>)
    requires c.Valid()
    ensures c.Reaches(o.after)
    ensures o.result.Success? ==> o.result.value.JArray?
    decreases |c.text| - c.pos, 3
  {
    if c.HasMore(1) != Success(true) then
      Outcome(Success(JArray(elements)), c)
    else
      var gap :- SpacesFrom(c);
      var v :- ValueFrom(gap.at);
      var gap' :- SpacesFrom(v.at);
      var sep :- NonNull(NextToken(JsonHandlers, gap'.at), NullToken);
      if sep.it.tokenType != Comma && sep.it.tokenType != ClosingBracket then
        Outcome(Failure(InvalidSeparator), sep.at)
      else if sep.it.tokenType == ClosingBracket then
        Outcome(Success(JArray(elements + [v.it])), sep.at)
      else
        ElementsFrom(sep.at, elements + [v.it])
  }

  /** The value of an object member or an array element: an object or array
      if peek() opens one, else one token given to parse. */
  function ValueFrom(c: Cursor): (o: Outcome<JSONValue>)
    requires c.Valid()
    ensures c.Reaches(o.after)
    decreases |c.text| - c.pos, 2
  {
    if c.Ahead(1) == '{' then
      ObjectFrom(c)
    else if c.Ahead(1) == '[' then
      ArrayFrom(c)
    else
      var token :- NonNull(NextToken(JsonHandlers, c), NullToken);
      ParseFrom(token.it, token.at)
  }

  /** The single JKeyValue that getObject allocates and overwrites. */
  class JKeyValue {
    var key: string
    var value: JSONValue

    /** C# leaves both fields null; they are read only after being set. */
    constructor ()
      ensures key == "" && value == JString(None)
    {
      key := "";
      value := JString(None);
    }
  }

  /** What a list of JKeyValue references shows. */
  function View(list: seq<JKeyValue>): (members: seq<Member>)
    reads list
    ensures |members| == |list|
    ensures forall i | 0 <= i < |list| :: members[i] == Member(list[i].key, list[i].value)
  {
    seq(|list|, i requires 0 <= i < |list| reads list => Member(list[i].key, list[i].value))
  }

  /** What n references to the one JKeyValue `kv` show. */
  function Aliases(n: nat, kv: JKeyValue): (members: seq<Member>)
    reads kv
    ensures |members| == n
  {
    Copies(Member(kv.key, kv.value), n)
  }

  /** Adding kv once more to a list of references to kv. */
  lemma AliasesGrow(list: seq<JKeyValue>, kv: JKeyValue)
    requires forall e | e in list :: e == kv
    ensures forall e | e in list + [kv] :: e == kv
  {
  }

  lemma ViewOfAliases(list: seq<JKeyValue>, kv: JKeyValue)
    requires forall e | e in list :: e == kv
    ensures View(list) == Aliases(|list|, kv)
  {
    forall i | 0 <= i < |list| ensures View(list)[i] == Aliases(|list|, kv)[i] {
      assert list[i] in list;
    }
  }

  class JSON {
    const input: Input

    constructor (text: string)
      ensures fresh(input) && input.State() == Cursor(text, -1, 1)
    {
      input := new Input(text);
    }

    method Parse(token: Token) returns (r: Result<JSONValue>)
      requires input.Valid()
      modifies input`position
      ensures Outcome(r, input.State()) == ParseFrom(token, old(input.State()))
      decreases |input.text| - input.position, 2
    {
      if token.tokenType == NumberType {
        r := Success(JNumber(token.value));
      } else if token.tokenType == OpeningBrace {
        r := GetObject();
      } else if token.tokenType == StringType {
        r := Success(JString(Some(token.value)));
      } else {
        r := Success(JString(None));
      }
    }

    method GetObject() returns (r: Result<JSONValue>)
      requires input.Valid()
      modifies input`position
      ensures Outcome(r, input.State()) == ObjectFrom(old(input.State()))
      decreases |input.text| - input.position, 1
    {
      var keyValue := new JKeyValue();
      var t := new Tokenizer.FromInput(input, JsonHandlers);
      if input.State().Ahead(1) == '{' {
        var open := t.Tokenize();
        if open.Failure? {
          return Failure(open.error);
        }
        if open.value.None? {
          return Failure(NullToken);
        }
        r := ReadMembers(t, keyValue);
      } else if input.State().Ahead(1) == '[' {
        var discarded := GetArray();
        if discarded.Failure? {
          return Failure(discarded.error);
        }
        r := Success(JObject([]));
      } else {
        r := Failure(NotObject);
      }
    }

    /** getObject's member loop, after the opening brace: every turn reads a
        member into the one keyValue and adds that same object to the list. */
    method ReadMembers(t: Tokenizer, keyValue: JKeyValue) returns (r: Result<JSONValue>)
      requires t.input == input && t.handlers == JsonHandlers && input.Valid()
      modifies input`position, keyValue
      ensures Outcome(r, input.State()) == MembersFrom(old(input.State()), [])
      decreases |input.text| - input.position, 4
    {
      var list: seq<JKeyValue> := [];
      while input.State().HasMore(1) == Success(true)
        invariant input.Valid() && old(input.position) <= input.position
        invariant input.lineNumber == old(input.lineNumber)
        invariant forall e | e in list :: e == keyValue
        invariant MembersFrom(old(input.State()), []) == MembersFrom(input.State(), Aliases(|list|, keyValue))
        decreases |input.text| - input.position
      {
        ghost var here, entries := input.State(), Aliases(|list|, keyValue);
        assert MembersFrom(old(input.State()), []) == MembersFrom(here, entries);
        var more := MemberTurn(t, keyValue, entries);
        AliasesGrow(list, keyValue);
        list := list + [keyValue];
        assert Aliases(|list|, keyValue) == Aliases(|entries| + 1, keyValue);
        if more.Failure? {
          return Failure(more.error);
        }
        if !more.value {
          ViewOfAliases(list, keyValue);
          return Success(JObject(View(list)));
        }
      }
      ViewOfAliases(list, keyValue);
      r := Success(JObject(View(list)));
    }

    /** One turn of the member loop: a member read into keyValue, list.Add, and
        the separator after it. True means a comma, so the loop goes on; false
        means any other token, a closing brace or not, which ends the object
        without an error. `entries` is what the list shows before the turn. */
    method MemberTurn(t: Tokenizer, keyValue: JKeyValue, ghost entries: seq<Member>) returns (r: Result<bool>)
      requires t.input == input && t.handlers == JsonHandlers && input.Valid()
      requires input.State().HasMore(1) == Success(true)
      modifies input`position, keyValue
      ensures input.Valid() && input.lineNumber == old(input.lineNumber)
      ensures r.Success? ==> old(input.position) < input.position
      ensures var o, shared := MembersFrom(old(input.State()), entries), Aliases(|entries| + 1, keyValue);
        && (r.Failure? ==> o == Outcome(Failure(r.error), input.State()))
        && (r == Success(true) ==> o == MembersFrom(input.State(), shared))
        && (r == Success(false) ==> o == Outcome(Success(JObject(shared)), input.State()))
      decreases |input.text| - input.position, 3
    {
      ghost var here := input.State();
      MembersStep(here, entries);
      var read := ReadMember(t, keyValue);
      if read.Failure? {
        return Failure(read.error);
      }
      assert Aliases(|entries| + 1, keyValue) == Copies(MemberFrom(here).result.value, |entries| + 1);
      var sep := NextSignificant(t);
      if sep.Failure? {
        return Failure(sep.error);
      }
      if sep.value.None? {
        return Failure(NullToken);
      }
      r := Success(sep.value.value.tokenType == Comma);
    }

    /** The body of getObject's loop up to list.Add: reads a key, a colon and a
        value, writing the key and then the value into the shared keyValue. */
    method ReadMember(t: Tokenizer, keyValue: JKeyValue) returns (r: Result<()>)
      requires t.input == input && t.handlers == JsonHandlers && input.Valid()
      modifies input`position, keyValue
      ensures var o := MemberFrom(old(input.State()));
        && input.State() == o.after
        && (r.Success? <==> o.result.Success?)
        && (r.Failure? ==> r.error == o.result.error)
        && (r.Success? ==> Member(keyValue.key, keyValue.value) == o.result.value)
      decreases |input.text| - input.position, 2
    {
      var key := NextSignificant(t);
      if key.Failure? {
        return Failure(key.error);
      }
      if key.value.None? || key.value.value.tokenType != StringType {
        return Failure(NotAKey);
      }
      keyValue.key := key.value.value.value;
      var colon := NextSignificant(t);
      if colon.Failure? {
        return Failure(colon.error);
      }
      if colon.value.None? {
        return Failure(NullToken);
      }
      if colon.value.value.tokenType != Colon {
        return Failure(NoColon);
      }
      var gap := SkipWhiteSpace(t);
      if gap.Failure? {
        return Failure(gap.error);
      }
      var value := Value(t);
      if value.Failure? {
        return Failure(value.error);
      }
      keyValue.value := value.value;
      r := Success(());
    }

    method GetArray() returns (r: Result<JSONValue>)
      requires input.Valid()
      modifies input`position
      ensures Outcome(r, input.State()) == ArrayFrom(old(input.State()))
      decreases |input.text| - input.position, 0
    {
      var elements: seq<JSONValue> := [];
      var t := new Tokenizer.FromInput(input, JsonHandlers);
      var open := t.Tokenize();
      if open.Failure? {
        return Failure(open.error);
      }
      if open.value.None? {
        return Failure(NullToken);
      }
      while input.State().HasMore(1) == Success(true)
        invariant input.Valid() && old(input.position) < input.position
        invariant input.lineNumber == old(input.lineNumber)
        invariant ArrayFrom(old(input.State())) == ElementsFrom(input.State(), elements)
        decreases |input.text| - input.position
      {
        var gap := SkipWhiteSpace(t);
        if gap.Failure? {
          return Failure(gap.error);
        }
        var value := Value(t);
        if value.Failure? {
          return Failure(value.error);
        }
        elements := elements + [value.value];
        var gap' := SkipWhiteSpace(t);
        if gap'.Failure? {
          return Failure(gap'.error);
        }
        var sep := t.Tokenize();
        if sep.Failure? {
          return Failure(sep.error);
        }
        if sep.value.None? {
          return Failure(NullToken);
        }
        if sep.value.value.tokenType != Comma && sep.value.value.tokenType != ClosingBracket {
          return Failure(InvalidSeparator);
        } else if sep.value.value.tokenType == ClosingBracket {
          break;
        }
      }
      r := Success(JArray(elements));
    }

    /** The value dispatch that getObject and getArray both spell out. */
    method Value(t: Tokenizer) returns (r: Result<JSONValue>)
      requires t.input == input && t.handlers == JsonHandlers && input.Valid()
      modifies input`position
      ensures Outcome(r, input.State()) == ValueFrom(old(input.State()))
      decreases |input.text| - input.position, 2
    {
      if input.State().Ahead(1) == '{' {
        r := GetObject();
      } else if input.State().Ahead(1) == '[' {
        r := GetArray();
      } else {
        var token := t.Tokenize();
        if token.Failure? {
          return Failure(token.error);
        }
        if token.value.None? {
          return Failure(NullToken);
        }
        r := Parse(token.value.value);
      }
    }

    /** The whitespace loop driven by peek(). */
    method SkipWhiteSpace(t: Tokenizer) returns (r: Result<()>)
      requires t.input == input && t.handlers == JsonHandlers && input.Valid()
      modifies input`position
      ensures Outcome(r, input.State()) == SpacesFrom(old(input.State()))
    {
      while IsWhiteSpace(input.State().Ahead(1))
        invariant input.Valid()
        invariant SpacesFrom(input.State()) == SpacesFrom(old(input.State()))
        decreases |input.text| - input.position
      {
        var token := t.Tokenize();
        if token.Failure? {
          return Failure(token.error);
        }
        if token.value.None? {
          return Failure(NullToken);
        }
      }
      r := Success(());
    }

    /** The whitespace loop driven by the token type. */
    method NextSignificant(t: Tokenizer) returns (r: Result<Option<Token>>)
      requires t.input == input && t.handlers == JsonHandlers && input.Valid()
      modifies input`position
      ensures Outcome(r, input.State()) == SignificantFrom(old(input.State()))
    {
      r := t.Tokenize();
      while r.Success? && r.value.Some? && r.value.value.tokenType == WhitespaceType
        invariant input.Valid()
        invariant old(input.State()).Reaches(input.State())
        invariant SignificantFrom(old(input.State())) ==
          if r.Success? && r.value.Some? && r.value.value.tokenType == WhitespaceType
          then SignificantFrom(input.State())
          else Outcome(r, input.State())
        decreases |input.text| - input.position,
          if r.Success? && r.value.Some? && r.value.value.tokenType == WhitespaceType then 1 else 0
      {
        r := t.Tokenize();
      }
    }
  }
}
