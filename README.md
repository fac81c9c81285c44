# A loose JSON reader: cursor, tokenizer and tree builder

This project models the core of JSONTokenizerProject, a hand-written C# JSON
reader, and proves properties of the model. The core has two parts:

- `Tokenizers.cs` has three pieces:
  - the character cursor `Input`;
  - the `Token` record;
  - the dispatcher `Tokenizer.tokenize`, with its five handlers (key words,
    numbers, whitespace, special characters, strings).
- `JSON.cs` holds the recursive-descent tree builder (`parse`, `getObject`,
  `getArray`) over one shared `Input`, and the `JSONValue` family.

The model follows the code as written, not RFC 8259, and not what one would
expect a JSON reader to do. It keeps these quirks:

- true, false and null are accepted by the tokenizer, but `parse` makes each
  of them an empty `JString`. `JBool` and `JNull` are never built.
- `{}` fails with "Not a key": the closing brace is read where a key is
  expected.
- After a member, any token other than a comma ends the object without an
  error. A missing comma is not reported.
- A trailing comma before the closing brace, as in `{"a":1,}`, fails with
  "Not a key": the brace is read where the next key is expected.
- The member loop also ends, without an error, when the input runs out. So a
  lone `{`, or a trailing comma at the end of the input, returns normally.
- getObject allocates one `JKeyValue` and re-adds it for every member. Every
  entry of the resulting object is therefore the last member read.
- getArray has no empty-array case. In `[]]` the first `]` becomes an empty
  `JString` element and the second closes the array. In `[]` at the end of the
  input, the missing separator token is dereferenced and the read fails.
- A string token runs from a quote to the next quote with no escape handling.
  With no closing quote it silently takes the rest of the input.
- `getObject` on `[` reads an array, discards it, and returns an empty object.

Every thrown exception is an `Error` value. Each place where the code
dereferences a token that `tokenize` returned as null is the error
`NullToken`.

The project has seven modules, one per file:

- `results.dfy`: `Option`, `Result` and the `Error` enumeration.
- `chars.dfy`: ASCII versions of `Char.IsLetter`, `Char.IsDigit`,
  `Char.IsWhiteSpace` and `ToLower`.
- `inputs.dfy`: the cursor and `Loop`.
  - `Cursor` is the value of an `Input`: its text, position and line number.
  - The class `Input` holds the same state in mutable fields, with `Step`,
    `Back` and `Loop` as methods.
  - `RunEnd` is where `loop` stops.
- `tokenizers.dfy`: the tokenizer.
  - `Lex` and `NextToken` are what one handler and the dispatcher do on a
    `Cursor`.
  - The class `Tokenizer` and the handler methods run the same steps on an
    `Input`. Each is proved to leave the result and the new state that the
    function gives.
- `tokenizer_properties.dfy`: what the handlers promise (maximal runs, the
  key-word check, the string scan, dispatch order), proved about `Lex` and
  `NextToken`.
- `json.dfy`: the tree builder.
  - `ObjectFrom`, `ArrayFrom`, `ParseFrom` and `ValueFrom` are the meaning of
    getObject, getArray, parse and the value dispatch.
  - The class `JSON` runs the same loops on its shared `Input`, and is proved
    equal to those functions.
  - The aliased `JKeyValue` is a heap object; the list holds references to it.
- `json_properties.dfy`:
  - the dispatch on the next character and the mapping of `parse`;
  - that no returned tree holds a `JBool` or `JNull`, and that all entries of
    every object are equal;
  - the quirks above, shown on concrete inputs.

## Model

All sources are in `JSONTokenizerProject/`.

| member | source | states |
|---|---|---|
| Inputs.Input.constructor | JSONTokenizerProject/Tokenizers.cs:57-63 | A new Input is before the first character: position -1, line 1, and Character is '\0'. |
| Inputs.Cursor.HasMore | JSONTokenizerProject/Tokenizers.cs:65-69 | hasMore(n) fails exactly when n <= 0, with "Invalid number of steps". |
| Inputs.Cursor.HasLess | JSONTokenizerProject/Tokenizers.cs:71-75 | hasLess(n) fails exactly when n <= 0, with "Invalid number of steps". |
| Inputs.StepsLand | JSONTokenizerProject/Tokenizers.cs:65-75 | For n > 0, hasMore(n) and hasLess(n) answer, and they are true exactly when n steps forward or backward land on a character of the text. |
| Inputs.Cursor.Character | JSONTokenizerProject/Tokenizers.cs:48-55 | The character last stepped onto, and '\0' before the first step. |
| Inputs.Input.Character | JSONTokenizerProject/Tokenizers.cs:48-55 | The Character property of the Input: its character at the current position, and '\0' before the first step. |
| Inputs.Cursor.Peek | JSONTokenizerProject/Tokenizers.cs:105-109 | peek(n) fails for n <= 0, through hasMore. Otherwise it is the character at position + n, or '\0' past the end. It is a function of the state, so it changes nothing. |
| Inputs.Input.Step | JSONTokenizerProject/Tokenizers.cs:78-87 | step(n) fails for n <= 0 with "Invalid number of steps". It moves by exactly n when position + n < length. Otherwise it fails with "no more step" and stays put. -1 <= position < length is kept. |
| Inputs.Input.Back | JSONTokenizerProject/Tokenizers.cs:89-98 | back(n) is the mirror of step(n): it moves back by exactly n when position - n > -1, and otherwise fails and stays put. The same invariant is kept. |
| Inputs.Cursor.RunEnd | JSONTokenizerProject/Tokenizers.cs:111-117 | Where loop(cond) stops: never before the start, and always inside the text. |
| Inputs.RunEndStops | JSONTokenizerProject/Tokenizers.cs:111-117 | loop stops at q exactly when two things hold: cond held at every state it stepped from, and at q the input is exhausted or cond fails. |
| Inputs.Input.Loop | JSONTokenizerProject/Tokenizers.cs:111-117 | loop(cond) ends at RunEnd(cond) and returns exactly the characters it stepped onto, text[old + 1 .. new + 1]. |
| Chars.LowerChar | JSONTokenizerProject/Tokenizers.cs:192 | An upper-case ASCII letter becomes the letter 32 code points above it, which is lower case; every other character is unchanged. |
| Chars.ToLower | JSONTokenizerProject/Tokenizers.cs:192 | Lower-casing keeps the length and lower-cases each character on its own. |
| Chars.ToLowerMatches | JSONTokenizerProject/Tokenizers.cs:192-198 | A run lower-cases to a word with no upper-case letters exactly when it has the word's length and each character is the word's, or its upper-case form. Lower-casing twice is lower-casing once. |
| Chars.SentinelIsNoClass | JSONTokenizerProject/Tokenizers.cs:181 | The sentinel '\0' is not a letter, not a digit and not whitespace. This is how the run-based handlers stop at the end of the input. |
| Tokenizers.IsNumberChar | JSONTokenizerProject/Tokenizers.cs:217-222 | The characters the number loop accepts: none is a special character, a quote, whitespace or '\0', so a number run never swallows what ends a value. |
| Tokenizers.IsLetterAhead | JSONTokenizerProject/Tokenizers.cs:184-187 | The key-word loop condition holds only when a next character exists and is a letter. |
| Tokenizers.IsNumberCharAhead | JSONTokenizerProject/Tokenizers.cs:217-222 | The number loop condition holds only when a next character exists and is a number character. |
| Tokenizers.IsWhiteSpaceAhead | JSONTokenizerProject/Tokenizers.cs:238-241 | The whitespace loop condition holds only when a next character exists and is whitespace. |
| Tokenizers.SpecialType | JSONTokenizerProject/Tokenizers.cs:260-301 | The special handler's types: `{`, `}`, `:`, `,` and `[` each get their own type and no other character does; every character outside those five is closingBracket. |
| Tokenizers.StringEnd | JSONTokenizerProject/Tokenizers.cs:320-330 | Where the string handler's while loop stops: never before the start, and inside the text. |
| Tokenizers.Lex | JSONTokenizerProject/Tokenizers.cs:165 | handler.tokenize never moves back. A handler whose guard holds consumes at least one character. A token carries the position before its first character, the current line, and exactly the characters consumed (lower-cased for key words). |
| Tokenizers.LexKeyWord | JSONTokenizerProject/Tokenizers.cs:189-207 | The key-word handler's token holds the lower-cased run it consumed. |
| Tokenizers.LexNumber | JSONTokenizerProject/Tokenizers.cs:224-228 | The number handler's token holds the run it consumed. |
| Tokenizers.LexWhiteSpace | JSONTokenizerProject/Tokenizers.cs:243-247 | The whitespace handler's token holds the run it consumed. |
| Tokenizers.LexSpecial | JSONTokenizerProject/Tokenizers.cs:260-301 | The special-character handler's token holds the one character it consumed. |
| Tokenizers.LexString | JSONTokenizerProject/Tokenizers.cs:316-332 | The string handler's token holds the characters up to StringEnd. |
| Tokenizers.FirstTokenizable | JSONTokenizerProject/Tokenizers.cs:164-165 | The index of the first handler whose guard holds: no guard before it holds, and the guard at it does. It is the handler count when no guard holds. |
| Tokenizers.NextToken | JSONTokenizerProject/Tokenizers.cs:162-167 | tokenize never moves back, and a non-null token means at least one character was consumed. |
| Tokenizers.Tokenizer.FromInput | JSONTokenizerProject/Tokenizers.cs:156-160 | A tokenizer over a given Input shares that Input and keeps the handler array. |
| Tokenizers.Tokenizer.FromText | JSONTokenizerProject/Tokenizers.cs:150-154 | A tokenizer over a text owns a new Input on it, before the first character. |
| Tokenizers.Tokenizer.Tokenize | JSONTokenizerProject/Tokenizers.cs:162-167 | The foreach over the handlers returns NextToken's result and leaves the input where NextToken does. |
| Tokenizers.HandlerTokenize | JSONTokenizerProject/Tokenizers.cs:165 | Each handler's tokenize leaves the result and state that Lex gives. |
| Tokenizers.KeyWordsTokenize | JSONTokenizerProject/Tokenizers.cs:189-207 | The key-word handler on an Input agrees with Lex, including the "Invalid Value!" failure after the run is consumed. |
| Tokenizers.NumberTokenize | JSONTokenizerProject/Tokenizers.cs:224-228 | The number handler on an Input agrees with Lex. |
| Tokenizers.WhiteSpaceTokenize | JSONTokenizerProject/Tokenizers.cs:243-247 | The whitespace handler on an Input agrees with Lex. |
| Tokenizers.SpecialCharacterTokenize | JSONTokenizerProject/Tokenizers.cs:260-301 | The six-way branch on peek() agrees with Lex. Each branch steps once and types the token by the character. |
| Tokenizers.StringTokenize | JSONTokenizerProject/Tokenizers.cs:316-332 | The while-with-break over hasMore stops at StringEnd and returns the characters it stepped onto. |
| Tokenizers.StepOnto | JSONTokenizerProject/Tokenizers.cs:324-329 | One `token.Value += step().Character`: the position advances by one and the value grows by the character stepped onto. |
| TokenizerProperties.NextTokenNone | JSONTokenizerProject/Tokenizers.cs:162-167 | tokenize returns null exactly when no handler's guard holds, in both directions, and then the position is unchanged. |
| TokenizerProperties.NextTokenIsFirst | JSONTokenizerProject/Tokenizers.cs:164-165 | tokenize is the first handler, in array order, whose guard holds: same result, same new state. |
| TokenizerProperties.GuardNeedsCharacter | JSONTokenizerProject/Tokenizers.cs:136-141 | Each of the five tokenizable guards (lines 179-182, 212-215, 233-236, 254-258, 306-309, modelled by Tokenizers.Tokenizable) holds only when a next character exists, since '\0' passes none of them. |
| TokenizerProperties.GuardsExclusive | JSONTokenizerProject/Tokenizers.cs:164-165 | At most one handler's guard holds at any state, so any order of the handler array picks the same handler. |
| TokenizerProperties.TokenPlace | JSONTokenizerProject/Tokenizers.cs:191 | Every token carries the position before it and the cursor's line number. No operation changes the line, so that is always 1. |
| TokenizerProperties.KeyWordsLex | JSONTokenizerProject/Tokenizers.cs:189-207 | The key-word handler consumes a maximal run of letters and lower-cases it. It succeeds exactly for true, false and null: bool for the first two, null for the last. Any other run fails with InvalidValue and stays consumed. |
| TokenizerProperties.NumberLex | JSONTokenizerProject/Tokenizers.cs:210-228 | A number token starts with a digit. It is a maximal run of digits, '.', 'e', 'E', '+' and '-'. |
| TokenizerProperties.WhiteSpaceLex | JSONTokenizerProject/Tokenizers.cs:231-247 | A whitespace token is a non-empty, maximal run of whitespace. |
| TokenizerProperties.SpecialLex | JSONTokenizerProject/Tokenizers.cs:250-301 | A special token is exactly one of `{ } : , [ ]`, typed openingBrace, closingBrace, colon, comma, openingBracket or closingBracket. |
| TokenizerProperties.StringEndFindsQuote | JSONTokenizerProject/Tokenizers.cs:320-330 | The string scan stops on the first quote at least two characters on, or else at the last character of the input. |
| TokenizerProperties.StringLex | JSONTokenizerProject/Tokenizers.cs:316-332 | A string token runs from its opening quote through the next quote, with no escape handling. With no closing quote it takes the rest of the input. |
| Json.SpacesFrom | JSONTokenizerProject/JSON.cs:104-109 | The whitespace loop never moves back. When it succeeds, no whitespace is next. |
| Json.SignificantFrom | JSONTokenizerProject/JSON.cs:88-93 | The whitespace-skipping read never moves back. A non-null token it returns is not whitespace, and at least one character was consumed. |
| Json.ParseFrom | JSONTokenizerProject/JSON.cs:17-44 | parse never moves back. |
| Json.ObjectFrom | JSONTokenizerProject/JSON.cs:46-176 | getObject never moves back, and its success value is always a JObject. |
| Json.MemberFrom | JSONTokenizerProject/JSON.cs:73-127 | Reading a member never moves back, and a member read consumes input. |
| Json.MembersFrom | JSONTokenizerProject/JSON.cs:70-154 | The member loop never moves back, and its success value is a JObject. |
| Json.MembersStep | JSONTokenizerProject/JSON.cs:73-153 | One turn of the member loop. A failed member read fails the loop. After a success, the next non-whitespace token decides: a comma continues with one more entry, any other token ends the object, and a null token fails. Every entry is the member just read. |
| Json.ArrayFrom | JSONTokenizerProject/JSON.cs:178-248 | getArray never moves back, and its success value is a JArray. |
| Json.ElementsFrom | JSONTokenizerProject/JSON.cs:193-245 | The element loop never moves back, and its success value is a JArray. |
| Json.ValueFrom | JSONTokenizerProject/JSON.cs:111-127 | The value dispatch never moves back. |
| Json.JKeyValue.constructor | JSONTokenizerProject/JSON.cs:286-290 | A fresh JKeyValue. Its fields are read only after they have been written. |
| Json.ViewOfAliases | JSONTokenizerProject/JSON.cs:128 | A list whose every element is the one JKeyValue shows that JKeyValue's member once per element. |
| Json.JSON.constructor | JSONTokenizerProject/JSON.cs:12-15 | A JSON reader owns a new Input on the text, before its first character. |
| Json.JSON.Parse | JSONTokenizerProject/JSON.cs:17-44 | parse(token) returns what ParseFrom gives and leaves the input where ParseFrom does. |
| Json.JSON.GetObject | JSONTokenizerProject/JSON.cs:46-176 | getObject returns what ObjectFrom gives and leaves the input where ObjectFrom does. |
| Json.JSON.ReadMembers | JSONTokenizerProject/JSON.cs:70-154 | The member loop, which re-adds the one keyValue each turn, returns what MembersFrom gives from no entries. |
| Json.JSON.MemberTurn | JSONTokenizerProject/JSON.cs:73-152 | One turn of the loop, against MembersStep. A failure is the loop's failure; a comma continues with the shared entries; any other token ends the object with them. |
| Json.JSON.ReadMember | JSONTokenizerProject/JSON.cs:73-127 | Reads a key, a colon and a value into keyValue. It succeeds exactly when MemberFrom does, with the same error and new state. keyValue then holds MemberFrom's member. |
| Json.JSON.GetArray | JSONTokenizerProject/JSON.cs:178-248 | getArray returns what ArrayFrom gives and leaves the input where ArrayFrom does. |
| Json.JSON.Value | JSONTokenizerProject/JSON.cs:111-127 | The value dispatch agrees with ValueFrom. |
| Json.JSON.SkipWhiteSpace | JSONTokenizerProject/JSON.cs:104-109 | The peek-driven whitespace loop agrees with SpacesFrom. |
| Json.JSON.NextSignificant | JSONTokenizerProject/JSON.cs:88-93 | The token-driven whitespace loop agrees with SignificantFrom. |
| JsonProperties.StringDispatch | JSONTokenizerProject/Tokenizers.cs:306-309 | With the handlers in getObject's order, a quote next selects the string handler. |
| JsonProperties.KeyWordDispatch | JSONTokenizerProject/Tokenizers.cs:179-182 | A letter next selects the key-word handler. |
| JsonProperties.NumberDispatch | JSONTokenizerProject/Tokenizers.cs:212-215 | A digit next selects the number handler. |
| JsonProperties.WhiteSpaceDispatch | JSONTokenizerProject/Tokenizers.cs:233-236 | Whitespace next selects the whitespace handler. |
| JsonProperties.SpecialDispatch | JSONTokenizerProject/Tokenizers.cs:254-258 | A special character next selects the special-character handler. |
| JsonProperties.NoHandlerDispatch | JSONTokenizerProject/Tokenizers.cs:166 | Any other character next gives a null token, without moving. |
| JsonProperties.EndDispatch | JSONTokenizerProject/Tokenizers.cs:166 | At the end of the input tokenize returns null, without moving. |
| JsonProperties.SpecialNext | JSONTokenizerProject/Tokenizers.cs:260-301 | A special character next is read as its one-character token, with or without the whitespace skip. |
| JsonProperties.DigitNext | JSONTokenizerProject/Tokenizers.cs:224-228 | A digit that no number character follows is a one-digit number token. |
| JsonProperties.ShortStringNext | JSONTokenizerProject/Tokenizers.cs:316-332 | Quote, one other character, quote is a three-character string token. |
| JsonProperties.KeyWordNext | JSONTokenizerProject/Tokenizers.cs:189-207 | In getObject's handler order, a letter run is accepted exactly when it lower-cases to true, false or null, and fails with InvalidValue otherwise. |
| JsonProperties.ParseMapping | JSONTokenizerProject/JSON.cs:17-44 | parse maps a number token to JNumber of its text and a string token to JString of its text, quotes kept. An opening brace reads on with getObject. Every other type, bool, null and closingBracket included, gives an empty JString. The result is never JBool or JNull. |
| JsonProperties.NoBoolOrNull | JSONTokenizerProject/JSON.cs:276-284 | A tree the reader can build holds no JBool and no JNull, at the top or one level down. |
| JsonProperties.ParseProduced | JSONTokenizerProject/JSON.cs:17-44 | Every value parse returns is a buildable tree: all entries of every object equal, no JBool or JNull anywhere. |
| JsonProperties.ObjectProduced | JSONTokenizerProject/JSON.cs:46-176 | Every object getObject returns is a buildable tree. |
| JsonProperties.MemberProduced | JSONTokenizerProject/JSON.cs:73-127 | A member's value is a buildable tree. |
| JsonProperties.MembersProduced | JSONTokenizerProject/JSON.cs:70-154 | The member loop keeps its entries buildable and alike. |
| JsonProperties.ArrayProduced | JSONTokenizerProject/JSON.cs:178-248 | Every array getArray returns is a buildable tree. |
| JsonProperties.ElementsProduced | JSONTokenizerProject/JSON.cs:193-245 | The element loop keeps every element a buildable tree. |
| JsonProperties.ValueProduced | JSONTokenizerProject/JSON.cs:111-127 | Every dispatched value is a buildable tree. |
| JsonProperties.ObjectEntriesAlike | JSONTokenizerProject/JSON.cs:48-128 | Every object getObject returns has all its entries equal, because they are the one aliased JKeyValue. None of them holds a JBool or JNull. |
| JsonProperties.ArrayHasNoBoolOrNull | JSONTokenizerProject/JSON.cs:178-248 | No element of an array getArray returns is a JBool or JNull. |
| JsonProperties.ObjectDispatch | JSONTokenizerProject/JSON.cs:64-164 | getObject looks only at the next character, with no whitespace skip. `{` starts the member loop. `[` runs getArray, with its error or new state, and returns an empty object. Anything else is "not object". |
| JsonProperties.FirstKeyMustBeString | JSONTokenizerProject/JSON.cs:81-86 | After `{` the first non-whitespace token must be a string, or getObject fails with "Not a key". A `{` that ends the input is an empty object. |
| JsonProperties.AfterMember | JSONTokenizerProject/JSON.cs:132-153 | After a member: a comma continues, any other token ends the object without an error, and a null token fails. |
| JsonProperties.ArraySeparator | JSONTokenizerProject/JSON.cs:193-245 | After an element: a closingBracket ends the array and a comma continues. Any other token fails with "Invalid", and a null token fails too. |
| JsonProperties.NoSpaces | JSONTokenizerProject/JSON.cs:104-109 | The whitespace loop does nothing when no whitespace is next. |
| JsonProperties.MemberOfParts | JSONTokenizerProject/JSON.cs:73-127 | A member is its string key, kept whole, and the value after the colon, with whitespace allowed before the key, the colon and the value. |
| JsonProperties.KeyMustBeString | JSONTokenizerProject/JSON.cs:75-86 | A member read whose first non-whitespace token is null or not a string fails with "Not a key". |
| JsonProperties.ColonMustFollowKey | JSONTokenizerProject/JSON.cs:88-101 | After the key, a null token fails, and a non-whitespace token other than a colon fails with "no colon". |
| JsonProperties.DigitValue | JSONTokenizerProject/JSON.cs:122-127 | A one-digit value is a JNumber of that digit. |
| JsonProperties.TrueValue | JSONTokenizerProject/JSON.cs:42 | The value `true` is tokenized as bool and then parsed as an empty JString. |
| JsonProperties.BracketValue | JSONTokenizerProject/JSON.cs:215-221 | A `]` where a value is expected is parsed as an empty JString. |
| JsonProperties.ShortKeyAndColon | JSONTokenizerProject/JSON.cs:73-102 | A one-character key in quotes, then a colon, are the key and colon tokens. |
| JsonProperties.ReadsShortMember | JSONTokenizerProject/JSON.cs:73-127 | `"k":d` is read as the member with key `"k"`, quotes kept, and value JNumber d. |
| JsonProperties.ReadsTrueMember | JSONTokenizerProject/JSON.cs:73-127 | `"k":true` is read as the member with key `"k"` and an empty JString value. |
| JsonProperties.MemberThenToken | JSONTokenizerProject/JSON.cs:128-153 | After a member, a comma continues with one more identical entry, and any other token ends the object. |
| JsonProperties.MemberThenSpecial | JSONTokenizerProject/JSON.cs:132-153 | The same when a special character follows the member directly. |
| JsonProperties.MembersAtEnd | JSONTokenizerProject/JSON.cs:70 | With no character left, the member loop ends with the entries it has. |
| JsonProperties.OpenBrace | JSONTokenizerProject/JSON.cs:64-66 | An opening brace starts the member loop with no entries. |
| JsonProperties.EmptyBracesThrow | JSONTokenizerProject/JSON.cs:81-86 | `{}` fails with "Not a key". |
| JsonProperties.LoneBraceIsEmpty | JSONTokenizerProject/JSON.cs:70 | `{` at the end of the input is an empty object, with no error. |
| JsonProperties.ShortMemberThen | JSONTokenizerProject/JSON.cs:73-153 | `"k":d` and then a comma continue with one more entry; any other special character ends the object. |
| JsonProperties.SharedEntryShowsLastMember | JSONTokenizerProject/JSON.cs:48-128 | `{"a":1,"b":2}` gives two entries, both `"b"`: 2. |
| JsonProperties.FirstOfTwo | JSONTokenizerProject/JSON.cs:73-153 | `"a":1,` gives one entry, and the loop reads on. |
| JsonProperties.SecondOfTwo | JSONTokenizerProject/JSON.cs:84-147 | The second member makes both entries show `"b"`: 2. |
| JsonProperties.MissingCommaEndsObject | JSONTokenizerProject/JSON.cs:139-142 | `{"a":1 "b":2}` ends after the first member with no error, with `"b"` read as the separator and what follows left unread. |
| JsonProperties.MemberThenString | JSONTokenizerProject/JSON.cs:132-142 | A string where a separator is expected ends the loop after one entry. |
| JsonProperties.SpaceThenShortString | JSONTokenizerProject/JSON.cs:132-138 | One space and then a string: the space is skipped, and the string is the next significant token. |
| JsonProperties.TrailingCommaAtEnd | JSONTokenizerProject/JSON.cs:70 | `{"a":1,` at the end of the input is an object with one entry, with no error. |
| JsonProperties.BraceWhereKey | JSONTokenizerProject/JSON.cs:75-86 | A closing brace where the member loop expects a key fails with "Not a key", whatever was read before. |
| JsonProperties.CommaThenBraceThrows | JSONTokenizerProject/JSON.cs:73-153 | `{"a":1,}` fails with "Not a key": after the comma the brace is read as the next key. |
| JsonProperties.TrueBecomesEmptyString | JSONTokenizerProject/JSON.cs:42 | `{"a":true}` gives a member whose value is an empty JString. |
| JsonProperties.TrueMemberThenBrace | JSONTokenizerProject/JSON.cs:73-148 | `"a":true}` is one entry, closed by the brace. |
| JsonProperties.OpenBracket | JSONTokenizerProject/JSON.cs:190 | getArray takes the first token, `[`, unconditionally, and starts the element loop. |
| JsonProperties.ElementThen | JSONTokenizerProject/JSON.cs:195-240 | One element read after the whitespace before it, then the whitespace after it and the next token: a null token fails, a closingBracket ends the array with the element appended, a comma reads on with it, and any other token fails with "Invalid". |
| JsonProperties.EmptyArrayAtEndThrows | JSONTokenizerProject/JSON.cs:230-231 | `[]` at the end of the input fails on the null separator token. |
| JsonProperties.EmptyArrayReadsBracketAsValue | JSONTokenizerProject/JSON.cs:205-221 | `[]]` is an array of one empty JString. |
| JsonProperties.BracketThenBracket | JSONTokenizerProject/JSON.cs:205-239 | `]]` after the opening bracket gives one empty JString element, and then the end. |
| JsonProperties.TwoBrackets | JSONTokenizerProject/JSON.cs:215-230 | For `]]`, the first bracket is read as a value and the second as the token after it. |

## Left out

- Console.Write: the echo throughout JSON.cs is output only. It does not
  affect the result.
- double.Parse at JSON.cs:24: `JNumber` keeps the token text. Floating-point
  conversion and its failure are not modelled.
- Char.IsLetter, Char.IsDigit, Char.IsWhiteSpace and ToLower are ASCII only.
  - Whitespace is space, tab, line feed, vertical tab, form feed and carriage
    return.
  - Unicode categories and culture rules are not modelled.
  - All three classifiers reject '\0', as in the original.
- The string `Type` of a token is the enumeration `TokenType`, one constructor
  per string the handlers write.
- Inputs.Input.Step, Inputs.Cursor.Peek: the step count n is an unbounded
  integer. In C#, `position + numOfSteps` in hasMore, step and peek wraps
  around in 32 bits when n > int.MaxValue - position. step then moves to a
  negative position, and peek indexes out of range. That overflow is not
  modelled; Inputs.Cursor.HasMore is likewise unbounded. Every caller in the
  core passes n = 1 or n = 2. `position - numOfSteps` in hasLess and back
  cannot wrap, since position >= -1.
- Text is a sequence of Unicode scalar values, not of UTF-16 code units. A
  character outside the Basic Multilingual Plane is one character here and two
  in C#. So `"😀"` with its quotes has length 3 in the model and 4 in C#, and
  positions after such a character differ by one.
- The Length, Position and LineNumber getters (Tokenizers.cs:16-46) read a
  field; the model reads `text`, `position` and `lineNumber` directly.
- Program.cs is not part of this model. It is an older draft that JSON.cs
  does not build against.
- Unused stubs are not modelled: `Tokenizer.tokens`, `enableHistory`, `all()`
  and the no-op `reset()`.
- NextPosition (Tokenizers.cs:32-38) is not modelled; nothing in the core
  reads it.
- lineNumber: no operation in the source changes it, so it is a field that
  every method keeps. Line counting is not modelled.
- JKeyValue: the C# fields start as null and are read only after being set.
  The model starts them as an empty key and an empty JString.
- Json.JSON.ReadMembers: getObject's loop body is split into ReadMember and
  MemberTurn, and the list append comes after the separator read, not
  before. The order does not matter: on the failure paths the list is thrown
  away, and otherwise the same reference is added either way.
- Exceptions inside tokenize propagate and are not caught; each one is an
  `Error`, and an `Error` ends every caller at once, as an uncaught
  exception does.
