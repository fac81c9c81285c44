/** The character cursor: `Input` of Tokenizers.cs. Its value is a `Cursor` (the
    immutable text, the current position and the line number); the class `Input`
    holds the same state in mutable fields and is what the tokenizers advance. */
module Inputs {
  import opened Results

  /** The character at index i of text, or the sentinel '\0' outside it. */
  function CharAt(text: string, i: int): char {
    if 0 <= i < |text| then text[i] else '\0'
  }

  /** Every look ahead from `d`, which is `c` moved by n. */
  lemma Shifted(c: Cursor, n: int, d: Cursor)
    requires d == c.(pos := c.pos + n)
    ensures forall k :: d.Ahead(k) == c.Ahead(n + k)
  {
  }

  /** On a valid cursor, hasMore(n) and hasLess(n) answer true exactly when n
      steps forward, or backward, land on a character of the text. */
  lemma StepsLand(c: Cursor, n: int)
    requires c.Valid() && n > 0
    ensures c.HasMore(n) == Success(true) <==> 0 <= c.pos + n < |c.text|
    ensures c.HasLess(n) == Success(true) <==> 0 <= c.pos - n < |c.text|
    ensures c.HasMore(n).Success? && c.HasLess(n).Success?
  {
  }

  /** The state of an Input. `pos` is the index of the character last stepped
      onto; -1 means that no character has been read yet. */
  datatype Cursor = Cursor(text: string, pos: int, line: int) {

    /** The invariant that step and back maintain. */
    predicate Valid() {
      -1 <= pos < |text|
    }

    /** `d` is a later state of the same input. */
    predicate Reaches(d: Cursor) {
      d.text == text && d.line == line && d.Valid() && pos <= d.pos
    }

    /** hasMore(n): whether n steps forward land on a character of the text;
        a count n <= 0 fails. */
    function HasMore(n: int): (r: Result<bool>)
      ensures r.Failure? <==> n <= 0
      ensures r.Failure? ==> r.error == InvalidNumberOfSteps
    {
      if n <= 0 then Failure(InvalidNumberOfSteps) else Success(pos + n < |text|)
    }

    /** hasLess(n): whether n steps backward land on a character of the text;
        a count n <= 0 fails. */
    function HasLess(n: int): (r: Result<bool>)
      ensures r.Failure? <==> n <= 0
      ensures r.Failure? ==> r.error == InvalidNumberOfSteps
    {
      if n <= 0 then Failure(InvalidNumberOfSteps) else Success(pos - n > -1)
    }

    /** The character `n` places ahead: what `peek(n)` returns for `n >= 1`. */
    function Ahead(n: int): char {
      CharAt(text, pos + n)
    }

    /** peek(n), which goes through hasMore(n) and so fails for n <= 0. */
    function Peek(n: int): (r: Result<char>)
      requires Valid()
      ensures r.Failure? <==> n <= 0
      ensures r.Success? && pos + n < |text| ==> r.value == text[pos + n]
      ensures r.Success? && pos + n >= |text| ==> r.value == '\0'
    {
      match HasMore(n)
      case Failure(e) => Failure(e)
      case Success(more) => Success(if more then text[pos + n] else '\0')
    }

    /** The character last stepped onto, or '\0' before the first step. */
    function Character(): (r: char)
      requires Valid()
      ensures 0 <= pos ==> r == text[pos]
      ensures pos < 0 ==> r == '\0'
    {
      if pos > -1 then text[pos] else '\0'
    }

    /** Where `loop(cond)` stops: it steps while there is a next character and
        `cond` holds of the current state. */
    function RunEnd(cond: Cursor -> bool): (e: int)
      requires Valid()
      ensures pos <= e < |text|
      decreases |text| - pos
    {
      if HasMore(1) == Success(true) && cond(this) then this.(pos := pos + 1).RunEnd(cond) else pos
    }
  }

  /** `q` is where a loop over `cond` started at `c` has to stop: every state
      it steps from has a next character and satisfies `cond`, and at `q` the
      input is exhausted or `cond` fails. */
  predicate StopsAt(c: Cursor, cond: Cursor -> bool, q: int) {
    && c.pos <= q < |c.text|
    && (forall k | c.pos <= k < q :: cond(c.(pos := k)))
    && (q + 1 == |c.text| || !cond(c.(pos := q)))
  }

  /** One more character read extends the text read so far. */
  lemma SliceGrows(text: string, a: int, b: int)
    requires 0 <= a <= b < |text|
    ensures text[a .. b] + [text[b]] == text[a .. b + 1]
  {
  }

  /** RunEnd is exactly the stopping point of `loop`: the loop stops only at the
      end of the input or where the condition fails. */
  lemma {:induction false} RunEndStops(c: Cursor, cond: Cursor -> bool, q: int)
    requires c.Valid()
    ensures c.RunEnd(cond) == q <==> StopsAt(c, cond, q)
    decreases |c.text| - c.pos
  {
    if c.HasMore(1) == Success(true) && cond(c) {
      var d := c.(pos := c.pos + 1);
      RunEndStops(d, cond, q);
      if StopsAt(c, cond, q) {
        assert q != c.pos;
        forall k | d.pos <= k < q ensures cond(d.(pos := k)) {
          assert d.(pos := k) == c.(pos := k);
        }
        assert d.(pos := q) == c.(pos := q);
      }
      if StopsAt(d, cond, q) {
        forall k | c.pos <= k < q ensures cond(c.(pos := k)) {
          if k > c.pos {
            assert d.(pos := k) == c.(pos := k);
          }
        }
        assert d.(pos := q) == c.(pos := q);
      }
    } else {
      assert c.(pos := c.pos) == c;
    }
  }

  /** The state of a computation on an Input together with its result. */
  datatype Outcome<+T> = Outcome(result: Result<T>, after: Cursor) {

    predicate IsFailure() {
      result.Failure?
    }

    function PropagateFailure<U>(): Outcome<U>
      requires IsFailure()
    {
      Outcome(Failure(result.error), after)
    }

    function Extract(): Done<T>
      requires !IsFailure()
    {
      Done(result.value, after)
    }
  }

  /** A successful Outcome: the value computed and the state it leaves. */
  datatype Done<+T> = Done(it: T, at: Cursor)

  class Input {
    const text: string
    var position: int
    var lineNumber: int

    function State(): Cursor
      reads this
    {
      Cursor(text, position, lineNumber)
    }

    ghost predicate Valid()
      reads this
    {
      State().Valid()
    }

    /** A new Input sits before the first character on line 1. */
    constructor (input: string)
      ensures State() == Cursor(input, -1, 1)
      ensures Valid() && Character() == '\0'
    {
      text := input;
      position := -1;
      lineNumber := 1;
    }

    /** The Character property of the Input. */
    function Character(): (r: char)
      reads this
      requires Valid()
      ensures 0 <= position ==> r == text[position]
      ensures position < 0 ==> r == '\0'
    {
      State().Character()
    }

    /** step(n): moves forward by exactly n, or fails and stays put. */
    method Step(n: int) returns (r: Result<()>)
      requires Valid()
      modifies this`position
      ensures Valid()
      ensures n <= 0 ==> r == Failure(InvalidNumberOfSteps) && position == old(position)
      ensures n > 0 && old(position) + n < |text| ==> r == Success(()) && position == old(position) + n
      ensures n > 0 && old(position) + n >= |text| ==> r == Failure(NoMoreStep) && position == old(position)
    {
      var more := State().HasMore(n);
      if more.Failure? {
        return Failure(more.error);
      }
      if more.value {
        position := position + n;
        r := Success(());
      } else {
        r := Failure(NoMoreStep);
      }
    }

    /** back(n): moves backward by exactly n, or fails and stays put. */
    method Back(n: int) returns (r: Result<()>)
      requires Valid()
      modifies this`position
      ensures Valid()
      ensures n <= 0 ==> r == Failure(InvalidNumberOfSteps) && position == old(position)
      ensures n > 0 && old(position) - n > -1 ==> r == Success(()) && position == old(position) - n
      ensures n > 0 && old(position) - n <= -1 ==> r == Failure(NoMoreStep) && position == old(position)
    {
      var less := State().HasLess(n);
      if less.Failure? {
        return Failure(less.error);
      }
      if less.value {
        position := position - n;
        r := Success(());
      } else {
        r := Failure(NoMoreStep);
      }
    }

    /** loop(cond): steps while there is a next character and cond holds, and
        returns exactly the characters it stepped onto. */
    method Loop(cond: Cursor -> bool) returns (buffer: string)
      requires Valid()
      modifies this`position
      ensures Valid()
      ensures position == old(State()).RunEnd(cond)
      ensures buffer == text[old(position) + 1 .. position + 1]
    {
      buffer := "";
      while State().HasMore(1) == Success(true) && cond(State())
        invariant Valid() && old(position) <= position
        invariant State().RunEnd(cond) == old(State()).RunEnd(cond)
        invariant buffer == text[old(position) + 1 .. position + 1]
        decreases |text| - position
      {
        var _ := Step(1);
        buffer := buffer + [Character()];
      }
    }
  }
}
