/** The converter as the program runs it: one left-to-right loop over the
    white-space-free input with a mutable operator stack and a postfix
    string that grows by appending, proved to compute `Convert`. The three
    inner loops of the scan and the final drain are methods of their own;
    each keeps the appended text equal to the tokens emitted so far, each
    followed by one space (`Spaced`). */
module Converter {
  import opened Symbols
  import opened ShuntingYard
  import OutputText

  /** The inner loop over a numeric literal: reads on from position i while
      the next character is a digit or a point, and returns the lexeme and
      the position of its last character. */
  method ScanLiteral(t: string, i: nat) returns (number: string, last: nat)
    requires i < |t| && IsDigitOrPoint(t[i])
    ensures last + 1 == RunEnd(t, i) && number == t[i..last + 1]
  {
    last := i;
    number := [t[i]];
    while last + 1 < |t| && IsDigitOrPoint(t[last + 1])
      invariant i <= last < |t|
      invariant number == t[i..last + 1]
      invariant forall k :: i <= k <= last ==> IsDigitOrPoint(t[k])
      invariant RunEnd(t, i) == RunEnd(t, last)
      decreases |t| - last
    {
      last := last + 1;
      number := number + [t[last]];
      assert t[i..last + 1] == t[i..last] + [t[last]];
    }
  }

  /** The loop before an operator is pushed: pops every operator the
      incoming one takes precedence over and appends it to the text. */
  method PopForOperator(o: Op, stack: seq<StackItem>, postfix: string, ghost toks: seq<Token>)
    returns (stack': seq<StackItem>, postfix': string, ghost toks': seq<Token>)
    requires postfix == Spaced(toks) && AllWellFormed(toks)
    ensures stack' == PopOperators(o, stack, toks).0
    ensures postfix' == Spaced(PopOperators(o, stack, toks).1)
    ensures toks' == PopOperators(o, stack, toks).1 && AllWellFormed(toks')
  {
    stack', postfix', toks' := stack, postfix, toks;
    while |stack'| > 0
      invariant PopOperators(o, stack', toks') == PopOperators(o, stack, toks)
      invariant postfix' == Spaced(toks') && AllWellFormed(toks')
      decreases |stack'|
    {
      var top := stack'[|stack'| - 1];
      if top.Pending? && ShouldPop(o, top.o) {
        stack' := stack'[..|stack'| - 1];
        postfix' := postfix' + [Symbol(top.o)] + " ";
        toks' := toks' + [Operator(top.o)];
      } else {
        break;
      }
    }
  }

  /** The loop on a closing parenthesis: pops and appends operators until
      an opening parenthesis is on top (or the stack is empty), then
      discards that parenthesis; `None` when there is none to match. */
  method PopToParen(stack: seq<StackItem>, postfix: string, ghost toks: seq<Token>)
    returns (r: Option<(seq<StackItem>, string)>, ghost toks': seq<Token>)
    requires postfix == Spaced(toks) && AllWellFormed(toks)
    ensures r.None? <==> UnwindToParen(stack, toks).None?
    ensures r.Some? ==> (r.value.0, toks') == UnwindToParen(stack, toks).value
    ensures r.Some? ==> r.value.1 == Spaced(toks') && AllWellFormed(toks')
  {
    var s, text := stack, postfix;
    toks' := toks;
    while |s| > 0 && s[|s| - 1] != OpenParen
      invariant UnwindToParen(s, toks') == UnwindToParen(stack, toks)
      invariant text == Spaced(toks') && AllWellFormed(toks')
      decreases |s|
    {
      var top := s[|s| - 1];
      s := s[..|s| - 1];
      text := text + [Symbol(top.o)] + " ";
      toks' := toks' + [Operator(top.o)];
    }
    if |s| == 0 {
      return None, toks';
    }
    r := Some((s[..|s| - 1], text));
  }

  /** The final loop: pops and appends every remaining operator; an
      opening parenthesis still on the stack was never closed. */
  method DrainStack(stack: seq<StackItem>, postfix: string, ghost toks: seq<Token>)
    returns (r: Result<string>, ghost toks': seq<Token>)
    requires postfix == Spaced(toks) && AllWellFormed(toks)
    ensures r.Ok? <==> Drain(stack, toks).Ok?
    ensures r.Err? ==> r == Err(MismatchedParentheses)
    ensures r.Ok? ==> toks' == Drain(stack, toks).value && r.value == Spaced(toks') && AllWellFormed(toks')
  {
    var s, text := stack, postfix;
    toks' := toks;
    while |s| > 0
      invariant Drain(s, toks') == Drain(stack, toks)
      invariant text == Spaced(toks') && AllWellFormed(toks')
      decreases |s|
    {
      var top := s[|s| - 1];
      if top == OpenParen {
        return Err(MismatchedParentheses), toks';
      }
      s := s[..|s| - 1];
      text := text + [Symbol(top.o)] + " ";
      toks' := toks' + [Operator(top.o)];
    }
    r := Ok(text);
  }

  /** `stringToPostfix`. */
  method StringToPostfix(infix: string) returns (r: Result<string>)
    ensures r == Convert(infix)
  {
    if infix == "" {
      return Err(EmptyInput);
    }
    var t := Strip(infix);
    var stack: seq<StackItem> := [];
    var i := 0;
    var postfix := "";
    ghost var toks: seq<Token> := [];
    ghost var goal := Tokens(infix);
    while i < |t|
      invariant 0 <= i <= |t|
      invariant postfix == Spaced(toks) && AllWellFormed(toks)
      invariant Shunt(t, i, stack, toks) == goal
      decreases |t| - i
    {
      var c := t[i];
      if IsDigitOrPoint(c) {
        ShuntOnLiteral(t, i, stack, toks);
        var number, last := ScanLiteral(t, i);
        assert WellFormed(Literal(number));
        postfix := postfix + number + " ";
        toks := toks + [Literal(number)];
        i := last + 1;
      } else if IsOperator(c) {
        ShuntOnOperator(t, i, stack, toks);
        var o := OperatorOf(c).value;
        stack, postfix, toks := PopForOperator(o, stack, postfix, toks);
        stack := stack + [Pending(o)];
        i := i + 1;
      } else if c == LeftParenthesis {
        ShuntOnLeftParenthesis(t, i, stack, toks);
        stack := stack + [OpenParen];
        i := i + 1;
      } else if c == RightParenthesis {
        ShuntOnRightParenthesis(t, i, stack, toks);
        var unwound;
        unwound, toks := PopToParen(stack, postfix, toks);
        if unwound.None? {
          return Err(MismatchedParentheses);
        }
        stack, postfix := unwound.value.0, unwound.value.1;
        i := i + 1;
      } else {
        ShuntOnInvalid(t, i, stack, toks);
        return Err(InvalidCharacter(c));
      }
    }
    var drained;
    DrainEmptiesStack(stack, toks);
    drained, toks := DrainStack(stack, postfix, toks);
    if drained.Err? {
      return drained;
    }
    OutputText.TrimSpacedIsJoin(toks);
    return Ok(Trim(drained.value));
  }
}
