/** The conversion from infix to postfix notation as a function: Dijkstra's
    shunting-yard algorithm over the white-space-free input, one character
    (or one numeric literal) at a time, with an operator stack whose top is
    the last element of a sequence and an append-only token output. */
module ShuntingYard {
  import opened Symbols

  datatype Error = EmptyInput | InvalidCharacter(c: char) | MismatchedParentheses

  datatype Result<T> = Ok(value: T) | Err(error: Error)

  /** What the stack holds: a pending operator or an opening parenthesis.
      A closing parenthesis and a numeric literal are never pushed. */
  datatype StackItem = Pending(o: Op) | OpenParen

  /** What the output holds: a numeric literal, copied verbatim, or an
      operator. Parentheses have no token. */
  datatype Token = Literal(lexeme: string) | Operator(o: Op)

  function Render(tok: Token): string
  {
    match tok
    case Literal(s) => s
    case Operator(o) => [Symbol(o)]
  }

  /** A token the scan can produce: a literal is a non-empty run of digits
      and points. */
  predicate WellFormed(tok: Token)
  {
    tok.Literal? ==> |tok.lexeme| > 0 && forall k :: 0 <= k < |tok.lexeme| ==> IsDigitOrPoint(tok.lexeme[k])
  }

  predicate AllWellFormed(toks: seq<Token>)
  {
    forall k :: 0 <= k < |toks| ==> WellFormed(toks[k])
  }

  /** The input with every white space character removed
      (`replace(/\s+/g, '')`). */
  function Strip(s: string): (r: string)
    ensures |r| <= |s|
  {
    if s == [] then []
    else (if IsWhitespace(s[0]) then [] else [s[0]]) + Strip(s[1..])
  }

  /** Removing white space keeps exactly the characters of the input
      that are not white space. */
  lemma {:induction false} StripKeepsNonBlank(s: string)
    ensures forall c :: c in Strip(s) <==> c in s && !IsWhitespace(c)
    decreases |s|
  {
    if s != [] {
      StripKeepsNonBlank(s[1..]);
      assert s == [s[0]] + s[1..];
    }
  }

  /** Removing white space distributes over concatenation: the
      characters that are kept stay in their order. */
  lemma {:induction false} StripConcat(a: string, b: string)
    ensures Strip(a + b) == Strip(a) + Strip(b)
    decreases |a|
  {
    if a == [] {
      assert a + b == b;
    } else {
      assert (a + b)[0] == a[0] && (a + b)[1..] == a[1..] + b;
      StripConcat(a[1..], b);
    }
  }

  /** The input with its leading white space removed. */
  function TrimStart(s: string): (r: string)
    ensures r == [] || !IsWhitespace(r[0])
    ensures |r| <= |s| && r == s[|s| - |r|..]
    ensures forall k :: 0 <= k < |s| - |r| ==> IsWhitespace(s[k])
  {
    if s != [] && IsWhitespace(s[0]) then TrimStart(s[1..]) else s
  }

  /** The input with its trailing white space removed. */
  function TrimEnd(s: string): (r: string)
    ensures r == [] || !IsWhitespace(r[|r| - 1])
    ensures |r| <= |s| && r == s[..|r|]
    ensures forall k :: |r| <= k < |s| ==> IsWhitespace(s[k])
  {
    if s != [] && IsWhitespace(s[|s| - 1]) then TrimEnd(s[..|s| - 1]) else s
  }

  /** `String.prototype.trim`: white space removed at both ends. */
  function Trim(s: string): (r: string)
    ensures r == [] || (!IsWhitespace(r[0]) && !IsWhitespace(r[|r| - 1]))
    ensures (forall k :: 0 <= k < |s| ==> IsWhitespace(s[k])) ==> r == []
  {
    TrimEnd(TrimStart(s))
  }

  /** `trim` keeps a contiguous slice of the text, starting at a, and what
      it cuts off at either end is white space. */
  lemma TrimIsSlice(s: string) returns (a: nat)
    ensures a + |Trim(s)| <= |s| && Trim(s) == s[a..a + |Trim(s)|]
    ensures forall k :: 0 <= k < a ==> IsWhitespace(s[k])
    ensures forall k :: a + |Trim(s)| <= k < |s| ==> IsWhitespace(s[k])
  {
    var u := TrimStart(s);
    a := |s| - |u|;
    SliceOfSuffix(s, a, TrimEnd(u));
  }

  /** A prefix of a suffix is a slice, and white space after the prefix
      within the suffix is white space of the whole text. */
  lemma SliceOfSuffix(s: string, a: nat, r: string)
    requires a <= |s| && |r| <= |s| - a && r == s[a..][..|r|]
    requires forall k :: |r| <= k < |s| - a ==> IsWhitespace(s[a..][k])
    ensures r == s[a..a + |r|]
    ensures forall k :: a + |r| <= k < |s| ==> IsWhitespace(s[k])
  {
    forall k | a + |r| <= k < |s|
      ensures IsWhitespace(s[k])
    {
      assert s[k] == s[a..][k - a];
    }
  }

  /** The text the loop accumulates: every token followed by one space. */
  function Spaced(toks: seq<Token>): string
  {
    if toks == [] then "" else Spaced(toks[..|toks| - 1]) + Render(toks[|toks| - 1]) + " "
  }

  /** The postfix string: the tokens separated by single spaces. */
  function Join(toks: seq<Token>): string
  {
    if toks == [] then ""
    else if |toks| == 1 then Render(toks[0])
    else Render(toks[0]) + " " + Join(toks[1..])
  }

  /** The end (exclusive) of the maximal run of digits and points that
      starts at i. */
  function RunEnd(t: string, i: nat): (j: nat)
    requires i < |t| && IsDigitOrPoint(t[i])
    ensures i < j <= |t|
    ensures forall k :: i <= k < j ==> IsDigitOrPoint(t[k])
    ensures j == |t| || !IsDigitOrPoint(t[j])
    decreases |t| - i
  {
    if i + 1 < |t| && IsDigitOrPoint(t[i + 1]) then RunEnd(t, i + 1) else i + 1
  }

  /** Whether an incoming operator pops the operator on top of the stack:
      a left-associative one pops at lower or equal precedence, a
      right-associative one only at strictly lower precedence. */
  function ShouldPop(incoming: Op, top: Op): (b: bool)
    ensures b <==> Precedence(incoming) < Precedence(top)
                   || (Precedence(incoming) == Precedence(top) && Associativity(incoming) == Left)
  {
    (Associativity(incoming) == Left && Precedence(incoming) <= Precedence(top))
    || (Associativity(incoming) == Right && Precedence(incoming) < Precedence(top))
  }

  predicate AllPending(items: seq<StackItem>)
  {
    forall k :: 0 <= k < |items| ==> items[k].Pending?
  }

  /** The operators of a stack segment, emitted top first. */
  function TopFirst(items: seq<StackItem>): (r: seq<Token>)
    requires AllPending(items)
    ensures |r| == |items|
    ensures forall k :: 0 <= k < |r| ==> r[k] == Operator(items[|items| - 1 - k].o)
  {
    if items == [] then []
    else [Operator(items[|items| - 1].o)] + TopFirst(items[..|items| - 1])
  }

  /** The popping before an operator is pushed (the loop at lines 72-83):
      while the top of the stack is an operator the incoming one pops, it
      moves to the output. */
  function PopOperators(incoming: Op, stack: seq<StackItem>, out: seq<Token>): (seq<StackItem>, seq<Token>)
    decreases |stack|
  {
    if stack != [] && stack[|stack| - 1].Pending? && ShouldPop(incoming, stack[|stack| - 1].o) then
      PopOperators(incoming, stack[..|stack| - 1], out + [Operator(stack[|stack| - 1].o)])
    else
      (stack, out)
  }

  /** The handling of a closing parenthesis: operators move from the stack
      to the output until an opening parenthesis is on top, which is then
      discarded; `None` when the stack runs out first. */
  function UnwindToParen(stack: seq<StackItem>, out: seq<Token>): Option<(seq<StackItem>, seq<Token>)>
    decreases |stack|
  {
    if stack == [] then None
    else if stack[|stack| - 1] == OpenParen then Some((stack[..|stack| - 1], out))
    else UnwindToParen(stack[..|stack| - 1], out + [Operator(stack[|stack| - 1].o)])
  }

  /** The final drain: operators move from the stack to the output until
      it is empty; an opening parenthesis met on the way is an error. */
  function Drain(stack: seq<StackItem>, out: seq<Token>): Result<seq<Token>>
    decreases |stack|
  {
    if stack == [] then Ok(out)
    else if stack[|stack| - 1] == OpenParen then Err(MismatchedParentheses)
    else Drain(stack[..|stack| - 1], out + [Operator(stack[|stack| - 1].o)])
  }

  /** Before a push, exactly the maximal run of operators at the top of the
      stack that the incoming operator pops is taken off: the run stops at an
      opening parenthesis, at an operator the incoming one does not pop, or
      at the bottom of the stack. */
  lemma {:induction false} PopsMaximalRun(incoming: Op, stack: seq<StackItem>, out: seq<Token>)
    ensures MaximalRun(incoming, stack, PopOperators(incoming, stack, out).0)
    decreases |stack|
  {
    if stack != [] && stack[|stack| - 1].Pending? && ShouldPop(incoming, stack[|stack| - 1].o) {
      var top, below := stack[|stack| - 1], stack[..|stack| - 1];
      PopsMaximalRun(incoming, below, out + [Operator(top.o)]);
      RunBelow(incoming, stack, PopOperators(incoming, below, out + [Operator(top.o)]).0);
    } else {
      assert stack[|stack|..] == [];
    }
  }

  /** rest is what remains of the stack once the maximal run of operators
      at its top that the incoming operator pops has been taken off. */
  predicate MaximalRun(incoming: Op, stack: seq<StackItem>, rest: seq<StackItem>)
  {
    |rest| <= |stack| && rest == stack[..|rest|]
    && AllPending(stack[|rest|..])
    && (forall k :: |rest| <= k < |stack| ==> ShouldPop(incoming, stack[k].o))
    && (rest == [] || rest[|rest| - 1] == OpenParen || !ShouldPop(incoming, rest[|rest| - 1].o))
  }

  /** A maximal run below a popped top operator extends to one that
      includes it. */
  lemma RunBelow(incoming: Op, stack: seq<StackItem>, rest: seq<StackItem>)
    requires stack != [] && stack[|stack| - 1].Pending? && ShouldPop(incoming, stack[|stack| - 1].o)
    requires MaximalRun(incoming, stack[..|stack| - 1], rest)
    ensures MaximalRun(incoming, stack, rest)
  {
    SliceBelowTop(stack, |rest|);
  }

  /** The operators taken off before a push go to the output top first,
      after what was already there. */
  lemma {:induction false} PopEmitsTopFirst(incoming: Op, stack: seq<StackItem>, out: seq<Token>)
    ensures PopsTopFirst(stack, out, PopOperators(incoming, stack, out))
    decreases |stack|
  {
    if stack != [] && stack[|stack| - 1].Pending? && ShouldPop(incoming, stack[|stack| - 1].o) {
      var top, below := stack[|stack| - 1], stack[..|stack| - 1];
      PopEmitsTopFirst(incoming, below, out + [Operator(top.o)]);
      TopFirstBelow(stack, out, PopOperators(incoming, below, out + [Operator(top.o)]));
    } else {
      assert stack[|stack|..] == [];
    }
  }

  /** r takes a run of operators off the top of the stack and appends them
      to out, top first. */
  predicate PopsTopFirst(stack: seq<StackItem>, out: seq<Token>, r: (seq<StackItem>, seq<Token>))
  {
    |r.0| <= |stack| && r.0 == stack[..|r.0|]
    && AllPending(stack[|r.0|..]) && r.1 == out + TopFirst(stack[|r.0|..])
  }

  /** Taking a run off the stack below its top operator, after emitting
      that operator, takes a run off the whole stack. */
  lemma TopFirstBelow(stack: seq<StackItem>, out: seq<Token>, r: (seq<StackItem>, seq<Token>))
    requires stack != [] && stack[|stack| - 1].Pending?
    requires PopsTopFirst(stack[..|stack| - 1], out + [Operator(stack[|stack| - 1].o)], r)
    ensures PopsTopFirst(stack, out, r)
  {
    var top, below := stack[|stack| - 1], stack[..|stack| - 1];
    var m := |r.0|;
    var seg := below[m..];
    SliceBelowTop(stack, m);
    TopFirstSnoc(seg, top);
  }

  /** Slicing a stack at m, taken apart at its top item. */
  lemma SliceBelowTop(stack: seq<StackItem>, m: nat)
    requires m < |stack|
    ensures stack[..|stack| - 1][..m] == stack[..m]
    ensures stack[m..] == stack[..|stack| - 1][m..] + [stack[|stack| - 1]]
  {
  }

  /** Emptying a segment with one more operator on top emits that operator
      first. */
  lemma TopFirstSnoc(items: seq<StackItem>, top: StackItem)
    requires AllPending(items) && top.Pending?
    ensures AllPending(items + [top])
    ensures TopFirst(items + [top]) == [Operator(top.o)] + TopFirst(items)
  {
    assert (items + [top])[..|items|] == items;
  }

  /** A closing parenthesis is matched exactly when an opening one is on
      the stack; then the topmost opening parenthesis is removed with
      everything above it, and the operators above it go to the output,
      top first. */
  lemma {:induction false} UnwindFindsParen(stack: seq<StackItem>, out: seq<Token>)
    ensures UnwindToParen(stack, out).None? <==> OpenParen !in stack
    ensures UnwindToParen(stack, out).Some? ==>
      var r := UnwindToParen(stack, out).value;
      var m := |r.0|;
      m < |stack| && stack[m] == OpenParen && r.0 == stack[..m]
      && AllPending(stack[m + 1..]) && r.1 == out + TopFirst(stack[m + 1..])
    decreases |stack|
  {
    if stack == [] {
    } else if stack[|stack| - 1] == OpenParen {
      assert stack[|stack|..] == [];
    } else {
      var top := stack[|stack| - 1];
      assert stack == stack[..|stack| - 1] + [top];
      UnwindFindsParen(stack[..|stack| - 1], out + [Operator(top.o)]);
      var r := UnwindToParen(stack, out);
      if r.Some? {
        var m := |r.value.0|;
        assert stack[m + 1..] == stack[..|stack| - 1][m + 1..] + [top];
        assert stack[m + 1..][..|stack| - m - 2] == stack[..|stack| - 1][m + 1..];
      }
    }
  }

  /** The drain succeeds exactly when no opening parenthesis is left, and
      then emits every operator of the stack, top first; otherwise it
      reports mismatched parentheses. */
  lemma {:induction false} DrainEmptiesStack(stack: seq<StackItem>, out: seq<Token>)
    ensures Drain(stack, out).Ok? <==> OpenParen !in stack
    ensures Drain(stack, out).Err? ==> Drain(stack, out).error == MismatchedParentheses
    ensures Drain(stack, out).Ok? ==> AllPending(stack) && Drain(stack, out).value == out + TopFirst(stack)
    decreases |stack|
  {
    if stack != [] && stack[|stack| - 1] != OpenParen {
      var top := stack[|stack| - 1];
      assert stack == stack[..|stack| - 1] + [top];
      DrainEmptiesStack(stack[..|stack| - 1], out + [Operator(top.o)]);
    }
  }

  /** The scan from position i of the white-space-free text t, with the
      given stack and output so far. */
  function Shunt(t: string, i: nat, stack: seq<StackItem>, out: seq<Token>): Result<seq<Token>>
    requires i <= |t|
    decreases |t| - i
  {
    if i == |t| then Drain(stack, out)
    else
      var c := t[i];
      if IsDigitOrPoint(c) then
        var j := RunEnd(t, i);
        Shunt(t, j, stack, out + [Literal(t[i..j])])
      else if IsOperator(c) then
        var o := OperatorOf(c).value;
        var popped := PopOperators(o, stack, out);
        Shunt(t, i + 1, popped.0 + [Pending(o)], popped.1)
      else if c == LeftParenthesis then
        Shunt(t, i + 1, stack + [OpenParen], out)
      else if c == RightParenthesis then
        match UnwindToParen(stack, out)
        case None => Err(MismatchedParentheses)
        case Some(unwound) => Shunt(t, i + 1, unwound.0, unwound.1)
      else
        Err(InvalidCharacter(c))
  }

  /* One step of the scan, for each kind of character. */

  lemma ShuntOnLiteral(t: string, i: nat, stack: seq<StackItem>, out: seq<Token>)
    requires i < |t| && IsDigitOrPoint(t[i])
    ensures Shunt(t, i, stack, out) == Shunt(t, RunEnd(t, i), stack, out + [Literal(t[i..RunEnd(t, i)])])
  {
  }

  lemma ShuntOnOperator(t: string, i: nat, stack: seq<StackItem>, out: seq<Token>)
    requires i < |t| && IsOperator(t[i])
    ensures var o := OperatorOf(t[i]).value;
            var popped := PopOperators(o, stack, out);
            Shunt(t, i, stack, out) == Shunt(t, i + 1, popped.0 + [Pending(o)], popped.1)
  {
  }

  lemma ShuntOnLeftParenthesis(t: string, i: nat, stack: seq<StackItem>, out: seq<Token>)
    requires i < |t| && t[i] == LeftParenthesis
    ensures Shunt(t, i, stack, out) == Shunt(t, i + 1, stack + [OpenParen], out)
  {
  }

  lemma ShuntOnRightParenthesis(t: string, i: nat, stack: seq<StackItem>, out: seq<Token>)
    requires i < |t| && t[i] == RightParenthesis
    ensures UnwindToParen(stack, out).None? ==> Shunt(t, i, stack, out) == Err(MismatchedParentheses)
    ensures UnwindToParen(stack, out).Some? ==>
      var unwound := UnwindToParen(stack, out).value;
      Shunt(t, i, stack, out) == Shunt(t, i + 1, unwound.0, unwound.1)
  {
  }

  lemma ShuntOnInvalid(t: string, i: nat, stack: seq<StackItem>, out: seq<Token>)
    requires i < |t| && !IsValid(t[i])
    ensures Shunt(t, i, stack, out) == Err(InvalidCharacter(t[i]))
  {
  }

  /** The postfix tokens of an infix expression, or the error the
      conversion raises. Only the empty string is refused up front. */
  function Tokens(infix: string): Result<seq<Token>>
  {
    if infix == "" then Err(EmptyInput) else Shunt(Strip(infix), 0, [], [])
  }

  /** The conversion itself (`stringToPostfix`). */
  function Convert(infix: string): Result<string>
  {
    match Tokens(infix)
    case Ok(toks) => Ok(Join(toks))
    case Err(e) => Err(e)
  }

  /* ---------------------------------------------------------------- */
  /* Single steps of the scan over known text                          */
  /* ---------------------------------------------------------------- */

  lemma StripNoBlank(s: string)
    requires forall k :: 0 <= k < |s| ==> !IsWhitespace(s[k])
    ensures Strip(s) == s
  {
    if s != [] {
      StripNoBlank(s[1..]);
    }
  }

  /** The run of digits and points from i ends at j when every character
      in between is one and the one at j is not. */
  lemma {:induction false} RunEndIs(t: string, i: nat, j: nat)
    requires i < j <= |t|
    requires forall k :: i <= k < j ==> IsDigitOrPoint(t[k])
    requires j == |t| || !IsDigitOrPoint(t[j])
    ensures RunEnd(t, i) == j
    decreases j - i
  {
    if i + 1 < j {
      RunEndIs(t, i + 1, j);
    }
  }

  lemma LiteralStep(t: string, i: nat, j: nat, stack: seq<StackItem>, out: seq<Token>, out': seq<Token>)
    requires i < j <= |t|
    requires forall k :: i <= k < j ==> IsDigitOrPoint(t[k])
    requires j == |t| || !IsDigitOrPoint(t[j])
    requires out' == out + [Literal(t[i..j])]
    ensures Shunt(t, i, stack, out) == Shunt(t, j, stack, out')
  {
    RunEndIs(t, i, j);
    ShuntOnLiteral(t, i, stack, out);
  }

  /** A one-digit literal. */
  lemma DigitStep(t: string, i: nat, stack: seq<StackItem>, out: seq<Token>, out': seq<Token>)
    requires i < |t| && '0' <= t[i] <= '9'
    requires i + 1 == |t| || !IsDigitOrPoint(t[i + 1])
    requires out' == out + [Literal([t[i]])]
    ensures Shunt(t, i, stack, out) == Shunt(t, i + 1, stack, out')
  {
    ShuntOnLiteral(t, i, stack, out);
    assert t[i..i + 1] == [t[i]];
  }

  lemma OperatorStep(t: string, i: nat, o: Op, stack: seq<StackItem>, out: seq<Token>, stack': seq<StackItem>, out': seq<Token>)
    requires i < |t| && t[i] == Symbol(o)
    requires stack' != [] && stack'[|stack'| - 1] == Pending(o)
    requires PopOperators(o, stack, out) == (stack'[..|stack'| - 1], out')
    ensures Shunt(t, i, stack, out) == Shunt(t, i + 1, stack', out')
  {
    SymbolRoundTrip(o);
    ShuntOnOperator(t, i, stack, out);
    assert stack' == stack'[..|stack'| - 1] + [Pending(o)];
  }

  lemma OpenStep(t: string, i: nat, stack: seq<StackItem>, out: seq<Token>, stack': seq<StackItem>)
    requires i < |t| && t[i] == LeftParenthesis
    requires stack' == stack + [OpenParen]
    ensures Shunt(t, i, stack, out) == Shunt(t, i + 1, stack', out)
  {
    ShuntOnLeftParenthesis(t, i, stack, out);
  }

  lemma CloseStep(t: string, i: nat, stack: seq<StackItem>, out: seq<Token>, stack': seq<StackItem>, out': seq<Token>)
    requires i < |t| && t[i] == RightParenthesis
    requires UnwindToParen(stack, out) == Some((stack', out'))
    ensures Shunt(t, i, stack, out) == Shunt(t, i + 1, stack', out')
  {
    ShuntOnRightParenthesis(t, i, stack, out);
  }

  lemma PopStep(o: Op, stack: seq<StackItem>, top: Op, out: seq<Token>, out': seq<Token>)
    requires stack != [] && stack[|stack| - 1] == Pending(top) && ShouldPop(o, top)
    requires out' == out + [Operator(top)]
    ensures PopOperators(o, stack, out) == PopOperators(o, stack[..|stack| - 1], out')
  {
  }

  lemma PopStop(o: Op, stack: seq<StackItem>, out: seq<Token>)
    requires stack == [] || stack[|stack| - 1] == OpenParen || !ShouldPop(o, stack[|stack| - 1].o)
    ensures PopOperators(o, stack, out) == (stack, out)
  {
  }

  lemma UnwindStep(stack: seq<StackItem>, top: Op, out: seq<Token>, out': seq<Token>)
    requires stack != [] && stack[|stack| - 1] == Pending(top)
    requires out' == out + [Operator(top)]
    ensures UnwindToParen(stack, out) == UnwindToParen(stack[..|stack| - 1], out')
  {
  }

  lemma DrainStep(stack: seq<StackItem>, top: Op, out: seq<Token>, out': seq<Token>)
    requires stack != [] && stack[|stack| - 1] == Pending(top)
    requires out' == out + [Operator(top)]
    ensures Drain(stack, out) == Drain(stack[..|stack| - 1], out')
  {
  }

  lemma JoinCons(toks: seq<Token>)
    requires |toks| > 1
    ensures Join(toks) == Render(toks[0]) + " " + Join(toks[1..])
  {
  }

  /** The conversion of an input whose white-space-free text is t and
      whose scan is known. */
  lemma ConvertsTo(infix: string, t: string, toks: seq<Token>, text: string)
    requires infix != [] && Strip(infix) == t
    requires Shunt(t, 0, [], []) == Ok(toks) && Join(toks) == text
    ensures Convert(infix) == Ok(text)
  {
  }

  lemma FailsWith(infix: string, t: string, e: Error)
    requires infix != [] && Strip(infix) == t
    requires Shunt(t, 0, [], []) == Err(e)
    ensures Convert(infix) == Err(e)
  {
  }
}
