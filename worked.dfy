/** Worked conversions: the output of `stringToPostfix` on particular
    inputs, derived one scan step at a time. */
module Worked {
  import opened Symbols
  import opened ShuntingYard

  /* ---------------------------------------------------------------- */
  /* Input written with single spaces                                   */
  /* ---------------------------------------------------------------- */

  /** Characters separated by single spaces lose only the spaces. */
  lemma {:induction false} StripSingleSpaced(s: string, t: string)
    requires t != [] && |s| == 2 * |t| - 1
    requires forall k :: 0 <= k < |t| ==> !IsWhitespace(t[k])
    requires forall k :: 0 <= k < |s| ==> s[k] == (if k % 2 == 0 then t[k / 2] else ' ')
    ensures Strip(s) == t
    decreases |t|
  {
    if |t| == 1 {
      assert s == [t[0]];
    } else {
      assert s[1..][1..] == s[2..];
      forall k | 0 <= k < |s[2..]|
        ensures s[2..][k] == (if k % 2 == 0 then t[1..][k / 2] else ' ')
      {
        assert s[2..][k] == s[k + 2];
      }
      StripSingleSpaced(s[2..], t[1..]);
      assert t == [t[0]] + t[1..];
    }
  }

  /* ---------------------------------------------------------------- */
  /* Conversions                                                        */
  /* ---------------------------------------------------------------- */

  /** Subtraction groups to the left: each `-` pops the one before it. */
  lemma LeftAssociativeTrace(t: string)
    requires |t| == 5 && t[0] == '8' && t[1] == '-' && t[2] == '4' && t[3] == '-' && t[4] == '2'
    ensures Shunt(t, 0, [], []) == Ok([Literal("8"), Literal("4"), Operator(Subtraction), Literal("2"), Operator(Subtraction)])
  {
    var L8, L4, L2, S := Literal("8"), Literal("4"), Literal("2"), Operator(Subtraction);
    var P := Pending(Subtraction);
    calc {
      Shunt(t, 0, [], []);
    == { DigitStep(t, 0, [], [], [L8]); }
      Shunt(t, 1, [], [L8]);
    == { PopStop(Subtraction, [], [L8]); OperatorStep(t, 1, Subtraction, [], [L8], [P], [L8]); }
      Shunt(t, 2, [P], [L8]);
    == { DigitStep(t, 2, [P], [L8], [L8, L4]); }
      Shunt(t, 3, [P], [L8, L4]);
    == { PopStep(Subtraction, [P], Subtraction, [L8, L4], [L8, L4, S]);
         PopStop(Subtraction, [], [L8, L4, S]);
         OperatorStep(t, 3, Subtraction, [P], [L8, L4], [P], [L8, L4, S]); }
      Shunt(t, 4, [P], [L8, L4, S]);
    == { DigitStep(t, 4, [P], [L8, L4, S], [L8, L4, S, L2]); }
      Shunt(t, 5, [P], [L8, L4, S, L2]);
    == { DrainStep([P], Subtraction, [L8, L4, S, L2], [L8, L4, S, L2, S]); }
      Ok([L8, L4, S, L2, S]);
    }
  }

  lemma LeftAssociativeText(toks: seq<Token>)
    requires toks == [Literal("8"), Literal("4"), Operator(Subtraction), Literal("2"), Operator(Subtraction)]
    ensures Join(toks) == "8 4 - 2 -"
  {
    JoinCons(toks);
    JoinCons(toks[1..]);
    JoinCons(toks[2..]);
    JoinCons(toks[3..]);
  }

  /** `8-4-2` is (8-4)-2. */
  lemma LeftAssociative(infix: string)
    requires infix == "8-4-2"
    ensures Convert(infix) == Ok("8 4 - 2 -")
  {
    var toks := [Literal("8"), Literal("4"), Operator(Subtraction), Literal("2"), Operator(Subtraction)];
    LeftAssociativeTrace(infix);
    LeftAssociativeText(toks);
    StripNoBlank(infix);
    ConvertsTo(infix, infix, toks, "8 4 - 2 -");
  }

  /** Powers group to the right: a `^` does not pop the `^` before it. */
  lemma RightAssociativeTrace(t: string)
    requires |t| == 5 && t[0] == '2' && t[1] == '^' && t[2] == '3' && t[3] == '^' && t[4] == '2'
    ensures Shunt(t, 0, [], []) == Ok([Literal("2"), Literal("3"), Literal("2"), Operator(Power), Operator(Power)])
  {
    var L2, L3, X := Literal("2"), Literal("3"), Operator(Power);
    var P := Pending(Power);
    calc {
      Shunt(t, 0, [], []);
    == { DigitStep(t, 0, [], [], [L2]); }
      Shunt(t, 1, [], [L2]);
    == { PopStop(Power, [], [L2]); OperatorStep(t, 1, Power, [], [L2], [P], [L2]); }
      Shunt(t, 2, [P], [L2]);
    == { DigitStep(t, 2, [P], [L2], [L2, L3]); }
      Shunt(t, 3, [P], [L2, L3]);
    == { PopStop(Power, [P], [L2, L3]); assert [P, P][..1] == [P]; OperatorStep(t, 3, Power, [P], [L2, L3], [P, P], [L2, L3]); }
      Shunt(t, 4, [P, P], [L2, L3]);
    == { DigitStep(t, 4, [P, P], [L2, L3], [L2, L3, L2]); }
      Shunt(t, 5, [P, P], [L2, L3, L2]);
    == { DrainStep([P, P], Power, [L2, L3, L2], [L2, L3, L2, X]);
         DrainStep([P], Power, [L2, L3, L2, X], [L2, L3, L2, X, X]); }
      Ok([L2, L3, L2, X, X]);
    }
  }

  lemma RightAssociativeText(toks: seq<Token>)
    requires toks == [Literal("2"), Literal("3"), Literal("2"), Operator(Power), Operator(Power)]
    ensures Join(toks) == "2 3 2 ^ ^"
  {
    JoinCons(toks);
    JoinCons(toks[1..]);
    JoinCons(toks[2..]);
    JoinCons(toks[3..]);
  }

  /** `2^3^2` is 2^(3^2). */
  lemma RightAssociative(infix: string)
    requires infix == "2^3^2"
    ensures Convert(infix) == Ok("2 3 2 ^ ^")
  {
    var toks := [Literal("2"), Literal("3"), Literal("2"), Operator(Power), Operator(Power)];
    RightAssociativeTrace(infix);
    RightAssociativeText(toks);
    StripNoBlank(infix);
    ConvertsTo(infix, infix, toks, "2 3 2 ^ ^");
  }

  /** The white space of `3 + 4 * 2` is removed. */
  lemma PrecedenceStrip(s: string)
    requires |s| == 9 && s[0] == '3' && s[1] == ' ' && s[2] == '+' && s[3] == ' ' && s[4] == '4'
             && s[5] == ' ' && s[6] == '*' && s[7] == ' ' && s[8] == '2'
    ensures Strip(s) == ['3', '+', '4', '*', '2']
  {
    StripSingleSpaced(s, ['3', '+', '4', '*', '2']);
  }

  /** A `*` does not pop the weaker `+` below it. */
  lemma PrecedenceTrace(t: string)
    requires |t| == 5 && t[0] == '3' && t[1] == '+' && t[2] == '4' && t[3] == '*' && t[4] == '2'
    ensures Shunt(t, 0, [], []) == Ok([Literal("3"), Literal("4"), Literal("2"), Operator(Multiplication), Operator(Addition)])
  {
    var L3, L4, L2 := Literal("3"), Literal("4"), Literal("2");
    var A, M := Pending(Addition), Pending(Multiplication);
    var Ao, Mo := Operator(Addition), Operator(Multiplication);
    calc {
      Shunt(t, 0, [], []);
    == { DigitStep(t, 0, [], [], [L3]); }
      Shunt(t, 1, [], [L3]);
    == { PopStop(Addition, [], [L3]); OperatorStep(t, 1, Addition, [], [L3], [A], [L3]); }
      Shunt(t, 2, [A], [L3]);
    == { DigitStep(t, 2, [A], [L3], [L3, L4]); }
      Shunt(t, 3, [A], [L3, L4]);
    == { PopStop(Multiplication, [A], [L3, L4]); assert [A, M][..1] == [A]; OperatorStep(t, 3, Multiplication, [A], [L3, L4], [A, M], [L3, L4]); }
      Shunt(t, 4, [A, M], [L3, L4]);
    == { DigitStep(t, 4, [A, M], [L3, L4], [L3, L4, L2]); }
      Shunt(t, 5, [A, M], [L3, L4, L2]);
    == { DrainStep([A, M], Multiplication, [L3, L4, L2], [L3, L4, L2, Mo]);
         DrainStep([A], Addition, [L3, L4, L2, Mo], [L3, L4, L2, Mo, Ao]); }
      Ok([L3, L4, L2, Mo, Ao]);
    }
  }

  lemma PrecedenceText(toks: seq<Token>)
    requires toks == [Literal("3"), Literal("4"), Literal("2"), Operator(Multiplication), Operator(Addition)]
    ensures Join(toks) == "3 4 2 * +"
  {
    JoinCons(toks);
    JoinCons(toks[1..]);
    JoinCons(toks[2..]);
    JoinCons(toks[3..]);
  }

  /** `3 + 4 * 2` is 3+(4*2). */
  lemma MultiplicationBindsTighter(infix: string)
    requires infix == "3 + 4 * 2"
    ensures Convert(infix) == Ok("3 4 2 * +")
  {
    var toks := [Literal("3"), Literal("4"), Literal("2"), Operator(Multiplication), Operator(Addition)];
    PrecedenceStrip(infix);
    PrecedenceTrace(Strip(infix));
    PrecedenceText(toks);
    ConvertsTo(infix, Strip(infix), toks, "3 4 2 * +");
  }

  /** Parentheses override precedence and are not emitted. */
  lemma GroupingTrace(t: string)
    requires |t| == 7 && t[0] == '(' && t[1] == '2' && t[2] == '+' && t[3] == '3' && t[4] == ')'
             && t[5] == '*' && t[6] == '4'
    ensures Shunt(t, 0, [], []) == Ok([Literal("2"), Literal("3"), Operator(Addition), Literal("4"), Operator(Multiplication)])
  {
    var L2, L3, L4 := Literal("2"), Literal("3"), Literal("4");
    var A, M := Pending(Addition), Pending(Multiplication);
    var Ao, Mo := Operator(Addition), Operator(Multiplication);
    calc {
      Shunt(t, 0, [], []);
    == { OpenStep(t, 0, [], [], [OpenParen]); }
      Shunt(t, 1, [OpenParen], []);
    == { DigitStep(t, 1, [OpenParen], [], [L2]); }
      Shunt(t, 2, [OpenParen], [L2]);
    == { PopStop(Addition, [OpenParen], [L2]); assert [OpenParen, A][..1] == [OpenParen]; OperatorStep(t, 2, Addition, [OpenParen], [L2], [OpenParen, A], [L2]); }
      Shunt(t, 3, [OpenParen, A], [L2]);
    == { DigitStep(t, 3, [OpenParen, A], [L2], [L2, L3]); }
      Shunt(t, 4, [OpenParen, A], [L2, L3]);
    == { UnwindStep([OpenParen, A], Addition, [L2, L3], [L2, L3, Ao]);
         CloseStep(t, 4, [OpenParen, A], [L2, L3], [], [L2, L3, Ao]); }
      Shunt(t, 5, [], [L2, L3, Ao]);
    == { PopStop(Multiplication, [], [L2, L3, Ao]); OperatorStep(t, 5, Multiplication, [], [L2, L3, Ao], [M], [L2, L3, Ao]); }
      Shunt(t, 6, [M], [L2, L3, Ao]);
    == { DigitStep(t, 6, [M], [L2, L3, Ao], [L2, L3, Ao, L4]); }
      Shunt(t, 7, [M], [L2, L3, Ao, L4]);
    == { DrainStep([M], Multiplication, [L2, L3, Ao, L4], [L2, L3, Ao, L4, Mo]); }
      Ok([L2, L3, Ao, L4, Mo]);
    }
  }

  lemma GroupingText(toks: seq<Token>)
    requires toks == [Literal("2"), Literal("3"), Operator(Addition), Literal("4"), Operator(Multiplication)]
    ensures Join(toks) == "2 3 + 4 *"
  {
    JoinCons(toks);
    JoinCons(toks[1..]);
    JoinCons(toks[2..]);
    JoinCons(toks[3..]);
  }

  /** `(2+3)*4` adds first. */
  lemma ParenthesesGroup(infix: string)
    requires infix == "(2+3)*4"
    ensures Convert(infix) == Ok("2 3 + 4 *")
  {
    var toks := [Literal("2"), Literal("3"), Operator(Addition), Literal("4"), Operator(Multiplication)];
    GroupingTrace(infix);
    GroupingText(toks);
    StripNoBlank(infix);
    ConvertsTo(infix, infix, toks, "2 3 + 4 *");
  }

  /** An empty pair of parentheses is accepted and emits nothing. */
  lemma EmptyParentheses(infix: string)
    requires infix == "()"
    ensures Convert(infix) == Ok("")
  {
    OpenStep(infix, 0, [], [], [OpenParen]);
    CloseStep(infix, 1, [OpenParen], [], [], []);
    StripNoBlank(infix);
    ConvertsTo(infix, infix, [], "");
  }

  /** Two operators in a row are accepted: the second pops the first. */
  lemma RepeatedOperatorTrace(t: string)
    requires |t| == 4 && t[0] == '3' && t[1] == '+' && t[2] == '+' && t[3] == '4'
    ensures Shunt(t, 0, [], []) == Ok([Literal("3"), Operator(Addition), Literal("4"), Operator(Addition)])
  {
    var L3, L4, A, Ao := Literal("3"), Literal("4"), Pending(Addition), Operator(Addition);
    calc {
      Shunt(t, 0, [], []);
    == { DigitStep(t, 0, [], [], [L3]); }
      Shunt(t, 1, [], [L3]);
    == { PopStop(Addition, [], [L3]); OperatorStep(t, 1, Addition, [], [L3], [A], [L3]); }
      Shunt(t, 2, [A], [L3]);
    == { PopStep(Addition, [A], Addition, [L3], [L3, Ao]);
         PopStop(Addition, [], [L3, Ao]);
         OperatorStep(t, 2, Addition, [A], [L3], [A], [L3, Ao]); }
      Shunt(t, 3, [A], [L3, Ao]);
    == { DigitStep(t, 3, [A], [L3, Ao], [L3, Ao, L4]); }
      Shunt(t, 4, [A], [L3, Ao, L4]);
    == { DrainStep([A], Addition, [L3, Ao, L4], [L3, Ao, L4, Ao]); }
      Ok([L3, Ao, L4, Ao]);
    }
  }

  lemma RepeatedOperatorText(toks: seq<Token>)
    requires toks == [Literal("3"), Operator(Addition), Literal("4"), Operator(Addition)]
    ensures Join(toks) == "3 + 4 +"
  {
    JoinCons(toks);
    JoinCons(toks[1..]);
    JoinCons(toks[2..]);
  }

  /** `3++4` is not refused. */
  lemma RepeatedOperator(infix: string)
    requires infix == "3++4"
    ensures Convert(infix) == Ok("3 + 4 +")
  {
    var toks := [Literal("3"), Operator(Addition), Literal("4"), Operator(Addition)];
    RepeatedOperatorTrace(infix);
    RepeatedOperatorText(toks);
    StripNoBlank(infix);
    ConvertsTo(infix, infix, toks, "3 + 4 +");
  }

  /** A closing parenthesis with none open. */
  lemma UnopenedTrace(t: string)
    requires |t| == 4 && t[0] == '3' && t[1] == '+' && t[2] == '4' && t[3] == ')'
    ensures Shunt(t, 0, [], []) == Err(MismatchedParentheses)
  {
    var L3, L4, A, Ao := Literal("3"), Literal("4"), Pending(Addition), Operator(Addition);
    calc {
      Shunt(t, 0, [], []);
    == { DigitStep(t, 0, [], [], [L3]); }
      Shunt(t, 1, [], [L3]);
    == { PopStop(Addition, [], [L3]); OperatorStep(t, 1, Addition, [], [L3], [A], [L3]); }
      Shunt(t, 2, [A], [L3]);
    == { DigitStep(t, 2, [A], [L3], [L3, L4]); }
      Shunt(t, 3, [A], [L3, L4]);
    == { UnwindStep([A], Addition, [L3, L4], [L3, L4, Ao]);
         ShuntOnRightParenthesis(t, 3, [A], [L3, L4]); }
      Err(MismatchedParentheses);
    }
  }

  /** `3+4)` fails with mismatched parentheses. */
  lemma UnopenedParenthesis(infix: string)
    requires infix == "3+4)"
    ensures Convert(infix) == Err(MismatchedParentheses)
  {
    UnopenedTrace(infix);
    StripNoBlank(infix);
    FailsWith(infix, infix, MismatchedParentheses);
  }

  /** An opening parenthesis never closed. */
  lemma UnclosedTrace(t: string)
    requires |t| == 4 && t[0] == '(' && t[1] == '3' && t[2] == '+' && t[3] == '4'
    ensures Shunt(t, 0, [], []) == Err(MismatchedParentheses)
  {
    var L3, L4, A, Ao := Literal("3"), Literal("4"), Pending(Addition), Operator(Addition);
    calc {
      Shunt(t, 0, [], []);
    == { OpenStep(t, 0, [], [], [OpenParen]); }
      Shunt(t, 1, [OpenParen], []);
    == { DigitStep(t, 1, [OpenParen], [], [L3]); }
      Shunt(t, 2, [OpenParen], [L3]);
    == { PopStop(Addition, [OpenParen], [L3]); assert [OpenParen, A][..1] == [OpenParen]; OperatorStep(t, 2, Addition, [OpenParen], [L3], [OpenParen, A], [L3]); }
      Shunt(t, 3, [OpenParen, A], [L3]);
    == { DigitStep(t, 3, [OpenParen, A], [L3], [L3, L4]); }
      Shunt(t, 4, [OpenParen, A], [L3, L4]);
    == { DrainStep([OpenParen, A], Addition, [L3, L4], [L3, L4, Ao]); }
      Err(MismatchedParentheses);
    }
  }

  /** `(3+4` fails with mismatched parentheses. */
  lemma UnclosedParenthesis(infix: string)
    requires infix == "(3+4"
    ensures Convert(infix) == Err(MismatchedParentheses)
  {
    UnclosedTrace(infix);
    StripNoBlank(infix);
    FailsWith(infix, infix, MismatchedParentheses);
  }

  lemma InvalidTrace(t: string)
    requires |t| == 3 && t[0] == '3' && t[1] == '+' && t[2] == 'x'
    ensures Shunt(t, 0, [], []) == Err(InvalidCharacter('x'))
  {
    var L3, A := Literal("3"), Pending(Addition);
    calc {
      Shunt(t, 0, [], []);
    == { DigitStep(t, 0, [], [], [L3]); }
      Shunt(t, 1, [], [L3]);
    == { PopStop(Addition, [], [L3]); OperatorStep(t, 1, Addition, [], [L3], [A], [L3]); }
      Shunt(t, 2, [A], [L3]);
    == { ShuntOnInvalid(t, 2, [A], [L3]); }
      Err(InvalidCharacter('x'));
    }
  }

  /** `3+x` fails naming `x`. */
  lemma InvalidCharacterNamed(infix: string)
    requires infix == "3+x"
    ensures Convert(infix) == Err(InvalidCharacter('x'))
  {
    InvalidTrace(infix);
    StripNoBlank(infix);
    FailsWith(infix, infix, InvalidCharacter('x'));
  }

  /** A text that is one run of digits and points is one literal. */
  lemma WholeLiteral(t: string)
    requires t != [] && forall k :: 0 <= k < |t| ==> IsDigitOrPoint(t[k])
    ensures Shunt(t, 0, [], []) == Ok([Literal(t)])
  {
    assert t[0..|t|] == t;
    LiteralStep(t, 0, |t|, [], [], [Literal(t)]);
  }

  /** Digits separated only by white space become one literal. */
  lemma SpaceJoinsDigits(infix: string)
    requires infix == "1 2"
    ensures Convert(infix) == Ok("12")
  {
    var t := ['1', '2'];
    StripSingleSpaced(infix, t);
    WholeLiteral(t);
    ConvertsTo(infix, t, [Literal(t)], "12");
  }

  /** A run of digits and points is one literal, copied verbatim even when
      it is not a well-formed number. */
  lemma PointsStayInLiteral(infix: string)
    requires infix == "1.2.3"
    ensures Convert(infix) == Ok("1.2.3")
  {
    forall k | 0 <= k < |infix|
      ensures IsDigitOrPoint(infix[k])
    {
    }
    LiteralConvertsVerbatim(infix);
  }

  /** Input that is one run of digits and points converts to itself. */
  lemma LiteralConvertsVerbatim(infix: string)
    requires infix != [] && forall k :: 0 <= k < |infix| ==> IsDigitOrPoint(infix[k])
    ensures Convert(infix) == Ok(infix)
  {
    StripNoBlank(infix);
    WholeLiteral(infix);
    ConvertsTo(infix, infix, [Literal(infix)], infix);
  }
}
