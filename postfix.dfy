/** Correctness of the conversion for every expression: an arithmetic
    expression written in infix, with parentheses wherever precedence and
    associativity demand them, converts to its postfix form. */
module Postfix {
  import opened Symbols
  import opened ShuntingYard

  /** An arithmetic expression: a numeric literal, a binary operation, or
      an expression written between parentheses. */
  datatype Expr = Num(lexeme: string) | Bin(op: Op, left: Expr, right: Expr) | Group(inner: Expr)

  /** Every literal of the expression is a non-empty run of digits and
      points. */
  predicate Literals(e: Expr)
  {
    match e
    case Num(s) => s != [] && forall k :: 0 <= k < |s| ==> IsDigitOrPoint(s[k])
    case Bin(_, l, r) => Literals(l) && Literals(r)
    case Group(g) => Literals(g)
  }

  /** The expression written in infix, without white space. */
  function Infix(e: Expr): string
  {
    match e
    case Num(s) => s
    case Bin(o, l, r) => Infix(l) + [Symbol(o)] + Infix(r)
    case Group(g) => [LeftParenthesis] + Infix(g) + [RightParenthesis]
  }

  /** The expression in postfix: both operands, then the operator. */
  function Rpn(e: Expr): seq<Token>
  {
    match e
    case Num(s) => [Literal(s)]
    case Bin(o, l, r) => Rpn(l) + Rpn(r) + [Operator(o)]
    case Group(g) => Rpn(g)
  }

  /** An unparenthesized operation may be the left operand of o when it
      binds tighter, or equally tight and o groups to the left. */
  predicate LeftOperandFits(o: Op, l: Expr)
  {
    !l.Bin? || Precedence(l.op) > Precedence(o)
    || (Precedence(l.op) == Precedence(o) && Associativity(o) == Left)
  }

  /** An unparenthesized operation may be the right operand of o when it
      binds tighter, or equally tight and o groups to the right. */
  predicate RightOperandFits(o: Op, r: Expr)
  {
    !r.Bin? || Precedence(r.op) > Precedence(o)
    || (Precedence(r.op) == Precedence(o) && Associativity(o) == Right)
  }

  /** The infix text reads back as the expression under the usual rules of
      precedence and associativity: every operand that would otherwise be
      read differently is parenthesized. */
  predicate Unambiguous(e: Expr)
  {
    match e
    case Num(_) => true
    case Bin(o, l, r) => Unambiguous(l) && Unambiguous(r) && LeftOperandFits(o, l) && RightOperandFits(o, r)
    case Group(g) => Unambiguous(g)
  }

  /** The operators of the expression that are outside every pair of
      parentheses. */
  function TopOps(e: Expr): set<Op>
  {
    match e
    case Num(_) => {}
    case Bin(o, l, r) => {o} + TopOps(l) + TopOps(r)
    case Group(_) => {}
  }

  /** The operators still on the stack when the scan has read the
      expression, bottom first: its own operator and those of its right
      operand, which only what follows the expression can pop. */
  function Residual(e: Expr): seq<StackItem>
  {
    match e
    case Bin(o, _, r) => [Pending(o)] + Residual(r)
    case _ => []
  }

  /** The tokens already emitted when the scan has read the expression. */
  function Emitted(e: Expr): seq<Token>
  {
    match e
    case Num(s) => [Literal(s)]
    case Bin(_, l, r) => Rpn(l) + Emitted(r)
    case Group(g) => Rpn(g)
  }

  /** The stack lets the expression be read without popping anything of
      it: its top is missing, an opening parenthesis, or an operator that
      no operator of the expression outside parentheses pops. */
  predicate Admits(stack: seq<StackItem>, e: Expr)
  {
    stack == [] || stack[|stack| - 1].OpenParen?
    || forall p :: p in TopOps(e) ==> !ShouldPop(p, stack[|stack| - 1].o)
  }

  /* ---------------------------------------------------------------- */
  /* The stack an expression leaves behind                              */
  /* ---------------------------------------------------------------- */

  /** Emptying a segment with one more operator at its bottom emits that
      operator last. */
  lemma {:induction false} TopFirstCons(bottom: StackItem, items: seq<StackItem>)
    requires bottom.Pending? && AllPending(items)
    ensures AllPending([bottom] + items)
    ensures TopFirst([bottom] + items) == TopFirst(items) + [Operator(bottom.o)]
    decreases |items|
  {
    if items != [] {
      var s := [bottom] + items;
      var init := items[..|items| - 1];
      assert s[..|s| - 1] == [bottom] + init;
      assert s[|s| - 1] == items[|items| - 1];
      TopFirstCons(bottom, init);
    }
  }

  /** What is left on the stack is operators of the expression, and
      popping them completes its postfix form. */
  lemma {:induction false} ResidualCompletes(e: Expr)
    ensures AllPending(Residual(e))
    ensures forall k :: 0 <= k < |Residual(e)| ==> Residual(e)[k].o in TopOps(e)
    ensures Emitted(e) + TopFirst(Residual(e)) == Rpn(e)
  {
    match e
    case Num(_) =>
    case Group(_) =>
    case Bin(o, l, r) =>
      ResidualCompletes(r);
      TopFirstCons(Pending(o), Residual(r));
      assert Residual(e) == [Pending(o)] + Residual(r);
      forall k | 0 <= k < |Residual(e)|
        ensures Residual(e)[k].o in TopOps(e)
      {
        if k > 0 {
          assert Residual(e)[k] == Residual(r)[k - 1];
        }
      }
  }

  /** Every operator outside parentheses binds at least as tightly as the
      expression's own operator. */
  lemma {:induction false} BindsAtLeast(e: Expr)
    requires e.Bin? && Unambiguous(e)
    ensures forall p :: p in TopOps(e) ==> Precedence(p) >= Precedence(e.op)
  {
    var l, r := e.left, e.right;
    if l.Bin? {
      BindsAtLeast(l);
    }
    if r.Bin? {
      BindsAtLeast(r);
    }
  }

  /** Operators of equal precedence group the same way. */
  lemma SamePrecedenceSameAssociativity(p: Op, q: Op)
    requires Precedence(p) == Precedence(q)
    ensures Associativity(p) == Associativity(q)
  {
  }

  /** The operator after a left operand pops every operator the operand
      leaves on the stack. */
  lemma LeftOperandPopped(o: Op, l: Expr)
    requires Unambiguous(l) && LeftOperandFits(o, l)
    ensures forall p :: p in TopOps(l) ==> ShouldPop(o, p)
  {
    if l.Bin? {
      BindsAtLeast(l);
    }
  }

  /** No operator of a right operand outside parentheses pops the
      operator before it. */
  lemma RightOperandStays(o: Op, r: Expr)
    requires Unambiguous(r) && RightOperandFits(o, r)
    ensures forall p :: p in TopOps(r) ==> !ShouldPop(p, o)
  {
    if r.Bin? {
      BindsAtLeast(r);
      forall p | p in TopOps(r)
        ensures !ShouldPop(p, o)
      {
        if Precedence(p) == Precedence(o) {
          SamePrecedenceSameAssociativity(p, o);
        }
      }
    }
  }

  /* ---------------------------------------------------------------- */
  /* The three stack loops over a run of popped operators               */
  /* ---------------------------------------------------------------- */

  /** An incoming operator that pops a whole run of operators emits it top
      first and goes on below it. */
  lemma {:induction false} PopThrough(o: Op, stack: seq<StackItem>, items: seq<StackItem>, out: seq<Token>)
    requires AllPending(items)
    requires forall k :: 0 <= k < |items| ==> ShouldPop(o, items[k].o)
    ensures PopOperators(o, stack + items, out) == PopOperators(o, stack, out + TopFirst(items))
    decreases |items|
  {
    if items == [] {
      assert stack + items == stack && out + TopFirst(items) == out;
    } else {
      var s, top, init := stack + items, items[|items| - 1], items[..|items| - 1];
      assert s[..|s| - 1] == stack + init && s[|s| - 1] == top;
      PopThrough(o, stack, init, out + [Operator(top.o)]);
      assert out + [Operator(top.o)] + TopFirst(init) == out + TopFirst(items);
    }
  }

  /** A closing parenthesis emits the operators above the opening one, top
      first, and removes it. */
  lemma {:induction false} UnwindThrough(stack: seq<StackItem>, items: seq<StackItem>, out: seq<Token>)
    requires AllPending(items)
    ensures UnwindToParen(stack + [OpenParen] + items, out) == Some((stack, out + TopFirst(items)))
    decreases |items|
  {
    var s := stack + [OpenParen] + items;
    if items == [] {
      assert s == stack + [OpenParen] && s[..|s| - 1] == stack && s[|s| - 1] == OpenParen;
      assert out + TopFirst(items) == out;
    } else {
      var top, init := items[|items| - 1], items[..|items| - 1];
      assert s[..|s| - 1] == stack + [OpenParen] + init && s[|s| - 1] == top;
      UnwindThrough(stack, init, out + [Operator(top.o)]);
      assert out + [Operator(top.o)] + TopFirst(init) == out + TopFirst(items);
    }
  }

  /* ---------------------------------------------------------------- */
  /* Reading one expression                                             */
  /* ---------------------------------------------------------------- */

  /** The infix text of an expression holds only accepted characters. */
  lemma {:induction false} InfixValid(e: Expr)
    requires Literals(e)
    ensures Infix(e) != []
    ensures forall k :: 0 <= k < |Infix(e)| ==> IsValid(Infix(e)[k]) && !IsWhitespace(Infix(e)[k])
  {
    match e
    case Num(_) =>
    case Bin(o, l, r) =>
      InfixValid(l);
      InfixValid(r);
      SymbolRoundTrip(o);
      var a, b := Infix(l), Infix(r);
      forall k | 0 <= k < |Infix(e)|
        ensures IsValid(Infix(e)[k]) && !IsWhitespace(Infix(e)[k])
      {
        if k > |a| {
          assert Infix(e)[k] == b[k - |a| - 1];
        } else if k < |a| {
          assert Infix(e)[k] == a[k];
        }
      }
    case Group(g) =>
      InfixValid(g);
      var a := Infix(g);
      forall k | 0 <= k < |Infix(e)|
        ensures IsValid(Infix(e)[k]) && !IsWhitespace(Infix(e)[k])
      {
        if 0 < k <= |a| {
          assert Infix(e)[k] == a[k - 1];
        }
      }
  }

  /** Reading the infix text of an expression, from a stack that admits
      it, emits its postfix form except for the operators left on the
      stack, which are those of `Residual`. */
  lemma {:induction false} ShuntReads(e: Expr, t: string, i: nat, stack: seq<StackItem>, out: seq<Token>)
    requires Literals(e) && Unambiguous(e)
    requires i + |Infix(e)| <= |t| && t[i..i + |Infix(e)|] == Infix(e)
    requires i + |Infix(e)| == |t| || !IsDigitOrPoint(t[i + |Infix(e)|])
    requires Admits(stack, e)
    ensures Shunt(t, i, stack, out) == Shunt(t, i + |Infix(e)|, stack + Residual(e), out + Emitted(e))
    decreases e, 2
  {
    match e
    case Num(s) => ReadsLiteral(s, t, i, stack, out);
    case Bin(o, l, r) => ReadsOperation(e, t, i, stack, out);
    case Group(g) => ReadsGroup(e, t, i, stack, out);
  }

  lemma ReadsLiteral(s: string, t: string, i: nat, stack: seq<StackItem>, out: seq<Token>)
    requires Literals(Num(s))
    requires i + |s| <= |t| && t[i..i + |s|] == s
    requires i + |s| == |t| || !IsDigitOrPoint(t[i + |s|])
    ensures Shunt(t, i, stack, out) == Shunt(t, i + |s|, stack + Residual(Num(s)), out + Emitted(Num(s)))
  {
    forall k | i <= k < i + |s|
      ensures IsDigitOrPoint(t[k])
    {
      assert t[k] == t[i..i + |s|][k - i];
    }
    assert stack + [] == stack;
    LiteralStep(t, i, i + |s|, stack, out, out + [Literal(s)]);
  }

  lemma {:induction false} ReadsOperation(e: Expr, t: string, i: nat, stack: seq<StackItem>, out: seq<Token>)
    requires e.Bin? && Literals(e) && Unambiguous(e)
    requires i + |Infix(e)| <= |t| && t[i..i + |Infix(e)|] == Infix(e)
    requires i + |Infix(e)| == |t| || !IsDigitOrPoint(t[i + |Infix(e)|])
    requires Admits(stack, e)
    ensures Shunt(t, i, stack, out) == Shunt(t, i + |Infix(e)|, stack + Residual(e), out + Emitted(e))
    decreases e, 1
  {
    ReadsLeftOperand(e, t, i, stack, out);
    ReadsRightOperand(e, t, i, stack, out);
  }

  /** Once the operator of an operation is pushed, reading its right
      operand leaves what the whole operation leaves. */
  lemma {:induction false} ReadsRightOperand(e: Expr, t: string, i: nat, stack: seq<StackItem>, out: seq<Token>)
    requires e.Bin? && Literals(e) && Unambiguous(e)
    requires i + |Infix(e)| <= |t| && t[i..i + |Infix(e)|] == Infix(e)
    requires i + |Infix(e)| == |t| || !IsDigitOrPoint(t[i + |Infix(e)|])
    ensures Shunt(t, i + |Infix(e.left)| + 1, stack + [Pending(e.op)], out + Rpn(e.left))
            == Shunt(t, i + |Infix(e)|, stack + Residual(e), out + Emitted(e))
    decreases e, 0
  {
    var k := i + |Infix(e.left)| + 1;
    OperationText(e, t, i);
    AdmitsRight(stack, e);
    OperationLeaves(e, stack, out);
    ShuntReads(e.right, t, k, stack + [Pending(e.op)], out + Rpn(e.left));
  }

  /** The operator of an operation, pushed, admits its right operand. */
  lemma AdmitsRight(stack: seq<StackItem>, e: Expr)
    requires e.Bin? && Unambiguous(e)
    ensures Admits(stack + [Pending(e.op)], e.right)
  {
    RightOperandStays(e.op, e.right);
  }

  /** The stack and output after the right operand are those of the whole
      operation. */
  lemma OperationLeaves(e: Expr, stack: seq<StackItem>, out: seq<Token>)
    requires e.Bin?
    ensures stack + [Pending(e.op)] + Residual(e.right) == stack + Residual(e)
    ensures out + Rpn(e.left) + Emitted(e.right) == out + Emitted(e)
  {
    var p, l, r := Pending(e.op), e.left, e.right;
    assert Residual(e) == [p] + Residual(r);
    assert Emitted(e) == Rpn(l) + Emitted(r);
    assert stack + [p] + Residual(r) == stack + ([p] + Residual(r));
    assert out + Rpn(l) + Emitted(r) == out + (Rpn(l) + Emitted(r));
  }

  /** Reading the left operand of an operation and then its operator
      emits the whole left operand and pushes the operator. */
  lemma {:induction false} ReadsLeftOperand(e: Expr, t: string, i: nat, stack: seq<StackItem>, out: seq<Token>)
    requires e.Bin? && Literals(e) && Unambiguous(e)
    requires i + |Infix(e)| <= |t| && t[i..i + |Infix(e)|] == Infix(e)
    requires Admits(stack, e)
    ensures i + |Infix(e.left)| < |t|
    ensures Shunt(t, i, stack, out)
            == Shunt(t, i + |Infix(e.left)| + 1, stack + [Pending(e.op)], out + Rpn(e.left))
    decreases e, 0
  {
    var o, l := e.op, e.left;
    var k1 := i + |Infix(l)|;
    OperationText(e, t, i);
    SymbolRoundTrip(o);
    AdmitsOperands(stack, e);
    calc {
      Shunt(t, i, stack, out);
    == { ShuntReads(l, t, i, stack, out); }
      Shunt(t, k1, stack + Residual(l), out + Emitted(l));
    == { OperatorAfterLeft(o, l, t, k1, stack, out); }
      Shunt(t, k1 + 1, stack + [Pending(o)], out + Rpn(l));
    }
  }

  /** A stack that admits an operation admits its left operand, and its
      operator does not pop the top of that stack. */
  lemma AdmitsOperands(stack: seq<StackItem>, e: Expr)
    requires e.Bin? && Admits(stack, e)
    ensures Admits(stack, e.left)
    ensures stack == [] || stack[|stack| - 1].OpenParen? || !ShouldPop(e.op, stack[|stack| - 1].o)
  {
    assert TopOps(e) == {e.op} + TopOps(e.left) + TopOps(e.right);
  }

  /** Where the operands and the operator of an operation lie in its
      text. */
  lemma OperationText(e: Expr, t: string, i: nat)
    requires e.Bin?
    requires i + |Infix(e)| <= |t| && t[i..i + |Infix(e)|] == Infix(e)
    ensures |Infix(e)| == |Infix(e.left)| + 1 + |Infix(e.right)|
    ensures var k1 := i + |Infix(e.left)|;
            t[i..k1] == Infix(e.left) && t[k1] == Symbol(e.op)
            && t[k1 + 1..i + |Infix(e)|] == Infix(e.right)
  {
    var w := t[i..i + |Infix(e)|];
    var n := |Infix(e.left)|;
    assert w == Infix(e.left) + [Symbol(e.op)] + Infix(e.right);
    assert t[i..i + n] == w[..n] == Infix(e.left);
    assert t[i + n] == w[n] == Symbol(e.op);
    assert t[i + n + 1..i + |Infix(e)|] == w[n + 1..] == Infix(e.right);
  }

  /** The operator after a left operand pops what the operand left on
      the stack, stops at the stack the operation started from, and is
      pushed. */
  lemma OperatorAfterLeft(o: Op, l: Expr, t: string, k: nat, stack: seq<StackItem>, out: seq<Token>)
    requires Unambiguous(l) && LeftOperandFits(o, l)
    requires k < |t| && t[k] == Symbol(o)
    requires stack == [] || stack[|stack| - 1].OpenParen? || !ShouldPop(o, stack[|stack| - 1].o)
    ensures Shunt(t, k, stack + Residual(l), out + Emitted(l)) == Shunt(t, k + 1, stack + [Pending(o)], out + Rpn(l))
  {
    var el, xl := Residual(l), Emitted(l);
    ResidualCompletes(l);
    LeftOperandPopped(o, l);
    PopThrough(o, stack, el, out + xl);
    assert out + xl + TopFirst(el) == out + Rpn(l);
    PopStop(o, stack, out + Rpn(l));
    assert (stack + [Pending(o)])[..|stack|] == stack;
    OperatorStep(t, k, o, stack + el, out + xl, stack + [Pending(o)], out + Rpn(l));
  }

  lemma {:induction false} ReadsGroup(e: Expr, t: string, i: nat, stack: seq<StackItem>, out: seq<Token>)
    requires e.Group? && Literals(e) && Unambiguous(e)
    requires i + |Infix(e)| <= |t| && t[i..i + |Infix(e)|] == Infix(e)
    ensures Shunt(t, i, stack, out) == Shunt(t, i + |Infix(e)|, stack + Residual(e), out + Emitted(e))
    decreases e, 0
  {
    var g := e.inner;
    var w := t[i..i + |Infix(e)|];
    var k := i + 1 + |Infix(g)|;
    assert w == [LeftParenthesis] + Infix(g) + [RightParenthesis];
    assert k + 1 == i + |Infix(e)|;
    assert t[i] == w[0] == LeftParenthesis;
    assert t[k] == w[|Infix(g)| + 1] == RightParenthesis;
    assert w[1..|Infix(g)| + 1] == Infix(g);
    forall j | 0 <= j < |Infix(g)|
      ensures t[i + 1..k][j] == Infix(g)[j]
    {
      assert t[i + 1 + j] == w[1 + j];
    }
    var inside := stack + [OpenParen];
    ResidualCompletes(g);
    assert stack + Residual(e) == stack && out + Emitted(e) == out + Rpn(g);
    calc {
      Shunt(t, i, stack, out);
    == { OpenStep(t, i, stack, out, inside); }
      Shunt(t, i + 1, inside, out);
    == { ShuntReads(g, t, i + 1, inside, out); }
      Shunt(t, k, inside + Residual(g), out + Emitted(g));
    == { UnwindThrough(stack, Residual(g), out + Emitted(g));
         assert out + Emitted(g) + TopFirst(Residual(g)) == out + Rpn(g);
         CloseStep(t, k, inside + Residual(g), out + Emitted(g), stack, out + Rpn(g)); }
      Shunt(t, k + 1, stack, out + Rpn(g));
    }
  }

  /** Every expression written in infix with the parentheses precedence
      and associativity demand converts to its postfix form, the tokens
      separated by single spaces. */
  lemma ConvertsToPostfix(e: Expr)
    requires Literals(e) && Unambiguous(e)
    ensures Convert(Infix(e)) == Ok(Join(Rpn(e)))
  {
    var t := Infix(e);
    InfixValid(e);
    StripNoBlank(t);
    ReadsWhole(e);
    ConvertsTo(t, t, Rpn(e), Join(Rpn(e)));
  }

  /** The scan of the whole text of an expression emits its postfix
      form. */
  lemma ReadsWhole(e: Expr)
    requires Literals(e) && Unambiguous(e)
    ensures Shunt(Infix(e), 0, [], []) == Ok(Rpn(e))
  {
    var t := Infix(e);
    assert t[0..|t|] == t;
    ShuntReads(e, t, 0, [], []);
    assert [] + Residual(e) == Residual(e) && [] + Emitted(e) == Emitted(e);
    DrainsResidual(e, t);
  }

  /** At the end of the text the operators left on the stack are drained,
      completing the postfix form. */
  lemma DrainsResidual(e: Expr, t: string)
    ensures Shunt(t, |t|, Residual(e), Emitted(e)) == Ok(Rpn(e))
  {
    ResidualCompletes(e);
    DrainEmptiesStack(Residual(e), Emitted(e));
  }

  /* ---------------------------------------------------------------- */
  /* Fully parenthesized input                                          */
  /* ---------------------------------------------------------------- */

  /** The expression with every operation between parentheses. */
  function Parenthesize(e: Expr): (r: Expr)
    ensures Rpn(r) == Rpn(e)
    ensures Literals(e) ==> Literals(r)
    ensures Unambiguous(r) && !r.Bin?
  {
    match e
    case Num(s) => Num(s)
    case Bin(o, l, r) => Group(Bin(o, Parenthesize(l), Parenthesize(r)))
    case Group(g) => Parenthesize(g)
  }

  /** Fully parenthesized infix converts to postfix whatever the
      precedence and associativity of its operators. */
  lemma FullyParenthesizedConverts(e: Expr)
    requires Literals(e)
    ensures Convert(Infix(Parenthesize(e))) == Ok(Join(Rpn(e)))
  {
    ConvertsToPostfix(Parenthesize(e));
  }
}
