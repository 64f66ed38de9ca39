/** What a successful conversion emits: every numeric literal of the input
    verbatim and in input order, every operator of the input exactly once,
    and nothing else (in particular no parenthesis). The references are
    `Runs`, a character-by-character split of the text into maximal runs of
    digits and points, and `SymbolCount`, the number of occurrences of an
    operator's symbol in the text; neither knows anything of the stack. */
module Preservation {
  import opened Symbols
  import opened ShuntingYard
  import OutputText

  /* ---------------------------------------------------------------- */
  /* References                                                         */
  /* ---------------------------------------------------------------- */

  /** The maximal runs of digits and points in s, in order: a digit or
      point either extends the run the next character belongs to or starts
      a run of its own. */
  function Runs(s: string): (r: seq<string>)
    ensures forall k :: 0 <= k < |r| ==> r[k] != []
    ensures forall k, m :: 0 <= k < |r| && 0 <= m < |r[k]| ==> IsDigitOrPoint(r[k][m])
    ensures s != [] && IsDigitOrPoint(s[0]) ==> r != [] && r[0][0] == s[0]
  {
    if s == [] then []
    else if !IsDigitOrPoint(s[0]) then Runs(s[1..])
    else
      var rest := Runs(s[1..]);
      if |s| > 1 && IsDigitOrPoint(s[1]) then [[s[0]] + rest[0]] + rest[1..]
      else [[s[0]]] + rest
  }

  /** How often the symbol of operator o occurs in a text. */
  function SymbolCount(o: Op, s: string): nat
  {
    if s == [] then 0
    else (if s[0] == Symbol(o) then 1 else 0) + SymbolCount(o, s[1..])
  }

  /* ---------------------------------------------------------------- */
  /* Views of the output and of the stack                               */
  /* ---------------------------------------------------------------- */

  function LiteralsOf(toks: seq<Token>): seq<string>
  {
    if toks == [] then []
    else LiteralsOf(toks[..|toks| - 1]) + (match toks[|toks| - 1] case Literal(s) => [s] case Operator(_) => [])
  }

  /** How often operator o is emitted. */
  function OperatorCount(o: Op, toks: seq<Token>): nat
  {
    if toks == [] then 0
    else OperatorCount(o, toks[..|toks| - 1]) + (if toks[|toks| - 1] == Operator(o) then 1 else 0)
  }

  /** How often operator o is pending on a stack. */
  function PendingCount(o: Op, items: seq<StackItem>): nat
  {
    if items == [] then 0
    else PendingCount(o, items[..|items| - 1]) + (if items[|items| - 1] == Pending(o) then 1 else 0)
  }

  lemma {:induction false} LiteralsOfAppend(a: seq<Token>, b: seq<Token>)
    ensures LiteralsOf(a + b) == LiteralsOf(a) + LiteralsOf(b)
    decreases |b|
  {
    if b == [] {
      assert a + b == a;
    } else {
      assert (a + b)[..|a + b| - 1] == a + b[..|b| - 1];
      LiteralsOfAppend(a, b[..|b| - 1]);
    }
  }

  lemma {:induction false} OperatorCountAppend(o: Op, a: seq<Token>, b: seq<Token>)
    ensures OperatorCount(o, a + b) == OperatorCount(o, a) + OperatorCount(o, b)
    decreases |b|
  {
    if b == [] {
      assert a + b == a;
    } else {
      assert (a + b)[..|a + b| - 1] == a + b[..|b| - 1];
      OperatorCountAppend(o, a, b[..|b| - 1]);
    }
  }

  lemma {:induction false} PendingCountAppend(o: Op, a: seq<StackItem>, b: seq<StackItem>)
    ensures PendingCount(o, a + b) == PendingCount(o, a) + PendingCount(o, b)
    decreases |b|
  {
    if b == [] {
      assert a + b == a;
    } else {
      assert (a + b)[..|a + b| - 1] == a + b[..|b| - 1];
      PendingCountAppend(o, a, b[..|b| - 1]);
    }
  }

  /** Emptying a stack segment emits no literal and only well-formed
      tokens. */
  lemma {:induction false} TopFirstEmitsNoLiteral(items: seq<StackItem>)
    requires AllPending(items)
    ensures LiteralsOf(TopFirst(items)) == []
    ensures AllWellFormed(TopFirst(items))
    decreases |items|
  {
    if items != [] {
      var init, top := items[..|items| - 1], items[|items| - 1];
      TopFirstEmitsNoLiteral(init);
      LiteralsOfAppend([Operator(top.o)], TopFirst(init));
      assert [Operator(top.o)][..0] == [];
    }
  }

  /** Emptying a stack segment emits each of its operators once. */
  lemma {:induction false} TopFirstEmitsPending(o: Op, items: seq<StackItem>)
    requires AllPending(items)
    ensures OperatorCount(o, TopFirst(items)) == PendingCount(o, items)
    decreases |items|
  {
    if items != [] {
      var init, top := items[..|items| - 1], items[|items| - 1];
      TopFirstEmitsPending(o, init);
      OperatorCountAppend(o, [Operator(top.o)], TopFirst(init));
      assert [Operator(top.o)][..0] == [];
    }
  }

  /* ---------------------------------------------------------------- */
  /* The references over a stretch of text                              */
  /* ---------------------------------------------------------------- */

  /** The run that starts at i ends where `RunEnd` says. */
  lemma {:induction false} RunsAtLiteral(t: string, i: nat)
    requires i < |t| && IsDigitOrPoint(t[i])
    ensures Runs(t[i..]) == [t[i..RunEnd(t, i)]] + Runs(t[RunEnd(t, i)..])
    decreases |t| - i
  {
    assert t[i..][1..] == t[i + 1..];
    if i + 1 < |t| && IsDigitOrPoint(t[i + 1]) {
      RunsAtLiteral(t, i + 1);
      assert [t[i]] + t[i + 1..RunEnd(t, i)] == t[i..RunEnd(t, i)];
    } else {
      assert t[i..i + 1] == [t[i]];
    }
  }

  lemma RunsPastSymbol(t: string, i: nat)
    requires i < |t| && !IsDigitOrPoint(t[i])
    ensures Runs(t[i..]) == Runs(t[i + 1..])
  {
    assert t[i..][1..] == t[i + 1..];
  }

  lemma {:induction false} SymbolCountLiteral(o: Op, t: string, i: nat, j: nat)
    requires i <= j <= |t|
    requires forall k :: i <= k < j ==> IsDigitOrPoint(t[k])
    ensures SymbolCount(o, t[i..]) == SymbolCount(o, t[j..])
    decreases j - i
  {
    if i < j {
      assert t[i..][1..] == t[i + 1..];
      SymbolRoundTrip(o);
      SymbolCountLiteral(o, t, i + 1, j);
    }
  }

  lemma SymbolCountStep(o: Op, t: string, i: nat)
    requires i < |t|
    ensures SymbolCount(o, t[i..]) == (if t[i] == Symbol(o) then 1 else 0) + SymbolCount(o, t[i + 1..])
  {
    assert t[i..][1..] == t[i + 1..];
  }

  /** Removing white space removes no operator symbol. */
  lemma {:induction false} StripKeepsSymbols(o: Op, s: string)
    ensures SymbolCount(o, Strip(s)) == SymbolCount(o, s)
    decreases |s|
  {
    if s != [] {
      SymbolRoundTrip(o);
      StripKeepsSymbols(o, s[1..]);
      var head: string := if IsWhitespace(s[0]) then [] else [s[0]];
      SymbolCountConcat(o, head, Strip(s[1..]));
    }
  }

  lemma {:induction false} SymbolCountConcat(o: Op, a: string, b: string)
    ensures SymbolCount(o, a + b) == SymbolCount(o, a) + SymbolCount(o, b)
    decreases |a|
  {
    if a == [] {
      assert a + b == b;
    } else {
      assert (a + b)[0] == a[0] && (a + b)[1..] == a[1..] + b;
      SymbolCountConcat(o, a[1..], b);
    }
  }

  /* ---------------------------------------------------------------- */
  /* The scan preserves them                                            */
  /* ---------------------------------------------------------------- */

  /** From any state, the literals the scan finally emits are those
      already emitted followed by the runs of the rest of the text. */
  lemma {:induction false} ShuntKeepsLiterals(t: string, i: nat, stack: seq<StackItem>, out: seq<Token>)
    requires i <= |t| && Shunt(t, i, stack, out).Ok?
    ensures LiteralsOf(Shunt(t, i, stack, out).value) == LiteralsOf(out) + Runs(t[i..])
    decreases |t| - i
  {
    if i == |t| {
      DrainEmptiesStack(stack, out);
      TopFirstEmitsNoLiteral(stack);
      LiteralsOfAppend(out, TopFirst(stack));
      assert t[i..] == [];
    } else {
      var c := t[i];
      if IsDigitOrPoint(c) {
        var j := RunEnd(t, i);
        ShuntOnLiteral(t, i, stack, out);
        ShuntKeepsLiterals(t, j, stack, out + [Literal(t[i..j])]);
        RunsAtLiteral(t, i);
        LiteralsOfAppend(out, [Literal(t[i..j])]);
        assert LiteralsOf([Literal(t[i..j])]) == [t[i..j]] by {
          assert [Literal(t[i..j])][..0] == [];
        }
      } else if IsOperator(c) {
        var o := OperatorOf(c).value;
        var popped := PopOperators(o, stack, out);
        ShuntOnOperator(t, i, stack, out);
        ShuntKeepsLiterals(t, i + 1, popped.0 + [Pending(o)], popped.1);
        PopEmitsTopFirst(o, stack, out);
        TopFirstEmitsNoLiteral(stack[|popped.0|..]);
        LiteralsOfAppend(out, TopFirst(stack[|popped.0|..]));
        RunsPastSymbol(t, i);
      } else if c == LeftParenthesis {
        ShuntOnLeftParenthesis(t, i, stack, out);
        ShuntKeepsLiterals(t, i + 1, stack + [OpenParen], out);
        RunsPastSymbol(t, i);
      } else if c == RightParenthesis {
        ShuntOnRightParenthesis(t, i, stack, out);
        UnwindFindsParen(stack, out);
        var unwound := UnwindToParen(stack, out).value;
        var m := |unwound.0|;
        ShuntKeepsLiterals(t, i + 1, unwound.0, unwound.1);
        TopFirstEmitsNoLiteral(stack[m + 1..]);
        LiteralsOfAppend(out, TopFirst(stack[m + 1..]));
        RunsPastSymbol(t, i);
      } else {
        ShuntOnInvalid(t, i, stack, out);
      }
    }
  }

  /** From any state, each operator is emitted as often as it has been
      emitted already, is pending on the stack, and occurs in the rest of
      the text together. */
  lemma {:induction false} ShuntKeepsOperators(o: Op, t: string, i: nat, stack: seq<StackItem>, out: seq<Token>)
    requires i <= |t| && Shunt(t, i, stack, out).Ok?
    ensures KeepsOperator(o, t, i, stack, out)
    decreases |t| - i, 1
  {
    if i == |t| {
      DrainEmptiesStack(stack, out);
      TopFirstEmitsPending(o, stack);
      OperatorCountAppend(o, out, TopFirst(stack));
      assert t[i..] == [];
    } else if IsDigitOrPoint(t[i]) {
      LiteralKeepsOperator(o, t, i, stack, out);
    } else if IsOperator(t[i]) {
      OperatorKeepsOperator(o, t, i, stack, out);
    } else if t[i] == LeftParenthesis {
      SymbolCountStep(o, t, i);
      ShuntOnLeftParenthesis(t, i, stack, out);
      ShuntKeepsOperators(o, t, i + 1, stack + [OpenParen], out);
      assert PendingCount(o, stack + [OpenParen]) == PendingCount(o, stack);
      SymbolRoundTrip(o);
    } else if t[i] == RightParenthesis {
      ParenKeepsOperator(o, t, i, stack, out);
    } else {
      ShuntOnInvalid(t, i, stack, out);
    }
  }

  /** Each operator is emitted, from state (i, stack, out), as often as it
      has been emitted already, is pending on the stack, and occurs in the
      rest of the text together. */
  predicate KeepsOperator(o: Op, t: string, i: nat, stack: seq<StackItem>, out: seq<Token>)
    requires i <= |t| && Shunt(t, i, stack, out).Ok?
  {
    OperatorCount(o, Shunt(t, i, stack, out).value)
    == OperatorCount(o, out) + PendingCount(o, stack) + SymbolCount(o, t[i..])
  }

  lemma {:induction false} LiteralKeepsOperator(o: Op, t: string, i: nat, stack: seq<StackItem>, out: seq<Token>)
    requires i < |t| && IsDigitOrPoint(t[i]) && Shunt(t, i, stack, out).Ok?
    ensures KeepsOperator(o, t, i, stack, out)
    decreases |t| - i, 0
  {
    var j := RunEnd(t, i);
    SymbolCountStep(o, t, i);
    ShuntOnLiteral(t, i, stack, out);
    ShuntKeepsOperators(o, t, j, stack, out + [Literal(t[i..j])]);
    SymbolCountLiteral(o, t, i + 1, j);
    SymbolRoundTrip(o);
    assert OperatorCount(o, out + [Literal(t[i..j])]) == OperatorCount(o, out);
  }

  lemma {:induction false} OperatorKeepsOperator(o: Op, t: string, i: nat, stack: seq<StackItem>, out: seq<Token>)
    requires i < |t| && IsOperator(t[i]) && Shunt(t, i, stack, out).Ok?
    ensures KeepsOperator(o, t, i, stack, out)
    decreases |t| - i, 0
  {
    var incoming := OperatorOf(t[i]).value;
    var popped := PopOperators(incoming, stack, out);
    SymbolCountStep(o, t, i);
    ShuntOnOperator(t, i, stack, out);
    ShuntKeepsOperators(o, t, i + 1, popped.0 + [Pending(incoming)], popped.1);
    PopKeepsOperators(o, incoming, stack, out);
    PendingCountAppend(o, popped.0, [Pending(incoming)]);
    assert PendingCount(o, [Pending(incoming)]) == (if incoming == o then 1 else 0) by {
      assert [Pending(incoming)][..0] == [];
    }
  }

  lemma {:induction false} ParenKeepsOperator(o: Op, t: string, i: nat, stack: seq<StackItem>, out: seq<Token>)
    requires i < |t| && t[i] == RightParenthesis && Shunt(t, i, stack, out).Ok?
    ensures KeepsOperator(o, t, i, stack, out)
    decreases |t| - i, 0
  {
    SymbolCountStep(o, t, i);
    ShuntOnRightParenthesis(t, i, stack, out);
    var unwound := UnwindToParen(stack, out).value;
    ShuntKeepsOperators(o, t, i + 1, unwound.0, unwound.1);
    UnwindKeepsOperators(o, stack, out);
    SymbolRoundTrip(o);
  }

  /** Popping before a push moves operators from the stack to the output
      and loses none. */
  lemma PopKeepsOperators(o: Op, incoming: Op, stack: seq<StackItem>, out: seq<Token>)
    ensures var popped := PopOperators(incoming, stack, out);
            OperatorCount(o, popped.1) + PendingCount(o, popped.0) == OperatorCount(o, out) + PendingCount(o, stack)
  {
    var popped := PopOperators(incoming, stack, out);
    PopEmitsTopFirst(incoming, stack, out);
    var m := |popped.0|;
    TopFirstEmitsPending(o, stack[m..]);
    OperatorCountAppend(o, out, TopFirst(stack[m..]));
    assert stack == stack[..m] + stack[m..];
    PendingCountAppend(o, stack[..m], stack[m..]);
  }

  /** Unwinding to an opening parenthesis moves operators from the stack to
      the output and loses none. */
  lemma UnwindKeepsOperators(o: Op, stack: seq<StackItem>, out: seq<Token>)
    requires UnwindToParen(stack, out).Some?
    ensures var unwound := UnwindToParen(stack, out).value;
            OperatorCount(o, unwound.1) + PendingCount(o, unwound.0) == OperatorCount(o, out) + PendingCount(o, stack)
  {
    UnwindFindsParen(stack, out);
    var unwound := UnwindToParen(stack, out).value;
    var m := |unwound.0|;
    TopFirstEmitsPending(o, stack[m + 1..]);
    OperatorCountAppend(o, out, TopFirst(stack[m + 1..]));
    assert stack == (stack[..m] + [OpenParen]) + stack[m + 1..];
    PendingCountAppend(o, stack[..m] + [OpenParen], stack[m + 1..]);
    assert PendingCount(o, stack[..m] + [OpenParen]) == PendingCount(o, stack[..m]);
  }

  /** From any state with well-formed output so far, the scan emits only
      well-formed tokens. */
  lemma {:induction false} ShuntEmitsWellFormed(t: string, i: nat, stack: seq<StackItem>, out: seq<Token>)
    requires i <= |t| && Shunt(t, i, stack, out).Ok? && AllWellFormed(out)
    ensures AllWellFormed(Shunt(t, i, stack, out).value)
    decreases |t| - i
  {
    if i == |t| {
      DrainEmptiesStack(stack, out);
      TopFirstEmitsNoLiteral(stack);
    } else {
      var c := t[i];
      if IsDigitOrPoint(c) {
        var j := RunEnd(t, i);
        ShuntOnLiteral(t, i, stack, out);
        assert WellFormed(Literal(t[i..j]));
        ShuntEmitsWellFormed(t, j, stack, out + [Literal(t[i..j])]);
      } else if IsOperator(c) {
        var o := OperatorOf(c).value;
        var popped := PopOperators(o, stack, out);
        ShuntOnOperator(t, i, stack, out);
        PopEmitsTopFirst(o, stack, out);
        TopFirstEmitsNoLiteral(stack[|popped.0|..]);
        ShuntEmitsWellFormed(t, i + 1, popped.0 + [Pending(o)], popped.1);
      } else if c == LeftParenthesis {
        ShuntOnLeftParenthesis(t, i, stack, out);
        ShuntEmitsWellFormed(t, i + 1, stack + [OpenParen], out);
      } else if c == RightParenthesis {
        ShuntOnRightParenthesis(t, i, stack, out);
        UnwindFindsParen(stack, out);
        var unwound := UnwindToParen(stack, out).value;
        TopFirstEmitsNoLiteral(stack[|unwound.0| + 1..]);
        ShuntEmitsWellFormed(t, i + 1, unwound.0, unwound.1);
      } else {
        ShuntOnInvalid(t, i, stack, out);
      }
    }
  }

  /* ---------------------------------------------------------------- */
  /* The conversion                                                     */
  /* ---------------------------------------------------------------- */

  /** On success the literals of the output are the maximal runs of
      digits and points of the input (white space removed), verbatim and in
      order. */
  lemma LiteralsPreserved(infix: string)
    requires Tokens(infix).Ok?
    ensures LiteralsOf(Tokens(infix).value) == Runs(Strip(infix))
  {
    ShuntKeepsLiterals(Strip(infix), 0, [], []);
    assert Strip(infix)[0..] == Strip(infix);
  }

  /** On success every operator of the input is emitted exactly once: each
      operator occurs in the output as often as its symbol occurs in the
      input. */
  lemma OperatorsPreserved(infix: string, o: Op)
    requires Tokens(infix).Ok?
    ensures OperatorCount(o, Tokens(infix).value) == SymbolCount(o, infix)
  {
    ShuntKeepsOperators(o, Strip(infix), 0, [], []);
    assert Strip(infix)[0..] == Strip(infix);
    StripKeepsSymbols(o, infix);
  }

  /** On success the output text is the emitted tokens separated by single
      spaces, and it contains only digits, points, operator symbols and
      those spaces: never a parenthesis. */
  lemma OutputIsSpacedTokens(infix: string)
    requires Tokens(infix).Ok?
    ensures Convert(infix) == Ok(Join(Tokens(infix).value))
    ensures AllWellFormed(Tokens(infix).value)
    ensures forall k :: 0 <= k < |Convert(infix).value| ==>
      var c := Convert(infix).value[k];
      c == ' ' || IsDigitOrPoint(c) || IsOperator(c)
    ensures LeftParenthesis !in Convert(infix).value && RightParenthesis !in Convert(infix).value
  {
    var toks := Tokens(infix).value;
    ShuntEmitsWellFormed(Strip(infix), 0, [], []);
    OutputText.JoinedText(toks);
    var s := Join(toks);
    assert Convert(infix) == Ok(s);
    assert forall k :: 0 <= k < |s| ==> s[k] == ' ' || IsDigitOrPoint(s[k]) || IsOperator(s[k]);
    forall c | c in s
      ensures c != LeftParenthesis && c != RightParenthesis
    {
      var k :| 0 <= k < |s| && s[k] == c;
    }
  }
}
