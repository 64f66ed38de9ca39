/** Which inputs the conversion refuses, and with which error. The
    reference is `Verdict`, a scan that looks at one character at a time and
    only counts the parentheses still open: it knows nothing of the stack,
    of precedence or of the output. The algorithm fails exactly when the
    reference does, with the same error. */
module Failures {
  import opened Symbols
  import opened ShuntingYard

  function Outcome<T>(r: Result<T>): Option<Error>
  {
    if r.Ok? then None else Some(r.error)
  }

  /** The first failure a left-to-right scan of t from position i meets,
      with `depth` parentheses open: an invalid character, a closing
      parenthesis with none open, or parentheses still open at the end. */
  function Verdict(t: string, i: nat, depth: nat): Option<Error>
    requires i <= |t|
    decreases |t| - i
  {
    if i == |t| then (if depth == 0 then None else Some(MismatchedParentheses))
    else if !IsValid(t[i]) then Some(InvalidCharacter(t[i]))
    else if t[i] == LeftParenthesis then Verdict(t, i + 1, depth + 1)
    else if t[i] == RightParenthesis then
      (if depth == 0 then Some(MismatchedParentheses) else Verdict(t, i + 1, depth - 1))
    else Verdict(t, i + 1, depth)
  }

  /** Opening minus closing parentheses. */
  function Depth(s: string): int
  {
    (multiset(s)[LeftParenthesis] as int) - multiset(s)[RightParenthesis]
  }

  /** Every prefix closes no more parentheses than it opens, and the whole
      text closes all it opens. */
  predicate Balanced(t: string)
  {
    Depth(t) == 0 && forall k :: 0 <= k <= |t| ==> Depth(t[..k]) >= 0
  }

  predicate AllValid(t: string)
  {
    forall k :: 0 <= k < |t| ==> IsValid(t[k])
  }

  /* ---------------------------------------------------------------- */
  /* The algorithm fails exactly as the reference does                  */
  /* ---------------------------------------------------------------- */

  lemma {:induction false} VerdictSkipsLiteral(t: string, i: nat, j: nat, depth: nat)
    requires i <= j <= |t|
    requires forall k :: i <= k < j ==> IsDigitOrPoint(t[k])
    ensures Verdict(t, i, depth) == Verdict(t, j, depth)
    decreases j - i
  {
    if i < j {
      VerdictSkipsLiteral(t, i + 1, j, depth);
    }
  }

  /** The number of opening parentheses on a stack. */
  function OpenCount(items: seq<StackItem>): nat
  {
    if items == [] then 0
    else OpenCount(items[..|items| - 1]) + (if items[|items| - 1] == OpenParen then 1 else 0)
  }

  lemma {:induction false} OpenCountAppend(a: seq<StackItem>, b: seq<StackItem>)
    ensures OpenCount(a + b) == OpenCount(a) + OpenCount(b)
    decreases |b|
  {
    if b == [] {
      assert a + b == a;
    } else {
      assert (a + b)[..|a + b| - 1] == a + b[..|b| - 1];
      OpenCountAppend(a, b[..|b| - 1]);
    }
  }

  lemma {:induction false} OpenCountZero(items: seq<StackItem>)
    ensures OpenCount(items) == 0 <==> OpenParen !in items
    decreases |items|
  {
    if items != [] {
      assert items == items[..|items| - 1] + [items[|items| - 1]];
      OpenCountZero(items[..|items| - 1]);
    }
  }

  lemma {:induction false} OpenCountPending(items: seq<StackItem>)
    requires AllPending(items)
    ensures OpenCount(items) == 0
    decreases |items|
  {
    if items != [] {
      OpenCountPending(items[..|items| - 1]);
    }
  }

  /** From any state, the scan fails exactly when the reference does, with
      the reference's error, provided the reference is told how many opening
      parentheses are on the stack. */
  lemma {:induction false} ShuntFailsAsVerdict(t: string, i: nat, stack: seq<StackItem>, out: seq<Token>)
    requires i <= |t|
    ensures Outcome(Shunt(t, i, stack, out)) == Verdict(t, i, OpenCount(stack))
    decreases |t| - i
  {
    var depth := OpenCount(stack);
    if i == |t| {
      DrainEmptiesStack(stack, out);
      OpenCountZero(stack);
    } else {
      var c := t[i];
      if IsDigitOrPoint(c) {
        var j := RunEnd(t, i);
        ShuntOnLiteral(t, i, stack, out);
        VerdictSkipsLiteral(t, i + 1, j, depth);
        ShuntFailsAsVerdict(t, j, stack, out + [Literal(t[i..j])]);
      } else if IsOperator(c) {
        var o := OperatorOf(c).value;
        ShuntOnOperator(t, i, stack, out);
        PopKeepsOpenCount(o, stack, out);
        var popped := PopOperators(o, stack, out);
        ShuntFailsAsVerdict(t, i + 1, popped.0 + [Pending(o)], popped.1);
      } else if c == LeftParenthesis {
        ShuntOnLeftParenthesis(t, i, stack, out);
        OpenCountAppend(stack, [OpenParen]);
        assert OpenCount([OpenParen]) == 1 by { assert [OpenParen][..0] == []; }
        ShuntFailsAsVerdict(t, i + 1, stack + [OpenParen], out);
      } else if c == RightParenthesis {
        ShuntOnRightParenthesis(t, i, stack, out);
        UnwindFindsParen(stack, out);
        OpenCountZero(stack);
        if UnwindToParen(stack, out).Some? {
          UnwoundOpenCount(stack, out);
          var unwound := UnwindToParen(stack, out).value;
          ShuntFailsAsVerdict(t, i + 1, unwound.0, unwound.1);
        }
      } else {
        ShuntOnInvalid(t, i, stack, out);
      }
    }
  }

  /** Popping operators before a push leaves every opening parenthesis on
      the stack, and the push adds none. */
  lemma PopKeepsOpenCount(o: Op, stack: seq<StackItem>, out: seq<Token>)
    ensures OpenCount(PopOperators(o, stack, out).0 + [Pending(o)]) == OpenCount(stack)
  {
    PopEmitsTopFirst(o, stack, out);
    var m := |PopOperators(o, stack, out).0|;
    assert stack == stack[..m] + stack[m..];
    OpenCountAppend(stack[..m], stack[m..]);
    OpenCountPending(stack[m..]);
    OpenCountAppend(stack[..m], [Pending(o)]);
    assert OpenCount([Pending(o)]) == 0 by { assert [Pending(o)][..0] == []; }
  }

  /** Unwinding to an opening parenthesis removes exactly one. */
  lemma UnwoundOpenCount(stack: seq<StackItem>, out: seq<Token>)
    requires UnwindToParen(stack, out).Some?
    ensures OpenCount(UnwindToParen(stack, out).value.0) + 1 == OpenCount(stack)
  {
    UnwindFindsParen(stack, out);
    var m := |UnwindToParen(stack, out).value.0|;
    assert stack == (stack[..m] + [OpenParen]) + stack[m + 1..];
    OpenCountAppend(stack[..m] + [OpenParen], stack[m + 1..]);
    OpenCountAppend(stack[..m], [OpenParen]);
    OpenCountPending(stack[m + 1..]);
    assert OpenCount([OpenParen]) == 1 by { assert [OpenParen][..0] == []; }
  }

  /** The conversion's outcome is the reference's verdict on the input with
      its white space removed; only the empty string is refused before the
      scan. */
  lemma ConvertFailsAsVerdict(infix: string)
    ensures infix == "" ==> Convert(infix) == Err(EmptyInput)
    ensures infix != "" ==> Outcome(Convert(infix)) == Verdict(Strip(infix), 0, 0)
  {
    if infix != "" {
      ShuntFailsAsVerdict(Strip(infix), 0, [], []);
    }
  }

  /* ---------------------------------------------------------------- */
  /* What the reference says                                            */
  /* ---------------------------------------------------------------- */

  /** A text without invalid characters is refused exactly when its
      parentheses are unbalanced, and then for that reason. */
  lemma {:induction false} VerdictOnValidText(t: string, i: nat, depth: nat)
    requires i <= |t| && depth == Depth(t[..i])
    requires forall k :: 0 <= k <= i ==> Depth(t[..k]) >= 0
    requires forall k :: i <= k < |t| ==> IsValid(t[k])
    ensures Verdict(t, i, depth) == None <==> Balanced(t)
    ensures Verdict(t, i, depth) == None || Verdict(t, i, depth) == Some(MismatchedParentheses)
    decreases |t| - i
  {
    if i == |t| {
      assert t[..i] == t;
    } else {
      assert t[..i + 1] == t[..i] + [t[i]];
      var next := Depth(t[..i + 1]);
      if t[i] == RightParenthesis && depth == 0 {
        assert next < 0;
      } else {
        assert forall k :: 0 <= k <= i + 1 ==> Depth(t[..k]) >= 0;
        VerdictOnValidText(t, i + 1, next);
      }
    }
  }

  /** The first invalid character is the one reported, when no closing
      parenthesis before it is unmatched. */
  lemma {:induction false} FirstInvalidReported(t: string, i: nat, depth: nat, k: nat)
    requires i <= k < |t| && depth == Depth(t[..i])
    requires !IsValid(t[k]) && forall j :: i <= j < k ==> IsValid(t[j])
    requires forall m :: i <= m <= k ==> Depth(t[..m]) >= 0
    ensures Verdict(t, i, depth) == Some(InvalidCharacter(t[k]))
    decreases k - i
  {
    if i < k {
      assert t[..i + 1] == t[..i] + [t[i]];
      FirstInvalidReported(t, i + 1, Depth(t[..i + 1]), k);
    }
  }

  /** A reported character is invalid, occurs in the text, and every
      character before it is valid. */
  lemma {:induction false} ReportedIsFirstInvalid(t: string, i: nat, depth: nat, c: char)
    requires i <= |t| && Verdict(t, i, depth) == Some(InvalidCharacter(c))
    ensures !IsValid(c)
    ensures exists k :: i <= k < |t| && t[k] == c && forall j :: i <= j < k ==> IsValid(t[j])
    decreases |t| - i
  {
    if t[i] != c || IsValid(c) {
      var d := if t[i] == LeftParenthesis then depth + 1 else if t[i] == RightParenthesis then depth - 1 else depth;
      ReportedIsFirstInvalid(t, i + 1, d, c);
      var k :| i + 1 <= k < |t| && t[k] == c && forall j :: i + 1 <= j < k ==> IsValid(t[j]);
      assert forall j :: i <= j < k ==> IsValid(t[j]);
    }
  }

  /** An invalid character anywhere ahead makes the scan fail. */
  lemma {:induction false} InvalidAheadFails(t: string, i: nat, depth: nat, k: nat)
    requires i <= k < |t| && !IsValid(t[k])
    ensures Verdict(t, i, depth).Some?
    decreases k - i
  {
    if i < k && IsValid(t[i]) && !(t[i] == RightParenthesis && depth == 0) {
      var d := if t[i] == LeftParenthesis then depth + 1 else if t[i] == RightParenthesis then depth - 1 else depth;
      InvalidAheadFails(t, i + 1, d, k);
    }
  }

  /** The scan never reports an empty input: that check precedes it. */
  lemma {:induction false} VerdictNeverEmpty(t: string, i: nat, depth: nat)
    requires i <= |t|
    ensures Verdict(t, i, depth) != Some(EmptyInput)
    decreases |t| - i
  {
    if i < |t| && IsValid(t[i]) && !(t[i] == RightParenthesis && depth == 0) {
      var d := if t[i] == LeftParenthesis then depth + 1 else if t[i] == RightParenthesis then depth - 1 else depth;
      VerdictNeverEmpty(t, i + 1, d);
    }
  }

  /* ---------------------------------------------------------------- */
  /* The conversion's failures                                          */
  /* ---------------------------------------------------------------- */

  /** Only the empty string is refused as empty; input made only of white
      space is not refused and converts to the empty string. */
  lemma EmptyOnlyWhenEmpty(infix: string)
    ensures Convert(infix) == Err(EmptyInput) <==> infix == ""
    ensures infix != "" && (forall k :: 0 <= k < |infix| ==> IsWhitespace(infix[k])) ==> Convert(infix) == Ok("")
  {
    ConvertFailsAsVerdict(infix);
    VerdictNeverEmpty(Strip(infix), 0, 0);
    if infix != "" && forall k :: 0 <= k < |infix| ==> IsWhitespace(infix[k]) {
      var t := Strip(infix);
      StripKeepsNonBlank(infix);
      if t != [] {
        assert t[0] in t;
      }
    }
  }

  /** A non-blank character outside the accepted set makes the conversion
      fail; it is reported by name when it is the first such character and
      every closing parenthesis before it is matched. */
  lemma InvalidCharacterFails(infix: string, c: char)
    requires c in infix && !IsWhitespace(c) && !IsValid(c)
    ensures Convert(infix).Err?
    ensures forall k :: 0 <= k < |Strip(infix)| && Strip(infix)[k] == c
                        && (forall j :: 0 <= j < k ==> IsValid(Strip(infix)[j]))
                        && (forall m :: 0 <= m <= k ==> Depth(Strip(infix)[..m]) >= 0)
                     ==> Convert(infix) == Err(InvalidCharacter(c))
  {
    var t := Strip(infix);
    ConvertFailsAsVerdict(infix);
    StripKeepsNonBlank(infix);
    assert c in t;
    var i :| 0 <= i < |t| && t[i] == c;
    InvalidAheadFails(t, 0, 0, i);
    forall k | 0 <= k < |t| && t[k] == c && (forall j :: 0 <= j < k ==> IsValid(t[j]))
               && (forall m :: 0 <= m <= k ==> Depth(t[..m]) >= 0)
      ensures Convert(infix) == Err(InvalidCharacter(c))
    {
      assert t[..0] == [];
      FirstInvalidReported(t, 0, 0, k);
    }
  }

  /** An invalid-character error names a character of the input that is
      neither white space nor accepted. */
  lemma ReportedCharacterIsInInput(infix: string, c: char)
    requires Convert(infix) == Err(InvalidCharacter(c))
    ensures c in infix && !IsWhitespace(c) && !IsValid(c)
  {
    ConvertFailsAsVerdict(infix);
    var t := Strip(infix);
    ReportedIsFirstInvalid(t, 0, 0, c);
    var k :| 0 <= k < |t| && t[k] == c;
    assert c in t;
    StripKeepsNonBlank(infix);
  }

  /** An input whose non-blank characters are all accepted converts
      exactly when its parentheses are balanced; otherwise it fails with
      mismatched parentheses. */
  lemma ValidInputConvertsIffBalanced(infix: string)
    requires infix != "" && AllValid(Strip(infix))
    ensures Convert(infix).Ok? <==> Balanced(Strip(infix))
    ensures Convert(infix).Err? ==> Convert(infix) == Err(MismatchedParentheses)
  {
    var t := Strip(infix);
    ConvertFailsAsVerdict(infix);
    assert t[..0] == [];
    VerdictOnValidText(t, 0, 0);
  }
}
