/** The shape of the postfix text: every character is a space, a digit, a
    point or an operator symbol, and the final `trim` of the accumulated
    text leaves the tokens separated by single spaces. */
module OutputText {
  import opened Symbols
  import opened ShuntingYard

  /* ---------------------------------------------------------------- */
  /* Output text                                                        */
  /* ---------------------------------------------------------------- */

  /** The characters a rendered token is made of. */
  lemma RenderedToken(tok: Token)
    requires WellFormed(tok)
    ensures |Render(tok)| > 0
    ensures forall k :: 0 <= k < |Render(tok)| ==> IsDigitOrPoint(Render(tok)[k]) || IsOperator(Render(tok)[k])
  {
    if tok.Operator? {
      SymbolRoundTrip(tok.o);
    }
  }

  lemma {:induction false} JoinSnoc(toks: seq<Token>, tok: Token)
    requires toks != []
    ensures Join(toks + [tok]) == Join(toks) + " " + Render(tok)
    decreases |toks|
  {
    if |toks| == 1 {
      assert (toks + [tok])[1..] == [tok];
    } else {
      assert (toks + [tok])[1..] == toks[1..] + [tok];
      JoinSnoc(toks[1..], tok);
    }
  }

  /** Each token followed by one space is the space-separated tokens with
      a single space after them. */
  lemma {:induction false} SpacedIsJoinThenSpace(toks: seq<Token>)
    requires toks != []
    ensures Spaced(toks) == Join(toks) + " "
    decreases |toks|
  {
    var init, last := toks[..|toks| - 1], toks[|toks| - 1];
    assert Spaced(toks) == Spaced(init) + Render(last) + " ";
    if init == [] {
      assert Join(toks) == Render(last);
    } else {
      SpacedIsJoinThenSpace(init);
      assert toks == init + [last];
      JoinSnoc(init, last);
      var a, b := Join(init), Render(last);
      assert (a + " ") + b + " " == a + " " + b + " ";
    }
  }

  /** Every character of the joined output is a space, a digit, a point or
      an operator symbol; a space never begins or ends it. */
  lemma {:induction false} JoinedText(toks: seq<Token>)
    requires AllWellFormed(toks)
    ensures forall k :: 0 <= k < |Join(toks)| ==>
      Join(toks)[k] == ' ' || IsDigitOrPoint(Join(toks)[k]) || IsOperator(Join(toks)[k])
    ensures toks != [] ==> |Join(toks)| > 0 && Join(toks)[0] != ' ' && Join(toks)[|Join(toks)| - 1] != ' '
    decreases |toks|
  {
    if toks != [] {
      RenderedToken(toks[0]);
      if |toks| > 1 {
        JoinedText(toks[1..]);
      }
    }
  }

  /** Literal and operator characters are neither white space nor
      parentheses. */
  lemma NotBlank(c: char)
    requires IsDigitOrPoint(c) || IsOperator(c)
    ensures !IsWhitespace(c) && !IsSpecial(c)
  {
  }

  lemma TrimEndDropsSpace(s: string)
    requires s != [] && !IsWhitespace(s[|s| - 1])
    ensures TrimEnd(s + " ") == s
  {
    assert (s + " ")[..|s|] == s;
  }

  /** The final `trim` removes exactly the space after the last token. */
  lemma TrimSpacedIsJoin(toks: seq<Token>)
    requires AllWellFormed(toks)
    ensures Trim(Spaced(toks)) == Join(toks)
  {
    if toks != [] {
      SpacedIsJoinThenSpace(toks);
      JoinedText(toks);
      var s := Join(toks);
      NotBlank(s[0]);
      NotBlank(s[|s| - 1]);
      assert (s + " ")[0] == s[0];
      assert TrimStart(s + " ") == s + " ";
      TrimEndDropsSpace(s);
    }
  }
}
