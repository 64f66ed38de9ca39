/** The fixed symbol sets of the converter and the tables that give each
    operator its precedence and associativity, with the character
    classifiers the scan uses. */
module Symbols {

  datatype Option<T> = None | Some(value: T)

  /** The five binary operators, in the order of the `operators` enum. */
  datatype Op = Subtraction | Addition | Division | Multiplication | Power

  /** Grouping of operators of equal precedence. */
  datatype Direction = Left | Right

  /** The character that stands for an operator. */
  function Symbol(o: Op): char
  {
    match o
    case Subtraction => '-'
    case Addition => '+'
    case Division => '/'
    case Multiplication => '*'
    case Power => '^'
  }

  /** The `precedence` table: a higher rank binds tighter. */
  function Precedence(o: Op): nat
  {
    match o
    case Power => 4
    case Multiplication => 3
    case Division => 3
    case Addition => 2
    case Subtraction => 2
  }

  /** The `associativity` table. */
  function Associativity(o: Op): Direction
  {
    match o
    case Power => Right
    case Multiplication => Left
    case Division => Left
    case Addition => Left
    case Subtraction => Left
  }

  const LeftParenthesis: char := '('
  const RightParenthesis: char := ')'

  /** Membership of a character in the operator set (`isOperator`), giving
      the operator it names. */
  function OperatorOf(c: char): (r: Option<Op>)
    ensures r.Some? ==> Symbol(r.value) == c
    ensures r.None? ==> forall o: Op :: Symbol(o) != c
  {
    if c == '-' then Some(Subtraction)
    else if c == '+' then Some(Addition)
    else if c == '/' then Some(Division)
    else if c == '*' then Some(Multiplication)
    else if c == '^' then Some(Power)
    else None
  }

  predicate IsOperator(c: char)
  {
    OperatorOf(c).Some?
  }

  /** `isSpecial`: one of the two parentheses. */
  predicate IsSpecial(c: char)
  {
    c == LeftParenthesis || c == RightParenthesis
  }

  /** `isToken`: an operator or a parenthesis. */
  predicate IsToken(c: char)
  {
    IsOperator(c) || IsSpecial(c)
  }

  /** The pattern `\d|\.`: an ASCII digit or a decimal point. */
  predicate IsDigitOrPoint(c: char)
  {
    ('0' <= c <= '9') || c == '.'
  }

  /** A character the scan accepts: part of a numeric literal, an operator
      or a parenthesis. Every other non-blank character is invalid. */
  predicate IsValid(c: char)
  {
    IsDigitOrPoint(c) || IsToken(c)
  }

  /** The ECMAScript white space and line terminator characters, the class
      matched by `\s` and removed by `String.prototype.trim`. */
  predicate IsWhitespace(c: char)
  {
    var n := c as int;
    (9 <= n <= 13) || n == 0x20 || n == 0xA0 || n == 0x1680
    || (0x2000 <= n <= 0x200A) || n == 0x2028 || n == 0x2029
    || n == 0x202F || n == 0x205F || n == 0x3000 || n == 0xFEFF
  }

  /** Every operator symbol is recognised as that operator, and none of the
      symbols a literal, a parenthesis or white space is made of is taken
      for an operator. */
  lemma SymbolRoundTrip(o: Op)
    ensures OperatorOf(Symbol(o)) == Some(o)
    ensures IsValid(Symbol(o)) && !IsDigitOrPoint(Symbol(o))
    ensures !IsSpecial(Symbol(o)) && !IsWhitespace(Symbol(o))
  {
  }
}
