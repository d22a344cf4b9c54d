/** The token classes and character classes shared by both lexers.
    src.js and testing.js declare the same eight token classes; the lexers
    differ only in how they scan. */
module Tokens {

  datatype Option<T> = None | Some(value: T)

  /** One token of an arithmetic expression. An `Integer` carries the decimal
      value of its digits; a `Float` carries its lexeme (digits with one '.')
      rather than a floating-point number. */
  datatype Token =
    | Add
    | Minus
    | Multiply
    | Divide
    | LeftBracket
    | RightBracket
    | Integer(value: nat)
    | Float(lexeme: string)

  /** The lexer's `character` at index `i`: the character there, or `None` past
      either end (JavaScript's `null`, and `undefined`, which every test the
      lexers make treats like `null`). */
  function At(s: string, i: int): Option<char>
  {
    if 0 <= i < |s| then Some(s[i]) else None
  }

  /** Membership in `DIGITS`. */
  predicate IsDigit(c: char)
  {
    '0' <= c <= '9'
  }

  /** A character that continues a number: a digit or a full stop. */
  predicate IsNumberChar(c: char)
  {
    IsDigit(c) || c == '.'
  }

  /** The six single-character operators and brackets. */
  predicate IsOperator(c: char)
  {
    c == '+' || c == '-' || c == '*' || c == '/' || c == '(' || c == ')'
  }

  /** The characters a lexer gives a meaning to: space, digit, full stop, operator. */
  predicate Recognised(c: char)
  {
    c == ' ' || IsNumberChar(c) || IsOperator(c)
  }

  /** The tokens spelt by a single operator or bracket character. */
  predicate IsSymbolToken(t: Token)
  {
    !t.Integer? && !t.Float?
  }

  /** The character that spells a symbol token. */
  function Symbol(t: Token): char
    requires IsSymbolToken(t)
  {
    match t
    case Add => '+'
    case Minus => '-'
    case Multiply => '*'
    case Divide => '/'
    case LeftBracket => '('
    case RightBracket => ')'
  }

  /** The token an operator or bracket character stands for. */
  function OperatorToken(c: char): (t: Token)
    requires IsOperator(c)
    ensures IsSymbolToken(t) && Symbol(t) == c
  {
    if c == '+' then Add
    else if c == '-' then Minus
    else if c == '*' then Multiply
    else if c == '/' then Divide
    else if c == '(' then LeftBracket
    else RightBracket
  }

  /** The two directions of the one-to-one correspondence between the six
      characters and the six symbol tokens. */
  lemma SymbolRoundTrip(t: Token)
    requires IsSymbolToken(t)
    ensures IsOperator(Symbol(t)) && OperatorToken(Symbol(t)) == t
  {
  }
}
