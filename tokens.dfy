/** Token kinds and tokens (include/lexer.h), and the C-locale character
    classes the lexer tests with. */
module Tokens {
  import opened Decimal

  /** The sixteen members of `TokenType`, in declaration order. */
  datatype TokenType =
    | IntKw | IfKw | ElseKw | Id | Num
    | Assign | Plus | Minus | Eq
    | LBrace | RBrace | LParen | RParen | Semi
    | Eof | Unknown

  /** The enumerator's numeric value in C++ (declaration order from 0). */
  function Ordinal(t: TokenType): (n: nat)
    ensures n < 16
  {
    match t
    case IntKw => 0   case IfKw => 1     case ElseKw => 2   case Id => 3
    case Num => 4     case Assign => 5   case Plus => 6     case Minus => 7
    case Eq => 8      case LBrace => 9   case RBrace => 10  case LParen => 11
    case RParen => 12 case Semi => 13    case Eof => 14     case Unknown => 15
  }

  /** The kind whose enumerator value is `n`. */
  function FromOrdinal(n: nat): (t: TokenType)
    requires n < 16
    ensures Ordinal(t) == n
  {
    if n == 0 then IntKw else if n == 1 then IfKw else if n == 2 then ElseKw
    else if n == 3 then Id else if n == 4 then Num else if n == 5 then Assign
    else if n == 6 then Plus else if n == 7 then Minus else if n == 8 then Eq
    else if n == 9 then LBrace else if n == 10 then RBrace
    else if n == 11 then LParen else if n == 12 then RParen
    else if n == 13 then Semi else if n == 14 then Eof else Unknown
  }

  /** There are exactly sixteen kinds: `Ordinal` is a bijection onto 0..15. */
  lemma SixteenKinds()
    ensures forall t: TokenType :: FromOrdinal(Ordinal(t)) == t
    ensures forall n: nat :: n < 16 ==> Ordinal(FromOrdinal(n)) == n
    ensures forall t, u: TokenType :: Ordinal(t) == Ordinal(u) ==> t == u
  {
    forall t: TokenType ensures FromOrdinal(Ordinal(t)) == t {
      match t
      case IntKw =>  case IfKw =>  case ElseKw => case Id =>
      case Num =>    case Assign => case Plus =>   case Minus =>
      case Eq =>     case LBrace => case RBrace => case LParen =>
      case RParen => case Semi =>  case Eof =>    case Unknown =>
    }
  }

  /** A token is its kind and its exact text; it carries no position. */
  datatype Token = Token(kind: TokenType, text: string)

  /** `Token()`: the default constructor. */
  function DefaultToken(): (t: Token)
    ensures t.kind == Unknown && t.text == ""
  {
    Token(Unknown, "")
  }

  /** `std::isspace` in the C locale: space, \t, \n, \v, \f, \r. */
  predicate IsSpace(c: char) {
    c == ' ' || '\t' <= c <= '\r'
  }

  /** `std::isalpha` in the C locale. */
  predicate IsAlpha(c: char) {
    'a' <= c <= 'z' || 'A' <= c <= 'Z'
  }

  /** What `readIdentifier` keeps consuming: `std::isalnum` or `_`. */
  predicate IsWordChar(c: char) {
    IsAlpha(c) || IsDigit(c) || c == '_'
  }

  /** The single characters that have a case of their own in the lexer's switch. */
  predicate IsOperatorChar(c: char) {
    c == '=' || c == '+' || c == '-' || c == '{' || c == '}' || c == '(' || c == ')' || c == ';'
  }
}
