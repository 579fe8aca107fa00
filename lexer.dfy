/** The lexer (src/lexer.cpp): a scanning loop over the input that appends
    tokens to the lexer's own list and always finishes with an EOF token.

    `Scan` and `Lex` specify what the loop produces, one `Step` per iteration;
    the class `Lexer` is the loop itself, proved against them. */
module Lexing {
  import opened Results
  import opened Decimal
  import opened Tokens

  /** Length of the longest prefix of `s` whose characters all satisfy `inClass`. */
  function RunLength(s: string, inClass: char -> bool): (n: nat)
    ensures n <= |s|
    ensures forall i :: 0 <= i < n ==> inClass(s[i])
    ensures n == |s| || !inClass(s[n])
  {
    if s != [] && inClass(s[0]) then 1 + RunLength(s[1..], inClass) else 0
  }

  /** `RunLength` is the only length with those three properties: a prefix of
      length `n` all in the class and not followed by a class member is the run. */
  lemma {:induction false} RunLengthCharacterised(s: string, inClass: char -> bool, n: nat)
    requires n <= |s|
    requires forall i :: 0 <= i < n ==> inClass(s[i])
    requires n == |s| || !inClass(s[n])
    ensures RunLength(s, inClass) == n
  {
    if n > 0 {
      RunLengthCharacterised(s[1..], inClass, n - 1);
    }
  }

  /** `input[start..end]` is a maximal run of the class: every character
      in it is in the class and the one after it, if any, is not. */
  predicate IsRun(input: string, start: nat, end: nat, inClass: char -> bool) {
    && start <= end <= |input|
    && (forall i :: start <= i < end ==> inClass(input[i]))
    && (end == |input| || !inClass(input[end]))
  }

  /** A maximal run found by a cursor moving from `start` to `end` has the length `RunLength` gives. */
  lemma RunFrom(input: string, start: nat, end: nat, inClass: char -> bool)
    requires IsRun(input, start, end, inClass)
    ensures RunLength(input[start..], inClass) == end - start
  {
    RunLengthCharacterised(input[start..], inClass, end - start);
  }

  /** The keyword test at the end of `readIdentifier`: exact matches only. */
  function KindOfWord(w: string): (k: TokenType)
    ensures k == IntKw <==> w == "int"
    ensures k == IfKw <==> w == "if"
    ensures k == ElseKw <==> w == "else"
    ensures k == Id <==> w != "int" && w != "if" && w != "else"
  {
    if w == "int" then IntKw
    else if w == "if" then IfKw
    else if w == "else" then ElseKw
    else Id
  }

  /** The cases of the switch for one-character tokens; anything else is `Unknown`. */
  function SingleCharKind(c: char): TokenType {
    match c
    case '+' => Plus
    case '-' => Minus
    case '{' => LBrace
    case '}' => RBrace
    case '(' => LParen
    case ')' => RParen
    case ';' => Semi
    case _ => Unknown
  }

  /** What one iteration of the scanning loop does: the token it appends, if
      any, and how many characters it consumes. */
  datatype Lexeme = Lexeme(token: Option<Token>, length: nat)

  function Emitted(l: Lexeme): seq<Token> {
    if l.token.Some? then [l.token.value] else []
  }

  /** One iteration of the loop of `Lexer::tokenize`, at the start of `s`. */
  function Step(s: string): (l: Lexeme)
    requires s != []
    ensures 1 <= l.length <= |s|
  {
    var c := s[0];
    if IsSpace(c) then
      Lexeme(None, RunLength(s, IsSpace))
    else if IsAlpha(c) then
      var n := RunLength(s, IsWordChar);
      Lexeme(Some(Token(KindOfWord(s[..n]), s[..n])), n)
    else if IsDigit(c) then
      var n := RunLength(s, IsDigit);
      Lexeme(Some(Token(Num, s[..n])), n)
    else if c == '=' then
      if 1 < |s| && s[1] == '=' then Lexeme(Some(Token(Eq, "==")), 2)
      else Lexeme(Some(Token(Assign, "=")), 1)
    else
      Lexeme(Some(Token(SingleCharKind(c), [c])), 1)
  }

  /** A step at whitespace skips the maximal whitespace run and emits nothing. */
  lemma StepAtSpace(input: string, start: nat, end: nat)
    requires start < |input| && IsSpace(input[start]) && IsRun(input, start, end, IsSpace)
    ensures Step(input[start..]) == Lexeme(None, end - start)
  {
    RunFrom(input, start, end, IsSpace);
  }

  /** A step at a letter emits the maximal word run, classified by `KindOfWord`. */
  lemma StepAtWord(input: string, start: nat, end: nat)
    requires start < |input| && IsAlpha(input[start]) && IsRun(input, start, end, IsWordChar)
    ensures Step(input[start..]) == Lexeme(Some(Token(KindOfWord(input[start..end]), input[start..end])), end - start)
  {
    RunFrom(input, start, end, IsWordChar);
    assert input[start..][..end - start] == input[start..end];
  }

  /** A step at a digit emits the maximal digit run as a NUM token. */
  lemma StepAtNumber(input: string, start: nat, end: nat)
    requires start < |input| && IsDigit(input[start]) && IsRun(input, start, end, IsDigit)
    ensures Step(input[start..]) == Lexeme(Some(Token(Num, input[start..end])), end - start)
  {
    RunFrom(input, start, end, IsDigit);
    assert input[start..][..end - start] == input[start..end];
  }

  /** The tokens the loop appends for input `s`, EOF not included. */
  function Scan(s: string): seq<Token>
    decreases |s|
  {
    if s == [] then [] else
    var l := Step(s);
    Emitted(l) + Scan(s[l.length..])
  }

  /** The whole token list `tokenize` produces for `s`. */
  function Lex(s: string): seq<Token> {
    Scan(s) + [Token(Eof, "")]
  }

  /** One iteration of the loop, from position `p` to `q`, keeps `done + Scan(rest)` unchanged. */
  lemma ScanAfterStep(done: seq<Token>, s: string, p: nat, q: nat)
    requires p < |s|
    requires q == p + Step(s[p..]).length
    ensures (done + Emitted(Step(s[p..]))) + Scan(s[q..]) == done + Scan(s[p..])
  {
    var t := s[p..];
    assert t[Step(t).length..] == s[q..];
    assert Scan(t) == Emitted(Step(t)) + Scan(s[q..]);
  }

  /** `class Lexer`: the input, the cursor `pos` and the token list that
      `getTokens` exposes. */
  class Lexer {
    var input: string
    var pos: nat
    var tokens: seq<Token>

    ghost predicate Valid()
      reads this
    {
      pos <= |input|
    }

    constructor (code: string)
      ensures Valid() && input == code && pos == 0 && tokens == []
    {
      input := code;
      pos := 0;
      tokens := [];
    }

    predicate IsAtEnd()
      reads this
    {
      pos >= |input|
    }

    function GetTokens(): seq<Token>
      reads this
    {
      tokens
    }

    method SkipWhitespace()
      requires Valid()
      modifies this`pos
      ensures Valid() && IsRun(input, old(pos), pos, IsSpace)
    {
      while !IsAtEnd() && IsSpace(input[pos])
        invariant old(pos) <= pos <= |input|
        invariant forall i :: old(pos) <= i < pos ==> IsSpace(input[i])
        decreases |input| - pos
      {
        pos := pos + 1;
      }
    }

    /** Consumes the maximal run of letters, digits and `_` from `pos` and
        appends it as a keyword or identifier token. */
    method ReadIdentifier()
      requires Valid()
      modifies this`pos, this`tokens
      ensures Valid() && IsRun(input, old(pos), pos, IsWordChar)
      ensures tokens == old(tokens) + [Token(KindOfWord(input[old(pos)..pos]), input[old(pos)..pos])]
    {
      var id := "";
      while !IsAtEnd() && IsWordChar(input[pos])
        invariant old(pos) <= pos <= |input|
        invariant id == input[old(pos)..pos] && tokens == old(tokens)
        invariant forall i :: old(pos) <= i < pos ==> IsWordChar(input[i])
        decreases |input| - pos
      {
        assert input[old(pos)..pos + 1] == id + [input[pos]];
        id := id + [input[pos]];
        pos := pos + 1;
      }
      if id == "int" {
        tokens := tokens + [Token(IntKw, id)];
      } else if id == "if" {
        tokens := tokens + [Token(IfKw, id)];
      } else if id == "else" {
        tokens := tokens + [Token(ElseKw, id)];
      } else {
        tokens := tokens + [Token(Id, id)];
      }
    }

    /** Consumes the maximal run of digits from `pos` and appends it as a NUM token. */
    method ReadNumber()
      requires Valid()
      modifies this`pos, this`tokens
      ensures Valid() && IsRun(input, old(pos), pos, IsDigit)
      ensures tokens == old(tokens) + [Token(Num, input[old(pos)..pos])]
    {
      var num := "";
      while !IsAtEnd() && IsDigit(input[pos])
        invariant old(pos) <= pos <= |input|
        invariant num == input[old(pos)..pos] && tokens == old(tokens)
        invariant forall i :: old(pos) <= i < pos ==> IsDigit(input[i])
        decreases |input| - pos
      {
        assert input[old(pos)..pos + 1] == num + [input[pos]];
        num := num + [input[pos]];
        pos := pos + 1;
      }
      tokens := tokens + [Token(Num, num)];
    }

    /** The `switch` of `tokenize` for a character that is not space, letter
        or digit: `==` when an `=` is followed by another, else one character. */
    method ReadSymbol()
      requires Valid() && pos < |input|
      requires !IsSpace(input[pos]) && !IsAlpha(input[pos]) && !IsDigit(input[pos])
      modifies this`pos, this`tokens
      ensures Valid()
      ensures pos == old(pos) + Step(input[old(pos)..]).length
      ensures tokens == old(tokens) + Emitted(Step(input[old(pos)..]))
    {
      var c := input[pos];
      match c
      case '=' =>
        if pos + 1 < |input| && input[pos + 1] == '=' {
          tokens := tokens + [Token(Eq, "==")];
          pos := pos + 2;
        } else {
          tokens := tokens + [Token(Assign, "=")];
          pos := pos + 1;
        }
      case '+' =>
        tokens := tokens + [Token(Plus, "+")];
        pos := pos + 1;
      case '-' =>
        tokens := tokens + [Token(Minus, "-")];
        pos := pos + 1;
      case '{' =>
        tokens := tokens + [Token(LBrace, "{")];
        pos := pos + 1;
      case '}' =>
        tokens := tokens + [Token(RBrace, "}")];
        pos := pos + 1;
      case '(' =>
        tokens := tokens + [Token(LParen, "(")];
        pos := pos + 1;
      case ')' =>
        tokens := tokens + [Token(RParen, ")")];
        pos := pos + 1;
      case ';' =>
        tokens := tokens + [Token(Semi, ";")];
        pos := pos + 1;
      case _ =>
        tokens := tokens + [Token(Unknown, [c])];
        pos := pos + 1;
    }

    /** The body of the loop of `tokenize`: dispatch on the character at `pos`. */
    method ScanOnce()
      requires Valid() && pos < |input|
      modifies this`pos, this`tokens
      ensures Valid()
      ensures pos == old(pos) + Step(input[old(pos)..]).length
      ensures tokens == old(tokens) + Emitted(Step(input[old(pos)..]))
    {
      ghost var start := pos;
      if IsSpace(input[pos]) {
        SkipWhitespace();
        StepAtSpace(input, start, pos);
      } else if IsAlpha(input[pos]) {
        ReadIdentifier();
        StepAtWord(input, start, pos);
      } else if IsDigit(input[pos]) {
        ReadNumber();
        StepAtNumber(input, start, pos);
      } else {
        ReadSymbol();
      }
    }

    /** Scans from `pos` to the end of the input and appends EOF. The cursor
        is not reset, so a second call appends only another EOF. */
    method Tokenize()
      requires Valid()
      modifies this`pos, this`tokens
      ensures Valid() && pos == |input|
      ensures tokens == old(tokens) + Lex(input[old(pos)..])
    {
      while !IsAtEnd()
        invariant Valid()
        invariant tokens + Scan(input[pos..]) == old(tokens) + Scan(input[old(pos)..])
        decreases |input| - pos
      {
        ghost var before, start := tokens, pos;
        ScanOnce();
        ScanAfterStep(before, input, start, pos);
      }
      assert input[pos..] == [];
      assert tokens == old(tokens) + Scan(input[old(pos)..]);
      tokens := tokens + [Token(Eof, "")];
    }
  }

  /** What the driver does with a fresh lexer: `tokenize` once, then `getTokens`. */
  method LexSource(code: string) returns (toks: seq<Token>)
    ensures toks == Lex(code)
  {
    var lexer := new Lexer(code);
    lexer.Tokenize();
    toks := lexer.GetTokens();
  }

  /** Calling `tokenize` a second time on the same lexer appends exactly one more EOF. */
  method TokenizeTwice(code: string) returns (toks: seq<Token>)
    ensures toks == Lex(code) + [Token(Eof, "")]
  {
    var lexer := new Lexer(code);
    lexer.Tokenize();
    lexer.Tokenize();
    toks := lexer.GetTokens();
  }
}
