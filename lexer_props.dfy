/** Properties of the token list that `Lexer::tokenize` produces. */
module LexerProps {
  import opened Results
  import opened Decimal
  import opened Tokens
  import opened Lexing

  predicate AllIn(s: string, inClass: char -> bool) {
    forall i :: 0 <= i < |s| ==> inClass(s[i])
  }

  /** What every token before EOF looks like: non-empty text, a word starting
      with a letter and classified by exact keyword match, digits only for NUM,
      the operator's own text for each operator, and one otherwise unmatched
      character for UNKNOWN. No such token is EOF. */
  predicate WellFormed(t: Token) {
    t.text != [] &&
    match t.kind
    case IntKw | IfKw | ElseKw | Id =>
      IsAlpha(t.text[0]) && AllIn(t.text, IsWordChar) && t.kind == KindOfWord(t.text)
    case Num => IsDigits(t.text)
    case Eq => t.text == "=="
    case Assign => t.text == "="
    case Plus | Minus | LBrace | RBrace | LParen | RParen | Semi =>
      |t.text| == 1 && SingleCharKind(t.text[0]) == t.kind
    case Unknown =>
      |t.text| == 1 && !IsSpace(t.text[0]) && !IsAlpha(t.text[0]) && !IsDigit(t.text[0])
      && !IsOperatorChar(t.text[0])
    case Eof => false
  }

  /** Every token of the list is well formed. */
  predicate AllWellFormed(ts: seq<Token>) {
    forall i :: 0 <= i < |ts| ==> WellFormed(ts[i])
  }

  lemma WellFormedJoin(a: seq<Token>, b: seq<Token>)
    requires AllWellFormed(a) && AllWellFormed(b)
    ensures AllWellFormed(a + b)
  {
    forall i | 0 <= i < |a + b| ensures WellFormed((a + b)[i]) {
      if i >= |a| {
        assert (a + b)[i] == b[i - |a|];
      }
    }
  }

  /** The input with every whitespace character removed. */
  function RemoveSpaces(s: string): string {
    if s == [] then [] else (if IsSpace(s[0]) then [] else [s[0]]) + RemoveSpaces(s[1..])
  }

  /** The texts of a token list, concatenated. */
  function Texts(ts: seq<Token>): string {
    if ts == [] then [] else ts[0].text + Texts(ts[1..])
  }

  /** Each token's text followed by one space. */
  function Spaced(ts: seq<Token>): string {
    if ts == [] then [] else ts[0].text + " " + Spaced(ts[1..])
  }

  lemma {:induction false} RemoveSpacesAppend(a: string, b: string)
    ensures RemoveSpaces(a + b) == RemoveSpaces(a) + RemoveSpaces(b)
  {
    if a != [] {
      assert (a + b)[1..] == a[1..] + b;
      RemoveSpacesAppend(a[1..], b);
    } else {
      assert a + b == b;
    }
  }

  lemma {:induction false} RemoveSpacesOfSpaces(s: string)
    requires AllIn(s, IsSpace)
    ensures RemoveSpaces(s) == []
  {
    if s != [] {
      RemoveSpacesOfSpaces(s[1..]);
    }
  }

  lemma {:induction false} RemoveSpacesOfText(s: string)
    requires forall i :: 0 <= i < |s| ==> !IsSpace(s[i])
    ensures RemoveSpaces(s) == s
  {
    if s != [] {
      RemoveSpacesOfText(s[1..]);
    }
  }

  /** One step emits at most one token; its text is exactly the consumed
      characters minus whitespace, and it is well formed. */
  lemma StepFacts(s: string)
    requires s != []
    ensures var l := Step(s);
      && (l.token.None? ==> AllIn(s[..l.length], IsSpace))
      && (l.token.Some? ==> l.token.value.text == s[..l.length] && WellFormed(l.token.value))
      && (l.token.Some? ==> forall i :: 0 <= i < l.length ==> !IsSpace(s[i]))
  {
    var l := Step(s);
    if l.token.Some? && l.token.value.kind == Eq {
      assert s[..2] == "==";
    }
  }

  lemma {:induction false} TextsAppend(a: seq<Token>, b: seq<Token>)
    ensures Texts(a + b) == Texts(a) + Texts(b)
  {
    if a != [] {
      assert (a + b)[1..] == a[1..] + b;
      TextsAppend(a[1..], b);
    } else {
      assert a + b == b;
    }
  }

  /** The text a single step emits is what it consumed, minus whitespace. */
  lemma TextsOfStep(s: string)
    requires s != []
    ensures Texts(Emitted(Step(s))) == RemoveSpaces(s[..Step(s).length])
  {
    var l := Step(s);
    StepFacts(s);
    if l.token.None? {
      RemoveSpacesOfSpaces(s[..l.length]);
    } else {
      RemoveSpacesOfText(s[..l.length]);
      assert Texts([l.token.value]) == l.token.value.text + Texts([]);
    }
  }

  /** The texts of the tokens before EOF, concatenated, are the input with
      its whitespace removed. */
  lemma {:induction false} TextsOfScan(s: string)
    ensures Texts(Scan(s)) == RemoveSpaces(s)
    decreases |s|
  {
    if s != [] {
      var n, e := ScanFirst(s);
      TextsOfScan(s[n..]);
      TextsJoin(e, Scan(s[n..]), s[..n], s[n..]);
      assert s[..n] + s[n..] == s;
    }
  }

  /** The first step of the scan: what it emits and how far it goes. */
  lemma ScanFirst(s: string) returns (n: nat, e: seq<Token>)
    requires s != []
    ensures 1 <= n <= |s| && Scan(s) == e + Scan(s[n..])
    ensures Texts(e) == RemoveSpaces(s[..n])
  {
    n, e := Step(s).length, Emitted(Step(s));
    TextsOfStep(s);
  }

  lemma TextsJoin(e: seq<Token>, rest: seq<Token>, a: string, b: string)
    requires Texts(e) == RemoveSpaces(a) && Texts(rest) == RemoveSpaces(b)
    ensures Texts(e + rest) == RemoveSpaces(a + b)
  {
    TextsAppend(e, rest);
    RemoveSpacesAppend(a, b);
  }

  /** Every token before EOF is well formed (in particular has non-empty text and is not EOF). */
  lemma {:induction false} ScanWellFormed(s: string)
    ensures forall i :: 0 <= i < |Scan(s)| ==> WellFormed(Scan(s)[i])
    decreases |s|
  {
    if s != [] {
      StepFacts(s);
      ScanWellFormed(s[Step(s).length..]);
    }
  }

  /** `tokenize` ends its list with exactly one EOF, with empty text, and
      EOF appears nowhere else. */
  lemma LexEndsWithOneEof(s: string)
    ensures |Lex(s)| >= 1 && Lex(s)[|Lex(s)| - 1] == Token(Eof, "")
    ensures forall i :: 0 <= i < |Lex(s)| - 1 ==> Lex(s)[i].kind != Eof && Lex(s)[i].text != []
    ensures |set i | 0 <= i < |Lex(s)| && Lex(s)[i].kind == Eof| == 1
  {
    ScanWellFormed(s);
    var n := |Lex(s)|;
    assert (set i | 0 <= i < n && Lex(s)[i].kind == Eof) == {n - 1};
  }

  /** Whitespace in front of the input changes nothing. */
  lemma ScanSkipsSpace(r: string)
    ensures Scan(" " + r) == Scan(r)
  {
    var k := RunLength(r, IsSpace);
    assert (" " + r)[1..] == r;
    assert RunLength(" " + r, IsSpace) == 1 + k;
    assert (" " + r)[1 + k..] == r[k..];
    if k == 0 {
      assert r[k..] == r;
    }
  }

  /** A well-formed token followed by a space lexes back to itself. */
  lemma StepOfSpacedToken(t: Token, rest: string)
    requires WellFormed(t)
    ensures Step(t.text + " " + rest) == Lexeme(Some(t), |t.text|)
  {
    var s := t.text + " " + rest;
    var n := |t.text|;
    assert s[..n] == t.text;
    assert s[n] == ' ';
    match t.kind
    case IntKw | IfKw | ElseKw | Id =>
      RunLengthCharacterised(s, IsWordChar, n);
    case Num =>
      RunLengthCharacterised(s, IsDigit, n);
    case Eq =>
      assert s[0] == '=' && s[1] == '=';
    case Assign =>
      assert s[0] == '=' && s[1] == ' ';
    case Plus | Minus | LBrace | RBrace | LParen | RParen | Semi | Unknown =>
      assert s[0] == t.text[0] && t.text == [s[0]];
    case Eof =>
  }

  /** Re-lexing the token texts, each followed by a space, gives back the same
      well-formed tokens. */
  lemma {:induction false} ScanOfSpaced(ts: seq<Token>)
    requires forall i :: 0 <= i < |ts| ==> WellFormed(ts[i])
    ensures Scan(Spaced(ts)) == ts
  {
    if ts != [] {
      var t := ts[0];
      var rest := Spaced(ts[1..]);
      assert Spaced(ts) == t.text + " " + rest;
      StepOfSpacedToken(t, rest);
      assert (t.text + " " + rest)[|t.text|..] == " " + rest;
      ScanSkipsSpace(rest);
      ScanOfSpaced(ts[1..]);
    }
  }

  /** Round trip: printing the tokens of any input separated by spaces and
      lexing that text again yields the same token list. */
  lemma RelexSpacedTokens(s: string)
    ensures Lex(Spaced(Scan(s))) == Lex(s)
  {
    ScanWellFormed(s);
    ScanOfSpaced(Scan(s));
  }

  /** A word starts with a letter and is the maximal run of letters, digits
      and `_`; it is a keyword exactly when its text is one. */
  lemma WordIsMaximalRun(s: string)
    requires s != [] && IsAlpha(s[0])
    ensures var l := Step(s);
      && l.token == Some(Token(KindOfWord(s[..l.length]), s[..l.length]))
      && AllIn(s[..l.length], IsWordChar)
      && (l.length == |s| || !IsWordChar(s[l.length]))
  {
  }

  /** A NUM token is the maximal run of digits: the next character, if any, is not a digit. */
  lemma NumberIsMaximalRun(s: string)
    requires s != [] && IsDigit(s[0])
    ensures var l := Step(s);
      && l.token == Some(Token(Num, s[..l.length]))
      && IsDigits(s[..l.length])
      && (l.length == |s| || !IsDigit(s[l.length]))
  {
  }

  /** `=` followed by `=` is one EQ token of two characters; any other `=` is ASSIGN. */
  lemma EqualsSigns(s: string)
    requires s != [] && s[0] == '='
    ensures |s| > 1 && s[1] == '=' ==> Step(s) == Lexeme(Some(Token(Eq, "==")), 2)
    ensures !(|s| > 1 && s[1] == '=') ==> Step(s) == Lexeme(Some(Token(Assign, "=")), 1)
  {
  }

  /** Any other non-space character that is not a letter or digit becomes a
      one-character token: its own kind for `+ - { } ( ) ;`, UNKNOWN otherwise. */
  lemma SingleCharacterTokens(s: string)
    requires s != [] && !IsSpace(s[0]) && !IsAlpha(s[0]) && !IsDigit(s[0]) && s[0] != '='
    ensures Step(s) == Lexeme(Some(Token(SingleCharKind(s[0]), [s[0]])), 1)
    ensures SingleCharKind(s[0]) == Unknown <==> !IsOperatorChar(s[0])
  {
  }

  /** A word followed by anything that cannot continue it lexes as one token
      and then the rest. */
  lemma ScanWordThen(w: string, rest: string)
    requires w != [] && IsAlpha(w[0]) && AllIn(w, IsWordChar)
    requires rest == [] || !IsWordChar(rest[0])
    ensures Scan(w + rest) == [Token(KindOfWord(w), w)] + Scan(rest)
  {
    var s := w + rest;
    RunLengthCharacterised(s, IsWordChar, |w|);
    assert s[..|w|] == w && s[|w|..] == rest;
  }

  /** "===" is EQ then ASSIGN: the first two characters are taken together. */
  lemma TripleEquals()
    ensures Lex("===") == [Token(Eq, "=="), Token(Assign, "="), Token(Eof, "")]
  {
  }

  /** A word cannot start with `_`: "_x" is an UNKNOWN "_" followed by the identifier "x". */
  lemma LeadingUnderscore()
    ensures Lex("_x") == [Token(Unknown, "_"), Token(Id, "x"), Token(Eof, "")]
  {
    assert "_x"[1..] == "x";
    ScanWordThen("x", "");
    assert "x" + "" == "x";
  }

  /** Keywords need an exact match: "iff" and "integer" lex as identifiers. */
  lemma KeywordNeedsExactMatch(w: string)
    requires w == "iff" || w == "integer"
    ensures Lex(w) == [Token(Id, w), Token(Eof, "")]
  {
    ScanWordThen(w, "");
    assert w + "" == w;
  }
}
