/** Two programs compiled end to end. Each is given as its token list and
    as source text in which every token is followed by one space. They show
    the two slot-allocation phases and the empty operand code of a nested
    binary expression. */
module Scenarios {
  import opened Results
  import opened Decimal
  import opened Tokens
  import opened Ast
  import opened Context
  import opened Lexing
  import opened Grammar
  import opened Generation
  import opened Pipeline
  import LexerProps

  /** `int name =` */
  function DeclHead(name: string): seq<Token> {
    [Token(IntKw, "int"), Token(Id, name), Token(Assign, "=")]
  }

  /** `int name = digits ;` */
  function DeclTokens(name: string, digits: string): seq<Token> {
    [Token(IntKw, "int"), Token(Id, name), Token(Assign, "="), Token(Num, digits), Token(Semi, ";")]
  }

  /** `name = other ;` */
  function AssignTokens(name: string, other: string): seq<Token> {
    [Token(Id, name), Token(Assign, "="), Token(Id, other), Token(Semi, ";")]
  }

  /** `- digits` */
  function MinusTokens(digits: string): seq<Token> {
    [Token(Minus, "-"), Token(Num, digits)]
  }

  /** A one-letter name that is no keyword. */
  predicate Name(name: string) {
    |name| == 1 && IsAlpha(name[0])
  }

  lemma NameWellFormed(name: string)
    requires Name(name)
    ensures LexerProps.WellFormed(Token(Id, name))
  {
    assert name != "int" && name != "if" && name != "else";
  }

  lemma DeclTokensWellFormed(name: string, digits: string)
    requires Name(name) && digits != [] && IsDigits(digits)
    ensures LexerProps.AllWellFormed(DeclTokens(name, digits))
  {
    NameWellFormed(name);
    assert KindOfWord("int") == IntKw;
    assert LexerProps.WellFormed(Token(IntKw, "int"));
  }

  lemma AssignTokensWellFormed(name: string, other: string)
    requires Name(name) && Name(other)
    ensures LexerProps.AllWellFormed(AssignTokens(name, other))
  {
    NameWellFormed(name);
    NameWellFormed(other);
  }

  /** Source text whose tokens are `ts` lexes to `ts` and EOF. */
  lemma LexSpaced(ts: seq<Token>)
    requires LexerProps.AllWellFormed(ts)
    ensures Lex(LexerProps.Spaced(ts)) == ts + [Token(Eof, "")]
  {
    LexerProps.ScanOfSpaced(ts);
  }

  // Parsing, one statement shape at a time, at any position.

  /** `int name = digits ;` at token `p`. */
  lemma DeclareNumber(toks: seq<Token>, p: nat, c: Ctx, name: string, digits: string)
    requires digits != [] && IsDigits(digits)
    requires p + 5 <= |toks| && toks[p..p + 5] == DeclTokens(name, digits)
    ensures ParseStatement(toks, p, c) == Ok(Parsed(Some(VarDeclAssign(name, NumberLiteral(Value(digits)))), p + 5, c))
  {
    var e := NumberLiteral(Value(digits));
    assert toks[p] == Token(IntKw, "int") && toks[p + 1] == Token(Id, name) && toks[p + 2] == Token(Assign, "=");
    assert toks[p + 3] == Token(Num, digits) && toks[p + 4] == Token(Semi, ";");
    assert ParsePrimary(toks, p + 3, c) == Ok(Parsed(e, p + 4, c));
    assert AdditionTail(toks, p + 4, c, e) == Ok(Parsed(e, p + 4, c));
    assert ParseComparison(toks, p + 3, c) == Ok(Parsed(e, p + 4, c));
    assert ParseVarDeclAssign(toks, p, c) == Ok(Parsed(VarDeclAssign(name, e), p + 5, c));
  }

  /** `int name = e ;` at the start, given how `e` parses. */
  lemma DeclareExpr(toks: seq<Token>, c: Ctx, name: string, e: Expr, q: nat, c': Ctx)
    requires 3 <= q < |toks| && toks[q].kind == Semi
    requires toks[0].kind == IntKw && toks[1] == Token(Id, name) && toks[2].kind == Assign
    requires ParseComparison(toks, 3, c) == Ok(Parsed(e, q, c'))
    ensures ParseStatement(toks, 0, c) == Ok(Parsed(Some(VarDeclAssign(name, e)), q + 1, c'))
  {
    assert Match(toks, 0, IntKw) && Match(toks, 1, Id) && Match(toks, 2, Assign) && Match(toks, q, Semi);
    assert ParseVarDeclAssign(toks, 0, c) == Ok(Parsed(VarDeclAssign(name, e), q + 1, c'));
  }

  /** `name = other ;` at token `p`: building the identifier `other` allocates its slot. */
  lemma AssignIdentifier(toks: seq<Token>, p: nat, c: Ctx, name: string, other: string)
    requires p + 4 <= |toks| && toks[p..p + 4] == AssignTokens(name, other)
    ensures var c' := Alloc(c, other);
      ParseStatement(toks, p, c) == Ok(Parsed(Some(AssignStmt(name, Identifier(other, c'.memMap[other]))), p + 4, c'))
  {
    var c' := Alloc(c, other);
    var e := Identifier(other, c'.memMap[other]);
    assert toks[p] == Token(Id, name) && toks[p + 1] == Token(Assign, "=");
    assert toks[p + 2] == Token(Id, other) && toks[p + 3] == Token(Semi, ";");
    assert ParsePrimary(toks, p + 2, c) == Ok(Parsed(e, p + 3, c'));
    assert AdditionTail(toks, p + 3, c', e) == Ok(Parsed(e, p + 3, c'));
    assert ParseComparison(toks, p + 2, c) == Ok(Parsed(e, p + 3, c'));
    assert ParseAssignment(toks, p, c) == Ok(Parsed(AssignStmt(name, e), p + 4, c'));
  }

  /** `- digits` after `pre` in an addition: the expression so far becomes the left operand. */
  lemma MinusNumber(pre: seq<Token>, post: seq<Token>, c: Ctx, left: Expr, digits: string)
    requires digits != [] && IsDigits(digits)
    ensures var toks := pre + MinusTokens(digits) + post;
      AdditionTail(toks, |pre|, c, left)
        == AdditionTail(toks, |pre| + 2, c, BinaryExpr(left, "-", NumberLiteral(Value(digits))))
  {
    var toks := pre + MinusTokens(digits) + post;
    var p := |pre|;
    assert toks[p..p + 2] == MinusTokens(digits);
    assert ParsePrimary(toks, p + 1, c) == Ok(Parsed(NumberLiteral(Value(digits)), p + 2, c));
  }

  /** One more statement in front of the rest of a top-level statement list. */
  lemma StatementThenRest(toks: seq<Token>, p: nat, c: Ctx, s: Stmt, q: nat, c': Ctx, rest: Parsed<seq<Stmt>>)
    requires p <= |toks|
    requires ParseStatement(toks, p, c) == Ok(Parsed(Some(s), q, c'))
    requires ParseStatements(toks, q, c', false) == Ok(rest)
    ensures ParseStatements(toks, p, c, false) == Ok(Parsed([s] + rest.node, rest.pos, rest.ctx))
  {
  }

  /** The last statement of a top-level list, followed by the end of input. */
  lemma LastStatement(toks: seq<Token>, p: nat, c: Ctx, s: Stmt, q: nat, c': Ctx)
    requires p <= |toks| && q < |toks| && toks[q].kind == Eof
    requires ParseStatement(toks, p, c) == Ok(Parsed(Some(s), q, c'))
    ensures ParseStatements(toks, p, c, false) == Ok(Parsed([s], q, c'))
  {
    assert !IsEnd(toks, p);
    assert ParseStatements(toks, q, c', false) == Ok(Parsed([], q, c'));
    assert Kept(Some(s)) + [] == [s];
  }

  /** Three statements one after the other, then the end of input. */
  lemma ThreeStatements(toks: seq<Token>, s1: Stmt, s2: Stmt, s3: Stmt, p1: nat, p2: nat, p3: nat, c0: Ctx, c1: Ctx, c2: Ctx, c3: Ctx)
    requires p1 <= |toks| && p2 <= |toks| && p3 < |toks| && toks[p3].kind == Eof
    requires ParseStatement(toks, 0, c0) == Ok(Parsed(Some(s1), p1, c1))
    requires ParseStatement(toks, p1, c1) == Ok(Parsed(Some(s2), p2, c2))
    requires ParseStatement(toks, p2, c2) == Ok(Parsed(Some(s3), p3, c3))
    ensures ParseStatements(toks, 0, c0, false) == Ok(Parsed([s1, s2, s3], p3, c3))
  {
    LastStatement(toks, p2, c2, s3, p3, c3);
    StatementThenRest(toks, p1, c1, s2, p2, c2, Parsed([s3], p3, c3));
    StatementThenRest(toks, 0, c0, s1, p1, c1, Parsed([s2] + [s3], p3, c3));
    assert [s1] + ([s2] + [s3]) == [s1, s2, s3];
  }

  // Code generation, one statement shape at a time.

  /** `int name = v;` stores the immediate into the slot the declaration allocates. */
  lemma DeclareNumberCode(name: string, v: nat, c: Ctx)
    ensures var c' := Alloc(c, name);
      GenStmt(VarDeclAssign(name, NumberLiteral(v)), c) == Ok(Gen([ImmA(v), Store(c'.memMap[name])], c'))
  {
    assert [ImmA(v)] + [Store(Alloc(c, name).memMap[name])] == [ImmA(v), Store(Alloc(c, name).memMap[name])];
  }

  /** `name = other;` for two known names: the value's store, then the assignment's. */
  lemma AssignIdentifierCode(name: string, other: string, loc: nat, c: Ctx)
    requires name in c.memMap && other in c.memMap
    ensures GenStmt(AssignStmt(name, Identifier(other, loc)), c) == Ok(Gen([Store(c.memMap[other]), Store(c.memMap[name])], c))
  {
    assert ValueCode(Identifier(other, loc), c) == Ok(Gen([Store(c.memMap[other])], c));
    assert [Store(c.memMap[other])] + [Store(c.memMap[name])] == [Store(c.memMap[other]), Store(c.memMap[name])];
  }

  // `int x = 1; int y = 2; x = y;`

  function SlotOrderSource(): seq<Token> {
    DeclTokens("x", "1") + DeclTokens("y", "2") + AssignTokens("x", "y")
  }

  function SlotOrderProgram(): seq<Stmt> {
    [VarDeclAssign("x", NumberLiteral(1)), VarDeclAssign("y", NumberLiteral(2)), AssignStmt("x", Identifier("y", 1))]
  }

  function SlotOrderTokens(): seq<Token> {
    SlotOrderSource() + [Token(Eof, "")]
  }

  /** `int x = 1;` opens the program. */
  lemma SlotOrderFirst()
    ensures ParseStatement(SlotOrderTokens(), 0, Fresh()) == Ok(Parsed(Some(VarDeclAssign("x", NumberLiteral(1))), 5, Fresh()))
  {
    assert SlotOrderTokens()[0..5] == DeclTokens("x", "1");
    assert Value("1") == 1;
    DeclareNumber(SlotOrderTokens(), 0, Fresh(), "x", "1");
  }

  /** `int y = 2;` follows at token 5. */
  lemma SlotOrderSecond()
    ensures ParseStatement(SlotOrderTokens(), 5, Fresh()) == Ok(Parsed(Some(VarDeclAssign("y", NumberLiteral(2))), 10, Fresh()))
  {
    assert SlotOrderTokens()[5..10] == DeclTokens("y", "2");
    assert Value("2") == 2;
    DeclareNumber(SlotOrderTokens(), 5, Fresh(), "y", "2");
  }

  /** `x = y;` at token 10 gives `y` its slot while parsing. */
  lemma SlotOrderThird()
    ensures ParseStatement(SlotOrderTokens(), 10, Fresh())
         == Ok(Parsed(Some(AssignStmt("x", Identifier("y", 1))), 14, Ctx(map["y" := 1], 2, 0)))
  {
    assert SlotOrderTokens()[10..14] == AssignTokens("x", "y");
    assert Alloc(Fresh(), "y") == Ctx(map["y" := 1], 2, 0);
    AssignIdentifier(SlotOrderTokens(), 10, Fresh(), "x", "y");
  }

  lemma SlotOrderEnd()
    ensures |SlotOrderTokens()| == 15 && SlotOrderTokens()[14] == Token(Eof, "")
  {
  }

  /** Only `y` is built as an `Identifier` during parsing, so it takes slot 1
      there, before the declaration of `x` is generated. */
  lemma SlotOrderParses()
    ensures ParseProgram(SlotOrderSource() + [Token(Eof, "")], Fresh())
         == Ok(Parsed(SlotOrderProgram(), 14, Ctx(map["y" := 1], 2, 0)))
  {
    var toks := SlotOrderTokens();
    var c0 := Fresh();
    var cy := Ctx(map["y" := 1], 2, 0);
    var s1, s2, s3 := VarDeclAssign("x", NumberLiteral(1)), VarDeclAssign("y", NumberLiteral(2)), AssignStmt("x", Identifier("y", 1));
    SlotOrderEnd();
    SlotOrderFirst();
    SlotOrderSecond();
    SlotOrderThird();
    ThreeStatements(toks, s1, s2, s3, 5, 10, 14, c0, c0, c0, cy);
  }

  /** `x` is declared second in slot order: it gets slot 2, and `x = y`
      emits the store of the bare identifier `y` before the store to `x`. */
  lemma SlotOrderCode()
    ensures GenStmts(SlotOrderProgram(), Ctx(map["y" := 1], 2, 0))
         == Ok(Gen(["ldi A 1", "mov M A 2", "ldi A 2", "mov M A 1", "mov M A 1", "mov M A 2"],
                   Ctx(map["y" := 1, "x" := 2], 3, 0)))
  {
    var s1, s2, s3 := VarDeclAssign("x", NumberLiteral(1)), VarDeclAssign("y", NumberLiteral(2)), AssignStmt("x", Identifier("y", 1));
    var cy := Ctx(map["y" := 1], 2, 0);
    var cxy := Ctx(map["y" := 1, "x" := 2], 3, 0);
    assert NatToString(1) == "1" && NatToString(2) == "2";
    assert ImmA(1) == "ldi A 1" && ImmA(2) == "ldi A 2" && Store(1) == "mov M A 1" && Store(2) == "mov M A 2";
    assert Alloc(cy, "x") == cxy && Alloc(cxy, "y") == cxy;
    DeclareNumberCode("x", 1, cy);
    DeclareNumberCode("y", 2, cxy);
    AssignIdentifierCode("x", "y", 1, cxy);
    assert GenStmts([], cy) == Ok(Gen([], cy));
    var l1, l2, l3 := ["ldi A 1", "mov M A 2"], ["ldi A 2", "mov M A 1"], ["mov M A 1", "mov M A 2"];
    var prog := SlotOrderProgram();
    assert prog[..0] == [] && prog[..3] == prog;
    GenStmtsSnoc(prog, 0, cy);
    GenStmtsSnoc(prog, 1, cy);
    GenStmtsSnoc(prog, 2, cy);
    assert [] + l1 + l2 + l3 == ["ldi A 1", "mov M A 2", "ldi A 2", "mov M A 1", "mov M A 1", "mov M A 2"];
  }

  /** Compiling `int x = 1 ; int y = 2 ; x = y ; `. */
  lemma SlotOrderCompiles()
    ensures Compile(LexerProps.Spaced(SlotOrderSource()))
         == Ok(Gen(["ldi A 1", "mov M A 2", "ldi A 2", "mov M A 1", "mov M A 1", "mov M A 2"],
                   Ctx(map["y" := 1, "x" := 2], 3, 0)))
  {
    DeclTokensWellFormed("x", "1");
    DeclTokensWellFormed("y", "2");
    AssignTokensWellFormed("x", "y");
    LexerProps.WellFormedJoin(DeclTokens("x", "1"), DeclTokens("y", "2"));
    LexerProps.WellFormedJoin(DeclTokens("x", "1") + DeclTokens("y", "2"), AssignTokens("x", "y"));
    LexSpaced(SlotOrderSource());
    SlotOrderParses();
    SlotOrderCode();
  }

  // `int x = 5 - 2 - 1;`

  function SubtractionSource(): seq<Token> {
    DeclHead("x") + [Token(Num, "5")] + MinusTokens("2") + MinusTokens("1") + [Token(Semi, ";")]
  }

  function SubtractionExpr(): Expr {
    BinaryExpr(BinaryExpr(NumberLiteral(5), "-", NumberLiteral(2)), "-", NumberLiteral(1))
  }

  /** `5 - 2 - 1` parses left-nested: `(5 - 2) - 1`. */
  lemma SubtractionIsLeftNested()
    ensures ParseComparison(SubtractionSource() + [Token(Eof, "")], 3, Fresh()) == Ok(Parsed(SubtractionExpr(), 8, Fresh()))
  {
    var head, m2, m1, tail := DeclHead("x") + [Token(Num, "5")], MinusTokens("2"), MinusTokens("1"), [Token(Semi, ";"), Token(Eof, "")];
    var toks := SubtractionSource() + [Token(Eof, "")];
    assert toks == head + m2 + (m1 + tail) == (head + m2) + m1 + tail;
    assert |toks| == 10 && toks[3] == Token(Num, "5") && toks[8] == Token(Semi, ";");
    var c0 := Fresh();
    var five := NumberLiteral(5);
    assert Value("5") == 5 && Value("2") == 2 && Value("1") == 1;
    assert ParsePrimary(toks, 3, c0) == Ok(Parsed(five, 4, c0));
    MinusNumber(head, m1 + tail, c0, five, "2");
    MinusNumber(head + m2, tail, c0, BinaryExpr(five, "-", NumberLiteral(2)), "1");
    var e := SubtractionExpr();
    assert AdditionTail(toks, 8, c0, e) == Ok(Parsed(e, 8, c0));
  }

  lemma SubtractionParses()
    ensures ParseProgram(SubtractionSource() + [Token(Eof, "")], Fresh())
         == Ok(Parsed([VarDeclAssign("x", SubtractionExpr())], 9, Fresh()))
  {
    var toks := SubtractionSource() + [Token(Eof, "")];
    var c0 := Fresh();
    assert toks == DeclHead("x") + ([Token(Num, "5")] + MinusTokens("2") + MinusTokens("1") + [Token(Semi, ";"), Token(Eof, "")]);
    assert |toks| == 10 && toks[8] == Token(Semi, ";") && toks[9] == Token(Eof, "");
    assert toks[0] == Token(IntKw, "int") && toks[1] == Token(Id, "x") && toks[2] == Token(Assign, "=");
    SubtractionIsLeftNested();
    var e := SubtractionExpr();
    DeclareExpr(toks, c0, "x", e, 8, c0);
    LastStatement(toks, 0, c0, VarDeclAssign("x", e), 9, c0);
  }

  /** The inner `5 - 2`, being an operand, emits nothing. */
  lemma SubtractionCode()
    ensures GenStmts([VarDeclAssign("x", SubtractionExpr())], Fresh())
         == Ok(Gen(["ldi B 1", "sub", "mov M A 1"], Ctx(map["x" := 1], 2, 0)))
  {
    var c1 := Ctx(map["x" := 1], 2, 0);
    var s := VarDeclAssign("x", SubtractionExpr());
    assert Alloc(Fresh(), "x") == c1;
    assert NatToString(1) == "1";
    assert OpLine("-") == Ok("sub");
    assert ImmB(1) == "ldi B 1" && Store(1) == "mov M A 1";
    assert LeftCode(BinaryExpr(NumberLiteral(5), "-", NumberLiteral(2)), c1) == Gen([], c1);
    assert RightCode(NumberLiteral(1), c1) == Gen(["ldi B 1"], c1);
    assert [] + ["ldi B 1"] + ["sub"] == ["ldi B 1", "sub"];
    assert ValueCode(SubtractionExpr(), c1) == Ok(Gen(["ldi B 1", "sub"], c1));
    assert ["ldi B 1", "sub"] + ["mov M A 1"] == ["ldi B 1", "sub", "mov M A 1"];
    assert GenStmt(s, Fresh()) == Ok(Gen(["ldi B 1", "sub", "mov M A 1"], c1));
    assert GenStmts([], Fresh()) == Ok(Gen([], Fresh()));
    assert [s][..0] == [] && [s][..1] == [s];
    GenStmtsSnoc([s], 0, Fresh());
    assert [] + ["ldi B 1", "sub", "mov M A 1"] == ["ldi B 1", "sub", "mov M A 1"];
  }

  /** Compiling `int x = 5 - 2 - 1 ; `. */
  lemma SubtractionCompiles()
    ensures Compile(LexerProps.Spaced(SubtractionSource()))
         == Ok(Gen(["ldi B 1", "sub", "mov M A 1"], Ctx(map["x" := 1], 2, 0)))
  {
    var ts := SubtractionSource();
    forall i | 0 <= i < |ts|
      ensures LexerProps.WellFormed(ts[i])
    {
      NameWellFormed("x");
      assert KindOfWord("int") == IntKw;
    }
    LexSpaced(ts);
    SubtractionParses();
    SubtractionCode();
  }
}
