/** The parser read backwards: a syntax tree printed as tokens, and what the
    functions of module Grammar make of those tokens. Every tree of the shape
    `parse` builds comes back with the same shape and one node per statement;
    the only difference is in the `loc` of each `Identifier`, which records
    the slot its name has once allocated, the names being allocated in the
    order they appear. */
module ParserRoundTrip {
  import opened Results
  import opened Decimal
  import opened Tokens
  import opened Ast
  import opened Context
  import opened Lexing
  import opened Grammar
  import opened ParserProps
  import LexerProps
  import Pipeline

  // Printing.

  /** The token of a binary operator: its kind, with the operator as its text. */
  function OpToken(op: string): Token {
    Token(if op == "+" then Plus else if op == "-" then Minus else Eq, op)
  }

  lemma OpTokens()
    ensures OpToken("+") == Token(Plus, "+")
    ensures OpToken("-") == Token(Minus, "-")
    ensures OpToken("==") == Token(Eq, "==")
  {
    assert "-"[0] != "+"[0];
    assert "=="[0] != "+"[0] && "=="[0] != "-"[0];
  }

  function ExprTokens(e: Expr): seq<Token> {
    match e
    case BinaryExpr(l, op, r) => ExprTokens(l) + ([OpToken(op)] + ExprTokens(r))
    case Identifier(name, _) => [Token(Id, name)]
    case NumberLiteral(v) => [Token(Num, NatToString(v))]
  }

  /** An if statement is printed with its else block, even an empty one:
      `parseIfStmt` reads `else { }` and no else alike. */
  function StmtTokens(s: Stmt): seq<Token>
    decreases s, 1
  {
    match s
    case VarDecl(name) => [Token(IntKw, "int"), Token(Id, name), Token(Semi, ";")]
    case VarDeclAssign(name, e) =>
      [Token(IntKw, "int"), Token(Id, name), Token(Assign, "=")] + ExprTokens(e) + [Token(Semi, ";")]
    case AssignStmt(name, e) =>
      [Token(Id, name), Token(Assign, "=")] + ExprTokens(e) + [Token(Semi, ";")]
    case IfStmt(cond, thenBody, elseBody) =>
      [Token(IfKw, "if"), Token(LParen, "(")] + ExprTokens(cond) + [Token(RParen, ")"), Token(LBrace, "{")]
      + StmtsTokens(thenBody) + [Token(RBrace, "}"), Token(ElseKw, "else"), Token(LBrace, "{")]
      + StmtsTokens(elseBody) + [Token(RBrace, "}")]
  }

  function StmtsTokens(ss: seq<Stmt>): seq<Token>
    decreases ss, 0
  {
    if ss == [] then [] else StmtTokens(ss[0]) + StmtsTokens(ss[1..])
  }

  // The trees that print to something the parser accepts.

  /** The shapes `parse` builds: comparisons as expressions, in every statement. */
  predicate ParsableStmt(s: Stmt)
    decreases s, 1
  {
    match s
    case VarDecl(_) => true
    case VarDeclAssign(_, e) => IsComparison(e)
    case AssignStmt(_, e) => IsComparison(e)
    case IfStmt(cond, thenBody, elseBody) => IsComparison(cond) && ParsableStmts(thenBody) && ParsableStmts(elseBody)
  }

  predicate ParsableStmts(ss: seq<Stmt>)
    decreases ss, 0
  {
    forall i :: 0 <= i < |ss| ==> ParsableStmt(ss[i])
  }

  /** A name the lexer reads back as one identifier: a letter, then letters,
      digits or `_`, and not a keyword. */
  predicate IsName(name: string) {
    name != [] && IsAlpha(name[0]) && LexerProps.AllIn(name, IsWordChar) && KindOfWord(name) == Id
  }

  predicate NamedExpr(e: Expr) {
    match e
    case BinaryExpr(l, _, r) => NamedExpr(l) && NamedExpr(r)
    case Identifier(name, _) => IsName(name)
    case NumberLiteral(_) => true
  }

  predicate NamedStmt(s: Stmt)
    decreases s, 1
  {
    match s
    case VarDecl(name) => IsName(name)
    case VarDeclAssign(name, e) => IsName(name) && NamedExpr(e)
    case AssignStmt(name, e) => IsName(name) && NamedExpr(e)
    case IfStmt(cond, thenBody, elseBody) => NamedExpr(cond) && NamedStmts(thenBody) && NamedStmts(elseBody)
  }

  predicate NamedStmts(ss: seq<Stmt>)
    decreases ss, 0
  {
    forall i :: 0 <= i < |ss| ==> NamedStmt(ss[i])
  }

  // Equality up to the recorded slots, and the names the parser allocates.

  function EraseExpr(e: Expr): Expr {
    match e
    case BinaryExpr(l, op, r) => BinaryExpr(EraseExpr(l), op, EraseExpr(r))
    case Identifier(name, _) => Identifier(name, 0)
    case NumberLiteral(_) => e
  }

  function EraseStmt(s: Stmt): Stmt
    decreases s, 1
  {
    match s
    case VarDecl(_) => s
    case VarDeclAssign(name, e) => VarDeclAssign(name, EraseExpr(e))
    case AssignStmt(name, e) => AssignStmt(name, EraseExpr(e))
    case IfStmt(cond, thenBody, elseBody) => IfStmt(EraseExpr(cond), EraseStmts(thenBody), EraseStmts(elseBody))
  }

  function EraseStmts(ss: seq<Stmt>): seq<Stmt>
    decreases ss, 0
  {
    if ss == [] then [] else [EraseStmt(ss[0])] + EraseStmts(ss[1..])
  }

  /** The names of the identifiers an expression reads, left to right. */
  function ExprNames(e: Expr): seq<string> {
    match e
    case BinaryExpr(l, _, r) => ExprNames(l) + ExprNames(r)
    case Identifier(name, _) => [name]
    case NumberLiteral(_) => []
  }

  /** The names a statement's expressions read, in textual order. Declared
      and assigned names are not among them: the parser allocates only
      identifiers inside expressions. */
  function StmtNames(s: Stmt): seq<string>
    decreases s, 1
  {
    match s
    case VarDecl(_) => []
    case VarDeclAssign(_, e) => ExprNames(e)
    case AssignStmt(_, e) => ExprNames(e)
    case IfStmt(cond, thenBody, elseBody) => ExprNames(cond) + StmtsNames(thenBody) + StmtsNames(elseBody)
  }

  function StmtsNames(ss: seq<Stmt>): seq<string>
    decreases ss, 0
  {
    if ss == [] then [] else StmtNames(ss[0]) + StmtsNames(ss[1..])
  }

  // What the parser builds, node by node.

  /** A node and the slot table after building it. */
  datatype Built<+T> = Built(node: T, ctx: Ctx)

  /** The same tree, each identifier allocated in turn from `c` and recording its slot. */
  function RebuildExpr(e: Expr, c: Ctx): Built<Expr> {
    match e
    case BinaryExpr(l, op, r) =>
      var left := RebuildExpr(l, c);
      var right := RebuildExpr(r, left.ctx);
      Built(BinaryExpr(left.node, op, right.node), right.ctx)
    case Identifier(name, _) =>
      var d := Alloc(c, name);
      Built(Identifier(name, d.memMap[name]), d)
    case NumberLiteral(_) => Built(e, c)
  }

  function RebuildStmt(s: Stmt, c: Ctx): Built<Stmt>
    decreases s, 1
  {
    match s
    case VarDecl(_) => Built(s, c)
    case VarDeclAssign(name, e) =>
      var value := RebuildExpr(e, c);
      Built(VarDeclAssign(name, value.node), value.ctx)
    case AssignStmt(name, e) =>
      var value := RebuildExpr(e, c);
      Built(AssignStmt(name, value.node), value.ctx)
    case IfStmt(cond, thenBody, elseBody) =>
      var condition := RebuildExpr(cond, c);
      var thenPart := RebuildStmts(thenBody, condition.ctx);
      var elsePart := RebuildStmts(elseBody, thenPart.ctx);
      Built(IfStmt(condition.node, thenPart.node, elsePart.node), elsePart.ctx)
  }

  function RebuildStmts(ss: seq<Stmt>, c: Ctx): Built<seq<Stmt>>
    decreases ss, 0
  {
    if ss == [] then Built([], c) else
    var first := RebuildStmt(ss[0], c);
    var rest := RebuildStmts(ss[1..], first.ctx);
    Built([first.node] + rest.node, rest.ctx)
  }

  /** Rebuilding changes only the recorded slots, and allocates exactly the
      names read, in order. */
  lemma {:induction false} RebuildExprFacts(e: Expr, c: Ctx)
    ensures EraseExpr(RebuildExpr(e, c).node) == EraseExpr(e)
    ensures RebuildExpr(e, c).ctx == AllocAll(c, ExprNames(e))
  {
    match e
    case BinaryExpr(l, op, r) =>
      var left := RebuildExpr(l, c);
      RebuildExprFacts(l, c);
      RebuildExprFacts(r, left.ctx);
      AllocAllAppend(c, ExprNames(l), ExprNames(r));
    case Identifier(name, _) =>
      assert [name][1..] == [];
    case NumberLiteral(_) =>
  }

  lemma {:induction false} RebuildStmtFacts(s: Stmt, c: Ctx)
    ensures EraseStmt(RebuildStmt(s, c).node) == EraseStmt(s)
    ensures RebuildStmt(s, c).ctx == AllocAll(c, StmtNames(s))
    decreases s, 1
  {
    match s
    case VarDecl(_) =>
    case VarDeclAssign(_, e) =>
      RebuildExprFacts(e, c);
    case AssignStmt(_, e) =>
      RebuildExprFacts(e, c);
    case IfStmt(cond, thenBody, elseBody) =>
      var condition := RebuildExpr(cond, c);
      var thenPart := RebuildStmts(thenBody, condition.ctx);
      RebuildExprFacts(cond, c);
      RebuildStmtsFacts(thenBody, condition.ctx);
      RebuildStmtsFacts(elseBody, thenPart.ctx);
      AllocAllAppend(c, ExprNames(cond), StmtsNames(thenBody));
      AllocAllAppend(c, ExprNames(cond) + StmtsNames(thenBody), StmtsNames(elseBody));
  }

  lemma {:induction false} RebuildStmtsFacts(ss: seq<Stmt>, c: Ctx)
    ensures |RebuildStmts(ss, c).node| == |ss|
    ensures EraseStmts(RebuildStmts(ss, c).node) == EraseStmts(ss)
    ensures RebuildStmts(ss, c).ctx == AllocAll(c, StmtsNames(ss))
    decreases ss, 0
  {
    if ss != [] {
      var first := RebuildStmt(ss[0], c);
      var rest := RebuildStmts(ss[1..], first.ctx);
      var node := [first.node] + rest.node;
      RebuildStmtFacts(ss[0], c);
      RebuildStmtsFacts(ss[1..], first.ctx);
      AllocAllAppend(c, StmtNames(ss[0]), StmtsNames(ss[1..]));
      assert node[0] == first.node && node[1..] == rest.node;
    }
  }

  // Token lists inside a longer token list.

  /** `ts` occurs in `toks` from position `p`. */
  predicate At(toks: seq<Token>, p: nat, ts: seq<Token>) {
    p + |ts| <= |toks| && forall i :: 0 <= i < |ts| ==> toks[p + i] == ts[i]
  }

  lemma AtSplit(toks: seq<Token>, p: nat, a: seq<Token>, b: seq<Token>)
    requires At(toks, p, a + b)
    ensures At(toks, p, a) && At(toks, p + |a|, b)
  {
    forall i | 0 <= i < |a| ensures toks[p + i] == a[i] {
      assert (a + b)[i] == a[i];
    }
    forall i | 0 <= i < |b| ensures toks[p + |a| + i] == b[i] {
      assert (a + b)[|a| + i] == b[i];
    }
  }

  lemma AtIndex(toks: seq<Token>, p: nat, ts: seq<Token>, i: nat)
    requires At(toks, p, ts) && i < |ts|
    ensures toks[p + i] == ts[i]
  {
  }

  /** A token list occurs at the start of itself followed by anything. */
  lemma AtStart(ts: seq<Token>, rest: seq<Token>)
    ensures At(ts + rest, 0, ts)
  {
    forall i | 0 <= i < |ts| ensures (ts + rest)[0 + i] == ts[i] {
    }
  }

  /** The token at `q` does not continue an expression. */
  predicate Stops(toks: seq<Token>, q: nat) {
    !Match(toks, q, Plus) && !Match(toks, q, Minus) && !Match(toks, q, Eq)
  }

  /** The token at `q` ends a statement list: `}` in a block, the end at top level. */
  predicate Closing(toks: seq<Token>, q: nat, inBlock: bool) {
    if inBlock then Match(toks, q, RBrace) else IsEnd(toks, q)
  }

  /** The statements `ss`, printed from `p` on and followed by the token
      that ends a statement list of this kind. */
  predicate Printed(toks: seq<Token>, p: nat, ss: seq<Stmt>, inBlock: bool) {
    ParsableStmts(ss) && At(toks, p, StmtsTokens(ss)) && Closing(toks, p + |StmtsTokens(ss)|, inBlock)
  }

  // Expressions. Each `Back` lemma takes the rebuilt node `b` and the
  // position `end` after the printed tokens, and states what a function of
  // module Grammar gives from `p`; the `Glue` lemmas unfold one such
  // function on arbitrary values, and the `Shape` lemmas unfold the
  // printing and the rebuilding of one node.

  lemma PrimaryBack(toks: seq<Token>, p: nat, c: Ctx, e: Expr, b: Built<Expr>)
    requires IsPrimary(e) && At(toks, p, ExprTokens(e)) && b == RebuildExpr(e, c)
    ensures ParsePrimary(toks, p, c) == Ok(Parsed(b.node, p + 1, b.ctx))
  {
    AtIndex(toks, p, ExprTokens(e), 0);
    if e.NumberLiteral? {
      ValueOfNatToString(e.value);
    }
  }

  lemma BinaryShape(e: Expr, c: Ctx)
    requires e.BinaryExpr?
    ensures RebuildExpr(e, c).node
      == BinaryExpr(RebuildExpr(e.left, c).node, e.op, RebuildExpr(e.right, RebuildExpr(e.left, c).ctx).node)
    ensures RebuildExpr(e, c).ctx == RebuildExpr(e.right, RebuildExpr(e.left, c).ctx).ctx
    ensures |ExprTokens(e)| == |ExprTokens(e.left)| + 1 + |ExprTokens(e.right)|
  {
  }

  /** The operator of a printed `l op r` at `q`, and its right operand, a primary, after it. */
  predicate TailTokens(toks: seq<Token>, q: nat, e: Expr)
    requires e.BinaryExpr?
  {
    && q + 1 < |toks| && (Match(toks, q, Plus) || Match(toks, q, Minus)) && toks[q].text == e.op
    && At(toks, q + 1, ExprTokens(e.right))
  }

  lemma TailParts(toks: seq<Token>, p: nat, e: Expr)
    requires IsSum(e) && !IsPrimary(e) && At(toks, p, ExprTokens(e))
    ensures IsSum(e.left) && IsPrimary(e.right) && At(toks, p, ExprTokens(e.left))
    ensures TailTokens(toks, p + |ExprTokens(e.left)|, e)
    ensures p + |ExprTokens(e)| == p + |ExprTokens(e.left)| + 1 + |ExprTokens(e.right)|
  {
    var q := p + |ExprTokens(e.left)|;
    assert ExprTokens(e) == ExprTokens(e.left) + ([OpToken(e.op)] + ExprTokens(e.right));
    AtSplit(toks, p, ExprTokens(e.left), [OpToken(e.op)] + ExprTokens(e.right));
    AtSplit(toks, q, [OpToken(e.op)], ExprTokens(e.right));
    AtIndex(toks, q, [OpToken(e.op)], 0);
    OpTokens();
  }

  /** One turn of the `parseAddition` loop: `+` or `-`, then a primary. */
  lemma TailGlue(toks: seq<Token>, q: nat, c: Ctx, left: Expr, op: string, right: Expr, end: nat, ctx: Ctx)
    requires q < |toks| && (Match(toks, q, Plus) || Match(toks, q, Minus)) && toks[q].text == op
    requires ParsePrimary(toks, q + 1, c) == Ok(Parsed(right, end, ctx))
    ensures end <= |toks|
    ensures AdditionTail(toks, q, c, left) == AdditionTail(toks, end, ctx, BinaryExpr(left, op, right))
  {
  }

  /** The loop turn over the printed operator, at `q`, and right operand of
      a sum: from the rebuilt left operand `left` to the rebuilt sum. */
  lemma TailBack(toks: seq<Token>, q: nat, c: Ctx, e: Expr, left: Built<Expr>, b: Built<Expr>, end: nat)
    requires e.BinaryExpr? && IsPrimary(e.right) && TailTokens(toks, q, e)
    requires left == RebuildExpr(e.left, c) && b == RebuildExpr(e, c) && end == q + 1 + |ExprTokens(e.right)|
    ensures q <= end <= |toks|
    ensures AdditionTail(toks, q, left.ctx, left.node) == AdditionTail(toks, end, b.ctx, b.node)
  {
    var right := RebuildExpr(e.right, left.ctx);
    BinaryShape(e, c);
    PrimaryBack(toks, q + 1, left.ctx, e.right, right);
    TailGlue(toks, q, left.ctx, left.node, e.op, right.node, end, right.ctx);
  }

  /** `parseAddition` starts with a primary. */
  lemma AdditionGlue(toks: seq<Token>, p: nat, c: Ctx, first: Expr, end: nat, ctx: Ctx)
    requires p <= |toks| && ParsePrimary(toks, p, c) == Ok(Parsed(first, end, ctx))
    ensures end <= |toks| && ParseAddition(toks, p, c) == AdditionTail(toks, end, ctx, first)
  {
  }

  /** The printed tokens of a sum take `parseAddition` to its loop with the
      rebuilt sum as the expression so far. */
  lemma {:induction false} SumBack(toks: seq<Token>, p: nat, c: Ctx, e: Expr, b: Built<Expr>, end: nat)
    requires IsSum(e) && At(toks, p, ExprTokens(e)) && b == RebuildExpr(e, c) && end == p + |ExprTokens(e)|
    ensures end <= |toks|
    ensures ParseAddition(toks, p, c) == AdditionTail(toks, end, b.ctx, b.node)
  {
    if IsPrimary(e) {
      PrimaryBack(toks, p, c, e, b);
      AdditionGlue(toks, p, c, b.node, p + 1, b.ctx);
    } else {
      TailParts(toks, p, e);
      var left := RebuildExpr(e.left, c);
      var q := p + |ExprTokens(e.left)|;
      SumBack(toks, p, c, e.left, left, q);
      TailBack(toks, q, c, e, left, b, end);
    }
  }

  /** The `parseAddition` loop stops at a token other than `+` and `-`. */
  lemma TailStops(toks: seq<Token>, q: nat, c: Ctx, left: Expr)
    requires q <= |toks| && !Match(toks, q, Plus) && !Match(toks, q, Minus)
    ensures AdditionTail(toks, q, c, left) == Ok(Parsed(left, q, c))
  {
  }

  /** A sum followed by a token other than `+` and `-`: `parseAddition`
      gives back the rebuilt sum and stops after it. */
  lemma SumStops(toks: seq<Token>, p: nat, c: Ctx, e: Expr, b: Built<Expr>, end: nat)
    requires IsSum(e) && At(toks, p, ExprTokens(e)) && b == RebuildExpr(e, c) && end == p + |ExprTokens(e)|
    requires !Match(toks, end, Plus) && !Match(toks, end, Minus)
    ensures ParseAddition(toks, p, c) == Ok(Parsed(b.node, end, b.ctx))
  {
    SumBack(toks, p, c, e, b, end);
    TailStops(toks, end, b.ctx, b.node);
  }

  /** `parseComparison` without `==`. */
  lemma ComparisonSingle(toks: seq<Token>, p: nat, c: Ctx, node: Expr, end: nat, ctx: Ctx)
    requires p <= |toks| && ParseAddition(toks, p, c) == Ok(Parsed(node, end, ctx)) && !Match(toks, end, Eq)
    ensures ParseComparison(toks, p, c) == Ok(Parsed(node, end, ctx))
  {
  }

  /** `parseComparison` on the printed tokens of a comparison, followed by a
      token that cannot continue it, gives back the rebuilt comparison. */
  lemma ComparisonBack(toks: seq<Token>, p: nat, c: Ctx, e: Expr, b: Built<Expr>, end: nat)
    requires IsComparison(e) && At(toks, p, ExprTokens(e)) && Stops(toks, end)
    requires b == RebuildExpr(e, c) && end == p + |ExprTokens(e)|
    ensures ParseComparison(toks, p, c) == Ok(Parsed(b.node, end, b.ctx))
  {
    if IsSum(e) {
      SumStops(toks, p, c, e, b, end);
      ComparisonSingle(toks, p, c, b.node, end, b.ctx);
    } else {
      EqComparisonBack(toks, p, c, e, b, end);
    }
  }

  /** The operands of a printed `l == r` followed by a token that cannot
      continue it, each followed by a token other than `+` and `-`. */
  predicate EqOperands(toks: seq<Token>, p: nat, e: Expr)
    requires e.BinaryExpr?
  {
    var q := p + |ExprTokens(e.left)|;
    && At(toks, p, ExprTokens(e.left)) && !Match(toks, q, Plus) && !Match(toks, q, Minus)
    && At(toks, q + 1, ExprTokens(e.right))
    && !Match(toks, q + 1 + |ExprTokens(e.right)|, Plus) && !Match(toks, q + 1 + |ExprTokens(e.right)|, Minus)
  }

  /** The `==` between the operands. */
  predicate EqOperator(toks: seq<Token>, p: nat, e: Expr)
    requires e.BinaryExpr?
  {
    var q := p + |ExprTokens(e.left)|;
    q < |toks| && Match(toks, q, Eq) && toks[q].text == e.op
  }

  lemma EqParts(toks: seq<Token>, p: nat, e: Expr)
    requires IsComparison(e) && !IsSum(e) && At(toks, p, ExprTokens(e)) && Stops(toks, p + |ExprTokens(e)|)
    ensures e.BinaryExpr? && e.op == "==" && IsSum(e.left) && IsSum(e.right)
    ensures EqOperands(toks, p, e) && EqOperator(toks, p, e)
  {
    OpTokens();
    var q := p + |ExprTokens(e.left)|;
    AtSplit(toks, p, ExprTokens(e.left), [Token(Eq, "==")] + ExprTokens(e.right));
    AtSplit(toks, q, [Token(Eq, "==")], ExprTokens(e.right));
    AtIndex(toks, q, [Token(Eq, "==")], 0);
  }

  /** `parseComparison` with `==`. */
  lemma ComparisonGlue(toks: seq<Token>, p: nat, c: Ctx, lnode: Expr, lend: nat, lctx: Ctx, op: string, rnode: Expr, rend: nat, rctx: Ctx)
    requires p <= |toks| && ParseAddition(toks, p, c) == Ok(Parsed(lnode, lend, lctx))
    requires Match(toks, lend, Eq) && toks[lend].text == op
    requires ParseAddition(toks, lend + 1, lctx) == Ok(Parsed(rnode, rend, rctx))
    ensures ParseComparison(toks, p, c) == Ok(Parsed(BinaryExpr(lnode, op, rnode), rend, rctx))
  {
  }

  lemma EqComparisonBack(toks: seq<Token>, p: nat, c: Ctx, e: Expr, b: Built<Expr>, end: nat)
    requires IsComparison(e) && !IsSum(e) && At(toks, p, ExprTokens(e)) && Stops(toks, end)
    requires b == RebuildExpr(e, c) && end == p + |ExprTokens(e)|
    ensures ParseComparison(toks, p, c) == Ok(Parsed(b.node, end, b.ctx))
  {
    EqParts(toks, p, e);
    BinaryShape(e, c);
    var left := RebuildExpr(e.left, c);
    var q := p + |ExprTokens(e.left)|;
    var right := RebuildExpr(e.right, left.ctx);
    SumStops(toks, p, c, e.left, left, q);
    SumStops(toks, q + 1, left.ctx, e.right, right, end);
    ComparisonGlue(toks, p, c, left.node, q, left.ctx, e.op, right.node, end, right.ctx);
  }

  // Statements.

  /** `parseStatement` on `int ID ;`. */
  lemma VarDeclGlue(toks: seq<Token>, p: nat, c: Ctx, name: string)
    requires p + 2 < |toks| && toks[p] == Token(IntKw, "int") && toks[p + 1] == Token(Id, name)
    requires toks[p + 2] == Token(Semi, ";")
    ensures ParseStatement(toks, p, c) == Ok(Parsed(Some(VarDecl(name)), p + 3, c))
  {
  }

  lemma VarDeclBack(toks: seq<Token>, p: nat, c: Ctx, s: Stmt, b: Built<Stmt>, end: nat)
    requires s.VarDecl? && At(toks, p, StmtTokens(s)) && b == RebuildStmt(s, c) && end == p + |StmtTokens(s)|
    ensures ParseStatement(toks, p, c) == Ok(Parsed(Some(b.node), end, b.ctx))
  {
    var ts := StmtTokens(s);
    AtIndex(toks, p, ts, 0);
    AtIndex(toks, p, ts, 1);
    AtIndex(toks, p, ts, 2);
    VarDeclGlue(toks, p, c, s.name);
  }

  /** The pieces of a printed statement with an expression: `k` tokens
      before the expression, the expression, and the `;` after it. */
  lemma SimpleParts(toks: seq<Token>, p: nat, k: nat, head: seq<Token>, e: Expr)
    requires |head| == k && At(toks, p, head + ExprTokens(e) + [Token(Semi, ";")])
    ensures At(toks, p, head) && At(toks, p + k, ExprTokens(e))
    ensures Stops(toks, p + k + |ExprTokens(e)|) && Match(toks, p + k + |ExprTokens(e)|, Semi)
  {
    AtSplit(toks, p, head + ExprTokens(e), [Token(Semi, ";")]);
    AtSplit(toks, p, head, ExprTokens(e));
    AtIndex(toks, p + k + |ExprTokens(e)|, [Token(Semi, ";")], 0);
  }

  /** The tokens of a printed `ID = e ;` around and after its expression. */
  predicate AssignTokens(toks: seq<Token>, p: nat, s: Stmt)
    requires s.AssignStmt?
  {
    && Match(toks, p, Id) && toks[p].text == s.varName && Match(toks, p + 1, Assign)
    && At(toks, p + 2, ExprTokens(s.expr))
    && Stops(toks, p + 2 + |ExprTokens(s.expr)|) && Match(toks, p + 2 + |ExprTokens(s.expr)|, Semi)
  }

  lemma AssignParts(toks: seq<Token>, p: nat, s: Stmt)
    requires s.AssignStmt? && At(toks, p, StmtTokens(s))
    ensures AssignTokens(toks, p, s)
  {
    var head := [Token(Id, s.varName), Token(Assign, "=")];
    SimpleParts(toks, p, 2, head, s.expr);
    AtIndex(toks, p, head, 0);
    AtIndex(toks, p, head, 1);
  }

  /** `parseStatement` on `ID = expression ;`. */
  lemma AssignGlue(toks: seq<Token>, p: nat, c: Ctx, name: string, node: Expr, end: nat, ctx: Ctx)
    requires Match(toks, p, Id) && toks[p].text == name && Match(toks, p + 1, Assign)
    requires ParseComparison(toks, p + 2, c) == Ok(Parsed(node, end, ctx)) && Match(toks, end, Semi)
    ensures ParseStatement(toks, p, c) == Ok(Parsed(Some(AssignStmt(name, node)), end + 1, ctx))
  {
  }

  lemma AssignShape(s: Stmt, c: Ctx)
    requires s.AssignStmt?
    ensures |StmtTokens(s)| == 3 + |ExprTokens(s.expr)|
    ensures RebuildStmt(s, c) == Built(AssignStmt(s.varName, RebuildExpr(s.expr, c).node), RebuildExpr(s.expr, c).ctx)
  {
  }

  lemma AssignBack(toks: seq<Token>, p: nat, c: Ctx, s: Stmt, b: Built<Stmt>, end: nat)
    requires s.AssignStmt? && IsComparison(s.expr) && At(toks, p, StmtTokens(s))
    requires b == RebuildStmt(s, c) && end == p + |StmtTokens(s)|
    ensures ParseStatement(toks, p, c) == Ok(Parsed(Some(b.node), end, b.ctx))
  {
    AssignParts(toks, p, s);
    AssignShape(s, c);
    var value := RebuildExpr(s.expr, c);
    var q := p + 2 + |ExprTokens(s.expr)|;
    ComparisonBack(toks, p + 2, c, s.expr, value, q);
    AssignGlue(toks, p, c, s.varName, value.node, q, value.ctx);
  }

  /** The tokens of a printed `int ID = e ;` around and after its expression. */
  predicate DeclAssignTokens(toks: seq<Token>, p: nat, s: Stmt)
    requires s.VarDeclAssign?
  {
    && Match(toks, p, IntKw) && Match(toks, p + 1, Id) && toks[p + 1].text == s.name && Match(toks, p + 2, Assign)
    && At(toks, p + 3, ExprTokens(s.expr))
    && Stops(toks, p + 3 + |ExprTokens(s.expr)|) && Match(toks, p + 3 + |ExprTokens(s.expr)|, Semi)
  }

  lemma DeclAssignParts(toks: seq<Token>, p: nat, s: Stmt)
    requires s.VarDeclAssign? && At(toks, p, StmtTokens(s))
    ensures DeclAssignTokens(toks, p, s)
  {
    var head := [Token(IntKw, "int"), Token(Id, s.name), Token(Assign, "=")];
    SimpleParts(toks, p, 3, head, s.expr);
    AtIndex(toks, p, head, 0);
    AtIndex(toks, p, head, 1);
    AtIndex(toks, p, head, 2);
  }

  /** `parseStatement` on `int ID = expression ;`. */
  lemma DeclAssignGlue(toks: seq<Token>, p: nat, c: Ctx, name: string, node: Expr, end: nat, ctx: Ctx)
    requires Match(toks, p, IntKw) && Match(toks, p + 1, Id) && toks[p + 1].text == name && Match(toks, p + 2, Assign)
    requires ParseComparison(toks, p + 3, c) == Ok(Parsed(node, end, ctx)) && Match(toks, end, Semi)
    ensures ParseStatement(toks, p, c) == Ok(Parsed(Some(VarDeclAssign(name, node)), end + 1, ctx))
  {
  }

  lemma DeclAssignShape(s: Stmt, c: Ctx)
    requires s.VarDeclAssign?
    ensures |StmtTokens(s)| == 4 + |ExprTokens(s.expr)|
    ensures RebuildStmt(s, c) == Built(VarDeclAssign(s.name, RebuildExpr(s.expr, c).node), RebuildExpr(s.expr, c).ctx)
  {
  }

  lemma VarDeclAssignBack(toks: seq<Token>, p: nat, c: Ctx, s: Stmt, b: Built<Stmt>, end: nat)
    requires s.VarDeclAssign? && IsComparison(s.expr) && At(toks, p, StmtTokens(s))
    requires b == RebuildStmt(s, c) && end == p + |StmtTokens(s)|
    ensures ParseStatement(toks, p, c) == Ok(Parsed(Some(b.node), end, b.ctx))
  {
    DeclAssignParts(toks, p, s);
    DeclAssignShape(s, c);
    var value := RebuildExpr(s.expr, c);
    var q := p + 3 + |ExprTokens(s.expr)|;
    ComparisonBack(toks, p + 3, c, s.expr, value, q);
    DeclAssignGlue(toks, p, c, s.name, value.node, q, value.ctx);
  }

  /** `parseStatement` on `if`. */
  lemma IfDispatch(toks: seq<Token>, p: nat, c: Ctx, node: Stmt, end: nat, ctx: Ctx)
    requires p <= |toks| && Match(toks, p, IfKw) && ParseIfStmt(toks, p, c) == Ok(Parsed(node, end, ctx))
    ensures ParseStatement(toks, p, c) == Ok(Parsed(Some(node), end, ctx))
  {
  }

  /** `parseStatement` on the printed tokens of a statement gives back the
      rebuilt statement `b` and stops after its last token. */
  lemma {:induction false} StatementBack(toks: seq<Token>, p: nat, c: Ctx, s: Stmt, b: Built<Stmt>, end: nat)
    requires ParsableStmt(s) && At(toks, p, StmtTokens(s))
    requires b == RebuildStmt(s, c) && end == p + |StmtTokens(s)|
    ensures ParseStatement(toks, p, c) == Ok(Parsed(Some(b.node), end, b.ctx))
    decreases s, 3
  {
    match s
    case VarDecl(_) =>
      VarDeclBack(toks, p, c, s, b, end);
    case VarDeclAssign(_, _) =>
      VarDeclAssignBack(toks, p, c, s, b, end);
    case AssignStmt(_, _) =>
      AssignBack(toks, p, c, s, b, end);
    case IfStmt(_, _, _) =>
      IfBack(toks, p, c, s, b, end);
  }

  /** The head of a printed if statement: `if (`, the condition, `) {`. */
  predicate IfHeadTokens(toks: seq<Token>, p: nat, s: Stmt)
    requires s.IfStmt?
  {
    var n := |ExprTokens(s.condition)|;
    && p <= |toks| && Match(toks, p, IfKw) && Match(toks, p + 1, LParen) && At(toks, p + 2, ExprTokens(s.condition))
    && Stops(toks, p + 2 + n) && Match(toks, p + 2 + n, RParen) && Match(toks, p + 2 + n + 1, LBrace)
  }

  lemma IfHeadParts(toks: seq<Token>, p: nat, s: Stmt)
    requires s.IfStmt? && At(toks, p, StmtTokens(s))
    ensures IfHeadTokens(toks, p, s)
  {
    var a := [Token(IfKw, "if"), Token(LParen, "(")];
    var e := ExprTokens(s.condition);
    var m := [Token(RParen, ")"), Token(LBrace, "{")];
    var rest := StmtsTokens(s.thenBody) + [Token(RBrace, "}"), Token(ElseKw, "else"), Token(LBrace, "{")]
      + StmtsTokens(s.elseBody) + [Token(RBrace, "}")];
    assert StmtTokens(s) == (a + e + m) + rest;
    AtSplit(toks, p, a + e + m, rest);
    AtSplit(toks, p, a + e, m);
    AtSplit(toks, p, a, e);
    AtIndex(toks, p, a, 0);
    AtIndex(toks, p, a, 1);
    AtIndex(toks, p + 2 + |e|, m, 0);
    AtIndex(toks, p + 2 + |e|, m, 1);
  }

  /** `parseIfHead` on `if ( expression ) {`. */
  lemma IfHeadGlue(toks: seq<Token>, p: nat, c: Ctx, node: Expr, end: nat, ctx: Ctx)
    requires p <= |toks| && Match(toks, p, IfKw) && Match(toks, p + 1, LParen)
    requires ParseComparison(toks, p + 2, c) == Ok(Parsed(node, end, ctx))
    requires Match(toks, end, RParen) && Match(toks, end + 1, LBrace)
    ensures ParseIfHead(toks, p, c) == Ok(Parsed(node, end + 2, ctx))
  {
  }

  /** The head of a printed if statement gives back its rebuilt condition `cond`. */
  lemma IfHeadBack(toks: seq<Token>, p: nat, c: Ctx, s: Stmt, cond: Built<Expr>, q: nat)
    requires s.IfStmt? && IsComparison(s.condition) && IfHeadTokens(toks, p, s)
    requires cond == RebuildExpr(s.condition, c) && q == p + 2 + |ExprTokens(s.condition)| + 2
    ensures ParseIfHead(toks, p, c) == Ok(Parsed(cond.node, q, cond.ctx))
  {
    var n := |ExprTokens(s.condition)|;
    ComparisonBack(toks, p + 2, c, s.condition, cond, p + 2 + n);
    IfHeadGlue(toks, p, c, cond.node, p + 2 + n, cond.ctx);
  }

  /** The rest of a printed if statement from `q`: the then body up to its
      `}` at `t`, then `else {` and the else body up to its `}`, which ends
      the statement before `end`. */
  predicate IfRestTokens(toks: seq<Token>, q: nat, t: nat, end: nat, s: Stmt)
    requires s.IfStmt?
  {
    && Printed(toks, q, s.thenBody, true) && t == q + |StmtsTokens(s.thenBody)| && Match(toks, t, RBrace)
    && Match(toks, t + 1, ElseKw) && Match(toks, t + 1 + 1, LBrace)
    && Printed(toks, t + 1 + 2, s.elseBody, true)
    && end == t + 1 + 2 + |StmtsTokens(s.elseBody)| + 1
  }

  /** Where the bodies and the braces of a printed if statement are. */
  lemma IfRestPlaces(toks: seq<Token>, p: nat, s: Stmt, q: nat, t: nat, end: nat)
    requires s.IfStmt? && At(toks, p, StmtTokens(s))
    requires q == p + 2 + |ExprTokens(s.condition)| + 2 && t == q + |StmtsTokens(s.thenBody)| && end == p + |StmtTokens(s)|
    ensures At(toks, q, StmtsTokens(s.thenBody)) && Match(toks, t, RBrace)
    ensures Match(toks, t + 1, ElseKw) && Match(toks, t + 1 + 1, LBrace)
    ensures At(toks, t + 1 + 2, StmtsTokens(s.elseBody)) && Match(toks, t + 1 + 2 + |StmtsTokens(s.elseBody)|, RBrace)
    ensures end == t + 1 + 2 + |StmtsTokens(s.elseBody)| + 1
  {
    var h := [Token(IfKw, "if"), Token(LParen, "(")] + ExprTokens(s.condition) + [Token(RParen, ")"), Token(LBrace, "{")];
    var tt := StmtsTokens(s.thenBody);
    var k := [Token(RBrace, "}"), Token(ElseKw, "else"), Token(LBrace, "{")];
    var l := StmtsTokens(s.elseBody);
    var z := [Token(RBrace, "}")];
    assert StmtTokens(s) == h + tt + k + l + z;
    AtSplit(toks, p, h + tt + k + l, z);
    AtSplit(toks, p, h + tt + k, l);
    AtSplit(toks, p, h + tt, k);
    AtSplit(toks, p, h, tt);
    AtIndex(toks, t, k, 0);
    AtIndex(toks, t, k, 1);
    AtIndex(toks, t, k, 2);
    AtIndex(toks, t + 3 + |l|, z, 0);
  }

  lemma IfRestParts(toks: seq<Token>, p: nat, s: Stmt, q: nat, t: nat, end: nat)
    requires s.IfStmt? && ParsableStmt(s) && At(toks, p, StmtTokens(s))
    requires q == p + 2 + |ExprTokens(s.condition)| + 2 && t == q + |StmtsTokens(s.thenBody)| && end == p + |StmtTokens(s)|
    ensures IfRestTokens(toks, q, t, end, s)
  {
    IfRestPlaces(toks, p, s, q, t, end);
  }

  /** `else {`, a statement loop, `}`. */
  lemma ElseGlue(toks: seq<Token>, p: nat, c: Ctx, node: seq<Stmt>, end: nat, ctx: Ctx)
    requires p <= |toks| && Match(toks, p, ElseKw) && Match(toks, p + 1, LBrace)
    requires ParseStatements(toks, p + 2, c, true) == Ok(Parsed(node, end, ctx)) && Match(toks, end, RBrace)
    ensures ParseElse(toks, p, c) == Ok(Parsed(node, end + 1, ctx))
  {
  }

  /** A printed else part gives back its rebuilt statements `b`. */
  lemma {:induction false} ElseBack(toks: seq<Token>, p: nat, c: Ctx, ss: seq<Stmt>, b: Built<seq<Stmt>>, end: nat)
    requires p <= |toks| && Match(toks, p, ElseKw) && Match(toks, p + 1, LBrace) && Printed(toks, p + 2, ss, true)
    requires b == RebuildStmts(ss, c) && end == p + 2 + |StmtsTokens(ss)| + 1
    ensures ParseElse(toks, p, c) == Ok(Parsed(b.node, end, b.ctx))
    decreases ss, 1
  {
    StatementsBack(toks, p + 2, c, ss, true, b, end - 1);
    ElseGlue(toks, p, c, b.node, end - 1, b.ctx);
  }

  /** The then body up to its `}`, then the else part. */
  lemma IfRestGlue(toks: seq<Token>, q: nat, c: Ctx, cond: Expr, thenNode: seq<Stmt>, t: nat, thenCtx: Ctx,
                   elseNode: seq<Stmt>, end: nat, ctx: Ctx)
    requires q <= |toks| && ParseStatements(toks, q, c, true) == Ok(Parsed(thenNode, t, thenCtx))
    requires Match(toks, t, RBrace) && ParseElse(toks, t + 1, thenCtx) == Ok(Parsed(elseNode, end, ctx))
    ensures ParseIfRest(toks, q, c, cond) == Ok(Parsed(IfStmt(cond, thenNode, elseNode), end, ctx))
  {
  }

  /** The rest of a printed if statement after its head: the rebuilt
      bodies, from the slot table `d` after the condition `cond`. */
  lemma {:induction false} IfRestBack(toks: seq<Token>, q: nat, t: nat, end: nat, s: Stmt, d: Ctx, cond: Expr,
                                      thenPart: Built<seq<Stmt>>, elsePart: Built<seq<Stmt>>)
    requires s.IfStmt? && IfRestTokens(toks, q, t, end, s)
    requires thenPart == RebuildStmts(s.thenBody, d) && elsePart == RebuildStmts(s.elseBody, thenPart.ctx)
    ensures q <= |toks|
    ensures ParseIfRest(toks, q, d, cond) == Ok(Parsed(IfStmt(cond, thenPart.node, elsePart.node), end, elsePart.ctx))
    decreases s, 0
  {
    StatementsBack(toks, q, d, s.thenBody, true, thenPart, t);
    ElseBack(toks, t + 1, thenPart.ctx, s.elseBody, elsePart, end);
    IfRestGlue(toks, q, d, cond, thenPart.node, t, thenPart.ctx, elsePart.node, end, elsePart.ctx);
  }

  /** `parseIfStmt` is its head, then its rest. */
  lemma IfStmtGlue(toks: seq<Token>, p: nat, c: Ctx, cond: Expr, q: nat, condCtx: Ctx, node: Stmt, end: nat, ctx: Ctx)
    requires p <= |toks| && ParseIfHead(toks, p, c) == Ok(Parsed(cond, q, condCtx))
    requires ParseIfRest(toks, q, condCtx, cond) == Ok(Parsed(node, end, ctx))
    ensures ParseIfStmt(toks, p, c) == Ok(Parsed(node, end, ctx))
  {
  }

  /** Rebuilding an if statement rebuilds its condition, then its then
      body, then its else body. */
  lemma IfShape(s: Stmt, c: Ctx)
    requires s.IfStmt?
    ensures var condition := RebuildExpr(s.condition, c);
      var thenPart := RebuildStmts(s.thenBody, condition.ctx);
      var elsePart := RebuildStmts(s.elseBody, thenPart.ctx);
      RebuildStmt(s, c) == Built(IfStmt(condition.node, thenPart.node, elsePart.node), elsePart.ctx)
  {
  }

  /** `parseStatement` on a printed if statement gives back the rebuilt statement. */
  lemma {:induction false} IfBack(toks: seq<Token>, p: nat, c: Ctx, s: Stmt, b: Built<Stmt>, end: nat)
    requires s.IfStmt? && ParsableStmt(s) && At(toks, p, StmtTokens(s))
    requires b == RebuildStmt(s, c) && end == p + |StmtTokens(s)|
    ensures ParseStatement(toks, p, c) == Ok(Parsed(Some(b.node), end, b.ctx))
    decreases s, 2
  {
    IfStmtBack(toks, p, c, s, b, end);
    IfDispatch(toks, p, c, b.node, end, b.ctx);
  }

  /** `parseIfStmt` on a printed if statement gives back the rebuilt statement. */
  lemma {:induction false} IfStmtBack(toks: seq<Token>, p: nat, c: Ctx, s: Stmt, b: Built<Stmt>, end: nat)
    requires s.IfStmt? && ParsableStmt(s) && At(toks, p, StmtTokens(s))
    requires b == RebuildStmt(s, c) && end == p + |StmtTokens(s)|
    ensures p <= |toks| && Match(toks, p, IfKw)
    ensures ParseIfStmt(toks, p, c) == Ok(Parsed(b.node, end, b.ctx))
    decreases s, 1
  {
    var cond := RebuildExpr(s.condition, c);
    var q := p + 2 + |ExprTokens(s.condition)| + 2;
    IfHeadParts(toks, p, s);
    IfHeadBack(toks, p, c, s, cond, q);
    var thenPart := RebuildStmts(s.thenBody, cond.ctx);
    var elsePart := RebuildStmts(s.elseBody, thenPart.ctx);
    var t := q + |StmtsTokens(s.thenBody)|;
    IfRestParts(toks, p, s, q, t, end);
    IfRestBack(toks, q, t, end, s, cond.ctx, cond.node, thenPart, elsePart);
    IfShape(s, c);
    IfStmtGlue(toks, p, c, cond.node, q, cond.ctx, b.node, end, b.ctx);
  }

  /** Every printed statement starts with `int`, `if` or a name. */
  lemma StmtTokensStart(s: Stmt)
    ensures StmtTokens(s) != [] && StmtTokens(s)[0].kind in {IntKw, IfKw, Id}
  {
  }

  lemma ParsableFirst(ss: seq<Stmt>)
    requires ss != [] && ParsableStmts(ss)
    ensures ParsableStmt(ss[0]) && ParsableStmts(ss[1..])
  {
    assert forall i :: 0 <= i < |ss[1..]| ==> ss[1..][i] == ss[i + 1];
  }

  lemma StmtsSplit(toks: seq<Token>, p: nat, ss: seq<Stmt>)
    requires ss != [] && At(toks, p, StmtsTokens(ss))
    ensures At(toks, p, StmtTokens(ss[0])) && At(toks, p + |StmtTokens(ss[0])|, StmtsTokens(ss[1..]))
    ensures p + |StmtTokens(ss[0])| + |StmtsTokens(ss[1..])| == p + |StmtsTokens(ss)|
  {
    AtSplit(toks, p, StmtTokens(ss[0]), StmtsTokens(ss[1..]));
  }

  lemma StmtStarts(toks: seq<Token>, p: nat, s: Stmt)
    requires At(toks, p, StmtTokens(s))
    ensures p <= |toks| && !IsEnd(toks, p) && !Match(toks, p, RBrace)
  {
    StmtTokensStart(s);
    AtIndex(toks, p, StmtTokens(s), 0);
  }

  /** The first printed statement of a list, and the rest after it. */
  lemma StmtsParts(toks: seq<Token>, p: nat, ss: seq<Stmt>, inBlock: bool)
    requires ss != [] && Printed(toks, p, ss, inBlock)
    ensures ParsableStmt(ss[0]) && At(toks, p, StmtTokens(ss[0]))
    ensures p <= |toks| && !IsEnd(toks, p) && !Match(toks, p, RBrace)
    ensures Printed(toks, p + |StmtTokens(ss[0])|, ss[1..], inBlock)
    ensures p + |StmtTokens(ss[0])| + |StmtsTokens(ss[1..])| == p + |StmtsTokens(ss)|
  {
    ParsableFirst(ss);
    StmtsSplit(toks, p, ss);
    StmtStarts(toks, p, ss[0]);
  }

  /** One turn of a statement loop that keeps the statement it parsed. */
  lemma StatementsGlue(toks: seq<Token>, p: nat, c: Ctx, inBlock: bool, first: Stmt, q: nat, firstCtx: Ctx,
                       rest: seq<Stmt>, end: nat, ctx: Ctx)
    requires p <= |toks| && !IsEnd(toks, p) && !Match(toks, p, RBrace)
    requires ParseStatement(toks, p, c) == Ok(Parsed(Some(first), q, firstCtx))
    requires q <= |toks| && ParseStatements(toks, q, firstCtx, inBlock) == Ok(Parsed(rest, end, ctx))
    ensures ParseStatements(toks, p, c, inBlock) == Ok(Parsed([first] + rest, end, ctx))
  {
  }

  /** Rebuilding a non-empty statement list rebuilds its first statement, then the rest. */
  lemma ConsShape(ss: seq<Stmt>, c: Ctx)
    requires ss != []
    ensures var first := RebuildStmt(ss[0], c);
      var rest := RebuildStmts(ss[1..], first.ctx);
      RebuildStmts(ss, c) == Built([first.node] + rest.node, rest.ctx)
  {
  }

  /** A statement loop over printed statements, closed as the loop expects,
      gives back the rebuilt statements `b`, one node per statement. */
  lemma {:induction false} StatementsBack(toks: seq<Token>, p: nat, c: Ctx, ss: seq<Stmt>, inBlock: bool,
                                          b: Built<seq<Stmt>>, end: nat)
    requires Printed(toks, p, ss, inBlock)
    requires b == RebuildStmts(ss, c) && end == p + |StmtsTokens(ss)|
    ensures p <= |toks| && ParseStatements(toks, p, c, inBlock) == Ok(Parsed(b.node, end, b.ctx))
    decreases ss, 0
  {
    if ss == [] {
      assert b == Built([], c);
    } else {
      StmtsParts(toks, p, ss, inBlock);
      ConsShape(ss, c);
      var first := RebuildStmt(ss[0], c);
      var q := p + |StmtTokens(ss[0])|;
      var rest := RebuildStmts(ss[1..], first.ctx);
      StatementBack(toks, p, c, ss[0], first, q);
      StatementsBack(toks, q, first.ctx, ss[1..], inBlock, rest, end);
      StatementsGlue(toks, p, c, inBlock, first.node, q, first.ctx, rest.node, end, rest.ctx);
    }
  }

  /** Round trip through the parser: a printed program, ended by EOF, parses
      to one statement per printed statement, of the same shapes, and the
      slot table afterwards has allocated exactly the names the expressions
      read, in order. */
  lemma ProgramRoundTrip(ss: seq<Stmt>, c: Ctx)
    requires ParsableStmts(ss)
    ensures var r := ParseProgram(StmtsTokens(ss) + [Token(Eof, "")], c);
      && r.Ok?
      && r.value.pos == |StmtsTokens(ss)|
      && |r.value.node| == |ss|
      && EraseStmts(r.value.node) == EraseStmts(ss)
      && r.value.ctx == AllocAll(c, StmtsNames(ss))
  {
    var toks := StmtsTokens(ss) + [Token(Eof, "")];
    AtStart(StmtsTokens(ss), [Token(Eof, "")]);
    StatementsBack(toks, 0, c, ss, false, RebuildStmts(ss, c), |StmtsTokens(ss)|);
    RebuildStmtsFacts(ss, c);
  }

  // The same from source text.

  lemma {:induction false} ExprTokensWellFormed(e: Expr)
    requires ExprOpsKnown(e) && NamedExpr(e)
    ensures LexerProps.AllWellFormed(ExprTokens(e))
  {
    match e
    case BinaryExpr(l, op, r) =>
      ExprTokensWellFormed(l);
      ExprTokensWellFormed(r);
      assert LexerProps.WellFormed(OpToken(op));
      LexerProps.WellFormedJoin([OpToken(op)], ExprTokens(r));
      LexerProps.WellFormedJoin(ExprTokens(l), [OpToken(op)] + ExprTokens(r));
    case Identifier(_, _) =>
    case NumberLiteral(_) =>
  }

  lemma KeywordsWellFormed()
    ensures LexerProps.AllWellFormed([Token(IntKw, "int"), Token(IfKw, "if"), Token(ElseKw, "else"), Token(Assign, "=")])
    ensures LexerProps.AllWellFormed([Token(Semi, ";"), Token(LParen, "("), Token(RParen, ")"), Token(LBrace, "{"), Token(RBrace, "}")])
  {
    assert LexerProps.WellFormed(Token(IntKw, "int"));
    assert LexerProps.WellFormed(Token(IfKw, "if"));
    assert LexerProps.WellFormed(Token(ElseKw, "else"));
  }

  /** The tokens of a statement with an expression: a head, the expression, `;`. */
  lemma SimpleTokensWellFormed(head: seq<Token>, e: Expr)
    requires LexerProps.AllWellFormed(head) && ExprOpsKnown(e) && NamedExpr(e)
    ensures LexerProps.AllWellFormed(head + ExprTokens(e) + [Token(Semi, ";")])
  {
    ExprTokensWellFormed(e);
    KeywordsWellFormed();
    LexerProps.WellFormedJoin(head, ExprTokens(e));
    LexerProps.WellFormedJoin(head + ExprTokens(e), [Token(Semi, ";")]);
  }

  /** The tokens of an if statement around its condition and its two bodies. */
  lemma IfTokensWellFormed(cond: seq<Token>, thenBody: seq<Token>, elseBody: seq<Token>)
    requires LexerProps.AllWellFormed(cond) && LexerProps.AllWellFormed(thenBody) && LexerProps.AllWellFormed(elseBody)
    ensures LexerProps.AllWellFormed([Token(IfKw, "if"), Token(LParen, "(")] + cond + [Token(RParen, ")"), Token(LBrace, "{")]
      + thenBody + [Token(RBrace, "}"), Token(ElseKw, "else"), Token(LBrace, "{")] + elseBody + [Token(RBrace, "}")])
  {
    KeywordsWellFormed();
    var a := [Token(IfKw, "if"), Token(LParen, "(")];
    var m := [Token(RParen, ")"), Token(LBrace, "{")];
    var k := [Token(RBrace, "}"), Token(ElseKw, "else"), Token(LBrace, "{")];
    var z := [Token(RBrace, "}")];
    assert LexerProps.AllWellFormed(a) && LexerProps.AllWellFormed(m) && LexerProps.AllWellFormed(k) && LexerProps.AllWellFormed(z);
    LexerProps.WellFormedJoin(a, cond);
    LexerProps.WellFormedJoin(a + cond, m);
    LexerProps.WellFormedJoin(a + cond + m, thenBody);
    LexerProps.WellFormedJoin(a + cond + m + thenBody, k);
    LexerProps.WellFormedJoin(a + cond + m + thenBody + k, elseBody);
    LexerProps.WellFormedJoin(a + cond + m + thenBody + k + elseBody, z);
  }

  lemma {:induction false} StmtTokensWellFormed(s: Stmt)
    requires ParsableStmt(s) && NamedStmt(s)
    ensures LexerProps.AllWellFormed(StmtTokens(s))
    decreases s, 1
  {
    KeywordsWellFormed();
    match s
    case VarDecl(name) =>
      assert LexerProps.WellFormed(Token(Id, name));
    case VarDeclAssign(name, e) =>
      assert LexerProps.WellFormed(Token(Id, name));
      IsComparisonIsKnown(e);
      SimpleTokensWellFormed([Token(IntKw, "int"), Token(Id, name), Token(Assign, "=")], e);
    case AssignStmt(name, e) =>
      assert LexerProps.WellFormed(Token(Id, name));
      IsComparisonIsKnown(e);
      SimpleTokensWellFormed([Token(Id, name), Token(Assign, "=")], e);
    case IfStmt(cond, thenBody, elseBody) =>
      IsComparisonIsKnown(cond);
      ExprTokensWellFormed(cond);
      StmtsTokensWellFormed(thenBody);
      StmtsTokensWellFormed(elseBody);
      IfTokensWellFormed(ExprTokens(cond), StmtsTokens(thenBody), StmtsTokens(elseBody));
  }

  lemma {:induction false} StmtsTokensWellFormed(ss: seq<Stmt>)
    requires ParsableStmts(ss) && NamedStmts(ss)
    ensures LexerProps.AllWellFormed(StmtsTokens(ss))
    decreases ss, 0
  {
    if ss != [] {
      StmtTokensWellFormed(ss[0]);
      assert ParsableStmts(ss[1..]) && NamedStmts(ss[1..]) by {
        forall i | 0 <= i < |ss[1..]| ensures ParsableStmt(ss[1..][i]) && NamedStmt(ss[1..][i]) {
          assert ss[1..][i] == ss[i + 1];
        }
      }
      StmtsTokensWellFormed(ss[1..]);
      LexerProps.WellFormedJoin(StmtTokens(ss[0]), StmtsTokens(ss[1..]));
    }
  }

  /** A program written out as text, one space after each token, lexes to
      its printed tokens, parses to one statement per statement written, of
      the same shapes, and compiles. */
  lemma WrittenProgramCompiles(ss: seq<Stmt>)
    requires ParsableStmts(ss) && NamedStmts(ss)
    ensures var src := LexerProps.Spaced(StmtsTokens(ss));
      var r := ParseProgram(Lex(src), Fresh());
      && Lex(src) == StmtsTokens(ss) + [Token(Eof, "")]
      && r.Ok? && |r.value.node| == |ss| && EraseStmts(r.value.node) == EraseStmts(ss)
      && Pipeline.Compile(src).Ok?
  {
    var src := LexerProps.Spaced(StmtsTokens(ss));
    StmtsTokensWellFormed(ss);
    LexerProps.ScanOfSpaced(StmtsTokens(ss));
    ProgramRoundTrip(ss, Fresh());
    Pipeline.CompileFailsOnlyInParser(src);
  }
}
