/** What the parser guarantees, stated over the functions of module Grammar
    (which the class `Parser` is proved to follow). */
module ParserProps {
  import opened Results
  import opened Decimal
  import opened Tokens
  import opened Ast
  import opened Context
  import opened Grammar

  /** Operator tokens carry their own spelling, as every token the lexer
      produces does. */
  predicate OperatorsCanonical(toks: seq<Token>) {
    forall i :: 0 <= i < |toks| ==>
      && (toks[i].kind == Plus ==> toks[i].text == "+")
      && (toks[i].kind == Minus ==> toks[i].text == "-")
      && (toks[i].kind == Eq ==> toks[i].text == "==")
  }

  predicate IsPrimary(e: Expr) {
    e.Identifier? || e.NumberLiteral?
  }

  /** A left-nested chain of `+`/`-`: every right operand is a primary. */
  predicate IsSum(e: Expr) {
    IsPrimary(e) || (e.BinaryExpr? && (e.op == "+" || e.op == "-") && IsSum(e.left) && IsPrimary(e.right))
  }

  /** A sum, or one `==` between two sums. */
  predicate IsComparison(e: Expr) {
    IsSum(e) || (e.BinaryExpr? && e.op == "==" && IsSum(e.left) && IsSum(e.right))
  }

  /** Every `Identifier` node records the slot its name has in `c`. */
  predicate ExprLocsAgree(e: Expr, c: Ctx) {
    match e
    case BinaryExpr(l, _, r) => ExprLocsAgree(l, c) && ExprLocsAgree(r, c)
    case Identifier(name, loc) => name in c.memMap && c.memMap[name] == loc
    case NumberLiteral(_) => true
  }

  lemma {:induction false} LocsAgreeExtend(e: Expr, c: Ctx, d: Ctx)
    requires ExprLocsAgree(e, c) && Extends(c, d)
    ensures ExprLocsAgree(e, d)
  {
    match e
    case BinaryExpr(l, _, r) =>
      LocsAgreeExtend(l, c, d);
      LocsAgreeExtend(r, c, d);
    case Identifier(_, _) =>
    case NumberLiteral(_) =>
  }

  lemma IsSumIsKnown(e: Expr)
    requires IsSum(e)
    ensures ExprOpsKnown(e)
  {
  }

  /** Comparisons use only the operators code generation knows. */
  lemma IsComparisonIsKnown(e: Expr)
    requires IsComparison(e)
    ensures ExprOpsKnown(e)
  {
    if e.BinaryExpr? && !IsSum(e) {
      IsSumIsKnown(e.left);
      IsSumIsKnown(e.right);
    }
  }

  /** The cursor: `match` is false at the end and never matches EOF;
      `advance` moves by one except at the end, where it stays. */
  lemma CursorFacts(toks: seq<Token>, p: nat, k: TokenType)
    requires p <= |toks|
    ensures Match(toks, p, k) ==> p < |toks| && k != Eof
    ensures IsEnd(toks, p) ==> Advance(toks, p) == p
    ensures !IsEnd(toks, p) ==> Advance(toks, p) == p + 1
    ensures Advance(toks, p) <= |toks|
  {
  }

  /** A primary is one NUM token with digit text (its decimal value) or one
      ID token (its name, given a slot if it had none); nothing else parses. */
  lemma PrimaryIsOneToken(toks: seq<Token>, p: nat, c: Ctx)
    requires p <= |toks|
    ensures var r := ParsePrimary(toks, p, c);
      && (r.Ok? <==> (Match(toks, p, Num) && toks[p].text != [] && IsDigits(toks[p].text)) || Match(toks, p, Id))
      && (r.Ok? && toks[p].kind == Num ==> r.value.node == NumberLiteral(Value(toks[p].text)) && r.value.ctx == c)
      && (r.Ok? && toks[p].kind == Id ==>
            && r.value.node.Identifier? && r.value.node.name == toks[p].text
            && r.value.ctx == Alloc(c, toks[p].text))
  {
  }

  lemma PrimaryFacts(toks: seq<Token>, p: nat, c: Ctx)
    requires p <= |toks|
    ensures var r := ParsePrimary(toks, p, c);
      r.Ok? ==> IsPrimary(r.value.node) && Grows(c, r.value.ctx) && ExprLocsAgree(r.value.node, r.value.ctx)
  {
    if Match(toks, p, Id) {
      AllocGivesNextSlot(c, toks[p].text);
      if WellSlotted(c) {
        AllocWellSlotted(c, toks[p].text);
      }
    }
  }

  lemma {:induction false} AdditionTailFacts(toks: seq<Token>, p: nat, c: Ctx, left: Expr)
    requires p <= |toks|
    ensures var r := AdditionTail(toks, p, c, left);
      r.Ok? ==>
        && Grows(c, r.value.ctx)
        && (IsSum(left) && OperatorsCanonical(toks) ==> IsSum(r.value.node))
        && (ExprLocsAgree(left, c) ==> ExprLocsAgree(r.value.node, r.value.ctx))
    decreases |toks| - p
  {
    if Match(toks, p, Plus) || Match(toks, p, Minus) {
      var right := ParsePrimary(toks, Advance(toks, p), c);
      if right.Ok? {
        PrimaryFacts(toks, Advance(toks, p), c);
        var next := BinaryExpr(left, toks[p].text, right.value.node);
        if ExprLocsAgree(left, c) {
          LocsAgreeExtend(left, c, right.value.ctx);
        }
        AdditionTailFacts(toks, right.value.pos, right.value.ctx, next);
        var r := AdditionTail(toks, right.value.pos, right.value.ctx, next);
        if r.Ok? {
          GrowsTransitive(c, right.value.ctx, r.value.ctx);
        }
      }
    }
  }

  /** `parseAddition` builds a left-nested chain of `+`/`-` over primaries. */
  lemma AdditionFacts(toks: seq<Token>, p: nat, c: Ctx)
    requires p <= |toks|
    ensures var r := ParseAddition(toks, p, c);
      r.Ok? ==>
        && Grows(c, r.value.ctx)
        && (OperatorsCanonical(toks) ==> IsSum(r.value.node))
        && ExprLocsAgree(r.value.node, r.value.ctx)
  {
    var first := ParsePrimary(toks, p, c);
    if first.Ok? {
      PrimaryFacts(toks, p, c);
      AdditionTailFacts(toks, first.value.pos, first.value.ctx, first.value.node);
      var r := ParseAddition(toks, p, c);
      if r.Ok? {
        GrowsTransitive(c, first.value.ctx, r.value.ctx);
      }
    }
  }

  /** `parseComparison` accepts at most one `==`, whose operands are sums;
      on lexer output every operator it stores is "+", "-" or "==", and every
      identifier node records its name's slot. */
  lemma ComparisonFacts(toks: seq<Token>, p: nat, c: Ctx)
    requires p <= |toks|
    ensures var r := ParseComparison(toks, p, c);
      r.Ok? ==>
        && Grows(c, r.value.ctx)
        && (OperatorsCanonical(toks) ==> IsComparison(r.value.node) && ExprOpsKnown(r.value.node))
        && ExprLocsAgree(r.value.node, r.value.ctx)
  {
    var left := ParseAddition(toks, p, c);
    if left.Ok? {
      AdditionFacts(toks, p, c);
      var r := ParseComparison(toks, p, c);
      if !Match(toks, left.value.pos, Eq) {
        assert r == left;
        if OperatorsCanonical(toks) {
          IsSumIsKnown(left.value.node);
        }
      } else {
        var q := left.value.pos + 1;
        var right := ParseAddition(toks, q, left.value.ctx);
        if right.Ok? {
          AdditionFacts(toks, q, left.value.ctx);
          GrowsTransitive(c, left.value.ctx, right.value.ctx);
          LocsAgreeExtend(left.value.node, left.value.ctx, right.value.ctx);
          var e := BinaryExpr(left.value.node, toks[left.value.pos].text, right.value.node);
          assert r == Ok(Parsed(e, right.value.pos, right.value.ctx));
          if OperatorsCanonical(toks) {
            assert toks[left.value.pos].text == "==";
            IsComparisonIsKnown(e);
          }
        }
      }
    }
  }

  function SomeNode(r: Result<Parsed<Stmt>>): Result<Parsed<Option<Stmt>>> {
    match r
    case Ok(s) => Ok(Parsed(Some(s.node), s.pos, s.ctx))
    case Err => Err
  }

  /** The `int` lookahead: `int ID =` starts a VarDeclAssign and anything else
      a VarDecl, both parsed again from the `int` (the cursor is restored);
      `int` not followed by an identifier fails. */
  lemma IntLookahead(toks: seq<Token>, p: nat, c: Ctx)
    requires p <= |toks| && Match(toks, p, IntKw)
    ensures Match(toks, p + 1, Id) && Match(toks, p + 2, Assign) ==>
      ParseStatement(toks, p, c) == SomeNode(ParseVarDeclAssign(toks, p, c))
    ensures !(Match(toks, p + 1, Id) && Match(toks, p + 2, Assign)) ==>
      ParseStatement(toks, p, c) == SomeNode(ParseVarDecl(toks, p, c))
    ensures !Match(toks, p + 1, Id) ==> ParseStatement(toks, p, c).Err?
  {
  }

  /** A token that starts no statement is consumed and yields no node. */
  lemma DroppedToken(toks: seq<Token>, p: nat, c: Ctx)
    requires p < |toks| && !IsEnd(toks, p)
    requires toks[p].kind != IntKw && toks[p].kind != IfKw && toks[p].kind != Id
    ensures ParseStatement(toks, p, c) == Ok(Parsed(None, p + 1, c))
  {
  }

  /** After the then block's `}` with no `else` next, the else body is
      empty and the if statement ends there. */
  lemma IfWithoutElse(toks: seq<Token>, p: nat, c: Ctx, cond: Expr)
    requires p <= |toks|
    requires ParseStatements(toks, p, c, true).Ok?
    requires var q := ParseStatements(toks, p, c, true).value.pos;
      Match(toks, q, RBrace) && !Match(toks, q + 1, ElseKw)
    ensures var thenPart := ParseStatements(toks, p, c, true).value;
      ParseIfRest(toks, p, c, cond) == Ok(Parsed(IfStmt(cond, thenPart.node, []), thenPart.pos + 1, thenPart.ctx))
  {
  }

  /** After the then block's `}` and an `else`, a block in braces must follow. */
  lemma IfWithElse(toks: seq<Token>, p: nat, c: Ctx, cond: Expr)
    requires p <= |toks|
    requires ParseStatements(toks, p, c, true).Ok?
    requires var q := ParseStatements(toks, p, c, true).value.pos;
      Match(toks, q, RBrace) && Match(toks, q + 1, ElseKw)
    ensures var thenPart := ParseStatements(toks, p, c, true).value;
      var q := thenPart.pos + 1;
      ParseIfRest(toks, p, c, cond).Ok? <==>
        && Match(toks, q + 1, LBrace)
        && ParseStatements(toks, q + 2, thenPart.ctx, true).Ok?
        && Match(toks, ParseStatements(toks, q + 2, thenPart.ctx, true).value.pos, RBrace)
  {
    var thenPart := ParseStatements(toks, p, c, true).value;
    var q := thenPart.pos + 1;
    assert ParseIfRest(toks, p, c, cond).Ok? == ParseElse(toks, q, thenPart.ctx).Ok?;
  }

  /** Statement lists whose operators are all known, joined, stay so. */
  lemma OpsKnownJoin(a: seq<Stmt>, b: seq<Stmt>)
    requires StmtsOpsKnown(a) && StmtsOpsKnown(b)
    ensures StmtsOpsKnown(a + b)
  {
    assert forall i :: 0 <= i < |a + b| ==> (a + b)[i] == if i < |a| then a[i] else b[i - |a|];
  }

  /** Parsing a statement keeps the slot table sound and, on lexer output,
      produces only operators code generation knows. */
  lemma {:induction false} StatementFacts(toks: seq<Token>, p: nat, c: Ctx)
    requires p <= |toks|
    ensures var r := ParseStatement(toks, p, c);
      r.Ok? ==> Grows(c, r.value.ctx) && (OperatorsCanonical(toks) ==> StmtsOpsKnown(Kept(r.value.node)))
    decreases |toks| - p, 2
  {
    if Match(toks, p, IntKw) {
      if Match(toks, p + 1, Id) && Match(toks, p + 2, Assign) {
        ComparisonFacts(toks, p + 3, c);
      }
    } else if Match(toks, p, IfKw) {
      IfStmtFacts(toks, p, c);
    } else if Match(toks, p, Id) {
      if Match(toks, p + 1, Assign) {
        ComparisonFacts(toks, p + 2, c);
      }
    }
  }

  lemma {:induction false} StatementsFacts(toks: seq<Token>, p: nat, c: Ctx, inBlock: bool)
    requires p <= |toks|
    ensures var r := ParseStatements(toks, p, c, inBlock);
      r.Ok? ==> Grows(c, r.value.ctx) && (OperatorsCanonical(toks) ==> StmtsOpsKnown(r.value.node))
    decreases |toks| - p, 3
  {
    if !(IsEnd(toks, p) || (inBlock && Match(toks, p, RBrace))) {
      var first := ParseStatement(toks, p, c);
      if first.Ok? {
        StatementFacts(toks, p, c);
        StatementsFacts(toks, first.value.pos, first.value.ctx, inBlock);
        var rest := ParseStatements(toks, first.value.pos, first.value.ctx, inBlock);
        if rest.Ok? {
          GrowsTransitive(c, first.value.ctx, rest.value.ctx);
          if OperatorsCanonical(toks) {
            OpsKnownJoin(Kept(first.value.node), rest.value.node);
          }
        }
      }
    }
  }

  lemma {:induction false} IfStmtFacts(toks: seq<Token>, p: nat, c: Ctx)
    requires p <= |toks|
    ensures var r := ParseIfStmt(toks, p, c);
      r.Ok? ==> Grows(c, r.value.ctx) && (OperatorsCanonical(toks) ==> StmtOpsKnown(r.value.node))
    decreases |toks| - p, 1
  {
    var head := ParseIfHead(toks, p, c);
    if head.Ok? {
      IfHeadFacts(toks, p, c);
      IfRestFacts(toks, head.value.pos, head.value.ctx, head.value.node);
      var r := ParseIfRest(toks, head.value.pos, head.value.ctx, head.value.node);
      if r.Ok? {
        GrowsTransitive(c, head.value.ctx, r.value.ctx);
      }
    }
  }

  lemma IfHeadFacts(toks: seq<Token>, p: nat, c: Ctx)
    requires p <= |toks|
    ensures var r := ParseIfHead(toks, p, c);
      r.Ok? ==> Grows(c, r.value.ctx) && (OperatorsCanonical(toks) ==> ExprOpsKnown(r.value.node))
  {
    if Match(toks, p, IfKw) && Match(toks, p + 1, LParen) {
      ComparisonFacts(toks, p + 2, c);
    }
  }

  lemma {:induction false} IfRestFacts(toks: seq<Token>, p: nat, c: Ctx, cond: Expr)
    requires p <= |toks|
    ensures var r := ParseIfRest(toks, p, c, cond);
      r.Ok? ==> Grows(c, r.value.ctx) && (OperatorsCanonical(toks) && ExprOpsKnown(cond) ==> StmtOpsKnown(r.value.node))
    decreases |toks| - p, 4
  {
    if ParseIfRest(toks, p, c, cond).Ok? {
      var thenPart, elsePart := IfRestParts(toks, p, c, cond);
      StatementsFacts(toks, p, c, true);
      ElseFacts(toks, thenPart.pos + 1, thenPart.ctx);
      IfJoin(c, thenPart.ctx, elsePart.ctx, cond, thenPart.node, elsePart.node, OperatorsCanonical(toks));
    }
  }

  /** An if statement built from a then part and an else part that each
      grow the slot table and use known operators. */
  lemma IfJoin(c: Ctx, d: Ctx, e: Ctx, cond: Expr, thenBody: seq<Stmt>, elseBody: seq<Stmt>, canonical: bool)
    requires Grows(c, d) && (canonical ==> StmtsOpsKnown(thenBody))
    requires Grows(d, e) && (canonical ==> StmtsOpsKnown(elseBody))
    ensures Grows(c, e)
    ensures canonical && ExprOpsKnown(cond) ==> StmtOpsKnown(IfStmt(cond, thenBody, elseBody))
  {
    GrowsTransitive(c, d, e);
  }

  /** A successful `ParseIfRest` is made of a successful block, its `}` and
      a successful else part. */
  lemma IfRestParts(toks: seq<Token>, p: nat, c: Ctx, cond: Expr) returns (thenPart: Parsed<seq<Stmt>>, elsePart: Parsed<seq<Stmt>>)
    requires p <= |toks| && ParseIfRest(toks, p, c, cond).Ok?
    ensures ParseStatements(toks, p, c, true) == Ok(thenPart)
    ensures Match(toks, thenPart.pos, RBrace)
    ensures ParseElse(toks, thenPart.pos + 1, thenPart.ctx) == Ok(elsePart)
    ensures ParseIfRest(toks, p, c, cond) == Ok(Parsed(IfStmt(cond, thenPart.node, elsePart.node), elsePart.pos, elsePart.ctx))
  {
    thenPart := ParseStatements(toks, p, c, true).value;
    elsePart := ParseElse(toks, thenPart.pos + 1, thenPart.ctx).value;
  }

  lemma {:induction false} ElseFacts(toks: seq<Token>, p: nat, c: Ctx)
    requires p <= |toks|
    ensures var r := ParseElse(toks, p, c);
      r.Ok? ==> Grows(c, r.value.ctx) && (OperatorsCanonical(toks) ==> StmtsOpsKnown(r.value.node))
    decreases |toks| - p, 0
  {
    if Match(toks, p, ElseKw) && Match(toks, p + 1, LBrace) {
      StatementsFacts(toks, p + 2, c, true);
      var body := ParseStatements(toks, p + 2, c, true);
      if body.Ok? && Match(toks, body.value.pos, RBrace) {
        assert ParseElse(toks, p, c) == Ok(Parsed(body.value.node, body.value.pos + 1, body.value.ctx));
      }
    }
  }

  /** A parsed program: the slot table only grows and keeps its invariant,
      the label counter is untouched, and on lexer output every operator is
      one code generation knows. */
  lemma ProgramFacts(toks: seq<Token>, c: Ctx)
    ensures var r := ParseProgram(toks, c);
      r.Ok? ==>
        && Extends(c, r.value.ctx) && r.value.ctx.labelCount == c.labelCount
        && (WellSlotted(c) ==> WellSlotted(r.value.ctx))
        && (OperatorsCanonical(toks) ==> StmtsOpsKnown(r.value.node))
  {
    StatementsFacts(toks, 0, c, false);
  }
}
