/** The `gencode` family of src/ast.cpp as functions: the instruction lines
    a node emits and the state of the statics afterwards, or `Err` where the
    source throws. `ValueCode` is `gencode` on an expression, `LeftCode` and
    `RightCode` are `gencodeL` and `gencodeR`. The methods of module Emitter
    are proved to write exactly these lines. */
module Generation {
  import opened Results
  import opened Decimal
  import opened Ast
  import opened Context

  /** Lines emitted, and the statics afterwards. */
  datatype Gen = Gen(lines: seq<string>, ctx: Ctx)

  /** `mem_map[name]` read through `operator[]`: the slot, inserting 0 for a
      name never seen. */
  function SlotOf(c: Ctx, name: string): nat {
    Subscript(c, name).memMap[name]
  }

  function Store(slot: nat): string { "mov M A " + NatToString(slot) }
  function LoadA(slot: nat): string { "mov A M " + NatToString(slot) }
  function LoadB(slot: nat): string { "mov B M " + NatToString(slot) }
  function ImmA(v: nat): string { "ldi A " + NatToString(v) }
  function ImmB(v: nat): string { "ldi B " + NatToString(v) }
  function Jnz(n: nat): string { "jnz %else_" + NatToString(n) }
  function Jmp(n: nat): string { "jmp %endif_" + NatToString(n) }
  function ElseLabel(n: nat): string { "else_" + NatToString(n) + ":" }
  function EndifLabel(n: nat): string { "endif_" + NatToString(n) + ":" }

  /** `gencodeL`: an identifier loads A from its slot, a number loads A
      immediately, and a binary expression emits nothing. */
  function LeftCode(e: Expr, c: Ctx): Gen {
    match e
    case BinaryExpr(_, _, _) => Gen([], c)
    case Identifier(name, _) => Gen([LoadA(SlotOf(c, name))], Subscript(c, name))
    case NumberLiteral(v) => Gen([ImmA(v)], c)
  }

  /** `gencodeR`: as `gencodeL`, into register B. */
  function RightCode(e: Expr, c: Ctx): Gen {
    match e
    case BinaryExpr(_, _, _) => Gen([], c)
    case Identifier(name, _) => Gen([LoadB(SlotOf(c, name))], Subscript(c, name))
    case NumberLiteral(v) => Gen([ImmB(v)], c)
  }

  /** The instruction of a binary operator; any other operator throws. */
  function OpLine(op: string): (r: Result<string>)
    ensures r.Ok? <==> IsKnownOp(op)
  {
    if op == "==" then Ok("cmp")
    else if op == "+" then Ok("add")
    else if op == "-" then Ok("sub")
    else Err
  }

  /** `gencode` on an expression: an identifier stores A into its slot, a
      number loads A, and a binary expression emits its left operand's
      `gencodeL`, its right operand's `gencodeR` and the operator. */
  function ValueCode(e: Expr, c: Ctx): Result<Gen> {
    match e
    case BinaryExpr(l, op, r) =>
      var left := LeftCode(l, c);
      var right := RightCode(r, left.ctx);
      var opLine :- OpLine(op);
      Ok(Gen(left.lines + right.lines + [opLine], right.ctx))
    case Identifier(name, _) => Ok(Gen([Store(SlotOf(c, name))], Subscript(c, name)))
    case NumberLiteral(v) => Ok(Gen([ImmA(v)], c))
  }

  /** `gencode` on a statement. */
  function GenStmt(s: Stmt, c: Ctx): Result<Gen>
    decreases s, 2
  {
    match s
    case VarDecl(name) => Ok(Gen([], Alloc(c, name)))
    case VarDeclAssign(name, e) =>
      var value :- ValueCode(e, Alloc(c, name));
      Ok(Gen(value.lines + [Store(SlotOf(value.ctx, name))], Subscript(value.ctx, name)))
    case AssignStmt(name, e) =>
      var value :- ValueCode(e, c);
      Ok(Gen(value.lines + [Store(SlotOf(value.ctx, name))], Subscript(value.ctx, name)))
    case IfStmt(cond, thenBody, elseBody) => GenIf(cond, thenBody, elseBody, c)
  }

  /** `IfStmt::gencode`: the label number is taken (and the counter bumped)
      before anything is emitted, so nested ifs get later numbers. */
  function GenIf(cond: Expr, thenBody: seq<Stmt>, elseBody: seq<Stmt>, c: Ctx): Result<Gen>
    decreases IfStmt(cond, thenBody, elseBody), 1
  {
    var id := c.labelCount;
    var condCode :- ValueCode(cond, c.(labelCount := id + 1));
    var rest :- GenBranches(IfStmt(cond, thenBody, elseBody), id, condCode.ctx);
    Ok(Gen(condCode.lines + [Jnz(id)] + rest.lines, rest.ctx))
  }

  /** The part of `IfStmt::gencode` after the branch on the condition: the
      then body, the jump to the end, the else label, the else body and the
      end label. */
  function GenBranches(s: Stmt, id: nat, c: Ctx): Result<Gen>
    requires s.IfStmt?
    decreases s, 0
  {
    var thenCode :- GenStmts(s.thenBody, c);
    var elseCode :- GenStmts(s.elseBody, thenCode.ctx);
    Ok(Gen(thenCode.lines + [Jmp(id), ElseLabel(id)] + elseCode.lines + [EndifLabel(id)], elseCode.ctx))
  }

  /** The statements in order, each from the state the previous one left. */
  function GenStmts(ss: seq<Stmt>, c: Ctx): Result<Gen>
    decreases ss, 0
  {
    if ss == [] then Ok(Gen([], c)) else
    var init :- GenStmts(ss[..|ss| - 1], c);
    var last :- GenStmt(ss[|ss| - 1], init.ctx);
    Ok(Gen(init.lines + last.lines, last.ctx))
  }

  /** One more statement after a prefix that generated successfully. */
  lemma GenStmtsSnoc(ss: seq<Stmt>, i: nat, c: Ctx)
    requires i < |ss| && GenStmts(ss[..i], c).Ok?
    ensures var init := GenStmts(ss[..i], c).value;
      var last := GenStmt(ss[i], init.ctx);
      && (last.Err? ==> GenStmts(ss[..i + 1], c).Err?)
      && (last.Ok? ==> GenStmts(ss[..i + 1], c) == Ok(Gen(init.lines + last.value.lines, last.value.ctx)))
  {
    assert ss[..i + 1][..i] == ss[..i];
  }
}
