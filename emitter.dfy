/** The `gencode` methods of src/ast.cpp as they run: each writes its lines
    to the output stream and updates the statics in place, and each is proved
    to write exactly what the function of module Generation gives. */
module Emitter {
  import opened Results
  import opened Decimal
  import opened Ast
  import opened Context
  import opened Generation

  /** The `std::ostream` the generator writes to, one instruction per line. */
  class OutStream {
    var lines: seq<string>

    constructor ()
      ensures lines == []
    {
      lines := [];
    }

    /** `out << line << std::endl`. */
    method Write(line: string)
      modifies this
      ensures lines == old(lines) + [line]
    {
      lines := lines + [line];
    }
  }

  /** `gencodeL`. */
  method EmitLeft(e: Expr, st: Statics, out: OutStream)
    modifies st, out
    ensures out.lines == old(out.lines) + LeftCode(e, old(st.State())).lines
    ensures st.State() == LeftCode(e, old(st.State())).ctx
  {
    match e
    case BinaryExpr(_, _, _) =>
    case Identifier(name, _) =>
      var slot := st.Slot(name);
      out.Write("mov A M " + NatToString(slot));
    case NumberLiteral(v) =>
      out.Write("ldi A " + NatToString(v));
  }

  /** `gencodeR`. */
  method EmitRight(e: Expr, st: Statics, out: OutStream)
    modifies st, out
    ensures out.lines == old(out.lines) + RightCode(e, old(st.State())).lines
    ensures st.State() == RightCode(e, old(st.State())).ctx
  {
    match e
    case BinaryExpr(_, _, _) =>
    case Identifier(name, _) =>
      var slot := st.Slot(name);
      out.Write("mov B M " + NatToString(slot));
    case NumberLiteral(v) =>
      out.Write("ldi B " + NatToString(v));
  }

  /** `gencode` on an expression; `Fail` where an unknown operator throws. */
  method EmitValue(e: Expr, st: Statics, out: OutStream) returns (r: Outcome)
    modifies st, out
    ensures var spec := ValueCode(e, old(st.State()));
      && r.Pass? == spec.Ok?
      && (r.Pass? ==> out.lines == old(out.lines) + spec.value.lines && st.State() == spec.value.ctx)
  {
    match e
    case BinaryExpr(l, op, right) =>
      EmitLeft(l, st, out);
      EmitRight(right, st, out);
      if op == "==" {
        out.Write("cmp");
      } else if op == "+" {
        out.Write("add");
      } else if op == "-" {
        out.Write("sub");
      } else {
        return Fail;
      }
      r := Pass;
    case Identifier(name, _) =>
      var slot := st.Slot(name);
      out.Write("mov M A " + NatToString(slot));
      r := Pass;
    case NumberLiteral(v) =>
      out.Write("ldi A " + NatToString(v));
      r := Pass;
  }

  /** `gencode` on a statement. */
  method EmitStmt(s: Stmt, st: Statics, out: OutStream) returns (r: Outcome)
    modifies st, out
    ensures var spec := GenStmt(s, old(st.State()));
      && r.Pass? == spec.Ok?
      && (r.Pass? ==> out.lines == old(out.lines) + spec.value.lines && st.State() == spec.value.ctx)
    decreases s, 2
  {
    match s
    case VarDecl(name) =>
      st.Allocate(name);
      r := Pass;
    case VarDeclAssign(name, e) =>
      st.Allocate(name);
      r := EmitValue(e, st, out);
      if r.Fail? {
        return;
      }
      var slot := st.Slot(name);
      out.Write("mov M A " + NatToString(slot));
    case AssignStmt(name, e) =>
      r := EmitValue(e, st, out);
      if r.Fail? {
        return;
      }
      var slot := st.Slot(name);
      out.Write("mov M A " + NatToString(slot));
    case IfStmt(cond, thenBody, elseBody) =>
      r := EmitIf(cond, thenBody, elseBody, st, out);
  }

  /** `IfStmt::gencode`: takes the next label number first, then emits the
      condition and the branch, then the rest. */
  method EmitIf(cond: Expr, thenBody: seq<Stmt>, elseBody: seq<Stmt>, st: Statics, out: OutStream)
    returns (r: Outcome)
    modifies st, out
    ensures var spec := GenIf(cond, thenBody, elseBody, old(st.State()));
      && r.Pass? == spec.Ok?
      && (r.Pass? ==> out.lines == old(out.lines) + spec.value.lines && st.State() == spec.value.ctx)
    decreases IfStmt(cond, thenBody, elseBody), 1
  {
    var id := st.NextLabel();
    r := EmitValue(cond, st, out);
    if r.Fail? {
      return;
    }
    out.Write("jnz %else_" + NatToString(id));
    r := EmitBranches(IfStmt(cond, thenBody, elseBody), id, st, out);
  }

  /** The rest of `IfStmt::gencode`: then body, jump, else label, else body, end label. */
  method EmitBranches(s: Stmt, id: nat, st: Statics, out: OutStream) returns (r: Outcome)
    requires s.IfStmt?
    modifies st, out
    ensures var spec := GenBranches(s, id, old(st.State()));
      && r.Pass? == spec.Ok?
      && (r.Pass? ==> out.lines == old(out.lines) + spec.value.lines && st.State() == spec.value.ctx)
    decreases s, 0
  {
    r := EmitBody(s.thenBody, st, out);
    if r.Fail? {
      return;
    }
    out.Write("jmp %endif_" + NatToString(id));
    out.Write("else_" + NatToString(id) + ":");
    r := EmitBody(s.elseBody, st, out);
    if r.Fail? {
      return;
    }
    out.Write("endif_" + NatToString(id) + ":");
  }

  /** A failure part way through a statement list is a failure of the whole list. */
  lemma {:induction false} FailurePersists(ss: seq<Stmt>, k: nat, c: Ctx)
    requires k <= |ss| && GenStmts(ss[..k], c).Err?
    ensures GenStmts(ss, c).Err?
    decreases |ss| - k
  {
    if k < |ss| {
      assert ss[..k + 1][..k] == ss[..k];
      FailurePersists(ss, k + 1, c);
    } else {
      assert ss[..k] == ss;
    }
  }

  /** `for (auto& stmt : body) stmt->gencode(out);`: the statements in order. */
  method EmitBody(ss: seq<Stmt>, st: Statics, out: OutStream) returns (r: Outcome)
    modifies st, out
    ensures var spec := GenStmts(ss, old(st.State()));
      && r.Pass? == spec.Ok?
      && (r.Pass? ==> out.lines == old(out.lines) + spec.value.lines && st.State() == spec.value.ctx)
    decreases ss, 2
  {
    ghost var c0 := st.State();
    assert ss[..0] == [];
    for i := 0 to |ss|
      invariant GenStmts(ss[..i], c0).Ok?
      invariant out.lines == old(out.lines) + GenStmts(ss[..i], c0).value.lines
      invariant st.State() == GenStmts(ss[..i], c0).value.ctx
    {
      GenStmtsSnoc(ss, i, c0);
      r := EmitStmt(ss[i], st, out);
      if r.Fail? {
        FailurePersists(ss, i + 1, c0);
        return;
      }
    }
    assert ss[..|ss|] == ss;
    r := Pass;
  }

  /** `Program::gencode`: the top-level statements in order. */
  method EmitProgram(program: ProgramNode, st: Statics, out: OutStream) returns (r: Outcome)
    modifies st, out
    ensures var spec := GenStmts(program.statements, old(st.State()));
      && r.Pass? == spec.Ok?
      && (r.Pass? ==> out.lines == old(out.lines) + spec.value.lines && st.State() == spec.value.ctx)
  {
    r := EmitBody(program.statements, st, out);
  }
}
