/** The syntax tree of include/ast.h as a closed set of variants. Node
    ownership (`unique_ptr`) and virtual dispatch become plain tree values. */
module Ast {

  datatype Expr =
    | BinaryExpr(left: Expr, op: string, right: Expr)
      /** `loc` is the slot the name had when the node was built; code
          generation does not read it and looks the name up again. */
    | Identifier(name: string, loc: nat)
    | NumberLiteral(value: nat)

  datatype Stmt =
    | VarDecl(name: string)
    | VarDeclAssign(name: string, expr: Expr)
    | AssignStmt(varName: string, expr: Expr)
    | IfStmt(condition: Expr, thenBody: seq<Stmt>, elseBody: seq<Stmt>)

  /** `new IfStmt(cond)`: both bodies start empty, so "no else" is an empty else body. */
  function NewIfStmt(cond: Expr): (s: Stmt)
    ensures s.IfStmt? && s.condition == cond
    ensures s.thenBody == [] && s.elseBody == []
  {
    IfStmt(cond, [], [])
  }

  /** The operators code generation knows. */
  predicate IsKnownOp(op: string) {
    op == "+" || op == "-" || op == "=="
  }

  predicate ExprOpsKnown(e: Expr) {
    match e
    case BinaryExpr(l, op, r) => IsKnownOp(op) && ExprOpsKnown(l) && ExprOpsKnown(r)
    case _ => true
  }

  predicate StmtOpsKnown(s: Stmt) {
    match s
    case VarDecl(_) => true
    case VarDeclAssign(_, e) => ExprOpsKnown(e)
    case AssignStmt(_, e) => ExprOpsKnown(e)
    case IfStmt(c, t, e) => ExprOpsKnown(c) && StmtsOpsKnown(t) && StmtsOpsKnown(e)
  }

  predicate StmtsOpsKnown(ss: seq<Stmt>) {
    forall i :: 0 <= i < |ss| ==> StmtOpsKnown(ss[i])
  }

  /** `class Program`: the list of top-level statements, grown in place. */
  class ProgramNode {
    var statements: seq<Stmt>

    constructor ()
      ensures statements == []
    {
      statements := [];
    }

    /** `addStatement`: appends at the end; what was there stays, in order. */
    method AddStatement(s: Stmt)
      modifies this
      ensures statements == old(statements) + [s]
    {
      statements := statements + [s];
    }
  }
}
