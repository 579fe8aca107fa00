/** What code generation guarantees, stated over the functions of module
    Generation (which the methods of module Emitter are proved to follow). */
module GenerationProps {
  import opened Results
  import opened Decimal
  import opened Ast
  import opened Context
  import opened Generation

  /** The check `BinaryExpr::gencode` makes: only the operator of the
      expression itself, never of an operand (operands' emitters are empty). */
  predicate Emittable(e: Expr) {
    e.BinaryExpr? ==> IsKnownOp(e.op)
  }

  predicate StmtEmittable(s: Stmt) {
    match s
    case VarDecl(_) => true
    case VarDeclAssign(_, e) => Emittable(e)
    case AssignStmt(_, e) => Emittable(e)
    case IfStmt(c, t, e) => Emittable(c) && StmtsEmittable(t) && StmtsEmittable(e)
  }

  predicate StmtsEmittable(ss: seq<Stmt>) {
    forall i :: 0 <= i < |ss| ==> StmtEmittable(ss[i])
  }

  /** An expression's code fails exactly when its own operator is unknown. */
  lemma ValueCodeOk(e: Expr, c: Ctx)
    ensures ValueCode(e, c).Ok? <==> Emittable(e)
  {
  }

  /** Generation fails exactly when some statement holds an expression whose
      own operator is unknown. */
  lemma {:induction false} GenStmtOk(s: Stmt, c: Ctx)
    ensures GenStmt(s, c).Ok? <==> StmtEmittable(s)
    decreases s, 1
  {
    match s
    case VarDecl(_) =>
    case VarDeclAssign(name, e) => ValueCodeOk(e, Alloc(c, name));
    case AssignStmt(_, e) => ValueCodeOk(e, c);
    case IfStmt(cond, t, e) =>
      var c1 := c.(labelCount := c.labelCount + 1);
      ValueCodeOk(cond, c1);
      if ValueCode(cond, c1).Ok? {
        var condCode := ValueCode(cond, c1).value;
        GenStmtsOk(t, condCode.ctx);
        if GenStmts(t, condCode.ctx).Ok? {
          GenStmtsOk(e, GenStmts(t, condCode.ctx).value.ctx);
        }
        assert GenBranches(s, c.labelCount, condCode.ctx).Ok? <==> StmtsEmittable(t) && StmtsEmittable(e);
      }
  }

  lemma {:induction false} GenStmtsOk(ss: seq<Stmt>, c: Ctx)
    ensures GenStmts(ss, c).Ok? <==> StmtsEmittable(ss)
    decreases ss, 0
  {
    if ss != [] {
      var init := ss[..|ss| - 1];
      assert ss == init + [ss[|ss| - 1]];
      GenStmtsOk(init, c);
      if GenStmts(init, c).Ok? {
        GenStmtOk(ss[|ss| - 1], GenStmts(init, c).value.ctx);
      }
      assert StmtsEmittable(ss) <==> StmtsEmittable(init) && StmtEmittable(ss[|ss| - 1]);
    }
  }

  /** Operators checked all the way down (as the parser guarantees on lexer
      output) are in particular checked at the top. */
  lemma {:induction false} KnownOpsEmittable(s: Stmt)
    requires StmtOpsKnown(s)
    ensures StmtEmittable(s)
    decreases s, 1
  {
    if s.IfStmt? {
      KnownOpsAllEmittable(s.thenBody);
      KnownOpsAllEmittable(s.elseBody);
    }
  }

  lemma {:induction false} KnownOpsAllEmittable(ss: seq<Stmt>)
    requires StmtsOpsKnown(ss)
    ensures StmtsEmittable(ss)
    decreases ss, 0
  {
    forall i | 0 <= i < |ss|
      ensures StmtEmittable(ss[i])
    {
      KnownOpsEmittable(ss[i]);
    }
  }

  /** An unknown operator nested as an operand is never looked at. */
  lemma NestedOperatorUnchecked(c: Ctx)
    ensures var e := BinaryExpr(BinaryExpr(NumberLiteral(1), "*", NumberLiteral(2)), "+", NumberLiteral(3));
      ValueCode(e, c) == Ok(Gen([ImmB(3), "add"], c))
  {
    assert OpLine("+") == Ok("add");
    assert [] + [ImmB(3)] + ["add"] == [ImmB(3), "add"];
  }

  /** `gencodeL`, `gencodeR` and `gencode` of one node agree: a binary
      operand emits nothing, a leaf emits one line, all three name the same
      slot or value and leave the same statics behind. */
  lemma OperandCode(e: Expr, c: Ctx)
    ensures LeftCode(e, c).lines == [] <==> e.BinaryExpr?
    ensures RightCode(e, c).lines == [] <==> e.BinaryExpr?
    ensures LeftCode(e, c).ctx == RightCode(e, c).ctx
    ensures !e.BinaryExpr? ==>
      && ValueCode(e, c).Ok?
      && ValueCode(e, c).value.ctx == LeftCode(e, c).ctx
      && |LeftCode(e, c).lines| == |RightCode(e, c).lines| == |ValueCode(e, c).value.lines| == 1
    ensures e.NumberLiteral? ==> LeftCode(e, c).lines == ValueCode(e, c).value.lines
    ensures e.Identifier? ==>
      var slot := Subscript(c, e.name).memMap[e.name];
      && LeftCode(e, c).lines == [LoadA(slot)]
      && RightCode(e, c).lines == [LoadB(slot)]
      && ValueCode(e, c).value.lines == [Store(slot)]
  {
  }

  /** The arithmetic instruction of a binary operator. */
  predicate IsOpLine(line: string) {
    line == "cmp" || line == "add" || line == "sub"
  }

  /** A binary expression emits exactly one arithmetic instruction, last,
      and it is the one of its own operator. */
  lemma BinaryEmitsOneOperator(l: Expr, op: string, r: Expr, c: Ctx)
    ensures var g := ValueCode(BinaryExpr(l, op, r), c);
      && (g.Ok? <==> IsKnownOp(op))
      && (g.Ok? ==>
            && |g.value.lines| >= 1
            && g.value.lines[|g.value.lines| - 1] == OpLine(op).value
            && IsOpLine(g.value.lines[|g.value.lines| - 1])
            && forall i :: 0 <= i < |g.value.lines| - 1 ==> !IsOpLine(g.value.lines[i]))
  {
    var left := LeftCode(l, c);
    var right := RightCode(r, left.ctx);
    var operands := left.lines + right.lines;
    assert |operands| <= 2;
    forall i | 0 <= i < |operands|
      ensures |operands[i]| > 3
    {
      if i < |left.lines| {
        assert operands[i] == left.lines[i];
      } else {
        assert operands[i] == right.lines[i - |left.lines|];
      }
    }
  }

  /** The four control-flow lines of if number `n`: the branch, the jump,
      the else label and the end label. */
  function Mark(n: nat, k: nat): string
    requires k < 4
  {
    if k == 0 then Jnz(n) else if k == 1 then Jmp(n) else if k == 2 then ElseLabel(n) else EndifLabel(n)
  }

  /** An ordinary instruction: neither a jump nor a label. */
  predicate Unmarked(line: string) {
    line != [] && line[0] != 'j' && line[0] != 'e'
  }

  predicate AllUnmarked(lines: seq<string>) {
    forall i :: 0 <= i < |lines| ==> Unmarked(lines[i])
  }

  /** Each of the four lines of every if number in `lo` up to `hi` occurs
      exactly once in `lines`, and no other jump or label occurs. */
  ghost predicate LabelsExactly(lines: seq<string>, lo: nat, hi: nat) {
    forall n: nat, k: nat :: k < 4 ==> multiset(lines)[Mark(n, k)] == if lo <= n < hi then 1 else 0
  }

  lemma NoMarks(lines: seq<string>, lo: nat)
    requires AllUnmarked(lines)
    ensures LabelsExactly(lines, lo, lo)
  {
    forall n: nat, k: nat | k < 4
      ensures multiset(lines)[Mark(n, k)] == 0
    {
      assert !Unmarked(Mark(n, k));
      assert Mark(n, k) !in lines;
    }
  }

  lemma PrefixedEqual(p: string, a: string, b: string, q: string)
    requires p + a + q == p + b + q
    ensures a == b
  {
    var s := p + a + q;
    assert |a| == |b|;
    assert a == s[|p|..|p| + |a|];
  }

  /** Different if numbers or different kinds give different lines. */
  lemma MarkInjective(n: nat, k: nat, m: nat, j: nat)
    requires k < 4 && j < 4 && Mark(n, k) == Mark(m, j)
    ensures n == m && k == j
  {
    var x := Mark(n, k);
    assert x[0] == (if k < 2 then 'j' else 'e');
    assert x[1] == (if k == 0 then 'n' else if k == 1 then 'm' else if k == 2 then 'l' else 'n');
    assert Mark(m, j)[0] == (if j < 2 then 'j' else 'e');
    assert Mark(m, j)[1] == (if j == 0 then 'n' else if j == 1 then 'm' else if j == 2 then 'l' else 'n');
    assert k == j;
    if k == 0 {
      PrefixedEqual("jnz %else_", NatToString(n), NatToString(m), "");
    } else if k == 1 {
      PrefixedEqual("jmp %endif_", NatToString(n), NatToString(m), "");
    } else if k == 2 {
      PrefixedEqual("else_", NatToString(n), NatToString(m), ":");
    } else {
      PrefixedEqual("endif_", NatToString(n), NatToString(m), ":");
    }
    NatToStringInjective(n, m);
  }

  /** Expression code is ordinary instructions only and leaves the label
      counter alone; the slot table only grows and keeps its invariant. */
  lemma OperandFacts(e: Expr, c: Ctx)
    ensures AllUnmarked(LeftCode(e, c).lines) && Grows(c, LeftCode(e, c).ctx)
    ensures AllUnmarked(RightCode(e, c).lines) && Grows(c, RightCode(e, c).ctx)
  {
    if e.Identifier? {
      SubscriptOfMissingName(c, e.name);
      if WellSlotted(c) {
        SubscriptWellSlotted(c, e.name);
      }
    }
  }

  lemma ValueFacts(e: Expr, c: Ctx)
    ensures var r := ValueCode(e, c);
      r.Ok? ==> AllUnmarked(r.value.lines) && Grows(c, r.value.ctx)
  {
    match e
    case BinaryExpr(l, op, r) =>
      OperandFacts(l, c);
      var left := LeftCode(l, c);
      OperandFacts(r, left.ctx);
      GrowsTransitive(c, left.ctx, RightCode(r, left.ctx).ctx);
    case Identifier(name, _) =>
      OperandFacts(e, c);
    case NumberLiteral(_) =>
  }

  lemma SingleMark(id: nat, j: nat, n: nat, k: nat)
    requires j < 4 && k < 4
    ensures multiset([Mark(id, j)])[Mark(n, k)] == if n == id && k == j then 1 else 0
  {
    if Mark(id, j) == Mark(n, k) {
      MarkInjective(id, j, n, k);
    }
  }

  /** What a statement's code does to the statics and its control-flow
      lines: the slot table only grows and keeps its invariant, and the if
      numbers handed out are exactly those from the old counter to the new
      one, each with its four lines once. */
  ghost predicate Generated(c: Ctx, g: Gen) {
    && Extends(c, g.ctx)
    && (WellSlotted(c) ==> WellSlotted(g.ctx))
    && LabelsExactly(g.lines, c.labelCount, g.ctx.labelCount)
  }

  lemma LabelsJoin(a: seq<string>, b: seq<string>, lo: nat, mid: nat, hi: nat)
    requires lo <= mid <= hi && LabelsExactly(a, lo, mid) && LabelsExactly(b, mid, hi)
    ensures LabelsExactly(a + b, lo, hi)
  {
    forall n: nat, k: nat | k < 4
      ensures multiset(a + b)[Mark(n, k)] == if lo <= n < hi then 1 else 0
    {
      assert multiset(a + b) == multiset(a) + multiset(b);
    }
  }

  /** A simple statement: slot-table changes only, no control flow. */
  lemma SimpleStmtFacts(s: Stmt, c: Ctx)
    requires !s.IfStmt?
    ensures GenStmt(s, c).Ok? ==> Generated(c, GenStmt(s, c).value) && GenStmt(s, c).value.ctx.labelCount == c.labelCount
  {
    var c1 := if s.VarDecl? || s.VarDeclAssign? then Alloc(c, s.name) else c;
    if s.VarDecl? || s.VarDeclAssign? {
      AllocGivesNextSlot(c, s.name);
      if WellSlotted(c) {
        AllocWellSlotted(c, s.name);
      }
    }
    if s.VarDecl? {
      NoMarks([], c.labelCount);
    } else {
      var e := if s.VarDeclAssign? then s.expr else s.expr;
      var name := if s.VarDeclAssign? then s.name else s.varName;
      ValueFacts(e, c1);
      var value := ValueCode(e, c1);
      if value.Ok? {
        SubscriptOfMissingName(value.value.ctx, name);
        if WellSlotted(value.value.ctx) {
          SubscriptWellSlotted(value.value.ctx, name);
        }
        var g := GenStmt(s, c).value;
        assert g.lines == value.value.lines + [Store(SlotOf(value.value.ctx, name))];
        assert Unmarked(Store(SlotOf(value.value.ctx, name)));
        NoMarks(g.lines, c.labelCount);
        ExtendsTransitive(c, c1, value.value.ctx);
        ExtendsTransitive(c, value.value.ctx, g.ctx);
      }
    }
  }

  lemma {:induction false} GenStmtFacts(s: Stmt, c: Ctx)
    ensures GenStmt(s, c).Ok? ==> Generated(c, GenStmt(s, c).value)
    decreases s, 2
  {
    if s.IfStmt? {
      GenIfFacts(s.condition, s.thenBody, s.elseBody, c);
    } else {
      SimpleStmtFacts(s, c);
    }
  }

  lemma {:induction false} GenIfFacts(cond: Expr, thenBody: seq<Stmt>, elseBody: seq<Stmt>, c: Ctx)
    ensures GenIf(cond, thenBody, elseBody, c).Ok? ==> Generated(c, GenIf(cond, thenBody, elseBody, c).value)
    decreases IfStmt(cond, thenBody, elseBody), 1
  {
    var id := c.labelCount;
    var c1 := c.(labelCount := id + 1);
    var condCode := ValueCode(cond, c1);
    if condCode.Ok? {
      ValueFacts(cond, c1);
      var s := IfStmt(cond, thenBody, elseBody);
      var rest := GenBranches(s, id, condCode.value.ctx);
      GenBranchesFacts(s, id, condCode.value.ctx);
      if rest.Ok? {
        var g := Gen(condCode.value.lines + [Jnz(id)] + rest.value.lines, rest.value.ctx);
        assert GenIf(cond, thenBody, elseBody, c) == Ok(g);
        IfCount(condCode.value.lines, rest.value.lines, id, rest.value.ctx.labelCount);
        ExtendsTransitive(c, condCode.value.ctx, g.ctx);
        if WellSlotted(c) {
          assert WellSlotted(c1);
        }
      }
    }
  }

  /** The lines of the branch part of if number `id`: the if numbers from
      `lo` to `hi` with their four lines once each (the bodies), plus the
      jump, else label and end label of `id` itself. */
  ghost predicate BranchLabels(lines: seq<string>, id: nat, lo: nat, hi: nat) {
    forall n: nat, k: nat :: k < 4 ==>
      multiset(lines)[Mark(n, k)] == (if lo <= n < hi then 1 else 0) + (if n == id && k != 0 then 1 else 0)
  }

  lemma {:induction false} GenBranchesFacts(s: Stmt, id: nat, c: Ctx)
    requires s.IfStmt?
    ensures var r := GenBranches(s, id, c);
      r.Ok? ==>
        && Extends(c, r.value.ctx)
        && (WellSlotted(c) ==> WellSlotted(r.value.ctx))
        && BranchLabels(r.value.lines, id, c.labelCount, r.value.ctx.labelCount)
    decreases s, 0
  {
    var thenCode := GenStmts(s.thenBody, c);
    if thenCode.Ok? {
      GenStmtsFacts(s.thenBody, c);
      var elseCode := GenStmts(s.elseBody, thenCode.value.ctx);
      if elseCode.Ok? {
        GenStmtsFacts(s.elseBody, thenCode.value.ctx);
        ExtendsTransitive(c, thenCode.value.ctx, elseCode.value.ctx);
        var g := GenBranches(s, id, c).value;
        BranchCount(thenCode.value.lines, elseCode.value.lines, id,
                    c.labelCount, thenCode.value.ctx.labelCount, elseCode.value.ctx.labelCount);
      }
    }
  }

  /** Counting the control-flow lines of the branch part. */
  lemma BranchCount(thenLines: seq<string>, elseLines: seq<string>, id: nat, lo: nat, mid: nat, hi: nat)
    requires lo <= mid <= hi
    requires LabelsExactly(thenLines, lo, mid) && LabelsExactly(elseLines, mid, hi)
    ensures BranchLabels(thenLines + [Jmp(id), ElseLabel(id)] + elseLines + [EndifLabel(id)], id, lo, hi)
  {
    var lines := thenLines + [Jmp(id), ElseLabel(id)] + elseLines + [EndifLabel(id)];
    assert lines == thenLines + [Mark(id, 1)] + [Mark(id, 2)] + elseLines + [Mark(id, 3)];
    assert multiset(lines) == multiset(thenLines) + multiset([Mark(id, 1)]) + multiset([Mark(id, 2)])
                              + multiset(elseLines) + multiset([Mark(id, 3)]);
    forall n: nat, k: nat | k < 4
      ensures multiset(lines)[Mark(n, k)] == (if lo <= n < hi then 1 else 0) + (if n == id && k != 0 then 1 else 0)
    {
      SingleMark(id, 1, n, k);
      SingleMark(id, 2, n, k);
      SingleMark(id, 3, n, k);
    }
  }

  /** Counting the control-flow lines of a whole if statement. */
  lemma IfCount(condLines: seq<string>, rest: seq<string>, id: nat, hi: nat)
    requires id < hi && AllUnmarked(condLines) && BranchLabels(rest, id, id + 1, hi)
    ensures LabelsExactly(condLines + [Jnz(id)] + rest, id, hi)
  {
    var lines := condLines + [Jnz(id)] + rest;
    assert lines == condLines + [Mark(id, 0)] + rest;
    assert multiset(lines) == multiset(condLines) + multiset([Mark(id, 0)]) + multiset(rest);
    NoMarks(condLines, 0);
    forall n: nat, k: nat | k < 4
      ensures multiset(lines)[Mark(n, k)] == if id <= n < hi then 1 else 0
    {
      SingleMark(id, 0, n, k);
    }
  }

  lemma {:induction false} GenStmtsFacts(ss: seq<Stmt>, c: Ctx)
    ensures GenStmts(ss, c).Ok? ==> Generated(c, GenStmts(ss, c).value)
    decreases ss, 0
  {
    if ss == [] {
      NoMarks([], c.labelCount);
    } else {
      var init := GenStmts(ss[..|ss| - 1], c);
      if init.Ok? {
        GenStmtsFacts(ss[..|ss| - 1], c);
        var last := GenStmt(ss[|ss| - 1], init.value.ctx);
        if last.Ok? {
          GenStmtFacts(ss[|ss| - 1], init.value.ctx);
          ExtendsTransitive(c, init.value.ctx, last.value.ctx);
          LabelsJoin(init.value.lines, last.value.lines, c.labelCount, init.value.ctx.labelCount, last.value.ctx.labelCount);
        }
      }
    }
  }

  /** A program's code is the code of its first part followed by the code
      of the rest, generated from the state the first part left; a failure
      in the first part is a failure of the whole. */
  lemma {:induction false} GenStmtsAppend(a: seq<Stmt>, b: seq<Stmt>, c: Ctx)
    ensures GenStmts(a, c).Err? ==> GenStmts(a + b, c).Err?
    ensures GenStmts(a, c).Ok? ==>
      var first := GenStmts(a, c).value;
      var rest := GenStmts(b, first.ctx);
      && (rest.Err? ==> GenStmts(a + b, c).Err?)
      && (rest.Ok? ==> GenStmts(a + b, c) == Ok(Gen(first.lines + rest.value.lines, rest.value.ctx)))
    decreases |b|
  {
    if b == [] {
      assert a + b == a;
      if GenStmts(a, c).Ok? {
        assert GenStmts(a, c).value.lines + [] == GenStmts(a, c).value.lines;
      }
    } else {
      var init := b[..|b| - 1];
      assert (a + b)[..|a + b| - 1] == a + init;
      assert (a + b)[|a + b| - 1] == b[|b| - 1];
      GenStmtsAppend(a, init, c);
      if GenStmts(a, c).Ok? {
        var first := GenStmts(a, c).value;
        var restInit := GenStmts(init, first.ctx);
        if restInit.Ok? {
          var last := GenStmt(b[|b| - 1], restInit.value.ctx);
          if last.Ok? {
            assert first.lines + restInit.value.lines + last.value.lines
                == first.lines + (restInit.value.lines + last.value.lines);
          }
        }
      }
    }
  }

  /** Assigning to a name that neither the table nor the right-hand side
      knows stores to slot 0, enters the name with slot 0 and leaves the
      slot counter where it was. */
  lemma UndeclaredTarget(name: string, e: Expr, c: Ctx)
    requires ValueCode(e, c).Ok? && name !in ValueCode(e, c).value.ctx.memMap
    ensures var value := ValueCode(e, c).value;
      var r := GenStmt(AssignStmt(name, e), c);
      && r.Ok?
      && r.value.lines == value.lines + [Store(0)]
      && r.value.ctx.memMap == value.ctx.memMap[name := 0]
      && r.value.ctx.memLoc == value.ctx.memLoc
  {
  }

  /** `int name;` emits nothing; it only reserves the slot a later
      `int name = e;` or `name = e;` stores to. */
  lemma DeclarationEmitsNothing(name: string, c: Ctx)
    ensures var r := GenStmt(VarDecl(name), c);
      && r.Ok? && r.value.lines == []
      && name in r.value.ctx.memMap
      && r.value.ctx.memMap[name] == (if name in c.memMap then c.memMap[name] else c.memLoc)
      && r.value.ctx.labelCount == c.labelCount
  {
    AllocGivesNextSlot(c, name);
  }

  /** A declaration of a new name stores the value into the slot the
      declaration allocates, which is the counter before it. */
  lemma DeclaredTarget(name: string, e: Expr, c: Ctx)
    requires name !in c.memMap && ValueCode(e, Alloc(c, name)).Ok?
    ensures var r := GenStmt(VarDeclAssign(name, e), c);
      && r.Ok?
      && r.value.lines[|r.value.lines| - 1] == Store(c.memLoc)
      && r.value.ctx.memMap[name] == c.memLoc
      && r.value.ctx.memLoc >= c.memLoc + 1
  {
    ValueFacts(e, Alloc(c, name));
  }

  /** An if without else still emits its jump and both labels, one after
      the other, at the end of its code. */
  lemma EmptyElseScaffold(cond: Expr, thenBody: seq<Stmt>, c: Ctx)
    ensures var r := GenIf(cond, thenBody, [], c);
      r.Ok? ==>
        && |r.value.lines| >= 4
        && r.value.lines[|r.value.lines| - 3..] == [Jmp(c.labelCount), ElseLabel(c.labelCount), EndifLabel(c.labelCount)]
  {
    var id := c.labelCount;
    if GenIf(cond, thenBody, [], c).Ok? {
      var condCode, rest := GenIfParts(cond, thenBody, [], c);
      var thenCode, elseCode := BranchesParts(IfStmt(cond, thenBody, []), id, condCode.ctx);
      assert GenStmts([], thenCode.ctx) == Ok(Gen([], thenCode.ctx));
      var pre := condCode.lines + [Jnz(id)];
      var code := pre + (thenCode.lines + [Jmp(id), ElseLabel(id)] + [] + [EndifLabel(id)]);
      assert code == (pre + thenCode.lines) + [Jmp(id), ElseLabel(id), EndifLabel(id)];
    }
  }

  /** The pieces of a successful `GenIf`: the condition's code and the branch part. */
  lemma GenIfParts(cond: Expr, thenBody: seq<Stmt>, elseBody: seq<Stmt>, c: Ctx) returns (condCode: Gen, rest: Gen)
    requires GenIf(cond, thenBody, elseBody, c).Ok?
    ensures ValueCode(cond, c.(labelCount := c.labelCount + 1)) == Ok(condCode)
    ensures GenBranches(IfStmt(cond, thenBody, elseBody), c.labelCount, condCode.ctx) == Ok(rest)
    ensures GenIf(cond, thenBody, elseBody, c) == Ok(Gen(condCode.lines + [Jnz(c.labelCount)] + rest.lines, rest.ctx))
  {
    condCode := ValueCode(cond, c.(labelCount := c.labelCount + 1)).value;
    rest := GenBranches(IfStmt(cond, thenBody, elseBody), c.labelCount, condCode.ctx).value;
  }

  /** The pieces of a successful `GenBranches`: the code of both bodies. */
  lemma BranchesParts(s: Stmt, id: nat, c: Ctx) returns (thenCode: Gen, elseCode: Gen)
    requires s.IfStmt? && GenBranches(s, id, c).Ok?
    ensures GenStmts(s.thenBody, c) == Ok(thenCode)
    ensures GenStmts(s.elseBody, thenCode.ctx) == Ok(elseCode)
    ensures GenBranches(s, id, c) == Ok(Gen(thenCode.lines + [Jmp(id), ElseLabel(id)] + elseCode.lines + [EndifLabel(id)], elseCode.ctx))
  {
    thenCode := GenStmts(s.thenBody, c).value;
    elseCode := GenStmts(s.elseBody, thenCode.ctx).value;
  }
}
