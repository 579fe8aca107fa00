/** `class Parser` of src/parser.cpp: a cursor over the token list, advanced
    in place by the parsing methods. Building an `Identifier` writes the
    process-wide slot table, which the parser reaches as `statics`. Each
    method is proved to do what the function of the same name in module
    Grammar specifies; a thrown exception is an `Err` result. */
module Parsing {
  import opened Results
  import opened Decimal
  import opened Tokens
  import opened Ast
  import opened Context
  import Grammar

  /** The `Identifier` constructor: allocates the name's slot if it has none
      and records the slot in the node. */
  method NewIdentifier(statics: Statics, name: string) returns (e: Expr)
    modifies statics
    ensures statics.State() == Alloc(old(statics.State()), name)
    ensures e == Identifier(name, statics.memMap[name])
  {
    statics.Allocate(name);
    e := Identifier(name, statics.memMap[name]);
  }

  /** A statement result as `parseStatement` returns it. */
  function Lift(s: Result<Stmt>): Result<Option<Stmt>> {
    match s
    case Ok(stmt) => Ok(Some(stmt))
    case Err => Err
  }

  class Parser {
    const tokens: seq<Token>
    var current: nat
    const statics: Statics

    /** The cursor never passes the end of the token list. */
    ghost predicate Valid()
      reads this
    {
      current <= |tokens|
    }

    /** The method's result `r` and the parser's new state are what `spec`
        gives: the same success or failure, and on success the same node,
        cursor and slot table. */
    ghost predicate Follows<T>(r: Result<T>, spec: Result<Grammar.Parsed<T>>)
      reads this, statics
    {
      && r.Ok? == spec.Ok?
      && (r.Ok? ==> r.value == spec.value.node && current == spec.value.pos && statics.State() == spec.value.ctx)
    }

    constructor (toks: seq<Token>, st: Statics)
      ensures Valid() && tokens == toks && current == 0 && statics == st
    {
      tokens := toks;
      current := 0;
      statics := st;
    }

    predicate IsEnd()
      reads this
    {
      current >= |tokens| || tokens[current].kind == Eof
    }

    predicate Match(k: TokenType)
      reads this
    {
      if IsEnd() then false else tokens[current].kind == k
    }

    method Advance()
      requires Valid()
      modifies this`current
      ensures Valid() && current == Grammar.Advance(tokens, old(current))
    {
      if !IsEnd() {
        current := current + 1;
      }
    }

    method Expect(k: TokenType) returns (r: Outcome)
      requires Valid()
      modifies this`current
      ensures Valid()
      ensures r.Pass? == Grammar.Match(tokens, old(current), k)
      ensures current == if r.Pass? then old(current) + 1 else old(current)
    {
      if !Match(k) {
        return Fail;
      }
      Advance();
      r := Pass;
    }

    /** Two `expect` calls in a row. */
    method ExpectBoth(a: TokenType, b: TokenType) returns (r: Outcome)
      requires Valid()
      modifies this`current
      ensures Valid()
      ensures r.Pass? == (Grammar.Match(tokens, old(current), a) && Grammar.Match(tokens, old(current) + 1, b))
      ensures r.Pass? ==> current == old(current) + 2
    {
      r := Expect(a);
      if r.Pass? {
        r := Expect(b);
      }
    }

    method ParsePrimary() returns (r: Result<Expr>)
      requires Valid()
      modifies this`current, statics
      ensures Follows(r, Grammar.ParsePrimary(tokens, old(current), old(statics.State())))
    {
      if Match(Num) {
        var text := tokens[current].text;
        if text == [] || !IsDigits(text) {
          return Err;
        }
        Advance();
        r := Ok(NumberLiteral(Value(text)));
      } else if Match(Id) {
        var name := tokens[current].text;
        Advance();
        var e := NewIdentifier(statics, name);
        r := Ok(e);
      } else {
        r := Err;
      }
    }

    method ParseAddition() returns (r: Result<Expr>)
      requires Valid()
      modifies this`current, statics
      ensures Follows(r, Grammar.ParseAddition(tokens, old(current), old(statics.State())))
    {
      ghost var spec := Grammar.ParseAddition(tokens, current, statics.State());
      var expr :- ParsePrimary();
      while Match(Plus) || Match(Minus)
        invariant Valid()
        invariant Grammar.AdditionTail(tokens, current, statics.State(), expr) == spec
        decreases |tokens| - current
      {
        var op := tokens[current].text;
        Advance();
        var right :- ParsePrimary();
        expr := BinaryExpr(expr, op, right);
      }
      r := Ok(expr);
    }

    method ParseComparison() returns (r: Result<Expr>)
      requires Valid()
      modifies this`current, statics
      ensures Follows(r, Grammar.ParseComparison(tokens, old(current), old(statics.State())))
    {
      var expr :- ParseAddition();
      if Match(Eq) {
        var op := tokens[current].text;
        Advance();
        var right :- ParseAddition();
        expr := BinaryExpr(expr, op, right);
      }
      r := Ok(expr);
    }

    /** `parseExpression` forwards to `parseComparison`. */
    method ParseExpression() returns (r: Result<Expr>)
      requires Valid()
      modifies this`current, statics
      ensures Follows(r, Grammar.ParseComparison(tokens, old(current), old(statics.State())))
    {
      r := ParseComparison();
    }

    method ParseVarDecl() returns (r: Result<Stmt>)
      requires Valid()
      modifies this`current, statics
      ensures Follows(r, Grammar.ParseVarDecl(tokens, old(current), old(statics.State())))
    {
      var start := Expect(IntKw);
      if start.Fail? {
        return Err;
      }
      if !Match(Id) {
        return Err;
      }
      var name := tokens[current].text;
      Advance();
      :- Expect(Semi);
      r := Ok(VarDecl(name));
    }

    method ParseVarDeclAssign() returns (r: Result<Stmt>)
      requires Valid()
      modifies this`current, statics
      ensures Follows(r, Grammar.ParseVarDeclAssign(tokens, old(current), old(statics.State())))
    {
      ghost var c0 := statics.State();
      :- Expect(IntKw);
      if !Match(Id) {
        return Err;
      }
      var name := tokens[current].text;
      Advance();
      :- Expect(Assign);
      assert statics.State() == c0;
      var e :- ParseExpression();
      :- Expect(Semi);
      r := Ok(VarDeclAssign(name, e));
    }

    method ParseAssignment() returns (r: Result<Stmt>)
      requires Valid() && Match(Id)
      modifies this`current, statics
      ensures Follows(r, Grammar.ParseAssignment(tokens, old(current), old(statics.State())))
    {
      ghost var c0 := statics.State();
      var name := tokens[current].text;
      Advance();
      :- Expect(Assign);
      assert statics.State() == c0;
      var e :- ParseExpression();
      :- Expect(Semi);
      r := Ok(AssignStmt(name, e));
    }

    method ParseStatement() returns (r: Result<Option<Stmt>>)
      requires Valid()
      modifies this`current, statics
      ensures Follows(r, Grammar.ParseStatement(tokens, old(current), old(statics.State())))
      decreases |tokens| - current, 2
    {
      if Match(IntKw) {
        var savedPos := current;
        Advance();
        if Match(Id) {
          Advance();
          if Match(Assign) {
            current := savedPos;
            var s :- ParseVarDeclAssign();
            r := Ok(Some(s));
          } else {
            current := savedPos;
            var s :- ParseVarDecl();
            r := Ok(Some(s));
          }
        } else {
          current := savedPos;
          var s := ParseVarDecl();
          r := Lift(s);
        }
      } else if Match(IfKw) {
        var s :- ParseIfStmt();
        r := Ok(Some(s));
      } else if Match(Id) {
        var s :- ParseAssignment();
        r := Ok(Some(s));
      } else {
        Advance();
        r := Ok(None);
      }
    }

    /** The first steps of `parseIfStmt`: `if ( expression ) {`. */
    method ParseIfHead() returns (r: Result<Expr>)
      requires Valid()
      modifies this`current, statics
      ensures var spec := Grammar.ParseIfHead(tokens, old(current), old(statics.State()));
        && r.Ok? == spec.Ok?
        && (r.Ok? ==> r.value == spec.value.node && current == spec.value.pos && statics.State() == spec.value.ctx)
    {
      ghost var c0 := statics.State();
      :- ExpectBoth(IfKw, LParen);
      assert statics.State() == c0;
      var condition :- ParseExpression();
      :- ExpectBoth(RParen, LBrace);
      r := Ok(condition);
    }

    method ParseIfStmt() returns (r: Result<Stmt>)
      requires Valid()
      modifies this`current, statics
      ensures Follows(r, Grammar.ParseIfStmt(tokens, old(current), old(statics.State())))
      decreases |tokens| - current, 1
    {
      var condition :- ParseIfHead();
      r := ParseIfRest(condition);
    }

    /** The rest of `parseIfStmt`: a new IfStmt node, its then body up to
        the `}`, and the else part. */
    method ParseIfRest(condition: Expr) returns (r: Result<Stmt>)
      requires Valid()
      modifies this`current, statics
      ensures Follows(r, Grammar.ParseIfRest(tokens, old(current), old(statics.State()), condition))
      decreases |tokens| - current, 4
    {
      var ifStmt := NewIfStmt(condition);
      var thenBody :- ParseBlock();
      ifStmt := ifStmt.(thenBody := thenBody);
      :- Expect(RBrace);
      var elseBody :- ParseElse();
      ifStmt := ifStmt.(elseBody := elseBody);
      r := Ok(ifStmt);
    }

    /** The tail of `parseIfStmt`: `else { statements }` when the next token
        is `else`, otherwise nothing (and the else body stays empty). */
    method ParseElse() returns (r: Result<seq<Stmt>>)
      requires Valid()
      modifies this`current, statics
      ensures Follows(r, Grammar.ParseElse(tokens, old(current), old(statics.State())))
      decreases |tokens| - current, 0
    {
      if !Match(ElseKw) {
        return Ok([]);
      }
      Advance();
      :- Expect(LBrace);
      var elseBody :- ParseBlock();
      :- Expect(RBrace);
      r := Ok(elseBody);
    }

    /** The loop `parseIfStmt` runs for each of its bodies: statements until
        a `}` or the end, the null results dropped. */
    method ParseBlock() returns (r: Result<seq<Stmt>>)
      requires Valid()
      modifies this`current, statics
      ensures Follows(r, Grammar.ParseStatements(tokens, old(current), old(statics.State()), true))
      decreases |tokens| - current, 3
    {
      var body := [];
      Grammar.PrependNothing(Grammar.ParseStatements(tokens, current, statics.State(), true));
      while !Match(RBrace) && !IsEnd()
        invariant Valid() && old(current) <= current
        invariant Grammar.Prepend(body, Grammar.ParseStatements(tokens, current, statics.State(), true))
               == Grammar.ParseStatements(tokens, old(current), old(statics.State()), true)
        decreases |tokens| - current
      {
        Grammar.PrependStep(body, tokens, current, statics.State(), true);
        ghost var before := body;
        var stmt :- ParseStatement();
        if stmt.Some? {
          body := body + [stmt.value];
        }
        assert body == before + Grammar.Kept(stmt);
      }
      assert body + [] == body;
      r := Ok(body);
    }

    /** `parse`: statements until the end, the null results dropped, appended
        one by one to a new program node. */
    method Parse() returns (r: Result<ProgramNode>)
      requires Valid()
      modifies this`current, statics
      ensures var spec := Grammar.ParseStatements(tokens, old(current), old(statics.State()), false);
        && r.Ok? == spec.Ok?
        && (r.Ok? ==> fresh(r.value) && r.value.statements == spec.value.node
                      && current == spec.value.pos && statics.State() == spec.value.ctx)
    {
      var program := new ProgramNode();
      Grammar.PrependNothing(Grammar.ParseStatements(tokens, current, statics.State(), false));
      while !IsEnd()
        invariant Valid() && fresh(program)
        invariant Grammar.Prepend(program.statements, Grammar.ParseStatements(tokens, current, statics.State(), false))
               == Grammar.ParseStatements(tokens, old(current), old(statics.State()), false)
        decreases |tokens| - current
      {
        Grammar.PrependStep(program.statements, tokens, current, statics.State(), false);
        ghost var before := program.statements;
        var stmt :- ParseStatement();
        if stmt.Some? {
          program.AddStatement(stmt.value);
        }
        assert program.statements == before + Grammar.Kept(stmt);
      }
      assert program.statements + [] == program.statements;
      r := Ok(program);
    }
  }
}
