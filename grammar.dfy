/** The recursive-descent parser of src/parser.cpp as functions over the
    token list, a cursor and the slot table (which the parser changes, since
    building an `Identifier` allocates its slot). Each function gives the node
    built, the cursor after it and the slot table after it, or `Err` where the
    source throws. The class `Parser` in module Parsing is proved against these. */
module Grammar {
  import opened Results
  import opened Decimal
  import opened Tokens
  import opened Ast
  import opened Context

  datatype Parsed<+T> = Parsed(node: T, pos: nat, ctx: Ctx)

  /** `isEnd`: past the last token or at an EOF token. */
  predicate IsEnd(toks: seq<Token>, p: nat) {
    p >= |toks| || toks[p].kind == Eof
  }

  /** `match`: false at the end, so EOF is never matched. */
  predicate Match(toks: seq<Token>, p: nat, k: TokenType) {
    !IsEnd(toks, p) && toks[p].kind == k
  }

  /** `advance`: a no-op at the end. */
  function Advance(toks: seq<Token>, p: nat): nat {
    if IsEnd(toks, p) then p else p + 1
  }

  /* `expect(k)` throws unless `match(k)` holds and then advances by one
     token; below it reads `if !Match(toks, q, k) then Err else ...` with
     the cursor at `q + 1` afterwards. A thrown exception is `Err`. */

  /** `parsePrimary`: one NUM token (read as a decimal number) or one ID
      token (a new `Identifier`, which allocates the name's slot). */
  function ParsePrimary(toks: seq<Token>, p: nat, c: Ctx): (r: Result<Parsed<Expr>>)
    ensures r.Ok? ==> p < |toks| && r.value.pos == p + 1
  {
    if Match(toks, p, Num) then
      var text := toks[p].text;
      if text != [] && IsDigits(text) then Ok(Parsed(NumberLiteral(Value(text)), p + 1, c))
      else Err
    else if Match(toks, p, Id) then
      var name := toks[p].text;
      var c' := Alloc(c, name);
      Ok(Parsed(Identifier(name, c'.memMap[name]), p + 1, c'))
    else
      Err
  }

  /** The loop of `parseAddition` with `left` built so far: each `+` or `-`
      and the primary after it wrap `left` into a new BinaryExpr. */
  function AdditionTail(toks: seq<Token>, p: nat, c: Ctx, left: Expr): (r: Result<Parsed<Expr>>)
    requires p <= |toks|
    ensures r.Ok? ==> p <= r.value.pos <= |toks|
    decreases |toks| - p
  {
    if Match(toks, p, Plus) || Match(toks, p, Minus) then
      match ParsePrimary(toks, p + 1, c)
      case Err => Err
      case Ok(right) => AdditionTail(toks, right.pos, right.ctx, BinaryExpr(left, toks[p].text, right.node))
    else
      Ok(Parsed(left, p, c))
  }

  /** `parseAddition`. */
  function ParseAddition(toks: seq<Token>, p: nat, c: Ctx): (r: Result<Parsed<Expr>>)
    requires p <= |toks|
    ensures r.Ok? ==> p < r.value.pos <= |toks|
  {
    match ParsePrimary(toks, p, c)
    case Err => Err
    case Ok(first) => AdditionTail(toks, first.pos, first.ctx, first.node)
  }

  /** `parseComparison` (which `parseExpression` forwards to): an addition,
      then at most one `==` and a second addition. */
  function ParseComparison(toks: seq<Token>, p: nat, c: Ctx): (r: Result<Parsed<Expr>>)
    requires p <= |toks|
    ensures r.Ok? ==> p < r.value.pos <= |toks|
  {
    match ParseAddition(toks, p, c)
    case Err => Err
    case Ok(left) =>
      if !Match(toks, left.pos, Eq) then Ok(left) else
      match ParseAddition(toks, left.pos + 1, left.ctx)
      case Err => Err
      case Ok(right) => Ok(Parsed(BinaryExpr(left.node, toks[left.pos].text, right.node), right.pos, right.ctx))
  }

  /** `parseVarDecl`: `int ID ;`. */
  function ParseVarDecl(toks: seq<Token>, p: nat, c: Ctx): (r: Result<Parsed<Stmt>>)
    requires p <= |toks|
    ensures r.Ok? ==> p < r.value.pos <= |toks| && r.value.ctx == c
    ensures r.Ok? ==> toks[r.value.pos - 1].kind == Semi && r.value.node.VarDecl?
  {
    if !Match(toks, p, IntKw) || !Match(toks, p + 1, Id) || !Match(toks, p + 2, Semi) then Err
    else Ok(Parsed(VarDecl(toks[p + 1].text), p + 3, c))
  }

  /** `parseVarDeclAssign`: `int ID = expression ;`. */
  function ParseVarDeclAssign(toks: seq<Token>, p: nat, c: Ctx): (r: Result<Parsed<Stmt>>)
    requires p <= |toks|
    ensures r.Ok? ==> p < r.value.pos <= |toks|
    ensures r.Ok? ==> toks[r.value.pos - 1].kind == Semi && r.value.node.VarDeclAssign?
  {
    if !Match(toks, p, IntKw) || !Match(toks, p + 1, Id) || !Match(toks, p + 2, Assign) then Err else
    match ParseComparison(toks, p + 3, c)
    case Err => Err
    case Ok(e) =>
      if !Match(toks, e.pos, Semi) then Err
      else Ok(Parsed(VarDeclAssign(toks[p + 1].text, e.node), e.pos + 1, e.ctx))
  }

  /** `parseAssignment`: `ID = expression ;`; the caller has matched the ID. */
  function ParseAssignment(toks: seq<Token>, p: nat, c: Ctx): (r: Result<Parsed<Stmt>>)
    requires Match(toks, p, Id)
    ensures r.Ok? ==> p < r.value.pos <= |toks|
    ensures r.Ok? ==> toks[r.value.pos - 1].kind == Semi && r.value.node.AssignStmt?
  {
    if !Match(toks, p + 1, Assign) then Err else
    match ParseComparison(toks, p + 2, c)
    case Err => Err
    case Ok(e) =>
      if !Match(toks, e.pos, Semi) then Err
      else Ok(Parsed(AssignStmt(toks[p].text, e.node), e.pos + 1, e.ctx))
  }

  /** The statement a `parseStatement` result adds: none for a null result. */
  function Kept(s: Option<Stmt>): seq<Stmt> {
    if s.Some? then [s.value] else []
  }

  /** `parseStatement`: dispatch on the current token. After `int`, a look
      ahead over `ID =` that restores the cursor decides between the two
      declaration forms; any token that starts no statement is consumed and
      dropped (a null result). */
  function ParseStatement(toks: seq<Token>, p: nat, c: Ctx): (r: Result<Parsed<Option<Stmt>>>)
    requires p <= |toks|
    ensures r.Ok? ==> r.value.pos <= |toks|
    ensures r.Ok? && !IsEnd(toks, p) ==> p < r.value.pos
    ensures r.Ok? && r.value.node.Some? ==> p < r.value.pos
    ensures r.Ok? && r.value.node.Some? ==> Closes(toks, r.value.node.value, r.value.pos)
    decreases |toks| - p, 2
  {
    if Match(toks, p, IntKw) then
      var q := Advance(toks, p);
      if Match(toks, q, Id) && Match(toks, Advance(toks, q), Assign) then
        Kept1(toks, p, ParseVarDeclAssign(toks, p, c))
      else
        Kept1(toks, p, ParseVarDecl(toks, p, c))
    else if Match(toks, p, IfKw) then
      Kept1(toks, p, ParseIfStmt(toks, p, c))
    else if Match(toks, p, Id) then
      Kept1(toks, p, ParseAssignment(toks, p, c))
    else
      Ok(Parsed(None, Advance(toks, p), c))
  }

  /** The token before `pos` closes statement `s`: `}` for an if statement, `;` otherwise. */
  predicate Closes(toks: seq<Token>, s: Stmt, pos: nat) {
    0 < pos <= |toks| && toks[pos - 1].kind == (if s.IfStmt? then RBrace else Semi)
  }

  /** A parsed statement, as the non-null result of `parseStatement`. */
  function Kept1(toks: seq<Token>, p: nat, r: Result<Parsed<Stmt>>): (k: Result<Parsed<Option<Stmt>>>)
    requires r.Ok? ==> p < r.value.pos && Closes(toks, r.value.node, r.value.pos)
    ensures k.Ok? <==> r.Ok?
    ensures r.Ok? ==> k.value == Parsed(Some(r.value.node), r.value.pos, r.value.ctx)
  {
    match r
    case Err => Err
    case Ok(s) => Ok(Parsed(Some(s.node), s.pos, s.ctx))
  }

  /** The statement loops: at top level (`parse`) until the end, inside a
      block (`parseIfStmt`) until the end or a `}`. Null results are skipped. */
  function ParseStatements(toks: seq<Token>, p: nat, c: Ctx, inBlock: bool): (r: Result<Parsed<seq<Stmt>>>)
    requires p <= |toks|
    ensures r.Ok? ==> p <= r.value.pos <= |toks|
    decreases |toks| - p, 3
  {
    if IsEnd(toks, p) || (inBlock && Match(toks, p, RBrace)) then
      Ok(Parsed([], p, c))
    else
      match ParseStatement(toks, p, c)
      case Err => Err
      case Ok(first) =>
        match ParseStatements(toks, first.pos, first.ctx, inBlock)
        case Err => Err
        case Ok(rest) => Ok(Parsed(Kept(first.node) + rest.node, rest.pos, rest.ctx))
  }

  /** The head of `parseIfStmt`: `if ( expression ) {`, giving the condition. */
  function ParseIfHead(toks: seq<Token>, p: nat, c: Ctx): (r: Result<Parsed<Expr>>)
    requires p <= |toks|
    ensures r.Ok? ==> p < r.value.pos <= |toks|
  {
    if !Match(toks, p, IfKw) || !Match(toks, p + 1, LParen) then Err else
    match ParseComparison(toks, p + 2, c)
    case Err => Err
    case Ok(cond) =>
      if !Match(toks, cond.pos, RParen) || !Match(toks, cond.pos + 1, LBrace) then Err
      else Ok(Parsed(cond.node, cond.pos + 2, cond.ctx))
  }

  /** `parseIfStmt`: the head, then the rest. */
  function ParseIfStmt(toks: seq<Token>, p: nat, c: Ctx): (r: Result<Parsed<Stmt>>)
    requires p <= |toks|
    ensures r.Ok? ==> p < r.value.pos && r.value.node.IfStmt? && Closes(toks, r.value.node, r.value.pos)
    decreases |toks| - p, 1
  {
    var head := ParseIfHead(toks, p, c);
    if head.Err? then Err else
    ParseIfRest(toks, head.value.pos, head.value.ctx, head.value.node)
  }

  /** The rest of `parseIfStmt` after the head: the then body up to its `}`,
      then an optional else part. */
  function ParseIfRest(toks: seq<Token>, p: nat, c: Ctx, cond: Expr): (r: Result<Parsed<Stmt>>)
    requires p <= |toks|
    ensures r.Ok? ==> p < r.value.pos && r.value.node.IfStmt? && Closes(toks, r.value.node, r.value.pos)
    decreases |toks| - p, 4
  {
    match ParseStatements(toks, p, c, true)
    case Err => Err
    case Ok(thenPart) =>
      if !Match(toks, thenPart.pos, RBrace) then Err else
      match ParseElse(toks, thenPart.pos + 1, thenPart.ctx)
      case Err => Err
      case Ok(elsePart) => Ok(Parsed(IfStmt(cond, thenPart.node, elsePart.node), elsePart.pos, elsePart.ctx))
  }

  /** The else part of `parseIfStmt`: nothing unless the next token is `else`. */
  function ParseElse(toks: seq<Token>, p: nat, c: Ctx): (r: Result<Parsed<seq<Stmt>>>)
    requires p <= |toks|
    ensures r.Ok? ==> p <= r.value.pos <= |toks|
    ensures !Match(toks, p, ElseKw) ==> r == Ok(Parsed([], p, c))
    ensures Match(toks, p, ElseKw) && r.Ok? ==> p < r.value.pos && toks[r.value.pos - 1].kind == RBrace
    decreases |toks| - p, 0
  {
    if !Match(toks, p, ElseKw) then
      Ok(Parsed([], p, c))
    else
      if !Match(toks, p + 1, LBrace) then Err else
      match ParseStatements(toks, p + 2, c, true)
      case Err => Err
      case Ok(body) =>
        if !Match(toks, body.pos, RBrace) then Err
        else Ok(Parsed(body.node, body.pos + 1, body.ctx))
  }

  /** A statement loop's result with the statements `done` already collected in front. */
  function Prepend(done: seq<Stmt>, r: Result<Parsed<seq<Stmt>>>): Result<Parsed<seq<Stmt>>> {
    if r.Ok? then Ok(Parsed(done + r.value.node, r.value.pos, r.value.ctx)) else Err
  }

  lemma PrependNothing(r: Result<Parsed<seq<Stmt>>>)
    ensures Prepend([], r) == r
  {
    if r.Ok? {
      assert [] + r.value.node == r.value.node;
    }
  }

  /** One turn of a statement loop: the statement parsed moves from the
      rest of the loop into the collected prefix (if it is not null). */
  lemma PrependStep(done: seq<Stmt>, toks: seq<Token>, p: nat, c: Ctx, inBlock: bool)
    requires p <= |toks|
    requires !IsEnd(toks, p) && !(inBlock && Match(toks, p, RBrace))
    ensures var s := ParseStatement(toks, p, c);
      && (s.Err? ==> ParseStatements(toks, p, c, inBlock).Err?)
      && (s.Ok? ==> Prepend(done, ParseStatements(toks, p, c, inBlock))
                    == Prepend(done + Kept(s.value.node), ParseStatements(toks, s.value.pos, s.value.ctx, inBlock)))
  {
    var s := ParseStatement(toks, p, c);
    if s.Ok? {
      var rest := ParseStatements(toks, s.value.pos, s.value.ctx, inBlock);
      if rest.Ok? {
        assert ParseStatements(toks, p, c, inBlock) == Ok(Parsed(Kept(s.value.node) + rest.value.node, rest.value.pos, rest.value.ctx));
        assert done + (Kept(s.value.node) + rest.value.node) == (done + Kept(s.value.node)) + rest.value.node;
      } else {
        assert ParseStatements(toks, p, c, inBlock) == Err;
      }
    }
  }

  /** `parse`: the whole token list, from the first token. */
  function ParseProgram(toks: seq<Token>, c: Ctx): Result<Parsed<seq<Stmt>>> {
    ParseStatements(toks, 0, c, false)
  }
}
