/** The compiler as the driver in src/main.cpp runs it: `tokenize`, `parse`,
    then `gencode` on the program, all sharing one set of statics that
    starts fresh. The `.text` header, the `hlt` trailer and the console
    output of the driver are not part of this model. */
module Pipeline {
  import opened Results
  import opened Tokens
  import opened Ast
  import opened Context
  import opened Lexing
  import opened Grammar
  import opened Generation
  import Parsing
  import Emitter
  import LexerProps
  import ParserProps
  import GenerationProps

  /** Parsing then code generation of a token list, from a fresh context. */
  function CompileTokens(toks: seq<Token>): Result<Gen> {
    var program :- ParseProgram(toks, Fresh());
    GenStmts(program.node, program.ctx)
  }

  /** The whole compiler on a source text: the emitted lines and the final statics. */
  function Compile(src: string): Result<Gen> {
    CompileTokens(Lex(src))
  }

  /** The lexer only ever gives `+`, `-` and `==` their own texts. */
  lemma LexedOperatorsCanonical(src: string)
    ensures ParserProps.OperatorsCanonical(Lex(src))
  {
    LexerProps.ScanWellFormed(src);
    var toks := Lex(src);
    forall i | 0 <= i < |toks|
      ensures toks[i].kind == Plus ==> toks[i].text == "+"
      ensures toks[i].kind == Minus ==> toks[i].text == "-"
      ensures toks[i].kind == Eq ==> toks[i].text == "=="
    {
      if i < |Scan(src)| {
        assert LexerProps.WellFormed(Scan(src)[i]);
        assert toks[i] == Scan(src)[i];
      }
    }
  }

  /** Code generation cannot fail on what the parser built from lexer
      output: compiling fails exactly when parsing does. */
  lemma CompileFailsOnlyInParser(src: string)
    ensures Compile(src).Ok? <==> ParseProgram(Lex(src), Fresh()).Ok?
  {
    var parsed := ParseProgram(Lex(src), Fresh());
    if parsed.Ok? {
      LexedOperatorsCanonical(src);
      ParserProps.ProgramFacts(Lex(src), Fresh());
      GenerationProps.KnownOpsAllEmittable(parsed.value.node);
      GenerationProps.GenStmtsOk(parsed.value.node, parsed.value.ctx);
    }
  }

  /** In a compiled program, if number `n` for each `n` below the final
      counter has its `jnz %else_n`, `jmp %endif_n`, `else_n:` and
      `endif_n:` exactly once, and no other jump or label appears; the slot
      table ends numbered 1, 2, 3, ... without gaps or clashes. */
  lemma LabelsDefinedOnce(src: string)
    ensures var r := Compile(src);
      r.Ok? ==>
        && GenerationProps.LabelsExactly(r.value.lines, 0, r.value.ctx.labelCount)
        && WellSlotted(r.value.ctx)
  {
    var parsed := ParseProgram(Lex(src), Fresh());
    if parsed.Ok? {
      FreshWellSlotted();
      ParserProps.ProgramFacts(Lex(src), Fresh());
      GenerationProps.GenStmtsFacts(parsed.value.node, parsed.value.ctx);
    }
  }

  /** `main`: a fresh lexer, a parser over its tokens, then `gencode` into
      an output stream. The output is exactly the lines `Compile` specifies. */
  method CompileSource(src: string) returns (r: Result<seq<string>>)
    ensures r.Ok? <==> Compile(src).Ok?
    ensures r.Ok? ==> r.value == Compile(src).value.lines
  {
    var toks := LexSource(src);
    var statics := new Statics();
    var parser := new Parsing.Parser(toks, statics);
    var program :- parser.Parse();
    var out := new Emitter.OutStream();
    var outcome := Emitter.EmitProgram(program, statics, out);
    if outcome.Fail? {
      return Err;
    }
    r := Ok(out.lines);
  }
}
