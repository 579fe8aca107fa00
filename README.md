# SimpleLang compiler, modelled in Dafny

This project models the three stages of the SimpleLang toy compiler:
- the lexer (`Lexer::tokenize` and its helpers);
- the recursive-descent parser (`Parser::parse` and the `parse*` methods);
- the code generator (the `gencode`, `gencodeL` and `gencodeR` methods of the AST node classes).

The compiler turns a program of `int` declarations, assignments, `+`/`-`/`==` expressions and `if`/`else` blocks into lines of assembly text.

Each stage is written twice:
- **as functions** that say what the stage computes: `Lexing.Scan`/`Lex`, the `Grammar` functions and the `Generation` functions;
- **as imperative code in the shape of the source**: the class `Lexing.Lexer` with its `pos` cursor and token list, the class `Parsing.Parser` with its `current` cursor, and the methods of `Emitter` that write into an `OutStream` and update a `Context.Statics` object.

Every method is proved to do exactly what its function says. The properties of the compiler are then proved about the functions.

The module `ParserRoundTrip` prints a syntax tree back to tokens and proves that the parser gives the tree back from them, with each identifier's slot as the parser allocates it. Written out as text, such a program lexes to those tokens and compiles.

## Design

The process-wide statics are the slot table `Identifier::mem_map`, the next free slot `Identifier::mem_loc` and the function-static `labelCount` of `IfStmt::gencode`.
- The datatype `Context.Ctx` holds them and the class `Context.Statics` owns them.
- Each compilation starts from `Context.Fresh()`: an empty map, next slot 1 and label 0.

Slots are allocated in two phases, as in the source.
- The parser allocates when it builds an `Identifier`, so the parsing functions thread a `Ctx`.
- Declarations allocate only during code generation.
- An assignment to a name never seen reads `mem_map[name]`, which inserts slot 0.
- An `Identifier` used as a whole value emits a store, `mov M A s`.
- The operand emitters of a `BinaryExpr` are empty. So a binary expression used as an operand emits nothing, and its operator is never checked (`GenerationProps.NestedOperatorUnchecked`).

An exception in the source (`expect` failing, no primary, an unknown operator in `gencode`) is `Err` in the model. The run aborts and no result is produced.

Two behaviours of the code worth naming:
- A second `tokenize` call appends only one more EOF: `pos` is not reset (`Lexing.TokenizeTwice`).
- `expect` fails on EOF and past the end, because `match` is false there.

## Model

| member | source | states |
|---|---|---|
| Tokens.Ordinal | include/lexer.h:10-27 | every token kind has an enumerator value below 16 |
| Tokens.FromOrdinal | include/lexer.h:10-27 | every value below 16 names a token kind, the inverse of `Ordinal` |
| Tokens.SixteenKinds | include/lexer.h:10-27 | `Ordinal` and `FromOrdinal` are inverse bijections, so there are exactly 16 token kinds |
| Tokens.DefaultToken | include/lexer.h:33 | the default token is `TOK_UNKNOWN` with empty text |
| Decimal.DigitValue | src/parser.cpp:196 | a decimal digit's value is below 10 |
| Decimal.DigitChar | src/ast.cpp:119 | the digit printed for a value below 10 is a digit with that value |
| Decimal.NatToString | src/ast.cpp:119 | an integer is printed as a non-empty digit string without a leading zero |
| Decimal.ValueOfNatToString | src/parser.cpp:196 | reading back a printed number (`stoi`) gives the number |
| Decimal.NatToStringInjective | src/ast.cpp:119 | different numbers print differently |
| Context.Alloc | src/ast.cpp:95-100 | after allocation the name is in the table |
| Context.Subscript | src/ast.cpp:160 | after `mem_map[name]` the name is in the table |
| Context.ExtendsTransitive | src/ast.cpp:95-100 | "keeps every slot and never lowers the counters" is transitive |
| Context.GrowsTransitive | src/ast.cpp:95-100 | "keeps every slot, leaves the label counter and keeps the slot invariant" is transitive |
| Context.FreshWellSlotted | src/ast.cpp:7-8 | the initial statics (no names, next slot 1) satisfy the slot invariant |
| Context.AllocGivesNextSlot | src/ast.cpp:95-100 | a present name keeps its slot; an absent one gets `mem_loc` and the counter goes up by one; the label counter is untouched |
| Context.AllocWellSlotted | src/ast.cpp:95-100 | allocation keeps the non-zero slots numbered 1, 2, 3, ... below `mem_loc`, without gaps or clashes |
| Context.SubscriptOfMissingName | src/ast.cpp:158-161 | `mem_map[name]` on an absent name inserts slot 0 without moving the counter; a present name is unchanged |
| Context.SubscriptWellSlotted | src/ast.cpp:158-161 | inserting slot 0 keeps the non-zero slots numbered without gaps or clashes |
| Context.AllocAllConsecutive | src/ast.cpp:143-153 | allocating distinct new names hands out `mem_loc`, `mem_loc+1`, ... in order |
| Context.AllocAllKeeps | src/ast.cpp:150-153 | a name already present keeps its slot through any later allocations |
| Context.Statics.constructor | src/ast.cpp:7-8 | the statics start with no names, next slot 1 and label 0 |
| Context.Statics.Allocate | src/ast.cpp:144-146 | the find-then-insert of a declaration updates the statics exactly as `Alloc` |
| Context.Statics.Slot | src/ast.cpp:160 | `mem_map[name]` returns the name's slot and updates the statics as `Subscript` |
| Context.Statics.NextLabel | src/ast.cpp:164-165 | `labelCount++` returns the old counter and bumps only the counter |
| Ast.NewIfStmt | include/ast.h:180-184 | a new if statement has its condition and two empty bodies |
| Ast.ProgramNode.constructor | include/ast.h:57-59 | a new program has no statements |
| Ast.ProgramNode.AddStatement | include/ast.h:62-64 | `addStatement` appends at the end and keeps earlier statements in order |
| Lexing.RunLength | src/lexer.cpp:86-89 | the run is a prefix of characters in the class, ended by the input's end or a character outside it |
| Lexing.RunLengthCharacterised | src/lexer.cpp:107-110 | any maximal in-class prefix has exactly the run's length |
| Lexing.RunFrom | src/lexer.cpp:116-118 | a loop stopping at the first out-of-class character covered exactly `RunLength` characters |
| Lexing.KindOfWord | src/lexer.cpp:92-101 | a word is `int`/`if`/`else` exactly on exact match, otherwise an identifier |
| Lexing.Step | src/lexer.cpp:15-76 | every loop iteration consumes at least one character and no more than remain |
| Lexing.StepAtSpace | src/lexer.cpp:17-18 | a step at whitespace skips the whole whitespace run and emits nothing |
| Lexing.StepAtWord | src/lexer.cpp:21-22 | a step at a letter emits the word token of the maximal word run |
| Lexing.StepAtNumber | src/lexer.cpp:25-26 | a step at a digit emits a number token of the maximal digit run |
| Lexing.Scan | src/lexer.cpp:14-78 | the tokens of the whole input, one `Step` at a time; their texts are the input without whitespace (`LexerProps.TextsOfScan`) and each is well formed (`LexerProps.ScanWellFormed`) |
| Lexing.Lex | src/lexer.cpp:14-80 | the scanned tokens, then one EOF; EOF occurs exactly once, at the end (`LexerProps.LexEndsWithOneEof`) |
| Lexing.Lexer.constructor | src/lexer.cpp:8-12 | a new lexer holds the input, cursor 0 and no tokens |
| Lexing.Lexer.SkipWhitespace | src/lexer.cpp:115-119 | the cursor ends after the maximal whitespace run from where it was |
| Lexing.Lexer.ReadIdentifier | src/lexer.cpp:83-102 | the cursor passes the maximal word run and one token of that text is appended, its kind by `KindOfWord` |
| Lexing.Lexer.ReadNumber | src/lexer.cpp:104-112 | the cursor passes the maximal digit run and one number token of that text is appended |
| Lexing.Lexer.ReadSymbol | src/lexer.cpp:29-75 | the switch for operators and others consumes and appends exactly what one `Step` does |
| Lexing.Lexer.ScanOnce | src/lexer.cpp:17-76 | one loop iteration consumes and appends exactly what one `Step` does |
| Lexing.Lexer.Tokenize | src/lexer.cpp:14-80 | the loop terminates at the end of the input and appends `Lex` of the unread input: the scanned tokens then EOF |
| Lexing.LexSource | src/main.cpp:29-35 | a fresh lexer's `tokenize` then `getTokens` gives `Lex(code)` |
| Lexing.TokenizeTwice | include/lexer.h:52-54 | a second `tokenize` on the same lexer appends just one more EOF |
| LexerProps.StepFacts | src/lexer.cpp:15-76 | a step emits nothing only over whitespace; an emitted token's text is the consumed, space-free input and is well formed |
| LexerProps.TextsOfStep | src/lexer.cpp:15-76 | a step's token text is the consumed input with whitespace removed |
| LexerProps.TextsOfScan | src/lexer.cpp:14-80 | the token texts before EOF, concatenated, are the input with all whitespace removed |
| LexerProps.ScanFirst | src/lexer.cpp:15-77 | the token list splits into the first step's tokens and the scan of the rest, and that first part's texts are the consumed input without spaces |
| LexerProps.ScanWellFormed | src/lexer.cpp:15-76 | every scanned token has non-empty text that fits its kind: words start with a letter, numbers are digits, operators have their fixed text |
| LexerProps.LexEndsWithOneEof | src/lexer.cpp:79 | the token list ends with EOF with empty text, EOF occurs exactly once, and every other token has non-empty text |
| LexerProps.ScanSkipsSpace | src/lexer.cpp:17-18 | a leading space produces no token |
| LexerProps.StepOfSpacedToken | src/lexer.cpp:15-76 | a well-formed token's text followed by a space lexes back to that token |
| LexerProps.ScanOfSpaced | src/lexer.cpp:14-80 | well-formed tokens written out with a space after each lex back to the same tokens (round trip) |
| LexerProps.RelexSpacedTokens | src/lexer.cpp:14-80 | re-lexing the spaced-out tokens of any input gives the same token list |
| LexerProps.WordIsMaximalRun | src/lexer.cpp:83-102 | a step that starts at a letter emits one word: a maximal run of letters, digits and `_`, typed by `KindOfWord` |
| LexerProps.NumberIsMaximalRun | src/lexer.cpp:104-112 | a step that starts at a digit emits one number token: all digits, and not followed by a digit |
| LexerProps.EqualsSigns | src/lexer.cpp:32-41 | `==` gives one `TOK_EQ` of two characters, any other `=` gives `TOK_ASSIGN` of one |
| LexerProps.SingleCharacterTokens | src/lexer.cpp:42-74 | each other character gives a one-character token of its own text, `TOK_UNKNOWN` exactly when it is none of `+ - { } ( ) ;` |
| LexerProps.ScanWordThen | src/lexer.cpp:86-89 | a word followed by a non-word character lexes as that word, then the rest |
| LexerProps.TripleEquals | src/lexer.cpp:32-41 | `===` lexes as EQ, ASSIGN, EOF |
| LexerProps.LeadingUnderscore | src/lexer.cpp:70-73 | `_x` lexes as UNKNOWN `_`, ID `x`, EOF: a word cannot start with `_` |
| LexerProps.KeywordNeedsExactMatch | src/lexer.cpp:92-101 | `iff` and `integer` lex as identifiers |
| Grammar.ParsePrimary | src/parser.cpp:194-207 | a primary consumes exactly one token |
| Grammar.AdditionTail | src/parser.cpp:184-189 | the `+`/`-` loop never moves the cursor back or past the end |
| Grammar.ParseAddition | src/parser.cpp:181-192 | an addition consumes at least one token and stays within the list |
| Grammar.ParseComparison | src/parser.cpp:168-179 | a comparison consumes at least one token and stays within the list |
| Grammar.ParseVarDecl | src/parser.cpp:82-94 | `int name;` leaves the statics alone and ends on a `;` |
| Grammar.ParseVarDeclAssign | src/parser.cpp:96-111 | a declaration with a value ends on a `;` |
| Grammar.ParseAssignment | src/parser.cpp:113-122 | an assignment ends on a `;` |
| Grammar.ParseStatement | src/parser.cpp:50-80 | a statement not at the end consumes at least one token (so the loops terminate); a parsed statement ends on `;` or, for an if, on `}` |
| Grammar.ParseStatements | src/parser.cpp:136-141 | a statement loop never moves the cursor back or past the end |
| Grammar.ParseIfHead | src/parser.cpp:124-131 | `if ( cond ) {` consumes at least one token |
| Grammar.ParseIfStmt | src/parser.cpp:124-162 | an if statement ends on the `}` of its last block |
| Grammar.ParseIfRest | src/parser.cpp:133-161 | after the head, an if statement ends on a `}` |
| Grammar.ParseElse | src/parser.cpp:146-159 | without `else` the else body is empty and nothing is consumed; with it the part ends on `}` |
| Grammar.ParseProgram | src/parser.cpp:35-47 | the top-level statement loop from the first token; it gives back every printed program (`ParserRoundTrip.ProgramRoundTrip`) and only grows the slot table (`ParserProps.ProgramFacts`) |
| Parsing.NewIdentifier | src/ast.cpp:95-100 | building an `Identifier` allocates its name and records the slot it then has |
| Parsing.Parser.constructor | src/parser.cpp:6-9 | a new parser holds the tokens with cursor 0 |
| Parsing.Parser.Advance | src/parser.cpp:28-32 | `advance` moves one token forward, never at the end |
| Parsing.Parser.Expect | src/parser.cpp:21-26 | `expect` passes exactly when the current token has the type, and then consumes exactly one token |
| Parsing.Parser.ExpectBoth | src/parser.cpp:125-126 | two `expect`s pass exactly when both tokens match, then the cursor is two further on |
| Parsing.Parser.ParsePrimary | src/parser.cpp:194-207 | the method's result, cursor and statics are those of `Grammar.ParsePrimary` |
| Parsing.Parser.ParseAddition | src/parser.cpp:181-192 | the loop's result, cursor and statics are those of `Grammar.ParseAddition` |
| Parsing.Parser.ParseComparison | src/parser.cpp:168-179 | the result, cursor and statics are those of `Grammar.ParseComparison` |
| Parsing.Parser.ParseExpression | src/parser.cpp:164-166 | `parseExpression` is `parseComparison` |
| Parsing.Parser.ParseVarDecl | src/parser.cpp:82-94 | the result, cursor and statics are those of `Grammar.ParseVarDecl` |
| Parsing.Parser.ParseVarDeclAssign | src/parser.cpp:96-111 | the result, cursor and statics are those of `Grammar.ParseVarDeclAssign` |
| Parsing.Parser.ParseAssignment | src/parser.cpp:113-122 | the result, cursor and statics are those of `Grammar.ParseAssignment` |
| Parsing.Parser.ParseStatement | src/parser.cpp:50-80 | the dispatch, with its cursor-restoring look-ahead, follows `Grammar.ParseStatement` |
| Parsing.Parser.ParseIfHead | src/parser.cpp:124-131 | the head's condition, cursor and statics are those of `Grammar.ParseIfHead` |
| Parsing.Parser.ParseIfStmt | src/parser.cpp:124-162 | the result, cursor and statics are those of `Grammar.ParseIfStmt` |
| Parsing.Parser.ParseIfRest | src/parser.cpp:133-161 | the result, cursor and statics are those of `Grammar.ParseIfRest` |
| Parsing.Parser.ParseElse | src/parser.cpp:146-159 | the result, cursor and statics are those of `Grammar.ParseElse` |
| Parsing.Parser.ParseBlock | src/parser.cpp:136-141 | the block loop's statements, cursor and statics are those of `Grammar.ParseStatements` in a block |
| Parsing.Parser.Parse | src/parser.cpp:35-47 | `parse` returns a new program whose statements, and the final cursor and statics, are those of `Grammar.ParseStatements` at top level |
| ParserProps.LocsAgreeExtend | src/ast.cpp:95-100 | an identifier's recorded slot stays its slot as the table grows |
| ParserProps.IsSumIsKnown | src/parser.cpp:184-189 | a left-nested `+`/`-` chain has only known operators |
| ParserProps.IsComparisonIsKnown | src/parser.cpp:168-179 | a comparison of two sums has only known operators |
| ParserProps.CursorFacts | src/parser.cpp:12-32 | `match` is false at the end and on EOF; `advance` is a no-op at the end and otherwise moves one token; the cursor never passes the end |
| ParserProps.PrimaryIsOneToken | src/parser.cpp:194-207 | a primary succeeds exactly on one NUM token (its decimal value) or one ID token (allocating its name), and fails on anything else |
| ParserProps.PrimaryFacts | src/parser.cpp:194-207 | a primary is a leaf whose recorded slot is its slot, and the table only grows |
| ParserProps.AdditionTailFacts | src/parser.cpp:184-189 | the `+`/`-` loop extends a sum to a left-nested sum |
| ParserProps.AdditionFacts | src/parser.cpp:181-192 | on lexer output an addition is a left-nested chain of `+`/`-` over primaries |
| ParserProps.ComparisonFacts | src/parser.cpp:168-179 | on lexer output an expression has at most one `==`, at the top, and every operator is `+`, `-` or `==` |
| ParserProps.IntLookahead | src/parser.cpp:51-69 | after `int`, `ID =` chooses `parseVarDeclAssign`, anything else `parseVarDecl`, and no identifier is an error |
| ParserProps.DroppedToken | src/parser.cpp:76-79 | a token that starts no statement is consumed and yields no node |
| ParserProps.IfWithoutElse | src/parser.cpp:143-161 | a `}` not followed by `else` ends the if with an empty else body |
| ParserProps.IfWithElse | src/parser.cpp:146-159 | after `} else` the if succeeds exactly when a `{`, a block and a `}` follow |
| ParserProps.StatementFacts | src/parser.cpp:50-80 | parsing a statement only grows the table, and on lexer output yields only known operators |
| ParserProps.StatementsFacts | src/parser.cpp:136-141 | the same for a statement loop |
| ParserProps.IfStmtFacts | src/parser.cpp:124-162 | the same for an if statement |
| ParserProps.IfHeadFacts | src/parser.cpp:124-131 | the same for the head of an if |
| ParserProps.IfRestFacts | src/parser.cpp:133-161 | the same for the bodies of an if |
| ParserProps.ElseFacts | src/parser.cpp:146-159 | the same growth and operator facts for the else part |
| ParserProps.ProgramFacts | src/parser.cpp:35-47 | parsing keeps every slot, only adds slots, keeps the slot invariant, leaves the label counter, and on lexer output yields only known operators |
| Generation.OpLine | src/ast.cpp:132-140 | an operator has an instruction exactly when it is `==`, `+` or `-` |
| Generation.LeftCode | src/ast.cpp:111-122 | the code of a left operand: nothing for a binary expression, otherwise one `mov A M` or `ldi A` line (`GenerationProps.OperandCode`) |
| Generation.RightCode | src/ast.cpp:114-125 | the code of a right operand: nothing for a binary expression, otherwise one `mov B M` or `ldi B` line (`GenerationProps.OperandCode`) |
| Generation.ValueCode | src/ast.cpp:108-140 | the code of an expression as a value; it fails exactly on its own unknown operator (`GenerationProps.ValueCodeOk`) and emits one operator line, last (`GenerationProps.BinaryEmitsOneOperator`) |
| Generation.GenStmt | src/ast.cpp:143-161 | the code of a statement; it fails exactly on an unknown top-level operator (`GenerationProps.GenStmtOk`) |
| Generation.GenIf | src/ast.cpp:163-168 | the code of an if: number N from the label counter, the condition, `jnz %else_N`, the branches; each label defined once (`GenerationProps.GenIfFacts`) |
| Generation.GenBranches | src/ast.cpp:170-176 | the then code, `jmp %endif_N`, `else_N:`, the else code, `endif_N:` (`GenerationProps.BranchCount`) |
| Generation.GenStmts | src/ast.cpp:102-106 | the code of a statement list, statement by statement; labels numbered from the counter and defined once (`GenerationProps.GenStmtsFacts`), and it splits over concatenation (`GenerationProps.GenStmtsAppend`) |
| GenerationProps.ValueCodeOk | src/ast.cpp:128-140 | an expression's code fails exactly when its own operator is unknown |
| GenerationProps.GenStmtOk | src/ast.cpp:143-177 | a statement's code fails exactly when some top-level operator in it is unknown |
| GenerationProps.GenStmtsOk | src/ast.cpp:102-106 | the same for a statement list |
| GenerationProps.KnownOpsEmittable | src/ast.cpp:128-140 | a statement whose operators are all known generates |
| GenerationProps.KnownOpsAllEmittable | src/ast.cpp:102-106 | the same for a statement list |
| GenerationProps.NestedOperatorUnchecked | include/ast.h:122-123 | an unknown operator in a nested operand is never checked and emits nothing |
| GenerationProps.OperandCode | src/ast.cpp:108-126 | a binary operand emits nothing; a leaf emits one line as left operand, right operand and value alike, naming the same slot (`mov A M`, `mov B M`, `mov M A`) or value (`ldi A`, `ldi B`) |
| GenerationProps.BinaryEmitsOneOperator | src/ast.cpp:128-140 | a binary expression emits exactly one of `cmp`/`add`/`sub`, last, the one of its operator |
| GenerationProps.OperandFacts | src/ast.cpp:108-126 | operand code has no jumps or labels and only grows the table |
| GenerationProps.ValueFacts | src/ast.cpp:108-140 | expression code has no jumps or labels and only grows the table |
| GenerationProps.SimpleStmtFacts | src/ast.cpp:143-161 | declarations and assignments emit no jumps or labels and leave the label counter |
| GenerationProps.GenStmtFacts | src/ast.cpp:143-177 | a statement's code defines each label of the ifs it numbers exactly once, and keeps the slot invariant |
| GenerationProps.GenIfFacts | src/ast.cpp:163-177 | the same for an if statement |
| GenerationProps.GenBranchesFacts | src/ast.cpp:170-176 | the bodies and the jump and labels after the condition define each label exactly once |
| GenerationProps.BranchCount | src/ast.cpp:170-176 | the then code, `jmp`, `else_N:`, the else code and `endif_N:` together hold each label exactly once |
| GenerationProps.IfCount | src/ast.cpp:165-168 | the condition's code and `jnz %else_N` add if number N's branch exactly once |
| GenerationProps.GenStmtsFacts | src/ast.cpp:102-106 | a program's labels are defined exactly once each, numbered from the starting counter |
| GenerationProps.GenStmtsAppend | src/ast.cpp:102-106 | the code of two statement lists in a row is the first list's code followed by the second's |
| GenerationProps.UndeclaredTarget | src/ast.cpp:158-161 | assigning to an unknown name stores to slot 0, inserts it at 0 and does not move the counter |
| GenerationProps.DeclarationEmitsNothing | src/ast.cpp:143-148 | `int name;` emits nothing, only reserving the name's existing or next slot |
| GenerationProps.DeclaredTarget | src/ast.cpp:150-156 | `int name = e;` on a new name ends with a store to the slot it takes, `mem_loc` |
| GenerationProps.EmptyElseScaffold | src/ast.cpp:170-176 | with an empty else body the code still ends with `jmp %endif_N`, `else_N:`, `endif_N:` |
| Emitter.OutStream.constructor | src/main.cpp:47 | a new output stream is empty |
| Emitter.OutStream.Write | src/ast.cpp:109 | writing a line appends it |
| Emitter.EmitLeft | src/ast.cpp:111-126 | `gencodeL` writes and updates the statics as `LeftCode` |
| Emitter.EmitRight | src/ast.cpp:114-125 | `gencodeR` writes and updates the statics as `RightCode` |
| Emitter.EmitValue | src/ast.cpp:108-140 | an expression's `gencode` fails exactly when `ValueCode` does, otherwise writes its lines and state |
| Emitter.EmitStmt | src/ast.cpp:143-161 | a statement's `gencode` follows `GenStmt` |
| Emitter.EmitIf | src/ast.cpp:163-168 | `IfStmt::gencode` follows `GenIf` |
| Emitter.EmitBranches | src/ast.cpp:170-176 | the bodies and labels of an if follow `GenBranches` |
| Emitter.FailurePersists | src/ast.cpp:102-106 | once a statement fails, the whole list fails |
| Emitter.EmitBody | src/ast.cpp:170 | the `for` loop over a body follows `GenStmts` |
| Emitter.EmitProgram | src/ast.cpp:102-106 | `Program::gencode` follows `GenStmts` on its statements |
| Pipeline.CompileTokens | src/main.cpp:35-51 | parse from fresh statics, then generate the program's code; on lexer output it fails only in the parser (`Pipeline.CompileFailsOnlyInParser`) |
| Pipeline.Compile | src/main.cpp:29-52 | `CompileTokens` of `Lex` of the source; every label in its code is defined once (`Pipeline.LabelsDefinedOnce`) |
| Pipeline.LexedOperatorsCanonical | src/lexer.cpp:32-49 | the lexer gives `+`, `-` and `==` tokens exactly those texts |
| Pipeline.CompileFailsOnlyInParser | src/main.cpp:29-52 | on lexer output, code generation never fails: compiling fails exactly when parsing does |
| Pipeline.LabelsDefinedOnce | src/ast.cpp:163-177 | in a compiled program every `jnz`, `jmp`, `else_N:` and `endif_N:` below the final counter occurs exactly once, and the slot table stays sound |
| Pipeline.CompileSource | src/main.cpp:29-52 | the driver's lexer, parser and `gencode` write exactly the lines `Compile` specifies, or fail exactly when it does |
| ParserRoundTrip.RebuildExprFacts | src/ast.cpp:95-100 | rebuilding an expression as the parser does changes only the recorded slots and allocates exactly its names, left to right |
| ParserRoundTrip.RebuildStmtsFacts | src/ast.cpp:95-100 | the same for a statement list: same length, same tree up to slots, exactly its names allocated in textual order |
| ParserRoundTrip.PrimaryBack | src/parser.cpp:194-207 | a printed primary parses back to itself, one token, its identifier allocated |
| ParserRoundTrip.SumBack | src/parser.cpp:181-192 | the printed tokens of a left-nested `+`/`-` chain take `parseAddition` to its loop with the rebuilt chain, at the end of those tokens |
| ParserRoundTrip.ComparisonBack | src/parser.cpp:168-179 | a printed comparison, followed by a token that does not continue it, parses back to the rebuilt comparison, ending just after it |
| ParserRoundTrip.EqComparisonBack | src/parser.cpp:168-179 | the same for a comparison with `==` |
| ParserRoundTrip.VarDeclBack | src/parser.cpp:82-94 | printed `int name ;` parses back to that declaration, allocating nothing |
| ParserRoundTrip.AssignBack | src/parser.cpp:113-122 | a printed assignment parses back to the rebuilt assignment, ending after its `;` |
| ParserRoundTrip.VarDeclAssignBack | src/parser.cpp:96-111 | a printed declaration with a value parses back to the rebuilt declaration, ending after its `;` |
| ParserRoundTrip.StatementBack | src/parser.cpp:50-80 | any printed statement of a shape the parser builds parses back to its rebuilt self, ending just after its tokens |
| ParserRoundTrip.IfStmtBack | src/parser.cpp:124-162 | a printed if statement parses back to the rebuilt if, with both bodies, ending after its last `}` |
| ParserRoundTrip.ElseBack | src/parser.cpp:146-159 | a printed `else { ... }` parses back to the rebuilt else body |
| ParserRoundTrip.StatementsBack | src/parser.cpp:136-141 | printed statements followed by `}` (in a block) or EOF (at top level) parse back to the rebuilt list, ending just after them |
| ParserRoundTrip.ProgramRoundTrip | src/parser.cpp:35-47 | a printed program ended by EOF parses back to the same program up to slots, of the same length, ending at EOF, with exactly its names allocated in textual order |
| ParserRoundTrip.StmtsTokensWellFormed | src/lexer.cpp:83-112 | a printed program whose names start with a letter consists of well-formed tokens only |
| ParserRoundTrip.WrittenProgramCompiles | src/main.cpp:29-52 | such a program written out as text, one space after each token, lexes to its printed tokens then EOF, parses back to itself up to slots, and compiles |
| Scenarios.DeclareNumber | src/parser.cpp:96-111 | `int name = digits ;` parses at any position, consuming five tokens |
| Scenarios.DeclareExpr | src/parser.cpp:96-111 | `int name = e ;` parses to a declaration of whatever `e` parses to |
| Scenarios.AssignIdentifier | src/parser.cpp:113-122 | `name = other ;` parses, allocating `other`'s slot during parsing |
| Scenarios.MinusNumber | src/parser.cpp:184-189 | `- digits` makes the expression so far the left operand |
| Scenarios.DeclareNumberCode | src/ast.cpp:150-156 | `int name = v;` emits `ldi A v` then a store to the name's slot |
| Scenarios.AssignIdentifierCode | src/ast.cpp:158-161 | `name = other;` emits a store to `other`'s slot, then one to `name`'s |
| Scenarios.SlotOrderFirst | src/parser.cpp:96-111 | `int x = 1;` parses first and allocates nothing |
| Scenarios.SlotOrderSecond | src/parser.cpp:96-111 | `int y = 2;` parses next and allocates nothing |
| Scenarios.SlotOrderThird | src/parser.cpp:200-203 | `x = y;` gives `y` slot 1 while parsing |
| Scenarios.SlotOrderParses | src/parser.cpp:200-203 | `int x = 1; int y = 2; x = y;` parses with only `y` allocated, at slot 1 |
| Scenarios.SlotOrderCode | src/ast.cpp:150-161 | its code then gives `x` slot 2, and `x = y` stores `y`'s slot before `x`'s |
| Scenarios.SlotOrderCompiles | src/ast.cpp:95-100 | the whole program compiles to those six lines, with `y` at slot 1 and `x` at slot 2 |
| Scenarios.SubtractionIsLeftNested | src/parser.cpp:181-192 | `5 - 2 - 1` parses as `(5 - 2) - 1` |
| Scenarios.SubtractionParses | src/parser.cpp:96-111 | `int x = 5 - 2 - 1;` parses to one declaration of that expression |
| Scenarios.SubtractionCode | include/ast.h:122-123 | its code is only `ldi B 1`, `sub`, `mov M A 1`: the nested `5 - 2` emits nothing |
| Scenarios.SubtractionCompiles | src/ast.cpp:128-156 | the source text compiles to those three lines |

## Left out

- The driver's I/O is not modelled. This covers command-line arguments, reading the source file, writing the output file, console banners, the `.text` header and the trailing `hlt` (src/main.cpp). `Pipeline.Compile` is the lines `Program::gencode` writes between them.
- `PrintVisitor`, the `accept` double dispatch and `Lexer::printTokens` are not modelled: they only print to the console.
- `unique_ptr` ownership, virtual dispatch and `std::ostream`:
  - the tree is a datatype;
  - the output is a `seq<string>` of lines;
  - the line ending is the sequence boundary.
- The `Token(t, v)` constructor and the `BinaryExpr` constructor are the datatype constructors `Token` and `BinaryExpr`. They store exactly their arguments, so no member restates that.
- The no-op `gencodeL`/`gencodeR` of `Program` and of the statement classes have no members. Only expressions are ever operands, so no call reaches them.
- `std::stoi` overflow and `int` width are not modelled:
  - numbers are unbounded naturals;
  - `mem_loc` and `labelCount` are unbounded counters.

  A number token from the lexer is always a non-empty digit string. `Grammar.ParsePrimary` fails on any other number text, which the lexer never produces.
- `isspace`, `isalpha` and `isdigit` are fixed to ASCII: the C locale's classes.
- Exception types and messages are not modelled: every exception is one `Err`.
- The statics persist across runs in the source. The model does not carry them from one compilation to the next: each compilation starts from `Context.Fresh()`.
- The runtime meaning of the emitted assembly is not modelled: there is no machine to run it on.
- `Parsing.Parser.ParsePrimary` and the other parser methods say nothing about the cursor or the statics after an `Err`. The source throws and the run ends.
- `Emitter.EmitValue`, `Emitter.EmitStmt`, `Emitter.EmitIf`, `Emitter.EmitBranches`, `Emitter.EmitBody` and `Emitter.EmitProgram` say nothing about the lines already written or the statics after a failure, for the same reason.
- `Parsing.Parser.ExpectBoth` and `Parsing.Parser.ParseIfHead`/`ParseIfRest` split `parseIfStmt` into smaller methods. The calls they make are the same `expect` calls, in the same order.
- `Emitter.EmitBranches` and `Emitter.EmitBody` are split off `IfStmt::gencode` in the same way.
- `Lexing.Lexer.ScanOnce` and `Lexing.Lexer.ReadSymbol` are likewise the body of the scanning loop and its `switch`.
- The broken include guard of include/parser.h is not modelled: it is build plumbing.
- `Grammar.ParseStatements`: its own contract only bounds the cursor. That it accepts every printed statement list, and what it then returns, is proved in `ParserRoundTrip.StatementsBack` and `ParserRoundTrip.ProgramRoundTrip`.
- `ParserRoundTrip.ProgramRoundTrip` and `ParserRoundTrip.WrittenProgramCompiles` cover only the trees `parse` builds: comparisons of left-nested `+`/`-` chains, and if statements printed with their `else` block. `WrittenProgramCompiles` also needs every name to start with a letter: the lexer does not read a name that starts with `_` as one identifier (`LexerProps.LeadingUnderscore`).
- The source text is a sequence of characters, not of bytes. A non-ASCII character is one `TOK_UNKNOWN` token in the model; the source reads it byte by byte, so `é` gives two. The source also passes a negative `char` to `isspace` on such bytes, which is undefined behaviour in C++.
