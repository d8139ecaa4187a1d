# yyn-rs compiler core in Dafny

A model of the core of yyn-rs, a tiny compiler for a language of
argument-less functions. Function bodies hold `exit n`, calls `f()`,
nested `{ … }` blocks and `return n`. The model covers each stage of the
pipeline against the types that stage actually uses:

- **Tokens** (`Tokens`, `LexerTokens`). The repository has two token sets.
  The lexer's (`fun`, `exit69`, no numbers) and the parser's (`fun`, `exit`,
  `int`, `return`, number literals, `->`) are modelled separately, each with
  its keyword table.
- **Lexer** (`Lexer`). A `Lexer` object holds the unread text, and
  `NextToken`/`Tokenize` advance it. Each method is proved equal to a pure
  specification: `Scan` is one step, `Lex` the whole text. Lemmas cover:
  - maximal-munch identifiers and keyword classification;
  - `\n`, `;` and `\r\n` line breaks, and the error for a lone `\r`;
  - skipped whitespace, and rejection of every other character, digits
    included;
  - termination, and a render/lex round trip.
- **Parser** (`Parser`). A `Parser` object holds the token queue, and its
  methods are proved equal to pure functions that return the parse result
  together with the tokens left over. Lemmas cover:
  - each error case;
  - a compound ending at its own `}`;
  - `return` never being produced;
  - an unparse/parse round trip for compounds, functions and whole
    programs.
- **Symbol tables**. There are three of them:
  - `SymbolTable`: an arena plus a name index, with single-assignment
    codegen data.
  - `ArenaSymbolTable`, built on `RefArena`, the append-only shared arena.
  - `AnalyzerSymbolTable`: a name map.

  Each is a class. Its contracts say that duplicate names are rejected
  without change and that handles stay valid. Their invariants say that the
  lookup keys are exactly the stored names. The table operations keep that
  invariant. A caller that renames an entry in place does not (see
  "## Left out").
- **AST analyzer** (`AstAnalyzer`). `AnalyzeAst` succeeds exactly when the
  function names are distinct. It then returns the AST unchanged with a
  table mapping each name to its return type. Otherwise it fails at the
  first repeated name.
- **LLVM code generator** (`CodegenTypes`, `Codegen`). The backend is
  abstracted to the functions declared in the module plus the list of
  instructions the builder appended. The `Cx` methods are proved against
  pure functions. Lemmas cover:
  - the declare-then-define protocol, so forward calls resolve;
  - the short-circuit on `return` and on a nested explicit return;
  - `void` returns at the end of compounds;
  - the absence of any return-type check;
  - bodies being generated in source order.
- **NASM generator** (`Nasm`). `NasmCodegen` appends to its text exactly
  what the pure `Program` function specifies. Lemmas give:
  - the fixed header, the `_main` label and the `ret` line;
  - the decimal exit code, with a parse-back round trip;
  - success exactly when every body is flat and calls only defined
    functions;
  - the first-error rule.

`Common` holds `Option`, `Result` and the 32-bit `U32`. `Ast` transcribes
`src/compiler/parser/ast.rs` and has no properties of its own.

Three behaviours one might expect from the token types are not in the
code, and the model follows the code:

- The token set of src/compiler/lexer/token.rs declares `Number` and
  `RightArrow`. The lexer, however, produces the set of
  src/compiler/token/mod.rs, and reading numbers is still a TODO
  (src/compiler/lexer/mod.rs:87). A digit is an invalid character, and so
  is `-`.
- The check that a body returns its declared type is commented out
  (src/compiler/codegen/mod.rs:85-92). `Codegen.ReturnTypesNotChecked`
  states its absence.
- The parser does not reject repeated function names. `analyze_ast` does.

## Model

| member | source | states |
|---|---|---|
| Tokens.KeywordFromStr | src/compiler/token/mod.rs:8-16 | `Some(k)` exactly when the string is `k`'s spelling (`fun`, `exit69`), `None` for every other string |
| Tokens.KeywordFromStrInjective | src/compiler/token/mod.rs:11-15 | two strings that give the same keyword are equal |
| Tokens.KeywordFromStrNearMisses | src/compiler/token/mod.rs:11-15 | `exit`, `Fun`, `exit6` and the empty string are not keywords (exact, case-sensitive match) |
| LexerTokens.KeywordFromStr | src/compiler/lexer/token.rs:10-20 | `Some(k)` exactly when the string is `k`'s spelling (`fun`, `exit`, `int`, `return`), `None` otherwise |
| LexerTokens.KeywordFromStrInjective | src/compiler/lexer/token.rs:13-19 | two strings that give the same keyword are equal |
| LexerTokens.KeywordFromStrNearMisses | src/compiler/lexer/token.rs:13-19 | `Exit`, `exit69`, `Return` and `in` are not keywords |
| Lexer.AfterWhitespace | src/compiler/lexer/mod.rs:45-49 | drops exactly the leading skippable whitespace: what was dropped is skippable and what is left does not start with it |
| Lexer.IdentifierRunLength | src/compiler/lexer/mod.rs:56-64 | the length of the longest run of alphanumeric or `_` characters at the start |
| Lexer.IdentifierAt | src/compiler/lexer/mod.rs:51-68 | an identifier is read exactly when the text starts with a letter; it is a prefix of the text, matches `[alpha][alnum_]*`, and cannot be extended |
| Lexer.Classify | src/compiler/lexer/mod.rs:75-82 | a keyword token when the name spells a keyword, otherwise an identifier token carrying exactly the name |
| Lexer.Scan | src/compiler/lexer/mod.rs:70-108 | a step never grows the text; a token consumes at least one character; `None` exactly when only skippable whitespace is left, and then nothing is left |
| Lexer.ScanToken | src/compiler/lexer/mod.rs:75-107 | as `Scan`, after the whitespace: `None` exactly on empty text |
| Lexer.ScanSymbol | src/compiler/lexer/mod.rs:90-104 | a character that starts no identifier never yields `None` |
| Lexer.AfterCarriageReturn | src/compiler/lexer/mod.rs:99-102 | the character after `\r` is consumed whatever it is, and the result is never `None` |
| Lexer.Lexer.constructor | src/compiler/lexer/mod.rs:13-17 | the whole source is unread |
| Lexer.Lexer.PeekChar | src/compiler/lexer/mod.rs:19-21 | the first unread character, `None` at the end |
| Lexer.Lexer.EatChar | src/compiler/lexer/mod.rs:23-30 | returns the first character and removes it; on empty text returns `None` and changes nothing |
| Lexer.Lexer.ExpectChar | src/compiler/lexer/mod.rs:32-43 | succeeds exactly when the next character is the expected one, reports what was found (or the end) otherwise, and consumes one character either way |
| Lexer.Lexer.SkipWhitespaces | src/compiler/lexer/mod.rs:45-49 | the unread text becomes `AfterWhitespace` of what it was |
| Lexer.Lexer.TryReadIdentifier | src/compiler/lexer/mod.rs:51-68 | returns `IdentifierAt` of the text and consumes exactly that identifier |
| Lexer.Lexer.NextToken | src/compiler/lexer/mod.rs:70-108 | result and remaining text are those of `Scan` |
| Lexer.Lexer.Tokenize | src/compiler/lexer/mod.rs:110-112 | the result is `Lex` of the text: successive tokens up to the end, or the first error |
| Lexer.RunLengthUnique | src/compiler/lexer/mod.rs:56-64 | a run of identifier characters that cannot be extended has exactly the computed length |
| Lexer.ScanConsumes | src/compiler/lexer/mod.rs:23-30 | skipping whitespace and scanning leave a suffix of the text: the lexer only consumes |
| Lexer.AfterWhitespaceSuffix | src/compiler/lexer/mod.rs:45-49 | skipping whitespace leaves a suffix of the text |
| Lexer.ScanTokenSuffix | src/compiler/lexer/mod.rs:75-107 | reading a token leaves a suffix of the text |
| Lexer.LexNext | src/compiler/lexer/mod.rs:110-112 | after a token, tokenizing goes on with the rest |
| Lexer.LexEnd | src/compiler/lexer/mod.rs:110-112 | a `None` step ends tokenizing with no further tokens |
| Lexer.LexFails | src/compiler/lexer/mod.rs:110-112 | an error step makes tokenizing fail with that error |
| Lexer.ScanExhausted | src/compiler/lexer/mod.rs:88-107 | on empty or exhausted input `next_token` returns `None`, again on the next call, and tokenizing yields no tokens |
| Lexer.AfterWhitespaceSkips | src/compiler/lexer/mod.rs:45-49 | skippable whitespace in front of any text is dropped entirely |
| Lexer.ScanSkipsWhitespace | src/compiler/lexer/mod.rs:70-74 | skippable whitespace in front of a token changes neither the step nor the tokenization |
| Lexer.ScanIdentifier | src/compiler/lexer/mod.rs:75-85 | at a letter, the token is the classification of the maximal identifier consumed, and the next character cannot continue it |
| Lexer.ScanSymbolAt | src/compiler/lexer/mod.rs:89-97 | at a non-letter, one symbol is read |
| Lexer.ScanNewLine | src/compiler/lexer/mod.rs:98 | `\n` and `;` each give `NewLine`, one character consumed |
| Lexer.ScanCarriageReturn | src/compiler/lexer/mod.rs:99-102 | `\r\n` gives one `NewLine`; `\r` before anything else, or at the end, is an expected-character error |
| Lexer.CarriageReturnSymbol | src/compiler/lexer/mod.rs:32-43 | `expect_char('\n')` after `\r`: a `NewLine` or the error naming what was found |
| Lexer.ScanInvalid | src/compiler/lexer/mod.rs:103 | every character that starts no token is an invalid-character error, one character consumed |
| Lexer.ScanDigit | src/compiler/lexer/mod.rs:87-103 | numbers are not read: a digit starting a token is an invalid character |
| Lexer.LexLength | src/compiler/lexer/mod.rs:110-112 | a successful tokenization has no more tokens than the text has characters |
| Lexer.IdentifierAtRun | src/compiler/lexer/mod.rs:51-68 | an identifier followed by a character that cannot continue it is read exactly |
| Lexer.KeywordSpelling | src/compiler/token/mod.rs:8-16 | each keyword's spelling is an identifier that classifies back to that keyword |
| Lexer.ScanText | src/compiler/lexer/mod.rs:70-108 | the text of each token, followed by a non-identifier character, scans as that token: brackets, braces, line breaks, keywords and identifiers |
| Lexer.LexText | src/compiler/lexer/mod.rs:110-112 | tokenizing a token's text followed by such a character yields the token and then the rest |
| Lexer.LexTextSpace | src/compiler/lexer/mod.rs:110-112 | the same with a separating space |
| Lexer.LexRender | src/compiler/lexer/mod.rs:110-112 | tokenizing the rendering of well-formed tokens gives the tokens back (round trip) |
| Lexer.LexRenderCons | src/compiler/lexer/mod.rs:110-112 | the round trip extends by one token at the front |
| Lexer.LexTokenThen | src/compiler/lexer/mod.rs:110-112 | a token's text and a space in front of text that tokenizes to `us` tokenizes to the token and `us` |
| Lexer.EmptySource | src/compiler/lexer/mod.rs:122-130 | the empty source yields `None` twice and no tokens |
| Parser.Expect | src/compiler/parser/mod.rs:30-40 | consumes exactly one token (none if there is none); succeeds exactly when it is the expected one, and reports what was found otherwise |
| Parser.CompoundAt | src/compiler/parser/mod.rs:42-76 | parsing a compound never grows the tokens, and a successful parse consumes at least one |
| Parser.CompoundBody | src/compiler/parser/mod.rs:47-73 | the same for one loop iteration of `parse_compound` and what follows it |
| Parser.CompoundStatement | src/compiler/parser/mod.rs:53-72 | the same for the token that decides one iteration |
| Parser.FunctionDefAt | src/compiler/parser/mod.rs:78-93 | the same for a function definition |
| Parser.AfterNewLines | src/compiler/parser/mod.rs:95-99 | drops exactly the leading `NewLine` tokens |
| Parser.Names | src/compiler/parser/mod.rs:112 | the names of the functions, one per function, in order |
| Parser.RootOf | src/compiler/parser/mod.rs:101-118 | on success `function_names` lists the parsed functions' names in order |
| Parser.Parser.constructor | src/compiler/parser/mod.rs:10-12 | the queue holds the given tokens |
| Parser.Parser.PeekToken | src/compiler/parser/mod.rs:22-24 | the front token, `None` when the queue is empty |
| Parser.Parser.EatToken | src/compiler/parser/mod.rs:26-28 | returns the front token and pops it |
| Parser.Parser.ExpectToken | src/compiler/parser/mod.rs:30-40 | result and remaining queue are those of `Expect` |
| Parser.Parser.ParseCompound | src/compiler/parser/mod.rs:42-76 | result and remaining queue are those of `CompoundAt` |
| Parser.Parser.ParseFunctionDef | src/compiler/parser/mod.rs:78-93 | result and remaining queue are those of `FunctionDefAt` |
| Parser.Parser.SkipNewlines | src/compiler/parser/mod.rs:95-99 | the queue becomes `AfterNewLines` of what it was |
| Parser.Parser.ParseRoot | src/compiler/parser/mod.rs:101-118 | the result is `RootOf` of the tokens |
| Parser.Parse | src/compiler/parser/mod.rs:9-15 | the result is `RootOf` of the tokens |
| Parser.FunctionNames | src/compiler/parser/mod.rs:112 | the collected names are `Names` of the functions |
| Parser.CompoundAtUnfold | src/compiler/parser/mod.rs:43-75 | after the `{`, the compound is its body's expressions |
| Parser.BodyNested | src/compiler/parser/mod.rs:48-51 | a `{` at the top of the loop parses a sub-compound, pushed as `Compound`, or fails with its error |
| Parser.BodyPlain | src/compiler/parser/mod.rs:47-53 | without a `{` the iteration goes straight to the deciding token |
| Parser.StatementExit | src/compiler/parser/mod.rs:54-59 | `exit` must be followed by a number, giving `Exit(n)`; otherwise it is the missing-exit-code error |
| Parser.StatementEnd | src/compiler/parser/mod.rs:61 | `}` ends the compound with the expressions collected |
| Parser.StatementNewLine | src/compiler/parser/mod.rs:62 | a line break adds no expression |
| Parser.StatementCall | src/compiler/parser/mod.rs:63-67 | an identifier needs `(` and `)`, giving `FnCall(name)`, or fails with the expect error |
| Parser.StatementOther | src/compiler/parser/mod.rs:68 | any other token is an invalid-token error naming it |
| Parser.RootEnd | src/compiler/parser/mod.rs:104-109 | when only line breaks are left, parsing ends with the functions so far |
| Parser.RootStep | src/compiler/parser/mod.rs:104-107 | otherwise one function definition is parsed, and its error ends parsing |
| Parser.CompoundNeedsBrace | src/compiler/parser/mod.rs:43 | a compound that does not start with `{` fails, naming what was found |
| Parser.CompoundEndsWithBrace | src/compiler/parser/mod.rs:42-76 | a parsed compound leaves a suffix of its input, and the last token it consumed is `}` |
| Parser.BodyEndsWithBrace | src/compiler/parser/mod.rs:47-73 | the same for the loop of `parse_compound` |
| Parser.StatementEndsWithBrace | src/compiler/parser/mod.rs:53-72 | the same from the deciding token on |
| Parser.StepEndsWithBrace | src/compiler/parser/mod.rs:53-72 | the same for an iteration that continues with the loop |
| Parser.CompoundParseable | src/compiler/parser/mod.rs:42-76 | the parser never builds a `Return`, at any depth |
| Parser.BodyParseable | src/compiler/parser/mod.rs:47-73 | the same for the loop of `parse_compound` |
| Parser.StatementParseable | src/compiler/parser/mod.rs:53-72 | the same from the deciding token on |
| Parser.NestedThenBrace | src/compiler/parser/mod.rs:48-68 | a `{` right after a nested compound is eaten as an invalid token and parsing fails |
| Parser.FunctionNeedsName | src/compiler/parser/mod.rs:81-85 | `fun` followed by anything but an identifier is the expected-name error |
| Parser.RootSkipsNewLines | src/compiler/parser/mod.rs:95-106 | a line break before a definition or at the end changes nothing |
| Parser.NewLinesOnly | src/compiler/parser/mod.rs:101-118 | tokens that are only line breaks are the empty program |
| Parser.AfterNewLinesSuffix | src/compiler/parser/mod.rs:95-99 | skipping line breaks leaves a suffix of the tokens |
| Parser.CompoundRoundTrip | src/compiler/parser/mod.rs:42-76 | parsing the tokens of a compound (without `Return`) gives it back and leaves what followed |
| Parser.BodyRoundTrip | src/compiler/parser/mod.rs:47-73 | the same for the rest of a compound's expressions from position `i` |
| Parser.BodyAtEnd | src/compiler/parser/mod.rs:61 | `}` closes the body with what was collected |
| Parser.BodyAfterNested | src/compiler/parser/mod.rs:48-62 | a nested compound followed by a line break adds one `Compound` |
| Parser.BodyAfterExit | src/compiler/parser/mod.rs:54-57 | `exit n` adds `Exit(n)` |
| Parser.BodyAfterCall | src/compiler/parser/mod.rs:63-66 | `f ( )` adds `FnCall(f)` |
| Parser.FunctionRoundTrip | src/compiler/parser/mod.rs:78-93 | parsing the tokens of a function definition gives it back |
| Parser.RootRoundTrip | src/compiler/parser/mod.rs:101-118 | parsing the tokens of a program gives back its functions and their names in order |
| Parser.RootFromRoundTrip | src/compiler/parser/mod.rs:102-110 | the same for the loop of `parse_root` from function `i` on |
| Parser.RootAfterFunction | src/compiler/parser/mod.rs:104-107 | one definition followed by anything adds that function |
| SymbolTable.Function.constructor | src/compiler/symbol_table.rs:110-116 | name and return type as given, no codegen data |
| SymbolTable.Function.AttachCodegenData | src/compiler/symbol_table.rs:119-126 | succeeds exactly when no data is attached, then sets it; a second attach fails and keeps the data there |
| SymbolTable.Sym.constructor | src/compiler/symbol_table.rs:20-24 | an empty arena and an empty lookup |
| SymbolTable.Sym.AddFunction | src/compiler/symbol_table.rs:70-81 | a present name is a redefinition and changes nothing; otherwise the function is appended, its name leads to it, the returned handle reads it back, and the invariant is kept |
| SymbolTable.Sym.GetFunction | src/compiler/symbol_table.rs:89-93 | the entry a handle denotes, always present |
| SymbolTable.Sym.GetFunctionMut | src/compiler/symbol_table.rs:95-99 | the same entry object, whose public fields the caller may then change |
| SymbolTable.Sym.GetFunctionByName | src/compiler/symbol_table.rs:83-87 | the entry carrying the name when it is registered, `None` otherwise |
| SymbolTable.Sym.AttachThrough | src/compiler/symbol_table.rs:34-38 | attaching through `get_function_mut(r)` changes entry `r`'s data only, single-assignment as above; every name and the table's invariant are kept |
| SymbolTable.Sym.EntriesDistinct | src/compiler/symbol_table.rs:71-78 | entries at different positions are different objects |
| SymbolTable.NewTableIsEmpty | src/compiler/symbol_table.rs:63-68 | a new table resolves no name and accepts no handle |
| SymbolTable.AddTwo | src/compiler/symbol_table.rs:129-133 | an earlier handle still denotes its function after a later add; a second add succeeds exactly when the names differ |
| RefArena.Arena.constructor | src/compiler/ref_arena.rs:34-38 | nothing stored |
| RefArena.Arena.Insert | src/compiler/ref_arena.rs:39-45 | the value goes at the end, earlier values are unchanged, and the returned ref reads it back |
| RefArena.ArenaRef.Get | src/compiler/ref_arena.rs:49-53 | the stored value at the ref's position |
| RefArena.ArenaRef.Put | src/compiler/ref_arena.rs:55-59 | a write through `get_mut` changes that element only |
| RefArena.ArenaRef.Clone | src/compiler/ref_arena.rs:20-25 | the same index in the same arena |
| RefArena.InsertTwice | src/compiler/ref_arena.rs:39-53 | refs from earlier inserts stay valid and read the same values |
| RefArena.CloneSeesWrites | src/compiler/ref_arena.rs:19-31 | a clone sees a write made through the original |
| ArenaSymbolTable.Sym.constructor | src/compiler/symbol_table/mod.rs:19-23 | an empty arena and an empty lookup |
| ArenaSymbolTable.Sym.AddFunction | src/compiler/symbol_table/function.rs:42-54 | a present name is rejected and nothing changes; otherwise the function is inserted and the name leads to the returned ref, which reads it back |
| ArenaSymbolTable.Sym.GetFunctionByName | src/compiler/symbol_table/function.rs:56-58 | the ref registered under the name, into this table's arena and carrying that name; `None` when unregistered |
| ArenaSymbolTable.Sym.NamesUnique | src/compiler/symbol_table/function.rs:12-16 | no two functions stored in a table's arena carry the same name |
| ArenaSymbolTable.AddSameNameTwice | src/compiler/symbol_table/function.rs:42-54 | a second function under a taken name is a redefinition, and the arena still holds only the first |
| ArenaSymbolTable.NewTableResolvesNothing | src/compiler/symbol_table/mod.rs:32-37 | a new table resolves no name |
| AnalyzerSymbolTable.SymbolTable.constructor | src/compiler/ast_analyzer/symbol_table.rs:12-16 | no functions |
| AnalyzerSymbolTable.SymbolTable.AddFunction | src/compiler/ast_analyzer/symbol_table.rs:18-25 | a present name fails and leaves the map unchanged; otherwise the name leads to the entry and every other name keeps its own |
| AnalyzerSymbolTable.SymbolTable.GetFunction | src/compiler/ast_analyzer/symbol_table.rs:27-29 | the entry under the name, `None` for a name never added |
| AnalyzerSymbolTable.AddThenGet | src/compiler/ast_analyzer/symbol_table.rs:18-29 | after an add, the name is found with its entry and another name is not |
| AstAnalyzer.AnalyzeAst | src/compiler/ast_analyzer/mod.rs:8-16 | succeeds exactly when the names are distinct, with the AST unchanged and a table holding exactly those names, each with its return type; otherwise fails at the first repeated name |
| AstAnalyzer.RegisteredKeys | src/compiler/ast_analyzer/mod.rs:11-13 | registering the functions in order gives exactly their names |
| AstAnalyzer.RegisterStep | src/compiler/ast_analyzer/mod.rs:11-13 | one more function with a new name keeps the names distinct and adds one entry |
| AstAnalyzer.FirstRepeatNotDistinct | src/compiler/ast_analyzer/mod.rs:11-13 | a first repeat means the names are not distinct |
| AstAnalyzer.RegisteredDistinct | src/compiler/ast_analyzer/mod.rs:11-13 | with distinct names, each name is registered with its own function's return type |
| AstAnalyzer.RepeatHasFirst | src/compiler/ast_analyzer/mod.rs:11-13 | names that are not distinct have a first repeat, where the loop fails |
| AstAnalyzer.RepeatBelow | src/compiler/ast_analyzer/mod.rs:11-13 | a repeat at position `j` has a first repeat at or before `j` |
| CodegenTypes.FnType | src/compiler/codegen/types.rs:13-22 | the function type returns the given type, with the given parameters and variadic flag |
| CodegenTypes.ToBasicTypeEnum | src/compiler/codegen/types.rs:24-29 | `BasicType(t)` gives `Some(t)`, `Void` gives `None` |
| CodegenTypes.FromAstType | src/compiler/codegen/types.rs:31-39 | `void` exactly for `Unit` |
| CodegenTypes.AsLlvmType | src/compiler/codegen/types.rs:43-51 | a basic type exactly for `Int` |
| CodegenTypes.IntoType | src/compiler/codegen/types.rs:60-65 | `Explicit(ty)` gives `ty`, `ImplicitUnit` gives `void` |
| CodegenTypes.BasicOfAstType | src/compiler/codegen/types.rs:24-51 | the basic part of an AST type's LLVM type is its `as_llvm_type` |
| CodegenTypes.FromAstTypeInjective | src/compiler/codegen/types.rs:31-39 | different AST types give different LLVM types |
| CodegenTypes.FnTypeReturns | src/compiler/codegen/types.rs:13-22 | the function type built for an AST type returns `void` exactly for `Unit` |
| Codegen.Signature | src/compiler/codegen/mod.rs:67-73 | no parameters, not variadic, returning `void` exactly for `Unit` |
| Codegen.ExprGen | src/compiler/codegen/mod.rs:134-170 | `exit n` declares the exit routine and calls it with `n`; a call succeeds exactly when the callee is declared, and otherwise is the unknown-function error |
| Codegen.CompoundGen | src/compiler/codegen/mod.rs:100-122 | generation only adds declarations to the module |
| Codegen.GenFrom | src/compiler/codegen/mod.rs:101-121 | the same for the loop from expression `i` |
| Codegen.DeclareAll | src/compiler/codegen/mod.rs:54-57 | the declare pass adds exactly the functions' names |
| Codegen.ValuesAll | src/compiler/codegen/mod.rs:54-57 | the `functions` map gains exactly the functions' names |
| Codegen.Cx.constructor | src/compiler/codegen/mod.rs:25-31 | an empty module, no function values, no instructions |
| Codegen.Cx.GenerateExplicitReturn | src/compiler/codegen/mod.rs:125-131 | appends a return of the i32 constant and yields the i32 type |
| Codegen.Cx.GenExpr | src/compiler/codegen/mod.rs:134-170 | module and instructions as `ExprGen` says; nothing changes on error |
| Codegen.Cx.GenCompound | src/compiler/codegen/mod.rs:100-122 | outcome, module, appended instructions and yielded return type are those of `CompoundGen` |
| Codegen.Cx.GenerateFnValue | src/compiler/codegen/mod.rs:67-73 | declares the function with its signature and returns that value |
| Codegen.Cx.GenFunction | src/compiler/codegen/mod.rs:75-95 | a block for the function, then its body, as `FunctionGen` says |
| Codegen.Cx.GenRoot | src/compiler/codegen/mod.rs:52-63 | outcome, module and instructions are those of `RootGen`; every function value is recorded |
| Codegen.Cx.DeclarePass | src/compiler/codegen/mod.rs:54-57 | every function is declared and recorded, in order, before any body |
| Codegen.Cx.BodyPass | src/compiler/codegen/mod.rs:59-62 | the bodies in order, the first error ending generation |
| Codegen.DeclareStep | src/compiler/codegen/mod.rs:54-57 | one iteration of the declare pass adds one declaration and one value |
| Codegen.BodiesStep | src/compiler/codegen/mod.rs:59-62 | one iteration of the body pass: its error ends generation, otherwise it goes on |
| Codegen.Generate | src/compiler/codegen/mod.rs:19-33 | from a fresh context, the result is `RootGen` of the functions |
| Codegen.ReturnSkipsRest | src/compiler/codegen/mod.rs:104-107 | `return n` emits a return of `n`, yields `Explicit(i32)`, and what follows is not generated |
| Codegen.NestedCompound | src/compiler/codegen/mod.rs:110-113 | a nested explicit return ends the outer compound with the same result; a nested fall-through lets it go on |
| Codegen.ExitContinues | src/compiler/codegen/mod.rs:136-152 | `exit` declares the exit routine, calls it, and generation goes on |
| Codegen.UnknownCallFails | src/compiler/codegen/mod.rs:154-158 | a call of an undeclared name is the unknown-function error |
| Codegen.CompoundEndsWithReturn | src/compiler/codegen/mod.rs:100-122 | a compound's code ends with a `void` return when it yields `ImplicitUnit`, with an i32 return when it yields `Explicit` |
| Codegen.GenFromEndsWithReturn | src/compiler/codegen/mod.rs:101-121 | the same for the loop from expression `i` |
| Codegen.CompoundGenOk | src/compiler/codegen/mod.rs:100-122 | a compound whose calls are all declared generates without error |
| Codegen.GenFromOk | src/compiler/codegen/mod.rs:101-121 | the same for the loop from expression `i` |
| Codegen.BodiesOk | src/compiler/codegen/mod.rs:59-62 | the body pass succeeds when every call names a declared function |
| Codegen.ForwardCallsResolve | src/compiler/codegen/mod.rs:52-63 | because of the declare pass, a program whose calls name only functions it defines, earlier or later, generates without error |
| Codegen.CompoundGenByNames | src/compiler/codegen/mod.rs:100-122 | generation depends on the module only through its declared names |
| Codegen.GenFromByNames | src/compiler/codegen/mod.rs:101-121 | the same for the loop from expression `i` |
| Codegen.BodiesByNames | src/compiler/codegen/mod.rs:59-62 | the same for the body pass, over programs differing only in return types |
| Codegen.ReturnTypesNotChecked | src/compiler/codegen/mod.rs:82-92 | the declared return types decide neither success nor the instructions: no return-type check |
| Codegen.CompoundOpensNoBlock | src/compiler/codegen/mod.rs:100-122 | a compound opens no block |
| Codegen.GenFromOpensNoBlock | src/compiler/codegen/mod.rs:101-121 | the same for the loop from expression `i` |
| Codegen.FunctionOpensOneBlock | src/compiler/codegen/mod.rs:75-83 | a function's code opens exactly one block, its own |
| Codegen.BodiesInOrder | src/compiler/codegen/mod.rs:59-62 | the body pass opens one block per function, in order |
| Codegen.BlocksInSourceOrder | src/compiler/codegen/mod.rs:52-63 | the bodies are generated in source order |
| Nasm.Join | src/compiler/cg/nasm.rs:34 | no operands give the empty string, one operand gives itself |
| Nasm.InstLine | src/compiler/cg/nasm.rs:30-37 | an instruction is one line: a tab, the mnemonic, and a closing line break |
| Nasm.LabelName | src/compiler/cg/nasm.rs:55-58 | `main` is labelled `_main`, every other function by its name |
| Nasm.LabelLine | src/compiler/cg/nasm.rs:39-43 | a label line is the label, `:` and a line break |
| Nasm.Decimal | src/compiler/cg/nasm.rs:46 | non-empty decimal digits without a leading zero |
| Nasm.DecimalRoundTrip | src/compiler/cg/nasm.rs:46 | reading the rendered digits back gives the exit code |
| Nasm.DecimalInjective | src/compiler/cg/nasm.rs:46 | different exit codes are rendered differently |
| Nasm.FnEmission | src/compiler/cg/nasm.rs:54-79 | a function fails exactly as its body does |
| Nasm.Framed | src/compiler/cg/nasm.rs:59-78 | the label and the closing `ret` never add an error |
| Nasm.NasmCodegen.constructor | src/compiler/cg/nasm.rs:14-19 | the program as given, no text |
| Nasm.NasmCodegen.Tab | src/compiler/cg/nasm.rs:21-23 | appends a tab |
| Nasm.NasmCodegen.Newline | src/compiler/cg/nasm.rs:25-27 | appends a line break |
| Nasm.NasmCodegen.Inst | src/compiler/cg/nasm.rs:30-37 | appends the instruction line |
| Nasm.NasmCodegen.Label | src/compiler/cg/nasm.rs:39-43 | appends the label line |
| Nasm.NasmCodegen.GenerateExit | src/compiler/cg/nasm.rs:45-48 | appends the two lines of an exit |
| Nasm.NasmCodegen.GenerateFnCall | src/compiler/cg/nasm.rs:50-52 | appends the call line |
| Nasm.NasmCodegen.GenerateFn | src/compiler/cg/nasm.rs:54-79 | appends what `FnEmission` writes and fails with its error |
| Nasm.NasmCodegen.WriteHeader | src/compiler/cg/nasm.rs:82-84 | appends the three header lines |
| Nasm.NasmCodegen.Generate | src/compiler/cg/nasm.rs:81-92 | the result is `Program` of the program |
| Nasm.FunctionStep | src/compiler/cg/nasm.rs:86-90 | one iteration of `generate`: the function's text is appended, or its error ends generation |
| Nasm.BodyStep | src/compiler/cg/nasm.rs:61-74 | one iteration of `generate_fn`: exit and defined calls append their lines; an undefined call or a nested compound or `return` fails |
| Nasm.FramedParts | src/compiler/cg/nasm.rs:54-79 | a function's text is its label, its body, and `ret` unless the body failed |
| Nasm.RetLine | src/compiler/cg/nasm.rs:76 | the closing line is exactly `\tret\t\n` |
| Nasm.Labels | src/compiler/cg/nasm.rs:55-59 | `main` gets `_main:\n`, any other function `name:\n` |
| Nasm.ExitLines | src/compiler/cg/nasm.rs:45-48 | `exit n` is a `push` of decimal `n`, then `call _ExitProcess@4` |
| Nasm.BodyOkIff | src/compiler/cg/nasm.rs:61-74 | a body is written in full exactly when every expression is an exit or a call of a defined function |
| Nasm.BodyFirstError | src/compiler/cg/nasm.rs:61-74 | a body's error is that of its first unsupported expression |
| Nasm.FunctionEndsWithRet | src/compiler/cg/nasm.rs:76 | a function written in full ends with `ret` |
| Nasm.Emissions | src/compiler/cg/nasm.rs:86-90 | what `generate_fn` makes of each function, in source order |
| Nasm.FunctionsChain | src/compiler/cg/nasm.rs:86-90 | the loop of `generate` writes the functions' texts one after another until the first failure |
| Nasm.ChainOkIff | src/compiler/cg/nasm.rs:86-90 | such a chain runs to the end exactly when nothing in it fails |
| Nasm.ChainFirstError | src/compiler/cg/nasm.rs:86-90 | such a chain stops with the error of its first failure |
| Nasm.ChainText | src/compiler/cg/nasm.rs:86-90 | a chain that runs to the end writes every text in order |
| Nasm.FunctionsOkIff | src/compiler/cg/nasm.rs:86-90 | the functions are written exactly when each of them is |
| Nasm.FunctionsFirstError | src/compiler/cg/nasm.rs:86-90 | the error is that of the first function that fails |
| Nasm.ProgramShape | src/compiler/cg/nasm.rs:81-92 | `generate` succeeds exactly when every body is flat and calls only defined functions; the output is then the header followed by each function's text in source order |

## Left out

- src/main.rs, src/compiler/mod.rs and src/compiler/semantic_analysis/mod.rs are not part of this model. They are command-line plumbing and a stub that returns its input.
- End-to-end lexer-to-parser claims: the lexer produces the `fun`/`exit69` token set and the parser consumes the other one, so the two are modelled separately.
- Unicode letters and digits: `is_alphabetic` and `is_alphanumeric` are restricted to ASCII. `is_whitespace` is modelled exactly.
- SymbolTable.Sym.GetFunctionMut: the fields `name` and `return_ty` are public and writable through the returned entry. A caller that renames an entry breaks the link between lookup and arena, and `Valid()` no longer holds. No caller in the repository does this; the only write modelled is `AttachThrough`, which keeps every name.
- SymbolTable.Sym.AddFunction: `add_function` takes the `Function` by value, so the caller loses it. Here the caller keeps a reference to the stored object.
- `Rc<RefCell<…>>` borrow checking and its panics: a shared inner value is one Dafny object, and a clone of an `Arena` or a `Sym` is the same reference.
- The generation counters of `generational_arena`: nothing is ever removed, so a plain position stands for an index.
- `CodegenFunctionDataRef` is declared outside the modelled files and is kept abstract, as an identifier.
- The return type of a function definition: the parser never fills it in, so its result type `ParsedFunction` has no such field. The analyzer and the generators take the AST of `src/compiler/parser/ast.rs`, return type included.
- LLVM itself: the context, types, values, verification, the name mangling of repeated `ExitProcess@4` declarations, `clear_insertion_position`, and the failures of `build_call`/`build_return`. The module is the map of declared functions, and the builder is the list of instructions appended.
- Codegen.DeclareAll: on a program with repeated function names, LLVM's `add_function` would give the later declaration a fresh suffixed name (`foo.1`). The model keeps one entry per name, holding the last signature. `generate` only receives an AST that `analyze_ast` accepted, so the names are distinct there (`AstAnalyzer.AnalyzeAst`).
- The `table` field of `Cx`: the code generator never reads it.
- The I/O of `codegen::generate`: printing the module to standard error and writing bitcode to a path.
- Codegen.Cx.GenRoot: `Root::codegen` is one function with two loops. The model splits them into `DeclarePass` and `BodyPass`, each with the same effect as its loop.
- Nasm.NasmCodegen.Generate: requires the text to be empty. `generate` consumes the generator and is the only public entry point, so it always starts from the empty text that `new` made.
- The concrete token sequences of the lexer's unit tests `brackets`, `identifiers` and `empty_main` are not stated as lemmas of their own. `ScanText`, `ScanIdentifier`, `ScanSkipsWhitespace` and `LexRender` state the behaviour those tests check.
- Error messages: each error is a datatype value naming what was expected and found, not the formatted text.
