/**
 * The recursive-descent parser of src/compiler/parser/mod.rs. A `Parser`
 * holds the tokens not consumed yet (a double-ended queue popped at the
 * front) and builds the syntax tree of module `Ast`. It consumes the token
 * set of src/compiler/lexer/token.rs (module `LexerTokens`).
 *
 * The specification is given by pure functions on the remaining tokens,
 * each returning what was parsed (or the error) together with the tokens it
 * leaves: `Expect`, `CompoundAt`, `CompoundBody`, `CompoundStatement`,
 * `FunctionDefAt`, `AfterNewLines` and `RootFrom`.
 */
module Parser {
  import opened Common
  import opened LexerTokens
  import Ast

  datatype ParseError =
    | ExpectedToken(expected: Token, got: Option<Token>)  // `expect_token` met another token, or none
    | MissingExitCode                                      // `exit` not followed by a number
    | InvalidToken(token: Token)                           // a token that starts no expression
    | UnexpectedEnd                                        // the tokens ran out inside a compound
    | ExpectedFunctionName(found: Option<Token>)             // `fun` not followed by an identifier

  /** The outcome of a parsing step and the tokens it leaves unconsumed. */
  datatype Parsed<T> = Parsed(result: Result<T, ParseError>, rest: seq<Token>)

  /**
   * A function definition as the parser builds it: `parse_function_def` fills
   * in the name and the body but never the return type.
   */
  datatype ParsedFunction = ParsedFunction(name: string, compound: Ast.CompoundExpr)

  datatype ParsedRoot = ParsedRoot(functionNames: seq<string>, functions: seq<ParsedFunction>)

  predicate IsSuffix(r: seq<Token>, s: seq<Token>)
  {
    |r| <= |s| && r == s[|s| - |r|..]
  }

  /** The tokens after the first one (a pop on an empty queue takes nothing). */
  function Tail(ts: seq<Token>): seq<Token>
  {
    if ts == [] then [] else ts[1..]
  }

  /** `expect_token`: pop one token; fail if there was none or it was not `expected`. */
  function Expect(ts: seq<Token>, expected: Token): (p: Parsed<()>)
    ensures p.result.Ok? <==> ts != [] && ts[0] == expected
    ensures p.result.Err? ==> p.result.error == ExpectedToken(expected, if ts == [] then None else Some(ts[0]))
    ensures p.rest == Tail(ts)
  {
    if ts == [] then Parsed(Err(ExpectedToken(expected, None)), [])
    else if ts[0] != expected then Parsed(Err(ExpectedToken(expected, Some(ts[0]))), ts[1..])
    else Parsed(Ok(()), ts[1..])
  }

  /** `parse_compound`: a `{`, then the body up to and including the `}` that closes it. */
  function CompoundAt(ts: seq<Token>): (p: Parsed<Ast.CompoundExpr>)
    ensures |p.rest| <= |ts|
    ensures p.result.Ok? ==> |p.rest| < |ts|
    decreases |ts|, 0
  {
    var open := Expect(ts, LeftBrace);
    if open.result.Err? then Parsed(Err(open.result.error), open.rest)
    else
      var body := CompoundBody(open.rest, []);
      match body.result
      case Ok(es) => Parsed(Ok(Ast.CompoundExpr(es)), body.rest)
      case Err(e) => Parsed(Err(e), body.rest)
  }

  /**
   * One iteration of the loop of `parse_compound` and everything after it,
   * with `acc` the expressions collected so far: first a nested compound if
   * the next token is `{`, then one token that decides what comes next.
   */
  function CompoundBody(ts: seq<Token>, acc: seq<Ast.Expr>): (p: Parsed<seq<Ast.Expr>>)
    ensures |p.rest| <= |ts|
    ensures p.result.Ok? ==> |p.rest| < |ts|
    decreases |ts|, 2
  {
    if ts != [] && ts[0] == LeftBrace then
      var sub := CompoundAt(ts);
      match sub.result
      case Err(e) => Parsed(Err(e), sub.rest)
      case Ok(c) => CompoundStatement(sub.rest, acc + [Ast.Compound(c)])
    else
      CompoundStatement(ts, acc)
  }

  /** The `match self.eat_token()` part of one loop iteration of `parse_compound`. */
  function CompoundStatement(ts: seq<Token>, acc: seq<Ast.Expr>): (p: Parsed<seq<Ast.Expr>>)
    ensures |p.rest| <= |ts|
    ensures p.result.Ok? ==> |p.rest| < |ts|
    decreases |ts|, 1
  {
    if ts == [] then Parsed(Err(UnexpectedEnd), [])
    else
      var rest := ts[1..];
      match ts[0]
      case Keyword(Exit) =>
        if rest != [] && rest[0].Number? then CompoundBody(rest[1..], acc + [Ast.Exit(rest[0].value)])
        else Parsed(Err(MissingExitCode), Tail(rest))
      case RightBrace => Parsed(Ok(acc), rest)
      case NewLine => CompoundBody(rest, acc)
      case Identifier(name) =>
        var left := Expect(rest, LeftParentheses);
        if left.result.Err? then Parsed(Err(left.result.error), left.rest)
        else
          var right := Expect(left.rest, RightParentheses);
          if right.result.Err? then Parsed(Err(right.result.error), right.rest)
          else CompoundBody(right.rest, acc + [Ast.FnCall(name)])
      case other => Parsed(Err(InvalidToken(other)), rest)
  }

  /** `parse_function_def`: `fun`, an identifier, `(`, `)` and a compound, in that order. */
  function FunctionDefAt(ts: seq<Token>): (p: Parsed<ParsedFunction>)
    ensures |p.rest| <= |ts|
    ensures p.result.Ok? ==> |p.rest| < |ts|
  {
    var fun := Expect(ts, Keyword(Fun));
    if fun.result.Err? then Parsed(Err(fun.result.error), fun.rest)
    else
      var ts1 := fun.rest;
      if ts1 == [] then Parsed(Err(ExpectedFunctionName(None)), [])
      else if !ts1[0].Identifier? then Parsed(Err(ExpectedFunctionName(Some(ts1[0]))), ts1[1..])
      else
        var left := Expect(ts1[1..], LeftParentheses);
        if left.result.Err? then Parsed(Err(left.result.error), left.rest)
        else
          var right := Expect(left.rest, RightParentheses);
          if right.result.Err? then Parsed(Err(right.result.error), right.rest)
          else
            var body := CompoundAt(right.rest);
            match body.result
            case Err(e) => Parsed(Err(e), body.rest)
            case Ok(c) => Parsed(Ok(ParsedFunction(ts1[0].name, c)), body.rest)
  }

  /** `skip_newlines`: what is left once the leading line breaks are gone. */
  function AfterNewLines(ts: seq<Token>): (r: seq<Token>)
    ensures |r| <= |ts|
    ensures forall i :: 0 <= i < |ts| - |r| ==> ts[i] == NewLine
    ensures r == [] || r[0] != NewLine
  {
    if ts != [] && ts[0] == NewLine then AfterNewLines(ts[1..]) else ts
  }

  /** The loop of `parse_root`, with `acc` the functions parsed so far. */
  function RootFrom(ts: seq<Token>, acc: seq<ParsedFunction>): (r: Result<seq<ParsedFunction>, ParseError>)
    decreases |ts|
  {
    var t := AfterNewLines(ts);
    if t == [] then Ok(acc)
    else
      var f := FunctionDefAt(t);
      match f.result
      case Err(e) => Err(e)
      case Ok(fd) => RootFrom(f.rest, acc + [fd])
  }

  function Names(fs: seq<ParsedFunction>): (names: seq<string>)
    ensures |names| == |fs|
    ensures forall i :: 0 <= i < |fs| ==> names[i] == fs[i].name
  {
    if fs == [] then [] else [fs[0].name] + Names(fs[1..])
  }

  /** `parse_root`: the functions, and their names in the same order. */
  function RootOf(ts: seq<Token>): (r: Result<ParsedRoot, ParseError>)
    ensures r.Ok? ==> r.value.functionNames == Names(r.value.functions)
  {
    match RootFrom(ts, [])
    case Ok(fs) => Ok(ParsedRoot(Names(fs), fs))
    case Err(e) => Err(e)
  }

  class Parser {
    /** The token queue; `eat_token` pops its front. */
    var tokens: seq<Token>

    constructor (tokens: seq<Token>)
      ensures this.tokens == tokens
    {
      this.tokens := tokens;
    }

    function PeekToken(): (t: Option<Token>)
      reads this
      ensures t.None? <==> tokens == []
      ensures t.Some? ==> t.value == tokens[0]
    {
      if tokens == [] then None else Some(tokens[0])
    }

    method EatToken() returns (t: Option<Token>)
      modifies this
      ensures t == old(PeekToken())
      ensures tokens == Tail(old(tokens))
    {
      if tokens == [] {
        t := None;
      } else {
        t := Some(tokens[0]);
        tokens := tokens[1..];
      }
    }

    method ExpectToken(expected: Token) returns (r: Result<(), ParseError>)
      modifies this
      ensures r == Expect(old(tokens), expected).result
      ensures tokens == Expect(old(tokens), expected).rest
    {
      var token := EatToken();
      if token.None? {
        return Err(ExpectedToken(expected, None));
      }
      if token.value != expected {
        return Err(ExpectedToken(expected, token));
      }
      return Ok(());
    }

    method ParseCompound() returns (r: Result<Ast.CompoundExpr, ParseError>)
      modifies this
      ensures r == CompoundAt(old(tokens)).result
      ensures tokens == CompoundAt(old(tokens)).rest
      decreases |tokens|
    {
      ghost var start := tokens;
      var open := ExpectToken(LeftBrace);
      if open.Err? {
        return Err(open.error);
      }
      ghost var body := tokens;
      CompoundAtUnfold(start);
      var expressions: seq<Ast.Expr> := [];
      while true
        invariant |tokens| < |start|
        invariant CompoundBody(tokens, expressions) == CompoundBody(body, [])
        decreases |tokens|
      {
        ghost var before := tokens;
        ghost var acc := expressions;
        if PeekToken() == Some(LeftBrace) {
          var sub := ParseCompound();
          BodyNested(before, acc);
          if sub.Err? {
            return Err(sub.error);
          }
          expressions := expressions + [Ast.Compound(sub.value)];
        } else {
          BodyPlain(before, acc);
        }
        ghost var mid := tokens;
        var token := EatToken();
        if token.None? {
          return Err(UnexpectedEnd);
        }
        match token.value
        case Keyword(Exit) =>
          var code := EatToken();
          if code.Some? && code.value.Number? {
            StatementExit(mid, expressions);
            expressions := expressions + [Ast.Exit(code.value.value)];
          } else {
            StatementExit(mid, expressions);
            return Err(MissingExitCode);
          }
        case RightBrace =>
          StatementEnd(mid, expressions);
          break;
        case NewLine =>
          StatementNewLine(mid, expressions);
        case Identifier(name) =>
          StatementCall(mid, expressions);
          var left := ExpectToken(LeftParentheses);
          if left.Err? {
            return Err(left.error);
          }
          var right := ExpectToken(RightParentheses);
          if right.Err? {
            return Err(right.error);
          }
          expressions := expressions + [Ast.FnCall(name)];
        case other =>
          StatementOther(mid, expressions);
          return Err(InvalidToken(other));
      }
      return Ok(Ast.CompoundExpr(expressions));
    }

    method ParseFunctionDef() returns (r: Result<ParsedFunction, ParseError>)
      modifies this
      ensures r == FunctionDefAt(old(tokens)).result
      ensures tokens == FunctionDefAt(old(tokens)).rest
    {
      var fun := ExpectToken(Keyword(Fun));
      if fun.Err? {
        return Err(fun.error);
      }
      var token := EatToken();
      if token.None? {
        return Err(ExpectedFunctionName(None));
      }
      if !token.value.Identifier? {
        return Err(ExpectedFunctionName(token));
      }
      var name := token.value.name;
      var left := ExpectToken(LeftParentheses);
      if left.Err? {
        return Err(left.error);
      }
      var right := ExpectToken(RightParentheses);
      if right.Err? {
        return Err(right.error);
      }
      var compound := ParseCompound();
      if compound.Err? {
        return Err(compound.error);
      }
      return Ok(ParsedFunction(name, compound.value));
    }

    method SkipNewlines()
      modifies this
      ensures tokens == AfterNewLines(old(tokens))
    {
      while PeekToken() == Some(NewLine)
        invariant AfterNewLines(tokens) == AfterNewLines(old(tokens))
        decreases |tokens|
      {
        var _ := EatToken();
      }
    }

    method ParseRoot() returns (r: Result<ParsedRoot, ParseError>)
      modifies this
      ensures r == RootOf(old(tokens))
    {
      var functions: seq<ParsedFunction> := [];
      while true
        invariant RootFrom(tokens, functions) == RootFrom(old(tokens), [])
        decreases |tokens|
      {
        ghost var before := tokens;
        SkipNewlines();
        if PeekToken().None? {
          RootEnd(before, functions);
          break;
        }
        RootStep(before, functions);
        var f := ParseFunctionDef();
        if f.Err? {
          return Err(f.error);
        }
        functions := functions + [f.value];
      }
      var names := FunctionNames(functions);
      return Ok(ParsedRoot(names, functions));
    }
  }

  /** `parse`: a fresh parser over the whole token sequence, run by `parse_root`. */
  method Parse(tokens: seq<Token>) returns (r: Result<ParsedRoot, ParseError>)
    ensures r == RootOf(tokens)
  {
    var parser := new Parser(tokens);
    r := parser.ParseRoot();
  }

  /** The names of `fs`, collected by a loop as `parse_root` does with `map` and `collect`. */
  method FunctionNames(fs: seq<ParsedFunction>) returns (names: seq<string>)
    ensures names == Names(fs)
  {
    names := [];
    for i := 0 to |fs|
      invariant names == Names(fs[..i])
    {
      NamesSnoc(fs[..i], fs[i]);
      assert fs[..i + 1] == fs[..i] + [fs[i]];
      names := names + [fs[i].name];
    }
    assert fs[..|fs|] == fs;
  }

  // ---------------------------------------------------------------------------
  // One-step unfoldings used by the methods
  // ---------------------------------------------------------------------------

  lemma NamesSnoc(fs: seq<ParsedFunction>, f: ParsedFunction)
    ensures Names(fs + [f]) == Names(fs) + [f.name]
  {
  }

  lemma CompoundAtUnfold(ts: seq<Token>)
    requires ts != [] && ts[0] == LeftBrace
    ensures CompoundAt(ts).rest == CompoundBody(ts[1..], []).rest
    ensures var body := CompoundBody(ts[1..], []).result;
            CompoundAt(ts).result == if body.Ok? then Ok(Ast.CompoundExpr(body.value)) else Err(body.error)
  {
  }

  lemma BodyNested(ts: seq<Token>, acc: seq<Ast.Expr>)
    requires ts != [] && ts[0] == LeftBrace
    ensures var sub := CompoundAt(ts);
            CompoundBody(ts, acc) == if sub.result.Err? then Parsed(Err(sub.result.error), sub.rest)
                                     else CompoundStatement(sub.rest, acc + [Ast.Compound(sub.result.value)])
  {
  }

  lemma BodyPlain(ts: seq<Token>, acc: seq<Ast.Expr>)
    requires ts == [] || ts[0] != LeftBrace
    ensures CompoundBody(ts, acc) == CompoundStatement(ts, acc)
  {
  }

  lemma StatementExit(ts: seq<Token>, acc: seq<Ast.Expr>)
    requires ts != [] && ts[0] == Keyword(Exit)
    ensures var rest := ts[1..];
            CompoundStatement(ts, acc) ==
              if rest != [] && rest[0].Number? then CompoundBody(rest[1..], acc + [Ast.Exit(rest[0].value)])
              else Parsed(Err(MissingExitCode), Tail(rest))
  {
  }

  lemma StatementEnd(ts: seq<Token>, acc: seq<Ast.Expr>)
    requires ts != [] && ts[0] == RightBrace
    ensures CompoundStatement(ts, acc) == Parsed(Ok(acc), ts[1..])
  {
  }

  lemma StatementNewLine(ts: seq<Token>, acc: seq<Ast.Expr>)
    requires ts != [] && ts[0] == NewLine
    ensures CompoundStatement(ts, acc) == CompoundBody(ts[1..], acc)
  {
  }

  lemma StatementCall(ts: seq<Token>, acc: seq<Ast.Expr>)
    requires ts != [] && ts[0].Identifier?
    ensures var left := Expect(ts[1..], LeftParentheses);
            var right := Expect(left.rest, RightParentheses);
            CompoundStatement(ts, acc) ==
              if left.result.Err? then Parsed(Err(left.result.error), left.rest)
              else if right.result.Err? then Parsed(Err(right.result.error), right.rest)
              else CompoundBody(right.rest, acc + [Ast.FnCall(ts[0].name)])
  {
  }

  lemma StatementOther(ts: seq<Token>, acc: seq<Ast.Expr>)
    requires ts != [] && ts[0] != Keyword(Exit) && ts[0] != RightBrace && ts[0] != NewLine && !ts[0].Identifier?
    ensures CompoundStatement(ts, acc) == Parsed(Err(InvalidToken(ts[0])), ts[1..])
  {
  }

  lemma RootEnd(ts: seq<Token>, acc: seq<ParsedFunction>)
    requires AfterNewLines(ts) == []
    ensures RootFrom(ts, acc) == Ok(acc)
  {
  }

  lemma RootStep(ts: seq<Token>, acc: seq<ParsedFunction>)
    requires AfterNewLines(ts) != []
    ensures var f := FunctionDefAt(AfterNewLines(ts));
            RootFrom(ts, acc) == if f.result.Err? then Err(f.result.error)
                                 else RootFrom(f.rest, acc + [f.result.value])
  {
  }

  // ---------------------------------------------------------------------------
  // What the parser accepts
  // ---------------------------------------------------------------------------

  /** A compound opens with `{`; anything else is reported as that token. */
  lemma CompoundNeedsBrace(ts: seq<Token>)
    requires ts == [] || ts[0] != LeftBrace
    ensures CompoundAt(ts) == Parsed(Err(ExpectedToken(LeftBrace, if ts == [] then None else Some(ts[0]))), Tail(ts))
  {
  }

  /** `rest` is what is left once a run of tokens ending with `}` was consumed from `ts`. */
  predicate ClosedBy(ts: seq<Token>, rest: seq<Token>)
  {
    |rest| < |ts| && ts[|ts| - |rest| - 1] == RightBrace
  }

  lemma ClosedByFurther(ts: seq<Token>, mid: seq<Token>, rest: seq<Token>)
    requires IsSuffix(mid, ts) && IsSuffix(rest, mid) && ClosedBy(mid, rest)
    ensures IsSuffix(rest, ts) && ClosedBy(ts, rest)
  {
    assert mid[|mid| - |rest| - 1] == ts[|ts| - |mid| + (|mid| - |rest| - 1)];
    assert ts[|ts| - |mid|..][|mid| - |rest|..] == ts[|ts| - |rest|..];
  }

  /**
   * A compound that parses ends with the `}` that closes it: what it leaves
   * is a suffix of its input, and the last token it consumes is a right brace.
   */
  lemma {:induction false} CompoundEndsWithBrace(ts: seq<Token>)
    requires CompoundAt(ts).result.Ok?
    ensures IsSuffix(CompoundAt(ts).rest, ts) && ClosedBy(ts, CompoundAt(ts).rest)
    decreases |ts|, 0
  {
    CompoundAtUnfold(ts);
    BodyEndsWithBrace(ts[1..], []);
    ClosedByFurther(ts, ts[1..], CompoundAt(ts).rest);
  }

  lemma {:induction false} BodyEndsWithBrace(ts: seq<Token>, acc: seq<Ast.Expr>)
    requires CompoundBody(ts, acc).result.Ok?
    ensures IsSuffix(CompoundBody(ts, acc).rest, ts) && ClosedBy(ts, CompoundBody(ts, acc).rest)
    decreases |ts|, 2
  {
    if ts != [] && ts[0] == LeftBrace {
      BodyNested(ts, acc);
      var sub := CompoundAt(ts);
      CompoundEndsWithBrace(ts);
      StatementEndsWithBrace(sub.rest, acc + [Ast.Compound(sub.result.value)]);
      ClosedByFurther(ts, sub.rest, CompoundBody(ts, acc).rest);
    } else {
      BodyPlain(ts, acc);
      StatementEndsWithBrace(ts, acc);
    }
  }

  lemma {:induction false} StatementEndsWithBrace(ts: seq<Token>, acc: seq<Ast.Expr>)
    requires CompoundStatement(ts, acc).result.Ok?
    ensures IsSuffix(CompoundStatement(ts, acc).rest, ts) && ClosedBy(ts, CompoundStatement(ts, acc).rest)
    decreases |ts|, 1
  {
    match ts[0]
    case Keyword(Exit) =>
      StatementExit(ts, acc);
      assert ts[1..][1..] == ts[2..];
      StepEndsWithBrace(ts, acc, 2, acc + [Ast.Exit(ts[1].value)]);
    case RightBrace =>
      StatementEnd(ts, acc);
    case NewLine =>
      StatementNewLine(ts, acc);
      StepEndsWithBrace(ts, acc, 1, acc);
    case Identifier(name) =>
      StatementCall(ts, acc);
      assert ts[1..][1..][1..] == ts[3..];
      StepEndsWithBrace(ts, acc, 3, acc + [Ast.FnCall(name)]);
  }

  /** A statement that goes on with the body after its first `k` tokens. */
  lemma {:induction false} StepEndsWithBrace(ts: seq<Token>, acc: seq<Ast.Expr>, k: nat, acc2: seq<Ast.Expr>)
    requires 1 <= k <= |ts| && CompoundStatement(ts, acc) == CompoundBody(ts[k..], acc2)
    requires CompoundBody(ts[k..], acc2).result.Ok?
    ensures IsSuffix(CompoundStatement(ts, acc).rest, ts) && ClosedBy(ts, CompoundStatement(ts, acc).rest)
    decreases |ts|, 0
  {
    BodyEndsWithBrace(ts[k..], acc2);
    DropIsSuffix(ts, k);
    ClosedByFurther(ts, ts[k..], CompoundBody(ts[k..], acc2).rest);
  }

  lemma DropIsSuffix(ts: seq<Token>, k: nat)
    requires k <= |ts|
    ensures IsSuffix(ts[k..], ts)
  {
  }

  /** An expression the parser can produce: it never builds a `Return`. */
  predicate ParseableExpr(e: Ast.Expr)
  {
    !e.Return?
  }

  /** Every expression of `c`, at any depth, is one the parser can produce. */
  predicate Parseable(c: Ast.CompoundExpr)
    decreases c, |c.expressions| + 1
  {
    ParseableFrom(c, 0)
  }

  predicate ParseableFrom(c: Ast.CompoundExpr, i: nat)
    decreases c, |c.expressions| - i
  {
    i >= |c.expressions| ||
    (ParseableExpr(c.expressions[i]) &&
     (c.expressions[i].Compound? ==> Parseable(c.expressions[i].inner)) &&
     ParseableFrom(c, i + 1))
  }

  lemma {:induction false} ParseableFromAppend(es: seq<Ast.Expr>, e: Ast.Expr, i: nat)
    requires i <= |es|
    requires ParseableFrom(Ast.CompoundExpr(es), i)
    requires ParseableExpr(e) && (e.Compound? ==> Parseable(e.inner))
    ensures ParseableFrom(Ast.CompoundExpr(es + [e]), i)
    decreases |es| - i
  {
    var c := Ast.CompoundExpr(es + [e]);
    if i < |es| {
      ParseableFromAppend(es, e, i + 1);
      assert c.expressions[i] == es[i];
    } else {
      assert c.expressions[i] == e;
      assert ParseableFrom(c, i + 1);
    }
  }

  /** The parser never produces a `Return` expression, at any nesting depth. */
  lemma {:induction false} CompoundParseable(ts: seq<Token>)
    requires CompoundAt(ts).result.Ok?
    ensures Parseable(CompoundAt(ts).result.value)
    decreases |ts|, 0
  {
    BodyParseable(ts[1..], []);
  }

  lemma {:induction false} BodyParseable(ts: seq<Token>, acc: seq<Ast.Expr>)
    requires ParseableFrom(Ast.CompoundExpr(acc), 0)
    requires CompoundBody(ts, acc).result.Ok?
    ensures ParseableFrom(Ast.CompoundExpr(CompoundBody(ts, acc).result.value), 0)
    decreases |ts|, 2
  {
    if ts != [] && ts[0] == LeftBrace {
      var sub := CompoundAt(ts);
      CompoundParseable(ts);
      ParseableFromAppend(acc, Ast.Compound(sub.result.value), 0);
      StatementParseable(sub.rest, acc + [Ast.Compound(sub.result.value)]);
    } else {
      StatementParseable(ts, acc);
    }
  }

  lemma {:induction false} StatementParseable(ts: seq<Token>, acc: seq<Ast.Expr>)
    requires ParseableFrom(Ast.CompoundExpr(acc), 0)
    requires CompoundStatement(ts, acc).result.Ok?
    ensures ParseableFrom(Ast.CompoundExpr(CompoundStatement(ts, acc).result.value), 0)
    decreases |ts|, 1
  {
    var rest := ts[1..];
    match ts[0]
    case Keyword(Exit) =>
      ParseableFromAppend(acc, Ast.Exit(rest[0].value), 0);
      BodyParseable(rest[1..], acc + [Ast.Exit(rest[0].value)]);
    case RightBrace =>
    case NewLine =>
      BodyParseable(rest, acc);
    case Identifier(name) =>
      ParseableFromAppend(acc, Ast.FnCall(name), 0);
      BodyParseable(rest[1..][1..], acc + [Ast.FnCall(name)]);
  }

  /** Two `{` in a row after a nested compound: the second one starts no expression. */
  lemma NestedThenBrace(ts: seq<Token>, acc: seq<Ast.Expr>)
    requires ts != [] && ts[0] == LeftBrace
    requires CompoundAt(ts).result.Ok?
    requires var r := CompoundAt(ts).rest; r != [] && r[0] == LeftBrace
    ensures CompoundBody(ts, acc) == Parsed(Err(InvalidToken(LeftBrace)), CompoundAt(ts).rest[1..])
  {
  }

  /** A function definition needs the keyword `fun`, then a name. */
  lemma FunctionNeedsName(ts: seq<Token>)
    requires |ts| >= 2 && ts[0] == Keyword(Fun) && !ts[1].Identifier?
    ensures FunctionDefAt(ts) == Parsed(Err(ExpectedFunctionName(Some(ts[1]))), ts[2..])
  {
  }

  /** Line breaks before, between and after function definitions are skipped. */
  lemma {:induction false} RootSkipsNewLines(ts: seq<Token>, acc: seq<ParsedFunction>)
    ensures RootFrom([NewLine] + ts, acc) == RootFrom(ts, acc)
  {
    assert ([NewLine] + ts)[1..] == ts;
    assert AfterNewLines([NewLine] + ts) == AfterNewLines(ts);
  }

  /** A token sequence of line breaks only is the empty program. */
  lemma {:induction false} NewLinesOnly(n: nat)
    ensures RootOf(seq(n, _ => NewLine)) == Ok(ParsedRoot([], []))
  {
    var ts := seq(n, _ => NewLine);
    AfterNewLinesSuffix(ts);
    RootEnd(ts, []);
  }

  /** `skip_newlines` only consumes. */
  lemma {:induction false} AfterNewLinesSuffix(ts: seq<Token>)
    ensures IsSuffix(AfterNewLines(ts), ts)
  {
    if ts != [] && ts[0] == NewLine {
      AfterNewLinesSuffix(ts[1..]);
      assert ts[1..][|ts| - 1 - |AfterNewLines(ts)|..] == ts[|ts| - |AfterNewLines(ts)|..];
    }
  }

  // ---------------------------------------------------------------------------
  // Round trip: the parser inverts this rendering of a tree back to tokens
  // ---------------------------------------------------------------------------

  /** Tokens for a compound: a nested compound is followed by a line break. */
  function UnparseCompound(c: Ast.CompoundExpr): seq<Token>
    decreases c, |c.expressions| + 1
  {
    [LeftBrace] + UnparseFrom(c, 0) + [RightBrace]
  }

  function UnparseFrom(c: Ast.CompoundExpr, i: nat): seq<Token>
    decreases c, |c.expressions| - i
  {
    if i >= |c.expressions| then []
    else
      var head := match c.expressions[i]
        case Compound(inner) => UnparseCompound(inner) + [NewLine]
        case Exit(code) => [Keyword(Exit), Number(code)]
        case FnCall(name) => [Identifier(name), LeftParentheses, RightParentheses]
        case Return(value) => [Keyword(Return), Number(value)];
      head + UnparseFrom(c, i + 1)
  }

  function UnparseFunction(f: ParsedFunction): seq<Token>
  {
    [Keyword(Fun), Identifier(f.name), LeftParentheses, RightParentheses] + UnparseCompound(f.compound) + [NewLine]
  }

  function UnparseFunctions(fs: seq<ParsedFunction>): seq<Token>
  {
    if fs == [] then [] else UnparseFunction(fs[0]) + UnparseFunctions(fs[1..])
  }

  /** Parsing the rendering of a compound gives it back and leaves what followed. */
  lemma {:induction false} CompoundRoundTrip(c: Ast.CompoundExpr, rest: seq<Token>)
    requires Parseable(c)
    ensures CompoundAt(UnparseCompound(c) + rest) == Parsed(Ok(c), rest)
    decreases c, |c.expressions| + 1
  {
    var ts := UnparseCompound(c) + rest;
    assert ts[1..] == UnparseFrom(c, 0) + [RightBrace] + rest;
    BodyRoundTrip(c, 0, rest);
    assert c.expressions[..0] == [];
  }

  lemma {:induction false} BodyRoundTrip(c: Ast.CompoundExpr, i: nat, rest: seq<Token>)
    requires i <= |c.expressions|
    requires ParseableFrom(c, i)
    ensures CompoundBody(UnparseFrom(c, i) + [RightBrace] + rest, c.expressions[..i]) == Parsed(Ok(c.expressions), rest)
    decreases c, |c.expressions| - i
  {
    var es := c.expressions;
    if i == |es| {
      assert es[..i] == es;
      BodyAtEnd(rest, es);
    } else {
      var tail := UnparseFrom(c, i + 1) + [RightBrace] + rest;
      var ts := UnparseFrom(c, i) + [RightBrace] + rest;
      assert CompoundBody(ts, es[..i]) == CompoundBody(tail, es[..i] + [es[i]]) by {
        match es[i]
        case Compound(inner) =>
          assert ts == UnparseCompound(inner) + ([NewLine] + tail);
          CompoundRoundTrip(inner, [NewLine] + tail);
          BodyAfterNested(inner, tail, es[..i]);
        case Exit(code) =>
          assert ts == [Keyword(Exit), Number(code)] + tail;
          BodyAfterExit(code, tail, es[..i]);
        case FnCall(name) =>
          assert ts == [Identifier(name), LeftParentheses, RightParentheses] + tail;
          BodyAfterCall(name, tail, es[..i]);
      }
      assert es[..i + 1] == es[..i] + [es[i]];
      BodyRoundTrip(c, i + 1, rest);
    }
  }

  lemma BodyAtEnd(rest: seq<Token>, acc: seq<Ast.Expr>)
    ensures CompoundBody([RightBrace] + rest, acc) == Parsed(Ok(acc), rest)
  {
    BodyPlain([RightBrace] + rest, acc);
    StatementEnd([RightBrace] + rest, acc);
    assert ([RightBrace] + rest)[1..] == rest;
  }

  lemma BodyAfterNested(inner: Ast.CompoundExpr, tail: seq<Token>, acc: seq<Ast.Expr>)
    requires CompoundAt(UnparseCompound(inner) + ([NewLine] + tail)) == Parsed(Ok(inner), [NewLine] + tail)
    ensures CompoundBody(UnparseCompound(inner) + ([NewLine] + tail), acc) == CompoundBody(tail, acc + [Ast.Compound(inner)])
  {
    var ts := UnparseCompound(inner) + ([NewLine] + tail);
    assert ts[0] == LeftBrace;
    BodyNested(ts, acc);
    StatementNewLine([NewLine] + tail, acc + [Ast.Compound(inner)]);
    assert ([NewLine] + tail)[1..] == tail;
  }

  lemma BodyAfterExit(code: U32, tail: seq<Token>, acc: seq<Ast.Expr>)
    ensures CompoundBody([Keyword(Exit), Number(code)] + tail, acc) == CompoundBody(tail, acc + [Ast.Exit(code)])
  {
    var ts := [Keyword(Exit), Number(code)] + tail;
    BodyPlain(ts, acc);
    StatementExit(ts, acc);
    assert ts[1..][1..] == tail;
  }

  lemma BodyAfterCall(name: string, tail: seq<Token>, acc: seq<Ast.Expr>)
    ensures CompoundBody([Identifier(name), LeftParentheses, RightParentheses] + tail, acc) == CompoundBody(tail, acc + [Ast.FnCall(name)])
  {
    var ts := [Identifier(name), LeftParentheses, RightParentheses] + tail;
    BodyPlain(ts, acc);
    StatementCall(ts, acc);
    assert ts[1..][1..][1..] == tail;
  }

  lemma {:induction false} FunctionRoundTrip(f: ParsedFunction, rest: seq<Token>)
    requires Parseable(f.compound)
    ensures FunctionDefAt(UnparseFunction(f) + rest) == Parsed(Ok(f), [NewLine] + rest)
  {
    var ts := UnparseFunction(f) + rest;
    var body := UnparseCompound(f.compound) + ([NewLine] + rest);
    assert ts == [Keyword(Fun), Identifier(f.name), LeftParentheses, RightParentheses] + body;
    assert ts[1..][1..][1..][1..] == body;
    CompoundRoundTrip(f.compound, [NewLine] + rest);
  }

  /**
   * Parsing the rendering of a whole program gives back its functions, and
   * its function names in order.
   */
  lemma {:induction false} RootRoundTrip(fs: seq<ParsedFunction>)
    requires forall i :: 0 <= i < |fs| ==> Parseable(fs[i].compound)
    ensures RootOf(UnparseFunctions(fs)) == Ok(ParsedRoot(Names(fs), fs))
  {
    RootFromRoundTrip(fs, 0);
    assert fs[..0] == [] && fs[0..] == fs;
  }

  lemma {:induction false} RootFromRoundTrip(fs: seq<ParsedFunction>, i: nat)
    requires i <= |fs|
    requires forall j :: 0 <= j < |fs| ==> Parseable(fs[j].compound)
    ensures RootFrom(UnparseFunctions(fs[i..]), fs[..i]) == Ok(fs)
    decreases |fs| - i
  {
    if i == |fs| {
      assert fs[i..] == [] && fs[..i] == fs;
      RootEnd([], fs);
    } else {
      var rest := UnparseFunctions(fs[i + 1..]);
      assert UnparseFunctions(fs[i..]) == UnparseFunction(fs[i]) + rest by {
        assert fs[i..][1..] == fs[i + 1..];
      }
      calc {
        RootFrom(UnparseFunctions(fs[i..]), fs[..i]);
        { RootAfterFunction(fs[i], rest, fs[..i]); }
        RootFrom(rest, fs[..i] + [fs[i]]);
        { assert fs[..i + 1] == fs[..i] + [fs[i]]; }
        RootFrom(UnparseFunctions(fs[i + 1..]), fs[..i + 1]);
        { RootFromRoundTrip(fs, i + 1); }
        Ok(fs);
      }
    }
  }

  lemma RootAfterFunction(f: ParsedFunction, rest: seq<Token>, acc: seq<ParsedFunction>)
    requires Parseable(f.compound)
    ensures RootFrom(UnparseFunction(f) + rest, acc) == RootFrom(rest, acc + [f])
  {
    var ts := UnparseFunction(f) + rest;
    assert ts[0] == Keyword(Fun);
    assert AfterNewLines(ts) == ts;
    FunctionRoundTrip(f, rest);
    RootStep(ts, acc);
    RootSkipsNewLines(rest, acc + [f]);
  }
}
