/**
 * The NASM text generator of src/compiler/cg/nasm.rs. `NasmCodegen` keeps
 * the program and the assembly text written so far, and appends to that
 * text: a fixed header, then for each function a label, one or two
 * instruction lines per expression, and a closing `ret`. Only flat bodies of
 * `exit` and calls are supported.
 */
module Nasm {
  import opened Common
  import Ast

  /** The three lines every output starts with (the double space is in the source). */
  const Header: string := "section .text\n" + "global _main\n" + "extern  _ExitProcess@4\n"

  datatype NasmError =
    | UndefinedFunction(name: string)  // a call of a name the program does not define
    | NotSupported                     // a nested compound or a `return`

  /** `args` with `sep` between neighbours (`intersperse` then `collect`). */
  function Join(args: seq<string>, sep: string): (s: string)
    ensures args == [] ==> s == ""
    ensures |args| == 1 ==> s == args[0]
  {
    if args == [] then ""
    else if |args| == 1 then args[0]
    else args[0] + sep + Join(args[1..], sep)
  }

  /** `inst`: a tab, the mnemonic, a tab, the operands separated by ", ", a line break. */
  function InstText(instruction: string, args: seq<string>): string
  {
    "\t" + instruction + "\t" + Join(args, ", ") + "\n"
  }

  /** An instruction is one line: a tab, the mnemonic, and the line break at the end. */
  lemma InstLine(instruction: string, args: seq<string>)
    ensures var t := InstText(instruction, args);
            |t| == |instruction| + |Join(args, ", ")| + 3 &&
            t[0] == '\t' && t[|t| - 1] == '\n' && t[1..|instruction| + 1] == instruction
  {
    var t := InstText(instruction, args);
    assert t[1..|instruction| + 1] == instruction;
  }

  /** The label `generate_fn` gives a function: `main` is the entry point `_main`. */
  function LabelName(name: string): (l: string)
    ensures name == "main" ==> l == "_main"
    ensures name != "main" ==> l == name
  {
    if name == "main" then "_main" else name
  }

  /** `label`: the label followed by a colon and a line break. */
  function LabelText(l: string): string
  {
    l + ":\n"
  }

  /** A label line is the label, a colon and a line break. */
  lemma LabelLine(l: string)
    ensures var t := LabelText(l);
            |t| == |l| + 2 && t[..|l|] == l && t[|l|] == ':' && t[|l| + 1] == '\n'
  {
    var t := LabelText(l);
    assert t[..|l|] == l;
  }

  // ---------------------------------------------------------------------------
  // Decimal rendering of exit codes (`u32::to_string`)
  // ---------------------------------------------------------------------------

  predicate IsDigit(c: char)
  {
    '0' as int <= c as int <= '9' as int
  }

  function DigitChar(d: nat): (c: char)
    requires d < 10
    ensures IsDigit(c)
    ensures c as int - '0' as int == d
  {
    ('0' as int + d) as char
  }

  /** The decimal digits of `n`, without leading zeros. */
  function Decimal(n: nat): (s: string)
    ensures |s| > 0
    ensures forall i :: 0 <= i < |s| ==> IsDigit(s[i])
    ensures s[0] == '0' ==> n == 0 && s == "0"
  {
    if n < 10 then [DigitChar(n)] else Decimal(n / 10) + [DigitChar(n % 10)]
  }

  /** The value of a string of decimal digits, its inverse. */
  function DecimalValue(s: string): (n: nat)
    requires forall i :: 0 <= i < |s| ==> IsDigit(s[i])
  {
    if s == [] then 0
    else
      assert IsDigit(s[|s| - 1]);
      DecimalValue(s[..|s| - 1]) * 10 + (s[|s| - 1] as int - '0' as int)
  }

  /** Reading the rendered digits back gives the exit code. */
  lemma {:induction false} DecimalRoundTrip(n: nat)
    ensures DecimalValue(Decimal(n)) == n
  {
    var s := Decimal(n);
    if n >= 10 {
      DecimalRoundTrip(n / 10);
      assert s[..|s| - 1] == Decimal(n / 10);
    }
  }

  /** Different exit codes are rendered differently. */
  lemma DecimalInjective(m: nat, n: nat)
    requires Decimal(m) == Decimal(n)
    ensures m == n
  {
    DecimalRoundTrip(m);
    DecimalRoundTrip(n);
  }

  // ---------------------------------------------------------------------------
  // The text of each construct
  // ---------------------------------------------------------------------------

  /** `generate_exit`: push the exit code, call the exit routine. */
  function ExitText(code: U32): (t: string)
  {
    InstText("push", [Decimal(code)]) + InstText("call", ["_ExitProcess@4"])
  }

  /** `generate_fn_call`. */
  function CallText(name: string): (t: string)
  {
    InstText("call", [name])
  }

  /** The closing instruction of every function. */
  const RetText: string := InstText("ret", [])

  /**
   * What a generation step writes: the text, and the error that stopped it
   * if one did (the text then is what was written before the error).
   */
  datatype Emission = Emission(text: string, failure: Option<NasmError>)

  function Prefix(t: string, e: Emission): (r: Emission)
    ensures r.failure == e.failure
  {
    Emission(t + e.text, e.failure)
  }

  /** The loop of `generate_fn` from expression `i` on. */
  function BodyFrom(names: seq<string>, es: seq<Ast.Expr>, i: nat): (e: Emission)
    decreases |es| - i
  {
    if i >= |es| then Emission("", None)
    else
      match es[i]
      case Exit(code) => Prefix(ExitText(code), BodyFrom(names, es, i + 1))
      case FnCall(name) =>
        if name in names then Prefix(CallText(name), BodyFrom(names, es, i + 1))
        else Emission("", Some(UndefinedFunction(name)))
      case _ => Emission("", Some(NotSupported))
  }

  /** `generate_fn`: the label, the body, and `ret` if the body had no error. */
  function FnEmission(names: seq<string>, fd: Ast.FunctionDefinition): (e: Emission)
    ensures e.failure == BodyFrom(names, fd.compound.expressions, 0).failure
  {
    Framed(fd.name, BodyFrom(names, fd.compound.expressions, 0))
  }

  /** The body of function `name` between its label and its closing `ret`, which an error leaves out. */
  function Framed(name: string, body: Emission): (e: Emission)
    ensures e.failure == body.failure
  {
    Prefix(LabelText(LabelName(name)), if body.failure.Some? then body else Emission(body.text + RetText, None))
  }

  /** The loop of `generate` from function `i` on; the first error stops it. */
  function FunctionsFrom(names: seq<string>, fs: seq<Ast.FunctionDefinition>, i: nat): (e: Emission)
    decreases |fs| - i
  {
    if i >= |fs| then Emission("", None)
    else
      var f := FnEmission(names, fs[i]);
      if f.failure.Some? then f else Prefix(f.text, FunctionsFrom(names, fs, i + 1))
  }

  /** `generate`: the assembly text of a program, or the first error. */
  function Program(root: Ast.Root): (r: Result<string, NasmError>)
  {
    var e := Prefix(Header, FunctionsFrom(root.functionNames, root.functions, 0));
    if e.failure.Some? then Err(e.failure.value) else Ok(e.text)
  }

  class NasmCodegen {
    var astRoot: Ast.Root
    var asmCode: string

    /** `new`: nothing written yet. */
    constructor (astRoot: Ast.Root)
      ensures this.astRoot == astRoot && asmCode == ""
    {
      this.astRoot := astRoot;
      asmCode := "";
    }

    method Tab()
      modifies this
      ensures asmCode == old(asmCode) + "\t" && astRoot == old(astRoot)
    {
      asmCode := asmCode + "\t";
    }

    method Newline()
      modifies this
      ensures asmCode == old(asmCode) + "\n" && astRoot == old(astRoot)
    {
      asmCode := asmCode + "\n";
    }

    method Inst(instruction: string, args: seq<string>)
      modifies this
      ensures asmCode == old(asmCode) + InstText(instruction, args) && astRoot == old(astRoot)
    {
      Tab();
      asmCode := asmCode + instruction;
      Tab();
      asmCode := asmCode + Join(args, ", ");
      Newline();
    }

    method Label(l: string)
      modifies this
      ensures asmCode == old(asmCode) + LabelText(l) && astRoot == old(astRoot)
    {
      asmCode := asmCode + l;
      asmCode := asmCode + [':'];
      Newline();
    }

    method GenerateExit(exitCode: U32)
      modifies this
      ensures asmCode == old(asmCode) + ExitText(exitCode) && astRoot == old(astRoot)
    {
      Inst("push", [Decimal(exitCode)]);
      Inst("call", ["_ExitProcess@4"]);
    }

    method GenerateFnCall(fnName: string)
      modifies this
      ensures asmCode == old(asmCode) + CallText(fnName) && astRoot == old(astRoot)
    {
      Inst("call", [fnName]);
    }

    /** `generate_fn`, proved against `FnEmission`. */
    method GenerateFn(functionDef: Ast.FunctionDefinition) returns (r: Result<(), NasmError>)
      modifies this
      ensures var e := FnEmission(old(astRoot).functionNames, functionDef);
              asmCode == old(asmCode) + e.text && (r.Err? <==> e.failure.Some?) && (r.Err? ==> r.error == e.failure.value)
      ensures astRoot == old(astRoot)
    {
      var names := astRoot.functionNames;
      var es := functionDef.compound.expressions;
      Label(LabelName(functionDef.name));
      ghost var start := asmCode;
      ghost var body := BodyFrom(names, es, 0);
      FramedParts(old(asmCode), functionDef.name, body);
      for i := 0 to |es|
        invariant astRoot == old(astRoot)
        invariant Prefix(asmCode, BodyFrom(names, es, i)) == Prefix(start, body)
      {
        ghost var before := asmCode;
        BodyStep(before, names, es, i);
        match es[i]
        case Exit(exitCode) =>
          GenerateExit(exitCode);
        case FnCall(fnName) =>
          if fnName !in names {
            return Err(UndefinedFunction(fnName));
          }
          GenerateFnCall(fnName);
        case _ =>
          return Err(NotSupported);
      }
      Inst("ret", []);
      return Ok(());
    }

    /** The first three lines of `generate`. */
    method WriteHeader()
      modifies this
      ensures asmCode == old(asmCode) + Header && astRoot == old(astRoot)
    {
      asmCode := asmCode + "section .text\n";
      asmCode := asmCode + "global _main\n";
      asmCode := asmCode + "extern  _ExitProcess@4\n";
    }

    /**
     * `generate`, proved against `Program`. It is the only public entry
     * point and consumes the generator, so it always starts from the empty
     * text `new` made.
     */
    method Generate() returns (r: Result<string, NasmError>)
      requires asmCode == ""
      modifies this
      ensures r == Program(old(astRoot))
    {
      WriteHeader();
      ghost var root := astRoot;
      var functions := astRoot.functions;
      astRoot := astRoot.(functions := []);
      ghost var names := root.functionNames;
      ghost var whole := Prefix(Header, FunctionsFrom(names, functions, 0));
      assert asmCode == Header;
      for i := 0 to |functions|
        invariant astRoot.functionNames == names
        invariant Prefix(asmCode, FunctionsFrom(names, functions, i)) == whole
      {
        ghost var before := asmCode;
        ghost var f := FnEmission(names, functions[i]);
        var res := GenerateFn(functions[i]);
        assert asmCode == before + f.text;
        FunctionStep(before, names, functions, i);
        if res.Err? {
          assert whole.failure == f.failure;
          return Err(res.error);
        }
        assert Prefix(asmCode, FunctionsFrom(names, functions, i + 1)) == Prefix(before, FunctionsFrom(names, functions, i));
      }
      assert FunctionsFrom(names, functions, |functions|) == Emission("", None);
      assert asmCode + "" == asmCode;
      return Ok(asmCode);
    }
  }

  lemma PrefixTwice(a: string, b: string, e: Emission)
    ensures Prefix(a, Prefix(b, e)) == Prefix(a + b, e)
  {
    assert a + (b + e.text) == (a + b) + e.text;
  }

  /** One iteration of the loop of `generate`: the text `generate_fn` appends, and when it stops. */
  lemma FunctionStep(written: string, names: seq<string>, fs: seq<Ast.FunctionDefinition>, i: nat)
    requires i < |fs|
    ensures var f := FnEmission(names, fs[i]);
            f.failure.None? ==> Prefix(written, FunctionsFrom(names, fs, i)) == Prefix(written + f.text, FunctionsFrom(names, fs, i + 1))
    ensures var f := FnEmission(names, fs[i]);
            f.failure.Some? ==> Prefix(written, FunctionsFrom(names, fs, i)).failure == f.failure
  {
    var f := FnEmission(names, fs[i]);
    if f.failure.None? {
      PrefixTwice(written, f.text, FunctionsFrom(names, fs, i + 1));
    }
  }

  /** One iteration of the loop of `generate_fn`: what it appends, and when it stops. */
  lemma BodyStep(written: string, names: seq<string>, es: seq<Ast.Expr>, i: nat)
    requires i < |es|
    ensures es[i].Exit? ==>
              Prefix(written, BodyFrom(names, es, i)) == Prefix(written + ExitText(es[i].code), BodyFrom(names, es, i + 1))
    ensures es[i].FnCall? && es[i].name in names ==>
              Prefix(written, BodyFrom(names, es, i)) == Prefix(written + CallText(es[i].name), BodyFrom(names, es, i + 1))
    ensures es[i].FnCall? && es[i].name !in names ==>
              Prefix(written, BodyFrom(names, es, i)) == Emission(written, Some(UndefinedFunction(es[i].name)))
    ensures es[i].Compound? || es[i].Return? ==>
              Prefix(written, BodyFrom(names, es, i)) == Emission(written, Some(NotSupported))
  {
    match es[i]
    case Exit(code) =>
      PrefixTwice(written, ExitText(code), BodyFrom(names, es, i + 1));
    case FnCall(name) =>
      if name in names {
        PrefixTwice(written, CallText(name), BodyFrom(names, es, i + 1));
      }
    case _ =>
  }

  /** The text `generate_fn` appends after what was `written`: label, body, and `ret` if the body succeeded. */
  lemma FramedParts(written: string, name: string, body: Emission)
    ensures written + Framed(name, body).text ==
              written + LabelText(LabelName(name)) + body.text + (if body.failure.Some? then "" else RetText)
  {
    var l := LabelText(LabelName(name));
    if body.failure.Some? {
      assert written + (l + body.text) == written + l + body.text + "";
    } else {
      assert written + (l + (body.text + RetText)) == written + l + body.text + RetText;
    }
  }

  // ---------------------------------------------------------------------------
  // Properties of the output
  // ---------------------------------------------------------------------------

  /** `ret` has no operands: a tab, the mnemonic, a tab and the line break. */
  lemma RetLine()
    ensures RetText == "\tret\t\n"
  {
  }

  /** The entry point is labelled `_main`, every other function by its own name. */
  lemma Labels(name: string)
    ensures LabelText(LabelName("main")) == "_main:\n"
    ensures name != "main" ==> LabelText(LabelName(name)) == name + ":\n"
  {
  }

  /** `exit n` is a push of the decimal `n` and a call of the exit routine. */
  lemma ExitLines(code: U32)
    ensures ExitText(code) == "\tpush\t" + Decimal(code) + "\n" + "\tcall\t_ExitProcess@4\n"
  {
    var d := Decimal(code);
    assert InstText("push", [d]) == "\tpush\t" + d + "\n" by {
      assert Join([d], ", ") == d;
      assert "\t" + "push" + "\t" == "\tpush\t";
    }
    assert InstText("call", ["_ExitProcess@4"]) == "\tcall\t_ExitProcess@4\n" by {
      assert Join(["_ExitProcess@4"], ", ") == "_ExitProcess@4";
    }
  }

  /** An expression `generate_fn` can write: `exit`, or a call of a function the program defines. */
  predicate Supported(names: seq<string>, e: Ast.Expr)
  {
    e.Exit? || (e.FnCall? && e.name in names)
  }

  /** A body is written in full exactly when each of its expressions is supported. */
  lemma {:induction false} BodyOkIff(names: seq<string>, es: seq<Ast.Expr>, i: nat)
    requires i <= |es|
    ensures BodyFrom(names, es, i).failure.None? <==> forall j :: i <= j < |es| ==> Supported(names, es[j])
    decreases |es| - i
  {
    if i < |es| {
      BodyOkIff(names, es, i + 1);
    }
  }

  /**
   * The first unsupported expression of a body is the error: a call of an
   * undefined name, or a nested compound or `return`.
   */
  lemma {:induction false} BodyFirstError(names: seq<string>, es: seq<Ast.Expr>, i: nat, k: nat)
    requires i <= k < |es| && !Supported(names, es[k])
    requires forall j :: i <= j < k ==> Supported(names, es[j])
    ensures BodyFrom(names, es, i).failure ==
              Some(if es[k].FnCall? then UndefinedFunction(es[k].name) else NotSupported)
    decreases k - i
  {
    if i < k {
      BodyFirstError(names, es, i + 1, k);
    }
  }

  /** A function that is written in full ends with `ret`. */
  lemma FunctionEndsWithRet(name: string, body: Emission)
    requires body.failure.None?
    ensures var t := Framed(name, body).text;
            |t| >= |RetText| && t[|t| - |RetText|..] == RetText
  {
    var t := Framed(name, body).text;
    assert t == (LabelText(LabelName(name)) + body.text) + RetText;
  }

  /** What `generate_fn` makes of each function, in source order. */
  function Emissions(names: seq<string>, fs: seq<Ast.FunctionDefinition>): (es: seq<Emission>)
    ensures |es| == |fs| && forall j :: 0 <= j < |fs| ==> es[j] == FnEmission(names, fs[j])
  {
    seq(|fs|, j requires 0 <= j < |fs| => FnEmission(names, fs[j]))
  }

  /** Emissions written one after the other until the first that fails. */
  function Chain(es: seq<Emission>, i: nat): (e: Emission)
    decreases |es| - i
  {
    if i >= |es| then Emission("", None)
    else if es[i].failure.Some? then es[i]
    else Prefix(es[i].text, Chain(es, i + 1))
  }

  /** The texts of the emissions from `i` on, one after the other. */
  function Texts(es: seq<Emission>, i: nat): string
    decreases |es| - i
  {
    if i >= |es| then "" else es[i].text + Texts(es, i + 1)
  }

  /** The loop of `generate` chains the emissions of the functions. */
  lemma {:induction false} FunctionsChain(names: seq<string>, fs: seq<Ast.FunctionDefinition>, i: nat)
    requires i <= |fs|
    ensures FunctionsFrom(names, fs, i) == Chain(Emissions(names, fs), i)
    decreases |fs| - i
  {
    if i < |fs| {
      FunctionsChain(names, fs, i + 1);
    }
  }

  /** A chain runs to the end exactly when no emission in it fails. */
  lemma {:induction false} ChainOkIff(es: seq<Emission>, i: nat)
    requires i <= |es|
    ensures Chain(es, i).failure.None? <==> forall j :: i <= j < |es| ==> es[j].failure.None?
    decreases |es| - i
  {
    if i < |es| {
      ChainOkIff(es, i + 1);
    }
  }

  /** A chain stops with the error of its first failing emission. */
  lemma {:induction false} ChainFirstError(es: seq<Emission>, i: nat, k: nat)
    requires i <= k < |es| && es[k].failure.Some?
    requires forall j :: i <= j < k ==> es[j].failure.None?
    ensures Chain(es, i).failure == es[k].failure
    decreases k - i
  {
    if i < k {
      ChainFirstError(es, i + 1, k);
    }
  }

  /** A chain that runs to the end writes every text in order. */
  lemma {:induction false} ChainText(es: seq<Emission>, i: nat)
    requires i <= |es| && Chain(es, i).failure.None?
    ensures Chain(es, i).text == Texts(es, i)
    decreases |es| - i
  {
    if i < |es| {
      ChainText(es, i + 1);
    }
  }

  /** The program is written exactly when every function is. */
  lemma FunctionsOkIff(names: seq<string>, fs: seq<Ast.FunctionDefinition>)
    ensures FunctionsFrom(names, fs, 0).failure.None? <==>
              forall j :: 0 <= j < |fs| ==> FnEmission(names, fs[j]).failure.None?
  {
    FunctionsChain(names, fs, 0);
    ChainOkIff(Emissions(names, fs), 0);
  }

  /** The error of a program is that of its first function that fails. */
  lemma FunctionsFirstError(names: seq<string>, fs: seq<Ast.FunctionDefinition>, k: nat)
    requires k < |fs| && FnEmission(names, fs[k]).failure.Some?
    requires forall j :: 0 <= j < k ==> FnEmission(names, fs[j]).failure.None?
    ensures FunctionsFrom(names, fs, 0).failure == FnEmission(names, fs[k]).failure
  {
    FunctionsChain(names, fs, 0);
    ChainFirstError(Emissions(names, fs), 0, k);
  }

  /**
   * `generate` succeeds exactly when every function body is flat and calls
   * only defined functions; the output is then the header followed by the
   * functions in source order.
   */
  lemma ProgramShape(root: Ast.Root)
    ensures Program(root).Ok? <==>
              forall j, k :: 0 <= j < |root.functions| && 0 <= k < |root.functions[j].compound.expressions| ==>
                Supported(root.functionNames, root.functions[j].compound.expressions[k])
    ensures Program(root).Ok? ==> Program(root).value == Header + Texts(Emissions(root.functionNames, root.functions), 0)
  {
    var names := root.functionNames;
    var fs := root.functions;
    FunctionsOkIff(names, fs);
    forall j | 0 <= j < |fs|
      ensures FnEmission(names, fs[j]).failure.None? <==>
                forall k :: 0 <= k < |fs[j].compound.expressions| ==> Supported(names, fs[j].compound.expressions[k])
    {
      BodyOkIff(names, fs[j].compound.expressions, 0);
    }
    if Program(root).Ok? {
      FunctionsChain(names, fs, 0);
      ChainText(Emissions(names, fs), 0);
    }
  }
}
