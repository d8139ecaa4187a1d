/**
 * The control logic of the LLVM code generator (src/compiler/codegen/mod.rs).
 * The LLVM module is abstracted to the functions declared in it, by name
 * with their types, and the builder to the list of instructions it has
 * appended so far. A pass declares every function before any body is
 * generated; a compound's generation stops at a `return` or at a nested
 * compound that returned, and otherwise ends with a `void` return.
 */
module Codegen {
  import opened Common
  import Ast
  import opened CodegenTypes

  /** The external process-exit routine every `exit` declares and calls. */
  const ExitProcessName: string := "ExitProcess@4"
  const ExitProcessType: FunctionType := FunctionType(Void, [I32], false)

  /** The instructions the builder appends. */
  datatype Inst =
    | Block(owner: string)     // a new basic block of function `owner`, where the builder is then positioned
    | RetI32(value: U32)       // a return of an i32 constant
    | RetVoid                  // a return without a value
    | CallExit(code: U32)      // a call of the exit routine with an i32 constant
    | Call(callee: string)     // a call without arguments

  datatype CodegenError = UnknownFunction(name: string)

  /** The functions declared in the LLVM module, by name. */
  type Module = map<string, FunctionType>

  /** A function value as the `functions` map of `Cx` holds it. */
  datatype FunctionValue = FunctionValue(name: string, ty: FunctionType)

  /** What generating a piece of code produced: the module after it, the instructions, and what a compound yields. */
  datatype Emitted = Emitted(llvmModule: Module, code: seq<Inst>, ret: CompoundReturnType)

  /** The i32 type an explicit return has. */
  const I32Type: Type := BasicType(I32)

  /** The type `generate_fn_value` declares a function with: no parameters, its AST return type. */
  function Signature(f: Ast.FunctionDefinition): (t: FunctionType)
    ensures t.params == [] && !t.isVarArgs
    ensures t.returnType.Void? <==> f.returnTy.Unit?
  {
    FnType(FromAstType(f.returnTy), [], false)
  }

  /**
   * `Expr::codegen` for the two expressions it handles: `exit` declares the
   * exit routine and calls it; a call needs its callee declared in the module.
   */
  function ExprGen(m: Module, e: Ast.Expr): (r: Result<(Module, Inst), CodegenError>)
    requires e.Exit? || e.FnCall?
    ensures e.Exit? ==> r == Ok((m[ExitProcessName := ExitProcessType], CallExit(e.code)))
    ensures e.FnCall? ==> (r.Ok? <==> e.name in m)
    ensures e.FnCall? && r.Ok? ==> r.value == (m, Call(e.name))
    ensures e.FnCall? && r.Err? ==> r.error == UnknownFunction(e.name)
  {
    match e
    case Exit(code) => Ok((m[ExitProcessName := ExitProcessType], CallExit(code)))
    case FnCall(name) => if name in m then Ok((m, Call(name))) else Err(UnknownFunction(name))
  }

  /** `CompoundExpr::codegen`. */
  function CompoundGen(m: Module, c: Ast.CompoundExpr): (r: Result<Emitted, CodegenError>)
    ensures r.Ok? ==> m.Keys <= r.value.llvmModule.Keys
    decreases c, |c.expressions| + 1
  {
    GenFrom(m, [], c, 0)
  }

  /**
   * The loop of `CompoundExpr::codegen` from expression `i` on, `acc` being
   * the instructions emitted for this compound so far.
   */
  function GenFrom(m: Module, acc: seq<Inst>, c: Ast.CompoundExpr, i: nat): (r: Result<Emitted, CodegenError>)
    ensures r.Ok? ==> m.Keys <= r.value.llvmModule.Keys
    decreases c, |c.expressions| - i
  {
    if i >= |c.expressions| then Ok(Emitted(m, acc + [RetVoid], ImplicitUnit))
    else
      var e := c.expressions[i];
      match e
      case Return(n) => Ok(Emitted(m, acc + [RetI32(n)], Explicit(I32Type)))
      case Compound(inner) =>
        (match CompoundGen(m, inner)
         case Err(err) => Err(err)
         case Ok(out) =>
           if out.ret.Explicit? then Ok(Emitted(out.llvmModule, acc + out.code, out.ret))
           else GenFrom(out.llvmModule, acc + out.code, c, i + 1))
      case _ =>
        (match ExprGen(m, e)
         case Err(err) => Err(err)
         case Ok(step) => GenFrom(step.0, acc + [step.1], c, i + 1))
  }

  /** `FunctionDefinition::codegen`: a block for the function, then its body. */
  function FunctionGen(m: Module, f: Ast.FunctionDefinition): (r: Result<Emitted, CodegenError>)
  {
    match CompoundGen(m, f.compound)
    case Err(e) => Err(e)
    case Ok(out) => Ok(Emitted(out.llvmModule, [Block(f.name)] + out.code, out.ret))
  }

  /** The declare pass of `Root::codegen` over `fs`, in order. */
  function DeclareAll(m: Module, fs: seq<Ast.FunctionDefinition>): (r: Module)
    ensures r.Keys == m.Keys + set i | 0 <= i < |fs| :: fs[i].name
  {
    if fs == [] then m
    else
      var last := fs[|fs| - 1];
      var r := DeclareAll(m, fs[..|fs| - 1])[last.name := Signature(last)];
      assert forall i :: 0 <= i < |fs| - 1 ==> fs[..|fs| - 1][i] == fs[i];
      r
  }

  /** The `functions` map the declare pass builds alongside the module. */
  function ValuesAll(v: map<string, FunctionValue>, fs: seq<Ast.FunctionDefinition>): (r: map<string, FunctionValue>)
    ensures r.Keys == v.Keys + set i | 0 <= i < |fs| :: fs[i].name
  {
    if fs == [] then v
    else
      var last := fs[|fs| - 1];
      var r := ValuesAll(v, fs[..|fs| - 1])[last.name := FunctionValue(last.name, Signature(last))];
      assert forall i :: 0 <= i < |fs| - 1 ==> fs[..|fs| - 1][i] == fs[i];
      r
  }

  /** The body pass of `Root::codegen` from function `i` on; the first error ends it. */
  function BodiesFrom(m: Module, acc: seq<Inst>, fs: seq<Ast.FunctionDefinition>, i: nat): (r: Result<(Module, seq<Inst>), CodegenError>)
    decreases |fs| - i
  {
    if i >= |fs| then Ok((m, acc))
    else
      match FunctionGen(m, fs[i])
      case Err(e) => Err(e)
      case Ok(out) => BodiesFrom(out.llvmModule, acc + out.code, fs, i + 1)
  }

  /** `Root::codegen`: the module and the instructions after both passes. */
  function RootGen(m: Module, fs: seq<Ast.FunctionDefinition>): (r: Result<(Module, seq<Inst>), CodegenError>)
  {
    BodiesFrom(DeclareAll(m, fs), [], fs, 0)
  }

  /** `Cx`: the module, the function values by name, and the builder's output. */
  class Cx {
    var llvmModule: Module
    var functions: map<string, FunctionValue>
    var code: seq<Inst>

    /** Each function value is stored under its own name. */
    predicate Named()
      reads this
    {
      forall n :: n in functions ==> functions[n].name == n
    }

    constructor ()
      ensures llvmModule == map[] && functions == map[] && code == []
    {
      llvmModule := map[];
      functions := map[];
      code := [];
    }

    /** `generate_explicit_return`: a return of the i32 constant `value`. */
    method GenerateExplicitReturn(value: U32) returns (t: Type)
      modifies this
      ensures t == I32Type
      ensures code == old(code) + [RetI32(value)]
      ensures llvmModule == old(llvmModule) && functions == old(functions)
    {
      code := code + [RetI32(value)];
      t := BasicType(I32);
    }

    /** `Expr::codegen`; the source aborts on `return` and on compounds, which its caller handles. */
    method GenExpr(e: Ast.Expr) returns (r: Result<(), CodegenError>)
      requires e.Exit? || e.FnCall?
      modifies this
      ensures r.Ok? <==> ExprGen(old(llvmModule), e).Ok?
      ensures r.Ok? ==> llvmModule == ExprGen(old(llvmModule), e).value.0 && code == old(code) + [ExprGen(old(llvmModule), e).value.1]
      ensures r.Err? ==> r.error == ExprGen(old(llvmModule), e).error && llvmModule == old(llvmModule) && code == old(code)
      ensures functions == old(functions)
    {
      match e
      case Exit(exitCode) =>
        llvmModule := llvmModule[ExitProcessName := ExitProcessType];
        code := code + [CallExit(exitCode)];
        return Ok(());
      case FnCall(name) =>
        if name !in llvmModule {
          return Err(UnknownFunction(name));
        }
        code := code + [Call(name)];
        return Ok(());
    }

    /** `CompoundExpr::codegen`, proved against `CompoundGen`. */
    method GenCompound(c: Ast.CompoundExpr) returns (r: Result<CompoundReturnType, CodegenError>)
      modifies this
      ensures r.Ok? <==> CompoundGen(old(llvmModule), c).Ok?
      ensures r.Ok? ==> var out := CompoundGen(old(llvmModule), c).value;
                        llvmModule == out.llvmModule && code == old(code) + out.code && r.value == out.ret
      ensures r.Err? ==> r.error == CompoundGen(old(llvmModule), c).error
      ensures functions == old(functions)
      decreases c
    {
      ghost var m0 := llvmModule;
      ghost var code0 := code;
      ghost var acc: seq<Inst> := [];
      for i := 0 to |c.expressions|
        invariant code == code0 + acc && functions == old(functions)
        invariant GenFrom(llvmModule, acc, c, i) == GenFrom(m0, [], c, 0)
      {
        match c.expressions[i]
        case Return(num) =>
          var t := GenerateExplicitReturn(num);
          return Ok(Explicit(t));
        case Compound(inner) =>
          ghost var before := code;
          var sub := GenCompound(inner);
          if sub.Err? {
            return Err(sub.error);
          }
          acc := acc + code[|before|..];
          assert code == before + code[|before|..];
          if sub.value.Explicit? {
            return Ok(Explicit(sub.value.ty));
          }
        case Exit(_) =>
          var res := GenExpr(c.expressions[i]);
          acc := acc + [CallExit(c.expressions[i].code)];
        case FnCall(_) =>
          var res := GenExpr(c.expressions[i]);
          if res.Err? {
            return Err(res.error);
          }
          acc := acc + [Call(c.expressions[i].name)];
      }
      code := code + [RetVoid];
      return Ok(ImplicitUnit);
    }

    /** `generate_fn_value`: declares `f` in the module with its signature. */
    method GenerateFnValue(f: Ast.FunctionDefinition) returns (v: FunctionValue)
      modifies this
      ensures v == FunctionValue(f.name, Signature(f))
      ensures llvmModule == old(llvmModule)[f.name := Signature(f)]
      ensures functions == old(functions) && code == old(code)
    {
      var fnTy := FnType(FromAstType(f.returnTy), [], false);
      llvmModule := llvmModule[f.name := fnTy];
      v := FunctionValue(f.name, fnTy);
    }

    /**
     * `FunctionDefinition::codegen`: the function value must exist (the
     * declare pass made it); the body's return type is computed and then
     * ignored, as the conformance check is disabled.
     */
    method GenFunction(f: Ast.FunctionDefinition) returns (r: Result<(), CodegenError>)
      requires Named() && f.name in functions
      modifies this
      ensures r.Ok? <==> FunctionGen(old(llvmModule), f).Ok?
      ensures r.Ok? ==> llvmModule == FunctionGen(old(llvmModule), f).value.llvmModule &&
                        code == old(code) + FunctionGen(old(llvmModule), f).value.code
      ensures r.Err? ==> r.error == FunctionGen(old(llvmModule), f).error
      ensures functions == old(functions)
    {
      var fnValue := functions[f.name];
      code := code + [Block(fnValue.name)];
      var actual := GenCompound(f.compound);
      if actual.Err? {
        return Err(actual.error);
      }
      var _ := IntoType(actual.value);
      return Ok(());
    }
  
    /**
     * `Root::codegen`: first every function is declared, in order; then the
     * bodies are generated in order, and the first error ends generation.
     */
    method GenRoot(root: Ast.Root) returns (r: Result<(), CodegenError>)
      requires Named()
      modifies this
      ensures r.Ok? <==> RootGen(old(llvmModule), root.functions).Ok?
      ensures r.Ok? ==> var out := RootGen(old(llvmModule), root.functions).value;
                        llvmModule == out.0 && code == old(code) + out.1
      ensures r.Err? ==> r.error == RootGen(old(llvmModule), root.functions).error
      ensures functions == ValuesAll(old(functions), root.functions)
    {
      DeclarePass(root.functions);
      r := BodyPass(root.functions, old(llvmModule));
    }

    /** The first loop of `Root::codegen`: declare each function and keep its value. */
    method DeclarePass(fs: seq<Ast.FunctionDefinition>)
      requires Named()
      modifies this
      ensures Named()
      ensures llvmModule == DeclareAll(old(llvmModule), fs)
      ensures functions == ValuesAll(old(functions), fs)
      ensures code == old(code)
    {
      for i := 0 to |fs|
        invariant Named() && code == old(code)
        invariant llvmModule == DeclareAll(old(llvmModule), fs[..i])
        invariant functions == ValuesAll(old(functions), fs[..i])
      {
        var fnValue := GenerateFnValue(fs[i]);
        functions := functions[fs[i].name := fnValue];
        DeclareStep(old(llvmModule), old(functions), fs, i);
      }
      assert fs[..|fs|] == fs;
    }

    /** The second loop of `Root::codegen`: generate each body, stopping at the first error. */
    method BodyPass(fs: seq<Ast.FunctionDefinition>, ghost m0: Module) returns (r: Result<(), CodegenError>)
      requires Named() && llvmModule == DeclareAll(m0, fs)
      requires forall k :: 0 <= k < |fs| ==> fs[k].name in functions
      modifies this
      ensures r.Ok? <==> RootGen(m0, fs).Ok?
      ensures r.Ok? ==> var out := RootGen(m0, fs).value;
                        llvmModule == out.0 && code == old(code) + out.1
      ensures r.Err? ==> r.error == RootGen(m0, fs).error
      ensures functions == old(functions)
    {
      ghost var acc: seq<Inst> := [];
      for i := 0 to |fs|
        invariant Named() && functions == old(functions)
        invariant code == old(code) + acc
        invariant BodiesFrom(llvmModule, acc, fs, i) == RootGen(m0, fs)
      {
        ghost var before := code;
        BodiesStep(llvmModule, acc, fs, i);
        var res := GenFunction(fs[i]);
        if res.Err? {
          return Err(res.error);
        }
        acc := acc + code[|before|..];
        assert code == before + code[|before|..];
      }
      return Ok(());
    }
  }

  /** One iteration of the declare pass of `Root::codegen`. */
  lemma DeclareStep(m: Module, v: map<string, FunctionValue>, fs: seq<Ast.FunctionDefinition>, i: nat)
    requires i < |fs|
    ensures DeclareAll(m, fs[..i + 1]) == DeclareAll(m, fs[..i])[fs[i].name := Signature(fs[i])]
    ensures ValuesAll(v, fs[..i + 1]) == ValuesAll(v, fs[..i])[fs[i].name := FunctionValue(fs[i].name, Signature(fs[i]))]
  {
    assert fs[..i + 1][..i] == fs[..i];
  }

  /** One iteration of the body pass of `Root::codegen`. */
  lemma BodiesStep(m: Module, acc: seq<Inst>, fs: seq<Ast.FunctionDefinition>, i: nat)
    requires i < |fs|
    ensures FunctionGen(m, fs[i]).Err? ==> BodiesFrom(m, acc, fs, i) == Err(FunctionGen(m, fs[i]).error)
    ensures FunctionGen(m, fs[i]).Ok? ==>
              var out := FunctionGen(m, fs[i]).value;
              BodiesFrom(m, acc, fs, i) == BodiesFrom(out.llvmModule, acc + out.code, fs, i + 1)
  {
  }

  /**
   * `generate` without its I/O: a fresh context, then `Root::codegen`; the
   * result is the final module and instruction list.
   */
  method Generate(root: Ast.Root) returns (r: Result<(Module, seq<Inst>), CodegenError>)
    ensures r == RootGen(map[], root.functions)
  {
    var cx := new Cx();
    var res := cx.GenRoot(root);
    if res.Err? {
      return Err(res.error);
    }
    ghost var out := RootGen(map[], root.functions).value;
    assert cx.llvmModule == out.0;
    assert cx.code == out.1;
    return Ok((cx.llvmModule, cx.code));
  }

  // ---------------------------------------------------------------------------
  // Control flow of compounds
  // ---------------------------------------------------------------------------

  /** `return n` emits a return of `n` and yields `Explicit(i32)`; what follows it is not generated. */
  lemma ReturnSkipsRest(m: Module, acc: seq<Inst>, c: Ast.CompoundExpr, i: nat)
    requires i < |c.expressions| && c.expressions[i].Return?
    ensures GenFrom(m, acc, c, i) == Ok(Emitted(m, acc + [RetI32(c.expressions[i].value)], Explicit(I32Type)))
  {
  }

  /**
   * A nested compound that returned explicitly ends the outer compound with
   * the same result; one that fell off its end lets the outer one go on.
   */
  lemma NestedCompound(m: Module, acc: seq<Inst>, c: Ast.CompoundExpr, i: nat)
    requires i < |c.expressions| && c.expressions[i].Compound?
    requires CompoundGen(m, c.expressions[i].inner).Ok?
    ensures var out := CompoundGen(m, c.expressions[i].inner).value;
            GenFrom(m, acc, c, i) ==
              if out.ret.Explicit? then Ok(Emitted(out.llvmModule, acc + out.code, out.ret))
              else GenFrom(out.llvmModule, acc + out.code, c, i + 1)
  {
  }

  /** `exit` declares the exit routine, calls it, and generation goes on with the next expression. */
  lemma ExitContinues(m: Module, acc: seq<Inst>, c: Ast.CompoundExpr, i: nat)
    requires i < |c.expressions| && c.expressions[i].Exit?
    ensures GenFrom(m, acc, c, i) ==
              GenFrom(m[ExitProcessName := ExitProcessType], acc + [CallExit(c.expressions[i].code)], c, i + 1)
  {
  }

  /** A call of a function the module does not declare is an error. */
  lemma UnknownCallFails(m: Module, acc: seq<Inst>, c: Ast.CompoundExpr, i: nat)
    requires i < |c.expressions| && c.expressions[i].FnCall? && c.expressions[i].name !in m
    ensures GenFrom(m, acc, c, i) == Err(UnknownFunction(c.expressions[i].name))
  {
  }

  /**
   * The instructions of a compound end with the return that matches what it
   * yields: a void return for `ImplicitUnit`, an i32 return for
   * `Explicit(i32)`.
   */
  predicate EndsWithItsReturn(out: Emitted)
  {
    |out.code| > 0 &&
    (out.ret.ImplicitUnit? ==> out.code[|out.code| - 1] == RetVoid) &&
    (out.ret.Explicit? ==> out.ret.ty == I32Type && out.code[|out.code| - 1].RetI32?)
  }

  lemma {:induction false} CompoundEndsWithReturn(m: Module, c: Ast.CompoundExpr)
    requires CompoundGen(m, c).Ok?
    ensures EndsWithItsReturn(CompoundGen(m, c).value)
    decreases c, |c.expressions| + 1
  {
    GenFromEndsWithReturn(m, [], c, 0);
  }

  lemma {:induction false} GenFromEndsWithReturn(m: Module, acc: seq<Inst>, c: Ast.CompoundExpr, i: nat)
    requires GenFrom(m, acc, c, i).Ok?
    ensures EndsWithItsReturn(GenFrom(m, acc, c, i).value)
    decreases c, |c.expressions| - i
  {
    if i < |c.expressions| {
      var e := c.expressions[i];
      match e
      case Return(n) =>
      case Compound(inner) =>
        CompoundEndsWithReturn(m, inner);
        var out := CompoundGen(m, inner).value;
        if !out.ret.Explicit? {
          GenFromEndsWithReturn(out.llvmModule, acc + out.code, c, i + 1);
        }
      case _ =>
        var step := ExprGen(m, e).value;
        GenFromEndsWithReturn(step.0, acc + [step.1], c, i + 1);
    }
  }

  // ---------------------------------------------------------------------------
  // Forward references
  // ---------------------------------------------------------------------------

  /** Every call in `c`, at any depth, is to a name in `names`. */
  predicate CallsWithin(c: Ast.CompoundExpr, names: set<string>)
    decreases c, |c.expressions| + 1
  {
    CallsWithinFrom(c, 0, names)
  }

  predicate CallsWithinFrom(c: Ast.CompoundExpr, i: nat, names: set<string>)
    decreases c, |c.expressions| - i
  {
    i >= |c.expressions| ||
    ((c.expressions[i].FnCall? ==> c.expressions[i].name in names) &&
     (c.expressions[i].Compound? ==> CallsWithin(c.expressions[i].inner, names)) &&
     CallsWithinFrom(c, i + 1, names))
  }

  lemma {:induction false} CompoundGenOk(m: Module, c: Ast.CompoundExpr, names: set<string>)
    requires names <= m.Keys && CallsWithin(c, names)
    ensures CompoundGen(m, c).Ok?
    decreases c, |c.expressions| + 1
  {
    GenFromOk(m, [], c, 0, names);
  }

  lemma {:induction false} GenFromOk(m: Module, acc: seq<Inst>, c: Ast.CompoundExpr, i: nat, names: set<string>)
    requires names <= m.Keys && CallsWithinFrom(c, i, names)
    ensures GenFrom(m, acc, c, i).Ok?
    decreases c, |c.expressions| - i
  {
    if i < |c.expressions| {
      var e := c.expressions[i];
      match e
      case Return(n) =>
      case Compound(inner) =>
        CompoundGenOk(m, inner, names);
        var out := CompoundGen(m, inner).value;
        if !out.ret.Explicit? {
          GenFromOk(out.llvmModule, acc + out.code, c, i + 1, names);
        }
      case _ =>
        var step := ExprGen(m, e).value;
        GenFromOk(step.0, acc + [step.1], c, i + 1, names);
    }
  }

  lemma {:induction false} BodiesOk(m: Module, acc: seq<Inst>, fs: seq<Ast.FunctionDefinition>, i: nat, names: set<string>)
    requires names <= m.Keys
    requires forall j :: 0 <= j < |fs| ==> CallsWithin(fs[j].compound, names)
    ensures BodiesFrom(m, acc, fs, i).Ok?
    decreases |fs| - i
  {
    if i < |fs| {
      CompoundGenOk(m, fs[i].compound, names);
      var out := FunctionGen(m, fs[i]).value;
      BodiesOk(out.llvmModule, acc + out.code, fs, i + 1, names);
    }
  }

  /** The names the functions of a program are defined under. */
  function DefinedNames(fs: seq<Ast.FunctionDefinition>): (names: set<string>)
    ensures forall i :: 0 <= i < |fs| ==> fs[i].name in names
  {
    set i | 0 <= i < |fs| :: fs[i].name
  }

  /**
   * Because every function is declared before any body is generated, a
   * program whose calls all name functions it defines, earlier or later,
   * generates without error.
   */
  lemma ForwardCallsResolve(fs: seq<Ast.FunctionDefinition>)
    requires forall j :: 0 <= j < |fs| ==> CallsWithin(fs[j].compound, DefinedNames(fs))
    ensures RootGen(map[], fs).Ok?
  {
    BodiesOk(DeclareAll(map[], fs), [], fs, 0, DefinedNames(fs));
  }

  // ---------------------------------------------------------------------------
  // No return-type check
  // ---------------------------------------------------------------------------

  /**
   * Generation depends on the module only through the names declared in it:
   * same names, same outcome, same instructions.
   */
  lemma {:induction false} CompoundGenByNames(m1: Module, m2: Module, c: Ast.CompoundExpr)
    requires m1.Keys == m2.Keys
    ensures CompoundGen(m1, c).Ok? <==> CompoundGen(m2, c).Ok?
    ensures CompoundGen(m1, c).Ok? ==>
              CompoundGen(m1, c).value.llvmModule.Keys == CompoundGen(m2, c).value.llvmModule.Keys &&
              CompoundGen(m1, c).value.code == CompoundGen(m2, c).value.code &&
              CompoundGen(m1, c).value.ret == CompoundGen(m2, c).value.ret
    decreases c, |c.expressions| + 1
  {
    GenFromByNames(m1, m2, [], c, 0);
  }

  lemma {:induction false} GenFromByNames(m1: Module, m2: Module, acc: seq<Inst>, c: Ast.CompoundExpr, i: nat)
    requires m1.Keys == m2.Keys
    ensures GenFrom(m1, acc, c, i).Ok? <==> GenFrom(m2, acc, c, i).Ok?
    ensures GenFrom(m1, acc, c, i).Ok? ==>
              GenFrom(m1, acc, c, i).value.llvmModule.Keys == GenFrom(m2, acc, c, i).value.llvmModule.Keys &&
              GenFrom(m1, acc, c, i).value.code == GenFrom(m2, acc, c, i).value.code &&
              GenFrom(m1, acc, c, i).value.ret == GenFrom(m2, acc, c, i).value.ret
    decreases c, |c.expressions| - i
  {
    if i < |c.expressions| {
      var e := c.expressions[i];
      match e
      case Return(n) =>
      case Compound(inner) =>
        CompoundGenByNames(m1, m2, inner);
        if CompoundGen(m1, inner).Ok? {
          var out1 := CompoundGen(m1, inner).value;
          var out2 := CompoundGen(m2, inner).value;
          GenFromByNames(out1.llvmModule, out2.llvmModule, acc + out1.code, c, i + 1);
        }
      case Exit(code) =>
        GenFromByNames(m1[ExitProcessName := ExitProcessType], m2[ExitProcessName := ExitProcessType], acc + [CallExit(code)], c, i + 1);
      case FnCall(name) =>
        if name in m1 {
          GenFromByNames(m1, m2, acc + [Call(name)], c, i + 1);
        }
    }
  }

  lemma {:induction false} BodiesByNames(m1: Module, m2: Module, acc: seq<Inst>, fs: seq<Ast.FunctionDefinition>, gs: seq<Ast.FunctionDefinition>, i: nat)
    requires m1.Keys == m2.Keys && SameButReturnTypes(fs, gs)
    ensures BodiesFrom(m1, acc, fs, i).Ok? <==> BodiesFrom(m2, acc, gs, i).Ok?
    ensures BodiesFrom(m1, acc, fs, i).Ok? ==> BodiesFrom(m1, acc, fs, i).value.1 == BodiesFrom(m2, acc, gs, i).value.1
    decreases |fs| - i
  {
    if i < |fs| {
      CompoundGenByNames(m1, m2, fs[i].compound);
      if CompoundGen(m1, fs[i].compound).Ok? {
        var out1 := FunctionGen(m1, fs[i]).value;
        var out2 := FunctionGen(m2, gs[i]).value;
        BodiesByNames(out1.llvmModule, out2.llvmModule, acc + out1.code, fs, gs, i + 1);
      }
    }
  }

  /** Two programs that differ at most in the declared return types of their functions. */
  predicate SameButReturnTypes(fs: seq<Ast.FunctionDefinition>, gs: seq<Ast.FunctionDefinition>)
  {
    |fs| == |gs| && forall i :: 0 <= i < |fs| ==> fs[i].name == gs[i].name && fs[i].compound == gs[i].compound
  }

  /**
   * The declared return types decide neither whether generation succeeds
   * nor which instructions it emits: a body whose actual return type differs
   * from its declaration is not rejected.
   */
  lemma ReturnTypesNotChecked(fs: seq<Ast.FunctionDefinition>, gs: seq<Ast.FunctionDefinition>)
    requires SameButReturnTypes(fs, gs)
    ensures RootGen(map[], fs).Ok? <==> RootGen(map[], gs).Ok?
    ensures RootGen(map[], fs).Ok? ==> RootGen(map[], fs).value.1 == RootGen(map[], gs).value.1
  {
    assert DefinedNames(fs) == DefinedNames(gs);
    BodiesByNames(DeclareAll(map[], fs), DeclareAll(map[], gs), [], fs, gs, 0);
  }

  // ---------------------------------------------------------------------------
  // Order of the bodies
  // ---------------------------------------------------------------------------

  /** The functions the blocks of `code` belong to, in order. */
  function BlockOwners(code: seq<Inst>): (owners: seq<string>)
    ensures |owners| <= |code|
  {
    if code == [] then []
    else (if code[0].Block? then [code[0].owner] else []) + BlockOwners(code[1..])
  }

  lemma {:induction false} BlockOwnersAppend(a: seq<Inst>, b: seq<Inst>)
    ensures BlockOwners(a + b) == BlockOwners(a) + BlockOwners(b)
  {
    if a != [] {
      assert (a + b)[1..] == a[1..] + b;
      BlockOwnersAppend(a[1..], b);
    } else {
      assert a + b == b;
    }
  }

  /** A compound opens no block of its own. */
  lemma {:induction false} CompoundOpensNoBlock(m: Module, c: Ast.CompoundExpr)
    requires CompoundGen(m, c).Ok?
    ensures BlockOwners(CompoundGen(m, c).value.code) == []
    decreases c, |c.expressions| + 1
  {
    GenFromOpensNoBlock(m, [], c, 0);
  }

  lemma {:induction false} GenFromOpensNoBlock(m: Module, acc: seq<Inst>, c: Ast.CompoundExpr, i: nat)
    requires GenFrom(m, acc, c, i).Ok? && BlockOwners(acc) == []
    ensures BlockOwners(GenFrom(m, acc, c, i).value.code) == []
    decreases c, |c.expressions| - i
  {
    if i >= |c.expressions| {
      BlockOwnersAppend(acc, [RetVoid]);
    } else {
      var e := c.expressions[i];
      match e
      case Return(n) =>
        BlockOwnersAppend(acc, [RetI32(n)]);
      case Compound(inner) =>
        CompoundOpensNoBlock(m, inner);
        var out := CompoundGen(m, inner).value;
        BlockOwnersAppend(acc, out.code);
        if !out.ret.Explicit? {
          GenFromOpensNoBlock(out.llvmModule, acc + out.code, c, i + 1);
        }
      case _ =>
        var step := ExprGen(m, e).value;
        BlockOwnersAppend(acc, [step.1]);
        GenFromOpensNoBlock(step.0, acc + [step.1], c, i + 1);
    }
  }

  function Names(fs: seq<Ast.FunctionDefinition>): (names: seq<string>)
    ensures |names| == |fs|
    ensures forall i :: 0 <= i < |fs| ==> names[i] == fs[i].name
  {
    if fs == [] then [] else [fs[0].name] + Names(fs[1..])
  }

  /** A function's code opens exactly one block, its own. */
  lemma FunctionOpensOneBlock(m: Module, f: Ast.FunctionDefinition)
    requires FunctionGen(m, f).Ok?
    ensures BlockOwners(FunctionGen(m, f).value.code) == [f.name]
  {
    var inner := CompoundGen(m, f.compound).value.code;
    CompoundOpensNoBlock(m, f.compound);
    BlockOwnersAppend([Block(f.name)], inner);
    assert BlockOwners([Block(f.name)]) == [f.name];
  }

  lemma {:induction false} BodiesInOrder(m: Module, acc: seq<Inst>, fs: seq<Ast.FunctionDefinition>, i: nat)
    requires i <= |fs| && BodiesFrom(m, acc, fs, i).Ok?
    ensures BlockOwners(BodiesFrom(m, acc, fs, i).value.1) == BlockOwners(acc) + Names(fs[i..])
    decreases |fs| - i
  {
    if i == |fs| {
      assert fs[i..] == [];
    } else {
      BodiesStep(m, acc, fs, i);
      var out := FunctionGen(m, fs[i]).value;
      FunctionOpensOneBlock(m, fs[i]);
      BlockOwnersAppend(acc, out.code);
      BodiesInOrder(out.llvmModule, acc + out.code, fs, i + 1);
      assert Names(fs[i..]) == [fs[i].name] + Names(fs[i + 1..]);
    }
  }

  /** The bodies are generated in source order: one block per function, in the order of definition. */
  lemma BlocksInSourceOrder(fs: seq<Ast.FunctionDefinition>)
    requires RootGen(map[], fs).Ok?
    ensures BlockOwners(RootGen(map[], fs).value.1) == Names(fs)
  {
    BodiesInOrder(DeclareAll(map[], fs), [], fs, 0);
    assert fs[0..] == fs;
  }
}
