/**
 * `analyze_ast` of src/compiler/ast_analyzer/mod.rs: registers every
 * function's return type in a fresh `AnalyzerSymbolTable.SymbolTable`, in
 * source order, and fails on the first redefinition.
 */
module AstAnalyzer {
  import opened Common
  import Ast
  import opened AnalyzerSymbolTable

  /** The AST together with the table built from it. */
  datatype AnalyzedAst = AnalyzedAst(ast: Ast.Root, table: SymbolTable)

  function NameSet(fs: seq<Ast.FunctionDefinition>): (names: set<string>)
    ensures forall i :: 0 <= i < |fs| ==> fs[i].name in names
    ensures forall n :: n in names ==> exists i :: 0 <= i < |fs| && fs[i].name == n
  {
    if fs == [] then {} else NameSet(fs[..|fs| - 1]) + {fs[|fs| - 1].name}
  }

  /** No two definitions share a name. */
  predicate DistinctNames(fs: seq<Ast.FunctionDefinition>)
  {
    forall i, j :: 0 <= i < j < |fs| ==> fs[i].name != fs[j].name
  }

  /** The table that registering `fs` in order builds, a later definition of a name overriding an earlier one. */
  function Registered(fs: seq<Ast.FunctionDefinition>): map<string, Function>
  {
    if fs == [] then map[] else Registered(fs[..|fs| - 1])[fs[|fs| - 1].name := Function(fs[|fs| - 1].returnTy)]
  }

  /**
   * Position `k` holds the first repeated name: the definitions before it
   * are distinct and one of them has the same name.
   */
  predicate FirstRepeatAt(fs: seq<Ast.FunctionDefinition>, k: nat)
  {
    k < |fs| && DistinctNames(fs[..k]) && fs[k].name in NameSet(fs[..k])
  }

  /**
   * `analyze_ast`: succeeds exactly when the names are distinct; the table
   * then maps each name to its own function's return type, and the AST comes
   * back unchanged. Otherwise the error names the second occurrence of the
   * first repeated name.
   */
  method AnalyzeAst(ast: Ast.Root) returns (r: Result<AnalyzedAst, SymbolError>)
    ensures r.Ok? <==> DistinctNames(ast.functions)
    ensures r.Ok? ==> r.value.ast == ast
    ensures r.Ok? ==> r.value.table.topLevelFunctions.Keys == NameSet(ast.functions)
    ensures r.Ok? ==> forall i :: 0 <= i < |ast.functions| ==>
              r.value.table.topLevelFunctions[ast.functions[i].name] == Function(ast.functions[i].returnTy)
    ensures r.Err? ==> exists k: nat :: FirstRepeatAt(ast.functions, k) && r.error == Redefinition(ast.functions[k].name)
  {
    var fs := ast.functions;
    var table := new SymbolTable();
    for i := 0 to |fs|
      invariant DistinctNames(fs[..i])
      invariant table.topLevelFunctions == Registered(fs[..i])
    {
      RegisteredKeys(fs[..i]);
      var added := table.AddFunction(fs[i].name, Function(fs[i].returnTy));
      if added.Err? {
        assert FirstRepeatAt(fs, i);
        FirstRepeatNotDistinct(fs, i);
        return Err(added.error);
      }
      RegisterStep(fs, i);
    }
    assert fs[..|fs|] == fs;
    RegisteredKeys(fs);
    RegisteredDistinct(fs);
    return Ok(AnalyzedAst(ast, table));
  }

  /** The registered names are exactly the defined ones. */
  lemma {:induction false} RegisteredKeys(fs: seq<Ast.FunctionDefinition>)
    ensures Registered(fs).Keys == NameSet(fs)
  {
    if fs != [] {
      RegisteredKeys(fs[..|fs| - 1]);
    }
  }

  /** One more definition, with a new name: still distinct, and one more entry. */
  lemma RegisterStep(fs: seq<Ast.FunctionDefinition>, i: nat)
    requires i < |fs| && DistinctNames(fs[..i]) && fs[i].name !in NameSet(fs[..i])
    ensures DistinctNames(fs[..i + 1])
    ensures Registered(fs[..i + 1]) == Registered(fs[..i])[fs[i].name := Function(fs[i].returnTy)]
  {
    assert fs[..i + 1][..i] == fs[..i];
    assert fs[..i + 1] == fs[..i] + [fs[i]];
    DistinctExtend(fs[..i], fs[i]);
  }

  /** A first repeat is a repeat. */
  lemma FirstRepeatNotDistinct(fs: seq<Ast.FunctionDefinition>, k: nat)
    requires FirstRepeatAt(fs, k)
    ensures !DistinctNames(fs)
  {
    var j :| 0 <= j < k && fs[..k][j].name == fs[k].name;
    assert fs[j] == fs[..k][j];
  }

  lemma DistinctExtend(fs: seq<Ast.FunctionDefinition>, f: Ast.FunctionDefinition)
    requires DistinctNames(fs) && f.name !in NameSet(fs)
    ensures DistinctNames(fs + [f])
  {
    var gs := fs + [f];
    forall i, j | 0 <= i < j < |gs|
      ensures gs[i].name != gs[j].name
    {
      if j == |fs| {
        assert gs[i] == fs[i];
      } else {
        assert gs[i] == fs[i] && gs[j] == fs[j];
      }
    }
  }

  /** With distinct names, each name is registered with its own definition's return type. */
  lemma {:induction false} RegisteredDistinct(fs: seq<Ast.FunctionDefinition>)
    requires DistinctNames(fs)
    ensures forall i :: 0 <= i < |fs| ==>
              fs[i].name in Registered(fs) && Registered(fs)[fs[i].name] == Function(fs[i].returnTy)
  {
    if fs != [] {
      var n := |fs| - 1;
      var init := fs[..n];
      DistinctPrefix(fs, n);
      RegisteredDistinct(init);
      RegisteredLast(fs);
      forall i | 0 <= i < n
        ensures fs[i].name in Registered(fs) && Registered(fs)[fs[i].name] == Function(fs[i].returnTy)
      {
        assert init[i] == fs[i];
      }
    }
  }

  /** Registering the last definition updates only its own name. */
  lemma RegisteredLast(fs: seq<Ast.FunctionDefinition>)
    requires fs != []
    ensures Registered(fs) == Registered(fs[..|fs| - 1])[fs[|fs| - 1].name := Function(fs[|fs| - 1].returnTy)]
  {
  }

  /** A prefix of distinct definitions is distinct. */
  lemma DistinctPrefix(fs: seq<Ast.FunctionDefinition>, n: nat)
    requires n <= |fs| && DistinctNames(fs)
    ensures DistinctNames(fs[..n])
  {
    var init := fs[..n];
    forall i, j | 0 <= i < j < |init| ensures init[i].name != init[j].name {
      assert init[i] == fs[i] && init[j] == fs[j];
    }
  }

  /** A repeated name anywhere is reported, at a first repeat, whatever the order. */
  lemma RepeatHasFirst(fs: seq<Ast.FunctionDefinition>)
    requires !DistinctNames(fs)
    ensures exists k: nat :: FirstRepeatAt(fs, k)
  {
    var i, j :| 0 <= i < j < |fs| && fs[i].name == fs[j].name;
    RepeatBelow(fs, i, j);
  }

  /** A repeat at `j` has a first repeat at or before `j`. */
  lemma {:induction false} RepeatBelow(fs: seq<Ast.FunctionDefinition>, i: nat, j: nat)
    requires i < j < |fs| && fs[i].name == fs[j].name
    ensures exists k: nat :: k <= j && FirstRepeatAt(fs, k)
    decreases j
  {
    var init := fs[..j];
    if DistinctNames(init) {
      assert init[i] == fs[i];
      assert FirstRepeatAt(fs, j);
    } else {
      var i', j' :| 0 <= i' < j' < |init| && init[i'].name == init[j'].name;
      assert init[i'] == fs[i'] && init[j'] == fs[j'];
      RepeatBelow(fs, i', j');
    }
  }
}
