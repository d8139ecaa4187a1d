/**
 * The symbol table the AST analyzer fills (src/compiler/ast_analyzer/symbol_table.rs):
 * a map from top-level function names to their entries.
 */
module AnalyzerSymbolTable {
  import opened Common
  import Ast

  /** An entry records only the function's declared return type. */
  datatype Function = Function(returnTy: Ast.Type)

  datatype SymbolError = Redefinition(name: string)

  class SymbolTable {
    var topLevelFunctions: map<string, Function>

    /** `new`: no functions. */
    constructor ()
      ensures topLevelFunctions == map[]
    {
      topLevelFunctions := map[];
    }

    /**
     * `add_function`: a name already present is a redefinition and leaves the
     * map unchanged; otherwise `name` now leads to `f` and every other name
     * keeps its entry.
     */
    method AddFunction(name: string, f: Function) returns (r: Result<(), SymbolError>)
      modifies this
      ensures r.Ok? <==> name !in old(topLevelFunctions)
      ensures r.Err? ==> r.error == Redefinition(name)
      ensures topLevelFunctions == if r.Ok? then old(topLevelFunctions)[name := f] else old(topLevelFunctions)
    {
      if name in topLevelFunctions {
        return Err(Redefinition(name));
      }
      topLevelFunctions := topLevelFunctions[name := f];
      return Ok(());
    }

    /** `get_function`: the entry under `name`, `None` for a name never added. */
    function GetFunction(name: string): (f: Option<Function>)
      reads this
      ensures f.Some? <==> name in topLevelFunctions
      ensures f.Some? ==> f.value == topLevelFunctions[name]
    {
      if name in topLevelFunctions then Some(topLevelFunctions[name]) else None
    }
  }

  /**
   * After `add_function(name, f)` succeeds, `get_function(name)` is `f`; a
   * name that was never added is not found.
   */
  method AddThenGet(name: string, other: string, f: Function) returns (found: Option<Function>, missing: Option<Function>)
    requires other != name
    ensures found == Some(f)
    ensures missing == None
  {
    var table := new SymbolTable();
    var _ := table.AddFunction(name, f);
    found := table.GetFunction(name);
    missing := table.GetFunction(other);
  }
}
