/**
 * The symbol table of src/compiler/symbol_table/mod.rs and
 * src/compiler/symbol_table/function.rs, built on the arena of module
 * `RefArena`: the table owns an arena of functions and a lookup from names
 * to refs into that arena. `Sym` and its shared `InnerSym` are one object.
 */
module ArenaSymbolTable {
  import opened Common
  import opened RefArena
  import Ast

  /** `Function::new(name, return_ty)` is this constructor; the name must be unique in a table. */
  datatype Function = Function(name: string, returnTy: Ast.Type)

  datatype SymbolError = Redefinition(name: string)

  class Sym {
    /** `functions`: the arena the table owns. */
    const functions: Arena<Function>
    /** `function_name_lookup`: name to the ref of its function. */
    var lookup: map<string, ArenaRef<Function>>

    /**
     * Every ref in the lookup points into this table's own arena, at a
     * function carrying the name it is registered under, and every function
     * in the arena is the one its name is registered to.
     */
    ghost predicate Valid()
      reads this, functions
    {
      && (forall n :: n in lookup ==>
            lookup[n].arena == functions && lookup[n].Valid() && lookup[n].Get().name == n)
      && (forall i :: 0 <= i < |functions.items| ==>
            functions.items[i].name in lookup && lookup[functions.items[i].name].idx == i)
    }

    /** `Sym::new`: an empty arena and an empty lookup. */
    constructor ()
      ensures Valid() && fresh(functions)
      ensures functions.items == [] && lookup == map[]
    {
      functions := new Arena<Function>();
      lookup := map[];
    }

    /**
     * `add_function`: a name already in the lookup is a redefinition and
     * changes nothing; otherwise the function is inserted into the arena and
     * the name leads to the returned ref.
     */
    method AddFunction(f: Function) returns (r: Result<ArenaRef<Function>, SymbolError>)
      requires Valid()
      modifies this, functions
      ensures Valid()
      ensures r.Ok? <==> f.name !in old(lookup)
      ensures r.Err? ==> r.error == Redefinition(f.name) && lookup == old(lookup) && functions.items == old(functions.items)
      ensures r.Ok? ==> r.value.arena == functions && r.value.Valid() && r.value.Get() == f
      ensures r.Ok? ==> lookup == old(lookup)[f.name := r.value] && functions.items == old(functions.items) + [f]
    {
      if f.name in lookup {
        return Err(Redefinition(f.name));
      }
      var fnRef := functions.Insert(f);
      lookup := lookup[f.name := fnRef.Clone()];
      return Ok(fnRef);
    }

    /** `get_function_by_name`: the ref registered under `name`, if any. */
    function GetFunctionByName(name: string): (r: Option<ArenaRef<Function>>)
      reads this, functions
      requires Valid()
      ensures r.Some? <==> name in lookup
      ensures r.Some? ==> r.value.arena == functions && r.value.Valid() && r.value.Get().name == name
    {
      if name in lookup then Some(lookup[name]) else None
    }

    /** Names are unique: no two functions in the arena carry the same name. */
    lemma NamesUnique(i: nat, j: nat)
      requires Valid() && i < j < |functions.items|
      ensures functions.items[i].name != functions.items[j].name
    {
      assert lookup[functions.items[i].name].idx == i;
      assert lookup[functions.items[j].name].idx == j;
    }
  }

  /** A freshly created table resolves no name. */
  method NewTableResolvesNothing(name: string) returns (r: Option<ArenaRef<Function>>)
    ensures r == None
  {
    var table := new Sym();
    r := table.GetFunctionByName(name);
  }

  /**
   * Adding a second function under a name already taken is rejected, and
   * the arena keeps exactly one function, the first.
   */
  method AddSameNameTwice(f: Function, g: Function) returns (second: Result<ArenaRef<Function>, SymbolError>, stored: seq<Function>)
    requires f.name == g.name
    ensures second == Err(Redefinition(g.name))
    ensures stored == [f]
  {
    var table := new Sym();
    var _ := table.AddFunction(f);
    second := table.AddFunction(g);
    stored := table.functions.items;
  }
}
