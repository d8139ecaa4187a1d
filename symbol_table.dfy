/**
 * The function symbol table of src/compiler/symbol_table.rs: an arena of
 * `Function` entries plus a lookup from names to arena positions. Entries are
 * never removed, so a plain index stands for the arena's generational index.
 * The shared `Rc<RefCell<InnerSym>>` of `Sym` is one object here: every clone
 * of a `Sym` is the same Dafny reference.
 */
module SymbolTable {
  import opened Common
  import Ast

  /**
   * The handle the code generator attaches to a function. Its type is
   * declared outside this file (`CodegenFunctionDataRef`), so it is kept
   * abstract: only its identity matters here.
   */
  datatype CodegenDataRef = CodegenDataRef(id: nat)

  datatype SymbolError =
    | Redefinition(name: string)        // `add_function` with a name already present
    | AlreadyAttached(name: string)     // `attach_codegen_data` on a function that has data

  /**
   * An entry of the table; the code generator fills in `codegenDataRef` once.
   * All three fields are public and writable, as in the source.
   */
  class Function {
    var name: string
    var returnTy: Ast.Type
    var codegenDataRef: Option<CodegenDataRef>

    /** `Function::new`: no codegen data yet. */
    constructor (name: string, returnTy: Ast.Type)
      ensures this.name == name && this.returnTy == returnTy
      ensures codegenDataRef == None
    {
      this.name := name;
      this.returnTy := returnTy;
      codegenDataRef := None;
    }

    /** Single assignment: a second attach fails and keeps the data already there. */
    method AttachCodegenData(data: CodegenDataRef) returns (r: Result<(), SymbolError>)
      modifies this
      ensures r.Ok? <==> old(codegenDataRef).None?
      ensures r.Err? ==> r.error == AlreadyAttached(name)
      ensures codegenDataRef == if r.Ok? then Some(data) else old(codegenDataRef)
      ensures name == old(name) && returnTy == old(returnTy)
    {
      if codegenDataRef.Some? {
        return Err(AlreadyAttached(name));
      }
      codegenDataRef := Some(data);
      return Ok(());
    }
  }

  /** A handle to an entry; only `AddFunction` creates one. */
  datatype FunctionRef = FunctionRef(index: nat)

  class Sym {
    /** The arena, in insertion order. */
    var functions: seq<Function>
    /** `function_name_lookup`: name to arena position. */
    var nameLookup: map<string, nat>

    /**
     * The lookup keys are exactly the names of the stored functions, and each
     * key leads to the entry carrying that name. Since entries are shared
     * objects, this holds only while no one renames an entry in place.
     */
    ghost predicate Valid()
      reads this, functions
    {
      (forall n :: n in nameLookup ==> nameLookup[n] < |functions| && functions[nameLookup[n]].name == n) &&
      (forall i :: 0 <= i < |functions| ==> functions[i].name in nameLookup && nameLookup[functions[i].name] == i)
    }

    /** `r` was handed out by this table. */
    predicate IsRef(r: FunctionRef)
      reads this
    {
      r.index < |functions|
    }

    /** `Sym::new`: an empty arena and an empty lookup. */
    constructor ()
      ensures Valid()
      ensures functions == [] && nameLookup == map[]
    {
      functions := [];
      nameLookup := map[];
    }

    /**
     * `add_function`: a name already present is a redefinition and changes
     * nothing; otherwise the function goes at the end of the arena and its
     * name leads to it.
     */
    method AddFunction(f: Function) returns (r: Result<FunctionRef, SymbolError>)
      requires Valid()
      modifies this
      ensures Valid()
      ensures r.Ok? <==> f.name !in old(nameLookup)
      ensures r.Err? ==> r.error == Redefinition(f.name) && functions == old(functions) && nameLookup == old(nameLookup)
      ensures r.Ok? ==> r.value == FunctionRef(|old(functions)|) && IsRef(r.value) && GetFunction(r.value) == f
      ensures r.Ok? ==> functions == old(functions) + [f] && nameLookup == old(nameLookup)[f.name := r.value.index]
    {
      if f.name in nameLookup {
        return Err(Redefinition(f.name));
      }
      var idx := |functions|;
      functions := functions + [f];
      nameLookup := nameLookup[f.name := idx];
      return Ok(FunctionRef(idx));
    }

    /** `get_function`: the entry a handle denotes. */
    function GetFunction(r: FunctionRef): (f: Function)
      reads this
      requires IsRef(r)
      ensures f in functions
    {
      functions[r.index]
    }

    /**
     * `get_function_mut`: the same entry, handed out for in-place change
     * (see `AttachThrough` for what a change through it may touch).
     */
    method GetFunctionMut(r: FunctionRef) returns (f: Function)
      requires IsRef(r)
      ensures f == GetFunction(r)
    {
      f := functions[r.index];
    }

    /** `get_function_by_name`: the entry registered under `name`, if any. */
    function GetFunctionByName(name: string): (f: Option<Function>)
      reads this, functions
      requires Valid()
      ensures f.Some? <==> name in nameLookup
      ensures f.Some? ==> f.value.name == name && f.value == GetFunction(FunctionRef(nameLookup[name]))
    {
      if name in nameLookup then Some(functions[nameLookup[name]]) else None
    }

    /**
     * Attaching codegen data through `get_function_mut(r)` changes entry `r`
     * and no other entry, and leaves every name, and so the table's
     * invariant, as it was.
     */
    method AttachThrough(r: FunctionRef, data: CodegenDataRef) returns (res: Result<(), SymbolError>)
      requires Valid() && IsRef(r)
      modifies functions[r.index]
      ensures Valid()
      ensures res.Ok? <==> old(functions[r.index].codegenDataRef).None?
      ensures GetFunction(r).codegenDataRef == if res.Ok? then Some(data) else old(GetFunction(r).codegenDataRef)
      ensures forall i :: 0 <= i < |functions| && i != r.index ==>
                functions[i].codegenDataRef == old(functions[i].codegenDataRef)
      ensures functions == old(functions) && forall i :: 0 <= i < |functions| ==> functions[i].name == old(functions[i].name)
    {
      var f := GetFunctionMut(r);
      EntriesDistinct();
      res := f.AttachCodegenData(data);
    }

    /** Entries with different positions are different objects, because their names differ. */
    lemma EntriesDistinct()
      requires Valid()
      ensures forall i, j :: 0 <= i < |functions| && 0 <= j < |functions| && i != j ==> functions[i] != functions[j]
    {
    }
  }

  /** A new table resolves no name and accepts no handle. */
  method NewTableIsEmpty(name: string, r: FunctionRef) returns (f: Option<Function>, accepted: bool)
    ensures f == None && !accepted
  {
    var table := new Sym();
    f := table.GetFunctionByName(name);
    accepted := table.IsRef(r);
  }

  /**
   * A handle returned earlier still denotes the same function after a later
   * `add_function`, and the later function is found under its own name.
   */
  method AddTwo(a: Function, b: Function) returns (ra: Result<FunctionRef, SymbolError>, rb: Result<FunctionRef, SymbolError>, first: Option<Function>)
    ensures ra.Ok?
    ensures rb.Ok? <==> a.name != b.name
    ensures rb.Ok? ==> rb.value != ra.value
    ensures first == Some(a)
  {
    var table := new Sym();
    ra := table.AddFunction(a);
    rb := table.AddFunction(b);
    first := Some(table.GetFunction(ra.value));
  }
}
