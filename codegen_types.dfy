/**
 * The type vocabulary of the LLVM code generator (src/compiler/codegen/types.rs).
 * The LLVM context is left implicit: the only basic type the generator ever
 * builds is the 32-bit integer, so `BasicTypeEnum` has that one value.
 */
module CodegenTypes {
  import opened Common
  import Ast

  datatype BasicTypeEnum = I32

  /** `Type`: a basic (first-class) type, or `void`. */
  datatype Type = BasicType(basic: BasicTypeEnum) | Void

  /** An LLVM function type: its return type, parameter types and whether it is variadic. */
  datatype FunctionType = FunctionType(returnType: Type, params: seq<BasicTypeEnum>, isVarArgs: bool)

  /** What a compound yields: an explicit return of some type, or falling off its end. */
  datatype CompoundReturnType = Explicit(ty: Type) | ImplicitUnit

  /** `fn_type`: the function type returning `t` with the given parameters. */
  function FnType(t: Type, params: seq<BasicTypeEnum>, isVarArgs: bool): (f: FunctionType)
    ensures f.returnType == t && f.params == params && f.isVarArgs == isVarArgs
  {
    FunctionType(t, params, isVarArgs)
  }

  /** `to_basic_type_enum`: the basic type, or `None` for `void`. */
  function ToBasicTypeEnum(t: Type): (b: Option<BasicTypeEnum>)
    ensures b.None? <==> t.Void?
    ensures b.Some? ==> t == BasicType(b.value)
  {
    match t
    case BasicType(ty) => Some(ty)
    case Void => None
  }

  /** `from_ast_type`: `Unit` is `void`, `Int` is the 32-bit integer. */
  function FromAstType(t: Ast.Type): (r: Type)
    ensures r.Void? <==> t.Unit?
  {
    match t
    case Unit => Void
    case Int => BasicType(I32)
  }

  /** `ast::Type::as_llvm_type`: `Int` has the basic type i32, `Unit` has none. */
  function AsLlvmType(t: Ast.Type): (r: Option<BasicTypeEnum>)
    ensures r.Some? <==> t.Int?
  {
    match t
    case Int => Some(I32)
    case Unit => None
  }

  /** `into_type`: an explicit return's type, or `void` when the compound fell off its end. */
  function IntoType(c: CompoundReturnType): (t: Type)
    ensures c.Explicit? ==> t == c.ty
    ensures c.ImplicitUnit? ==> t.Void?
  {
    match c
    case Explicit(ty) => ty
    case ImplicitUnit => Void
  }

  /** The two views of an AST type agree: its LLVM type's basic part is its `as_llvm_type`. */
  lemma BasicOfAstType(t: Ast.Type)
    ensures ToBasicTypeEnum(FromAstType(t)) == AsLlvmType(t)
  {
  }

  /** Different AST types become different LLVM types. */
  lemma FromAstTypeInjective(s: Ast.Type, t: Ast.Type)
    requires FromAstType(s) == FromAstType(t)
    ensures s == t
  {
  }

  /** The function type built for an AST type returns that type. */
  lemma FnTypeReturns(t: Ast.Type)
    ensures FnType(FromAstType(t), [], false).returnType.Void? <==> t.Unit?
  {
  }
}
