/**
 * The syntax tree of src/compiler/parser/ast.rs, transcribed as values.
 * It has no behaviour of its own; the parser builds it and the code
 * generators consume it.
 */
module Ast {
  import opened Common

  /** Source-level return types. */
  datatype Type = Unit | Int

  datatype Expr =
    | Compound(inner: CompoundExpr)
    | Exit(code: U32)
    | FnCall(name: string)
    | Return(value: U32)

  /** A `{ ... }` block: its expressions in source order. */
  datatype CompoundExpr = CompoundExpr(expressions: seq<Expr>)

  datatype FunctionDefinition = FunctionDefinition(name: string, compound: CompoundExpr, returnTy: Type)

  /** The whole program; `functionNames` lists the functions' names in order. */
  datatype Root = Root(functionNames: seq<string>, functions: seq<FunctionDefinition>)
}
