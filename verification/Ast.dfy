/** The part of the expression and pattern AST that the expansion pass rewrites,
    together with the values that expressions evaluate to. */
module Ast {

  import opened Wrappers

  /** An identifier.  Tokens of the program carry a non-empty hygiene; the identifiers that the
      compiler makes up have an empty one, and an empty one is visible from an empty one only.
      So the two kinds never see each other, whatever their spelling. */
  datatype Ident =
    | User(name: string)
    | Gen(name: string)

  /** The name of a loop or block.  `IfLet` is `#iflet` and `Try(n)` is `#tryN`; no token can spell them. */
  datatype Label =
    | NoLabel
    | Named(name: string)
    | IfLet
    | Try(index: nat)

  datatype Binding = Binding(name: Ident, val: Value)

  datatype FieldValue = FieldValue(name: string, val: Value)

  datatype Value =
    | Bool(b: bool)
    | Int(i: int)
    | Str(s: string)
    | Tup(vs: seq<Value>)
    | Arr(vs: seq<Value>)
    | Con(path: string, vs: seq<Value>)            // unit or tuple-like struct or enum variant
    | Rec(path: string, fs: seq<FieldValue>)       // struct, or enum variant, with named fields
    | Addr(a: int)
    | Clo(id: nat, env: seq<Binding>)              // a closure and what it captured

  const UNIT: Value := Tup([])

  datatype FieldPat = FieldPat(name: string, pat: Pat)

  datatype Pat =
    | PAny
    | PBind(x: Ident)
    | PLit(v: Value)
    | PTuple(start: seq<Pat>, rest: bool, end: seq<Pat>)
    | PSlice(ps: seq<Pat>)
    | PCon(path: string, ps: seq<Pat>)
    | PStruct(path: string, fs: seq<FieldPat>, exhaustive: bool)

  datatype FieldExpr = FieldExpr(name: string, val: Expr)

  /** A condition of an `if` or `while` chain: a boolean, or a pattern to match. */
  datatype Cond = Cond(pat: Option<Pat>, val: Expr)

  datatype Arm = Arm(pat: Pat, code: Expr)

  datatype FlowKind = Return | Break | Continue | Yeet

  datatype Expr =
    | Lit(v: Value)
    | Var(x: Ident)
    | Tuple(es: seq<Expr>)
    | Array(es: seq<Expr>)
    | StructLit(path: string, fs: seq<FieldExpr>)
    | StructLitPat(path: string, fs: seq<FieldExpr>)       // `S { f: e, .. }`, an assignee only
    | Wildcard                                             // `_`, an assignee only
    | Rest                                                 // `..`, inside an assignee tuple only
    | Field(obj: Expr, name: string)
    | Index(obj: Expr, idx: Expr)
    | Deref(obj: Expr)
    | CallPath(f: string, args: seq<Expr>)                 // also every strict operator and method call
    | CallObject(callee: Expr, args: seq<Expr>)
    | Closure(id: nat, params: seq<Pat>, code: Expr)
    | Block(lbl: Label, nodes: seq<Expr>, keep: bool)
    | Let(pat: Pat, val: Expr)                             // a node of a block
    | Assign(slot: Expr, val: Expr)
    | Flow(kind: FlowKind, target: Label, opt: Option<Expr>)
    | Loop(lbl: Label, code: Expr)
    | For(lbl: Label, pat: Pat, iter: Expr, code: Expr)
    | WhileLet(lbl: Label, conds: seq<Cond>, code: Expr)
    | Match(val: Expr, arms: seq<Arm>)
    | If(cond: Expr, thn: Expr, els: Option<Expr>)
    | IfLetChain(conds: seq<Cond>, thn: Expr, els: Option<Expr>)
    | TryBlock(inner: Expr)
    | QMark(inner: Expr)
    | NextOf(x: Ident)                                     // `Iterator::next(&mut x)`
}
