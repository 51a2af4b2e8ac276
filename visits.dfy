/**
 * The order in which Boa's default syntax-tree traversal hands nodes to a visitor whose preVisit
 * methods all answer true: each node first, then its children, depth first, kind by kind.  The
 * metric visitors are folds over these sequences.
 */
module Visits {
  import opened Base
  import opened Ast

  /** A node handed to a visitor's preVisit. */
  datatype Visited =
    | VNamespace(namespace: Namespace)
    | VDecl(decl: Decl)
    | VMethod(meth: Method)
    | VVariable(variable: Variable)
    | VType(typeRef: TypeRef)
    | VStmt(stmt: Stmt)
    | VExpr(expr: Expr)

  /** Namespaces are only met at the root: no traversal below a declaration reaches one. */
  ghost predicate NoNamespaces(vs: seq<Visited>) {
    forall i :: 0 <= i < |vs| ==> !vs[i].VNamespace?
  }

  /** A declaration: its parent types, fields, methods and nested declarations. */
  function DeclVisits(d: Decl): (r: seq<Visited>)
    ensures |r| > 0 && r[0] == VDecl(d)
    ensures NoNamespaces(r)
    decreases d, 1
  {
    [VDecl(d)] + TypesVisits(d.parents) + VarsVisits(d.fields) + MethodsVisits(d.methods) + DeclsVisits(d.nested)
  }

  function DeclsVisits(ds: seq<Decl>): (r: seq<Visited>)
    ensures NoNamespaces(r)
    decreases ds, 0
  {
    if ds == [] then [] else DeclsVisits(ds[..|ds| - 1]) + DeclVisits(ds[|ds| - 1])
  }

  function TypesVisits(ts: seq<TypeRef>): (r: seq<Visited>)
    ensures |r| == |ts| && forall i :: 0 <= i < |ts| ==> r[i] == VType(ts[i])
  {
    if ts == [] then [] else TypesVisits(ts[..|ts| - 1]) + [VType(ts[|ts| - 1])]
  }

  /** A variable: its type, then its initializer. */
  function VarVisits(v: Variable): (r: seq<Visited>)
    ensures |r| > 1 && r[0] == VVariable(v) && r[1] == VType(v.varType)
    ensures NoNamespaces(r)
    decreases v, 1
  {
    [VVariable(v), VType(v.varType)] + ExprsVisits(v.initializer)
  }

  function VarsVisits(vs: seq<Variable>): (r: seq<Visited>)
    ensures NoNamespaces(r)
    decreases vs, 0
  {
    if vs == [] then [] else VarsVisits(vs[..|vs| - 1]) + VarVisits(vs[|vs| - 1])
  }

  /** A method: its return type, its arguments, then its statements. */
  function MethodVisits(m: Method): (r: seq<Visited>)
    ensures |r| > 1 && r[0] == VMethod(m) && r[1] == VType(m.returnType)
    ensures NoNamespaces(r)
    decreases m, 1
  {
    [VMethod(m), VType(m.returnType)] + VarsVisits(m.arguments) + StmtsVisits(m.statements)
  }

  function MethodsVisits(ms: seq<Method>): (r: seq<Visited>)
    ensures NoNamespaces(r)
    decreases ms, 0
  {
    if ms == [] then [] else MethodsVisits(ms[..|ms| - 1]) + MethodVisits(ms[|ms| - 1])
  }

  /** A statement: its nested statements, expressions, variable declarations, then type declarations. */
  function StmtVisits(s: Stmt): (r: seq<Visited>)
    ensures |r| > 0 && r[0] == VStmt(s)
    ensures NoNamespaces(r)
    decreases s, 1
  {
    [VStmt(s)] + StmtsVisits(s.statements) + ExprsVisits(s.expressions) + VarsVisits(s.varDecls) + DeclsVisits(s.typeDecl)
  }

  function StmtsVisits(ss: seq<Stmt>): (r: seq<Visited>)
    ensures NoNamespaces(r)
    decreases ss, 0
  {
    if ss == [] then [] else StmtsVisits(ss[..|ss| - 1]) + StmtVisits(ss[|ss| - 1])
  }

  /** The instantiated type of a `new` expression, when it has one. */
  function NewTypeVisits(t: Option<TypeRef>): (r: seq<Visited>)
    ensures r == if t.Some? then [VType(t.value)] else []
  {
    match t
    case None => []
    case Some(ty) => [VType(ty)]
  }

  /**
   * An expression: its operands, variable declarations, instantiated type, call arguments, then
   * the body of an anonymous class.
   */
  function ExprVisits(e: Expr): (r: seq<Visited>)
    ensures |r| > 0 && r[0] == VExpr(e)
    ensures NoNamespaces(r)
    decreases e, 1
  {
    [VExpr(e)] + ExprsVisits(e.expressions) + VarsVisits(e.varDecls) + NewTypeVisits(e.newType)
      + ExprsVisits(e.methodArgs) + DeclsVisits(e.anonDecl)
  }

  function ExprsVisits(es: seq<Expr>): (r: seq<Visited>)
    ensures NoNamespaces(r)
    decreases es, 0
  {
    if es == [] then [] else ExprsVisits(es[..|es| - 1]) + ExprVisits(es[|es| - 1])
  }

  /** A namespace, then its declarations. */
  function NamespaceVisits(n: Namespace): (r: seq<Visited>)
    ensures |r| > 0 && r[0] == VNamespace(n) && NoNamespaces(r[1..])
  {
    var tail := DeclsVisits(n.declarations);
    assert ([VNamespace(n)] + tail)[1..] == tail;
    [VNamespace(n)] + tail
  }

  function NamespacesVisits(ns: seq<Namespace>): seq<Visited> {
    if ns == [] then [] else NamespacesVisits(ns[..|ns| - 1]) + NamespaceVisits(ns[|ns| - 1])
  }

  /** A whole file's tree: its namespaces in order. */
  function RootVisits(root: ASTRoot): seq<Visited> {
    NamespacesVisits(root.namespaces)
  }

  /** What a visitor sees when it is sent over a declaration's fields and then its methods. */
  function MemberVisits(d: Decl): (r: seq<Visited>)
    ensures NoNamespaces(r)
  {
    VarsVisits(d.fields) + MethodsVisits(d.methods)
  }
}
