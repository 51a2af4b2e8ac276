/**
 * Weighted Methods per Class (WMC): the sum over a class's own methods of a cyclomatic count kept
 * in one shared counter, methodCC.  An inner visitor walks each method: it zeroes the counter on
 * every method it enters, bumps it for each branching top-level statement and for every `||`
 * expression met anywhere below, and adds one when the method is done.
 *
 * The Cc functions follow that visitor exactly, nested methods included: a method of a local or
 * anonymous class inside a body zeroes the shared counter again.  The Fixed functions are the
 * count with nested declarations kept out of it; the lemmas relate both to an independent tally.
 */
module Complexity {
  import opened Base
  import opened Ast

  /** The statement kinds the inner visitor counts: for, do, while, if, case and catch. */
  predicate IsBranch(k: StmtKind) {
    k == FOR || k == DO || k == WHILE || k == IF || k == CASE || k == CATCH
  }

  function Branch(s: Stmt): nat {
    if IsBranch(s.kind) then 1 else 0
  }

  function Or(e: Expr): nat {
    if e.kind == LOGICAL_OR then 1 else 0
  }

  // ---------------------------------------------------------------------------------------------
  // The counter as the code keeps it

  /** preVisit(Method): zero the counter, walk the top-level statements, add one. */
  function CcMethod(m: Method): (r: nat)
    ensures r >= 1
    decreases m, 2
  {
    CcBody(m.statements) + 1
  }

  /** The top-level statements of a body: the kind bump comes before the walk of the statement. */
  function CcBody(ss: seq<Stmt>): nat
    decreases ss, 0
  {
    if ss == [] then 0
    else CcStmt(ss[|ss| - 1], CcBody(ss[..|ss| - 1]) + Branch(ss[|ss| - 1]))
  }

  /** A statement under the default walk: statements, expressions, variables, type declarations. */
  function CcStmt(s: Stmt, cc: nat): nat
    decreases s, 1
  {
    CcDecls(s.typeDecl, CcVars(s.varDecls, CcExprs(s.expressions, CcStmts(s.statements, cc))))
  }

  function CcStmts(ss: seq<Stmt>, cc: nat): nat
    decreases ss, 0
  {
    if ss == [] then cc else CcStmt(ss[|ss| - 1], CcStmts(ss[..|ss| - 1], cc))
  }

  /** An expression: its own `||` bump, then operands, variables, arguments, anonymous class. */
  function CcExpr(e: Expr, cc: nat): nat
    decreases e, 1
  {
    CcDecls(e.anonDecl, CcExprs(e.methodArgs, CcVars(e.varDecls, CcExprs(e.expressions, cc + Or(e)))))
  }

  function CcExprs(es: seq<Expr>, cc: nat): nat
    decreases es, 0
  {
    if es == [] then cc else CcExpr(es[|es| - 1], CcExprs(es[..|es| - 1], cc))
  }

  function CcVar(v: Variable, cc: nat): nat
    decreases v, 1
  {
    CcExprs(v.initializer, cc)
  }

  function CcVars(vs: seq<Variable>, cc: nat): nat
    decreases vs, 0
  {
    if vs == [] then cc else CcVar(vs[|vs| - 1], CcVars(vs[..|vs| - 1], cc))
  }

  /** A nested declaration: fields, then methods (each one restarting the counter), then nested ones. */
  function CcDecl(d: Decl, cc: nat): nat
    decreases d, 1
  {
    CcDecls(d.nested, CcMethods(d.methods, CcVars(d.fields, cc)))
  }

  function CcDecls(ds: seq<Decl>, cc: nat): nat
    decreases ds, 0
  {
    if ds == [] then cc else CcDecl(ds[|ds| - 1], CcDecls(ds[..|ds| - 1], cc))
  }

  /** Each method sets the counter to its own count, so only the last one is left standing. */
  function CcMethods(ms: seq<Method>, cc: nat): (r: nat)
    ensures ms != [] ==> r == CcMethod(ms[|ms| - 1])
    decreases ms, 0
  {
    if ms == [] then cc else CcMethod(ms[|ms| - 1])
  }

  /** The class's weight: its own methods' counts added up; nested declarations are not entered. */
  function Wmc(ms: seq<Method>): nat {
    if ms == [] then 0 else Wmc(ms[..|ms| - 1]) + CcMethod(ms[|ms| - 1])
  }

  /** Every method weighs at least one, so WMC is never below the number of methods. */
  lemma {:induction false} WmcAtLeastMethods(ms: seq<Method>)
    ensures Wmc(ms) >= |ms|
  {
    if ms != [] {
      WmcAtLeastMethods(ms[..|ms| - 1]);
    }
  }

  // ---------------------------------------------------------------------------------------------
  // An independent tally: branches among the top-level statements, `||` anywhere in the body

  function TopBranches(ss: seq<Stmt>): nat {
    if ss == [] then 0 else TopBranches(ss[..|ss| - 1]) + Branch(ss[|ss| - 1])
  }

  /** The `||` expressions below a statement, not counting those inside nested declarations. */
  function OrsStmt(s: Stmt): nat
    decreases s, 1
  {
    OrsStmts(s.statements) + OrsExprs(s.expressions) + OrsVars(s.varDecls)
  }

  function OrsStmts(ss: seq<Stmt>): nat
    decreases ss, 0
  {
    if ss == [] then 0 else OrsStmts(ss[..|ss| - 1]) + OrsStmt(ss[|ss| - 1])
  }

  function OrsExpr(e: Expr): nat
    decreases e, 1
  {
    Or(e) + OrsExprs(e.expressions) + OrsVars(e.varDecls) + OrsExprs(e.methodArgs)
  }

  function OrsExprs(es: seq<Expr>): nat
    decreases es, 0
  {
    if es == [] then 0 else OrsExprs(es[..|es| - 1]) + OrsExpr(es[|es| - 1])
  }

  function OrsVar(v: Variable): nat
    decreases v, 1
  {
    OrsExprs(v.initializer)
  }

  function OrsVars(vs: seq<Variable>): nat
    decreases vs, 0
  {
    if vs == [] then 0 else OrsVars(vs[..|vs| - 1]) + OrsVar(vs[|vs| - 1])
  }

  /** No local or anonymous class anywhere below. */
  predicate DeclFreeStmt(s: Stmt)
    decreases s, 1
  {
    s.typeDecl == [] && DeclFreeStmts(s.statements) && DeclFreeExprs(s.expressions) && DeclFreeVars(s.varDecls)
  }

  predicate DeclFreeStmts(ss: seq<Stmt>)
    decreases ss, 0
  {
    ss == [] || (DeclFreeStmts(ss[..|ss| - 1]) && DeclFreeStmt(ss[|ss| - 1]))
  }

  predicate DeclFreeExpr(e: Expr)
    decreases e, 1
  {
    e.anonDecl == [] && DeclFreeExprs(e.expressions) && DeclFreeVars(e.varDecls) && DeclFreeExprs(e.methodArgs)
  }

  predicate DeclFreeExprs(es: seq<Expr>)
    decreases es, 0
  {
    es == [] || (DeclFreeExprs(es[..|es| - 1]) && DeclFreeExpr(es[|es| - 1]))
  }

  predicate DeclFreeVar(v: Variable)
    decreases v, 1
  {
    DeclFreeExprs(v.initializer)
  }

  predicate DeclFreeVars(vs: seq<Variable>)
    decreases vs, 0
  {
    vs == [] || (DeclFreeVars(vs[..|vs| - 1]) && DeclFreeVar(vs[|vs| - 1]))
  }

  // ---------------------------------------------------------------------------------------------
  // Without nested declarations the code's counter is the tally

  lemma {:induction false} CcStmtTally(s: Stmt, cc: nat)
    requires DeclFreeStmt(s)
    ensures CcStmt(s, cc) == cc + OrsStmt(s)
    decreases s, 1
  {
    CcStmtsTally(s.statements, cc);
    CcExprsTally(s.expressions, cc + OrsStmts(s.statements));
    CcVarsTally(s.varDecls, cc + OrsStmts(s.statements) + OrsExprs(s.expressions));
  }

  lemma {:induction false} CcStmtsTally(ss: seq<Stmt>, cc: nat)
    requires DeclFreeStmts(ss)
    ensures CcStmts(ss, cc) == cc + OrsStmts(ss)
    decreases ss, 0
  {
    if ss != [] {
      CcStmtsTally(ss[..|ss| - 1], cc);
      CcStmtTally(ss[|ss| - 1], CcStmts(ss[..|ss| - 1], cc));
    }
  }

  lemma {:induction false} CcExprTally(e: Expr, cc: nat)
    requires DeclFreeExpr(e)
    ensures CcExpr(e, cc) == cc + OrsExpr(e)
    decreases e, 1
  {
    CcExprsTally(e.expressions, cc + Or(e));
    CcVarsTally(e.varDecls, cc + Or(e) + OrsExprs(e.expressions));
    CcExprsTally(e.methodArgs, cc + Or(e) + OrsExprs(e.expressions) + OrsVars(e.varDecls));
  }

  lemma {:induction false} CcExprsTally(es: seq<Expr>, cc: nat)
    requires DeclFreeExprs(es)
    ensures CcExprs(es, cc) == cc + OrsExprs(es)
    decreases es, 0
  {
    if es != [] {
      CcExprsTally(es[..|es| - 1], cc);
      CcExprTally(es[|es| - 1], CcExprs(es[..|es| - 1], cc));
    }
  }

  lemma {:induction false} CcVarTally(v: Variable, cc: nat)
    requires DeclFreeVar(v)
    ensures CcVar(v, cc) == cc + OrsVar(v)
    decreases v, 1
  {
    CcExprsTally(v.initializer, cc);
  }

  lemma {:induction false} CcVarsTally(vs: seq<Variable>, cc: nat)
    requires DeclFreeVars(vs)
    ensures CcVars(vs, cc) == cc + OrsVars(vs)
    decreases vs, 0
  {
    if vs != [] {
      CcVarsTally(vs[..|vs| - 1], cc);
      CcVarTally(vs[|vs| - 1], CcVars(vs[..|vs| - 1], cc));
    }
  }

  lemma {:induction false} CcBodyTally(ss: seq<Stmt>)
    requires DeclFreeStmts(ss)
    ensures CcBody(ss) == TopBranches(ss) + OrsStmts(ss)
  {
    if ss != [] {
      CcBodyTally(ss[..|ss| - 1]);
      CcStmtTally(ss[|ss| - 1], CcBody(ss[..|ss| - 1]) + Branch(ss[|ss| - 1]));
    }
  }

  /**
   * A method whose body holds no local or anonymous class weighs one, plus one per branching
   * top-level statement, plus one per `||` in its body.
   */
  lemma CcMethodCounts(m: Method)
    requires DeclFreeStmts(m.statements)
    ensures CcMethod(m) == 1 + TopBranches(m.statements) + OrsStmts(m.statements)
  {
    CcBodyTally(m.statements);
  }

  // ---------------------------------------------------------------------------------------------
  // A nested class's method restarts the enclosing method's count

  /** A class declaration holding one method with an empty body. */
  function EmptyClass(): Decl {
    Decl("", "", ANONYMOUS, [], [], [Method("", [], TypeRef(""), [], [])], [])
  }

  /** if; if; an expression statement creating an instance of an anonymous class. */
  function TwoIfsThenAnonymous(): Method {
    var ifStmt := Stmt(IF, [], [], [], []);
    var newExpr := Expr(NEW, [], [], None, "", "", [], [EmptyClass()]);
    Method("", [], TypeRef(""), [], [ifStmt, ifStmt, Stmt(EXPRESSION, [], [newExpr], [], [])])
  }

  /** Two branches give three, but the anonymous class's method leaves the counter at one: two. */
  lemma NestedMethodResetsCount()
    ensures TopBranches(TwoIfsThenAnonymous().statements) == 2
    ensures OrsStmts(TwoIfsThenAnonymous().statements) == 0
    ensures CcMethod(TwoIfsThenAnonymous()) == 2
  {
    var ifStmt := Stmt(IF, [], [], [], []);
    var anon := EmptyClass();
    var newExpr := Expr(NEW, [], [], None, "", "", [], [anon]);
    var exprStmt := Stmt(EXPRESSION, [], [newExpr], [], []);
    var ss := TwoIfsThenAnonymous().statements;
    assert ss == [ifStmt, ifStmt, exprStmt];
    assert ss[..2] == [ifStmt, ifStmt] && [ifStmt, ifStmt][..1] == [ifStmt] && [ifStmt][..0] == [];
    assert [newExpr][..0] == [] && [anon][..0] == [];
    assert Branch(ifStmt) == 1 && Branch(exprStmt) == 0;
    assert TopBranches([ifStmt]) == 1;
    assert TopBranches([ifStmt, ifStmt]) == 2;
    assert OrsStmt(ifStmt) == 0 && OrsExpr(newExpr) == 0;
    assert OrsStmt(exprStmt) == 0;
    assert CcBody([ifStmt]) == 1;
    assert CcBody([ifStmt, ifStmt]) == 2;
    assert CcDecl(anon, 2) == CcMethod(anon.methods[0]) == 1;
    assert CcExpr(newExpr, 2) == 1;
    assert CcStmt(exprStmt, 2) == 1;
  }

  /** The corrected count of the same method is the intended three. */
  lemma FixedCountsNestedExample()
    ensures FixedMethod(TwoIfsThenAnonymous()) == 3
  {
    NestedMethodResetsCount();
    FixedMethodCounts(TwoIfsThenAnonymous());
  }

  // ---------------------------------------------------------------------------------------------
  // The count with nested declarations kept out: the inner visitor not entering declarations

  function FixedMethod(m: Method): nat {
    FixedBody(m.statements) + 1
  }

  function FixedBody(ss: seq<Stmt>): nat {
    if ss == [] then 0
    else FixedStmt(ss[|ss| - 1], FixedBody(ss[..|ss| - 1]) + Branch(ss[|ss| - 1]))
  }

  function FixedStmt(s: Stmt, cc: nat): nat
    decreases s, 1
  {
    FixedVars(s.varDecls, FixedExprs(s.expressions, FixedStmts(s.statements, cc)))
  }

  function FixedStmts(ss: seq<Stmt>, cc: nat): nat
    decreases ss, 0
  {
    if ss == [] then cc else FixedStmt(ss[|ss| - 1], FixedStmts(ss[..|ss| - 1], cc))
  }

  function FixedExpr(e: Expr, cc: nat): nat
    decreases e, 1
  {
    FixedExprs(e.methodArgs, FixedVars(e.varDecls, FixedExprs(e.expressions, cc + Or(e))))
  }

  function FixedExprs(es: seq<Expr>, cc: nat): nat
    decreases es, 0
  {
    if es == [] then cc else FixedExpr(es[|es| - 1], FixedExprs(es[..|es| - 1], cc))
  }

  function FixedVar(v: Variable, cc: nat): nat
    decreases v, 1
  {
    FixedExprs(v.initializer, cc)
  }

  function FixedVars(vs: seq<Variable>, cc: nat): nat
    decreases vs, 0
  {
    if vs == [] then cc else FixedVar(vs[|vs| - 1], FixedVars(vs[..|vs| - 1], cc))
  }

  lemma {:induction false} FixedStmtTally(s: Stmt, cc: nat)
    ensures FixedStmt(s, cc) == cc + OrsStmt(s)
    decreases s, 1
  {
    FixedStmtsTally(s.statements, cc);
    FixedExprsTally(s.expressions, cc + OrsStmts(s.statements));
    FixedVarsTally(s.varDecls, cc + OrsStmts(s.statements) + OrsExprs(s.expressions));
  }

  lemma {:induction false} FixedStmtsTally(ss: seq<Stmt>, cc: nat)
    ensures FixedStmts(ss, cc) == cc + OrsStmts(ss)
    decreases ss, 0
  {
    if ss != [] {
      FixedStmtsTally(ss[..|ss| - 1], cc);
      FixedStmtTally(ss[|ss| - 1], FixedStmts(ss[..|ss| - 1], cc));
    }
  }

  lemma {:induction false} FixedExprTally(e: Expr, cc: nat)
    ensures FixedExpr(e, cc) == cc + OrsExpr(e)
    decreases e, 1
  {
    FixedExprsTally(e.expressions, cc + Or(e));
    FixedVarsTally(e.varDecls, cc + Or(e) + OrsExprs(e.expressions));
    FixedExprsTally(e.methodArgs, cc + Or(e) + OrsExprs(e.expressions) + OrsVars(e.varDecls));
  }

  lemma {:induction false} FixedExprsTally(es: seq<Expr>, cc: nat)
    ensures FixedExprs(es, cc) == cc + OrsExprs(es)
    decreases es, 0
  {
    if es != [] {
      FixedExprsTally(es[..|es| - 1], cc);
      FixedExprTally(es[|es| - 1], FixedExprs(es[..|es| - 1], cc));
    }
  }

  lemma {:induction false} FixedVarTally(v: Variable, cc: nat)
    ensures FixedVar(v, cc) == cc + OrsVar(v)
    decreases v, 1
  {
    FixedExprsTally(v.initializer, cc);
  }

  lemma {:induction false} FixedVarsTally(vs: seq<Variable>, cc: nat)
    ensures FixedVars(vs, cc) == cc + OrsVars(vs)
    decreases vs, 0
  {
    if vs != [] {
      FixedVarsTally(vs[..|vs| - 1], cc);
      FixedVarTally(vs[|vs| - 1], FixedVars(vs[..|vs| - 1], cc));
    }
  }

  lemma {:induction false} FixedBodyTally(ss: seq<Stmt>)
    ensures FixedBody(ss) == TopBranches(ss) + OrsStmts(ss)
  {
    if ss != [] {
      FixedBodyTally(ss[..|ss| - 1]);
      FixedStmtTally(ss[|ss| - 1], FixedBody(ss[..|ss| - 1]) + Branch(ss[|ss| - 1]));
    }
  }

  /** Every method weighs one, plus its branching top-level statements, plus the `||` in its body. */
  lemma FixedMethodCounts(m: Method)
    ensures FixedMethod(m) == 1 + TopBranches(m.statements) + OrsStmts(m.statements)
  {
    FixedBodyTally(m.statements);
  }

  /** On bodies without nested declarations the code and the corrected count agree. */
  lemma FixedAgreesWhenDeclFree(m: Method)
    requires DeclFreeStmts(m.statements)
    ensures CcMethod(m) == FixedMethod(m)
  {
    CcMethodCounts(m);
    FixedMethodCounts(m);
  }

  // ---------------------------------------------------------------------------------------------
  // The visitor

  /** BoaWMCVisitor: the class's running count and the shared per-method counter. */
  class WmcVisitor {
    var count: int
    var methodCC: nat

    constructor ()
      ensures count == 0 && methodCC == 0
    {
      count := 0;
      methodCC := 0;
    }

    /** The inner visitor's preVisit(Method). */
    method VisitMethod(m: Method)
      modifies this
      ensures methodCC == CcMethod(m) && count == old(count)
      decreases m, 2
    {
      methodCC := 0;
      var ss := m.statements;
      for i := 0 to |ss|
        invariant methodCC == CcBody(ss[..i]) && count == old(count)
      {
        if IsBranch(ss[i].kind) {
          methodCC := methodCC + 1;
        }
        VisitStmt(ss[i]);
        assert ss[..i + 1][..i] == ss[..i];
      }
      assert ss[..|ss|] == ss;
      methodCC := methodCC + 1;
    }

    method VisitStmt(s: Stmt)
      modifies this
      ensures methodCC == CcStmt(s, old(methodCC)) && count == old(count)
      decreases s, 1
    {
      VisitStmts(s.statements);
      VisitExprs(s.expressions);
      VisitVars(s.varDecls);
      VisitDecls(s.typeDecl);
    }

    method VisitStmts(ss: seq<Stmt>)
      modifies this
      ensures methodCC == CcStmts(ss, old(methodCC)) && count == old(count)
      decreases ss, 0
    {
      for i := 0 to |ss|
        invariant methodCC == CcStmts(ss[..i], old(methodCC)) && count == old(count)
      {
        VisitStmt(ss[i]);
        assert ss[..i + 1][..i] == ss[..i];
      }
      assert ss[..|ss|] == ss;
    }

    /** The inner visitor's preVisit(Expression) counts `||` and lets the walk go on. */
    method VisitExpr(e: Expr)
      modifies this
      ensures methodCC == CcExpr(e, old(methodCC)) && count == old(count)
      decreases e, 1
    {
      if e.kind == LOGICAL_OR {
        methodCC := methodCC + 1;
      }
      VisitExprs(e.expressions);
      VisitVars(e.varDecls);
      VisitExprs(e.methodArgs);
      VisitDecls(e.anonDecl);
    }

    method VisitExprs(es: seq<Expr>)
      modifies this
      ensures methodCC == CcExprs(es, old(methodCC)) && count == old(count)
      decreases es, 0
    {
      for i := 0 to |es|
        invariant methodCC == CcExprs(es[..i], old(methodCC)) && count == old(count)
      {
        VisitExpr(es[i]);
        assert es[..i + 1][..i] == es[..i];
      }
      assert es[..|es|] == es;
    }

    method VisitVar(v: Variable)
      modifies this
      ensures methodCC == CcVar(v, old(methodCC)) && count == old(count)
      decreases v, 1
    {
      VisitExprs(v.initializer);
    }

    method VisitVars(vs: seq<Variable>)
      modifies this
      ensures methodCC == CcVars(vs, old(methodCC)) && count == old(count)
      decreases vs, 0
    {
      for i := 0 to |vs|
        invariant methodCC == CcVars(vs[..i], old(methodCC)) && count == old(count)
      {
        VisitVar(vs[i]);
        assert vs[..i + 1][..i] == vs[..i];
      }
      assert vs[..|vs|] == vs;
    }

    /** A declaration met inside a body, under the inner visitor's default walk. */
    method VisitDecl(d: Decl)
      modifies this
      ensures methodCC == CcDecl(d, old(methodCC)) && count == old(count)
      decreases d, 1
    {
      VisitVars(d.fields);
      VisitMethods(d.methods);
      VisitDecls(d.nested);
    }

    method VisitDecls(ds: seq<Decl>)
      modifies this
      ensures methodCC == CcDecls(ds, old(methodCC)) && count == old(count)
      decreases ds, 0
    {
      for i := 0 to |ds|
        invariant methodCC == CcDecls(ds[..i], old(methodCC)) && count == old(count)
      {
        VisitDecl(ds[i]);
        assert ds[..i + 1][..i] == ds[..i];
      }
      assert ds[..|ds|] == ds;
    }

    method VisitMethods(ms: seq<Method>)
      modifies this
      ensures methodCC == CcMethods(ms, old(methodCC)) && count == old(count)
      decreases ms, 0
    {
      for i := 0 to |ms|
        invariant methodCC == CcMethods(ms[..i], old(methodCC)) && count == old(count)
      {
        VisitMethod(ms[i]);
        assert ms[..i + 1][..i] == ms[..i];
      }
      assert ms[..|ms|] == ms;
    }

    /** The outer preVisit(Declaration): add up the class's own methods and stop there. */
    method PreVisitDecl(d: Decl)
      modifies this
      ensures count == old(count) + Wmc(d.methods)
    {
      var ms := d.methods;
      for i := 0 to |ms|
        invariant count == old(count) + Wmc(ms[..i])
      {
        VisitMethod(ms[i]);
        count := count + methodCC;
        assert ms[..i + 1][..i] == ms[..i];
      }
      assert ms[..|ms|] == ms;
    }
  }

  /** get_metric_wmc: the weighted method count of a declaration, at least its number of methods. */
  method GetMetricWMC(d: Decl) returns (r: int)
    ensures r == Wmc(d.methods) && r >= |d.methods|
  {
    var visitor := new WmcVisitor();
    visitor.PreVisitDecl(d);
    r := visitor.count;
    WmcAtLeastMethods(d.methods);
  }
}
