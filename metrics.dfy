/**
 * Boa's class metrics NOA, NOO, NPM, NOC, RFC and CBO.  Each metric is a visitor that accumulates
 * into its fields while the default traversal walks a syntax tree; here one visitor class holds
 * the fields of all of them, and its kind says which preVisit reactions it has.  Every visit is
 * proved to leave the fields as the fold of those reactions over the traversal order, and the
 * folds are proved equal to definitions that say what each metric counts.
 */
module Metrics {
  import opened Base
  import opened Ast
  import opened Visits

  /** Which metric visitor is walking. */
  datatype Kind =
    | NoaVisitor
    | NooVisitor
    | NpmVisitor
    | NocVisitor
    | RfcCallVisitor
    | CboRefVisitor(declMap: map<string, Decl>)

  /** The fields the metric visitors accumulate into; each kind changes only its own. */
  datatype VisitState = VisitState(
    count: int,
    ns: string,
    counts: map<string, int>,
    methodSet: set<string>,
    curFqn: string,
    references: map<string, set<string>>,
    referenced: map<string, set<string>>)

  /** A freshly initialized visitor. */
  const Initial := VisitState(0, "", map[], {}, "", map[], map[])

  /** The counter stored under a key, zero when there is none. */
  function Get(m: map<string, int>, k: string): int {
    if k in m then m[k] else 0
  }

  /** The set stored under a key, empty when there is none. */
  function Refs(m: map<string, set<string>>, k: string): set<string> {
    if k in m then m[k] else {}
  }

  // ---------------------------------------------------------------------------------------------
  // The reactions of each visitor

  /** The NOC key of a parent type seen in namespace ns. */
  function ParentKey(ns: string, t: TypeRef): string {
    ns + "." + t.name
  }

  function ParentKeys(ns: string, ts: seq<TypeRef>): (r: seq<string>)
    ensures |r| == |ts| && forall i :: 0 <= i < |ts| ==> r[i] == ParentKey(ns, ts[i])
  {
    if ts == [] then [] else ParentKeys(ns, ts[..|ts| - 1]) + [ParentKey(ns, ts[|ts| - 1])]
  }

  /** Bumps the counter of each key by one, in order. */
  function AddAll(m: map<string, int>, keys: seq<string>): map<string, int> {
    if keys == [] then m
    else
      var before := AddAll(m, keys[..|keys| - 1]);
      var k := keys[|keys| - 1];
      before[k := Get(before, k) + 1]
  }

  /** A call's signature as RFC records it: the name, a space, the number of arguments. */
  function Signature(name: string, argc: nat): string {
    name + " " + NatToString(argc)
  }

  predicate IsCall(e: Expr) {
    e.kind == METHODCALL || e.kind == NEW
  }

  /** The name of an instantiated type; an absent type reads as the empty name. */
  function TypeName(t: Option<TypeRef>): string {
    match t
    case None => ""
    case Some(ty) => ty.name
  }

  /** What a call is known by: the method called, or the type a `new` instantiates. */
  function CallName(e: Expr): string {
    if e.kind == METHODCALL then e.methodName else TypeName(e.newType)
  }

  function CallKey(e: Expr): string {
    Signature(CallName(e), |e.methodArgs|)
  }

  /** A last dot of s at position p, not at its very start. */
  predicate LastDotAt(s: string, p: int) {
    0 < p < |s| && s[p] == '.' && forall j :: p < j < |s| ==> s[j] != '.'
  }

  /** The position of the last c in s, or -1 when there is none. */
  function LastIndexOf(s: string, c: char): (r: int)
    ensures -1 <= r < |s|
    ensures r >= 0 ==> s[r] == c
    ensures forall j :: r < j < |s| ==> s[j] != c
  {
    if s == [] then -1 else if s[|s| - 1] == c then |s| - 1 else LastIndexOf(s[..|s| - 1], c)
  }

  /**
   * A name CBO resolves to a declaration: the name itself when it is a key of the declaration map,
   * else the part after its last dot when that dot is not at the start, else nothing.  The result
   * is the fully qualified name of the declaration found.
   */
  function GetReference(declMap: map<string, Decl>, reference: string): (r: Option<string>)
    ensures reference in declMap ==> r == Some(declMap[reference].fqn)
    ensures reference !in declMap ==>
      forall p :: LastDotAt(reference, p) ==>
        r == if reference[p + 1..] in declMap then Some(declMap[reference[p + 1..]].fqn) else None
    ensures reference !in declMap && (forall p :: !LastDotAt(reference, p)) ==> r == None
  {
    if reference in declMap then Some(declMap[reference].fqn)
    else
      var idx := LastIndexOf(reference, '.');
      assert forall p :: LastDotAt(reference, p) ==> p == idx;
      if idx > 0 then
        assert LastDotAt(reference, idx);
        var suffix := reference[idx + 1..];
        if suffix in declMap then Some(declMap[suffix].fqn) else None
      else None
  }

  /** The name a CBO visit looks up: a variable access's variable, a variable's name, a type's name. */
  function RefName(v: Visited): Option<string> {
    match v
    case VExpr(e) => if e.kind == VARACCESS then Some(e.variable) else None
    case VVariable(x) => Some(x.name)
    case VType(t) => Some(t.name)
    case _ => None
  }

  /** The declaration a visit refers to, when its name resolves. */
  function Resolve(declMap: map<string, Decl>, v: Visited): Option<string> {
    var name := RefName(v);
    if name.Some? then GetReference(declMap, name.value) else None
  }

  /** updateMaps: the current declaration refers to reference, and reference is referred to by it. */
  function Updated(st: VisitState, reference: string): (r: VisitState)
    ensures Refs(r.references, st.curFqn) == Refs(st.references, st.curFqn) + {reference}
    ensures Refs(r.referenced, reference) == Refs(st.referenced, reference) + {st.curFqn}
    ensures forall a :: a != st.curFqn ==> Refs(r.references, a) == Refs(st.references, a)
    ensures forall b :: b != reference ==> Refs(r.referenced, b) == Refs(st.referenced, b)
  {
    st.(references := st.references[st.curFqn := Refs(st.references, st.curFqn) + {reference}],
        referenced := st.referenced[reference := Refs(st.referenced, reference) + {st.curFqn}])
  }

  /** NOA: a class adds its field count. */
  function NoaStep(st: VisitState, v: Visited): VisitState {
    if v.VDecl? && v.decl.kind == CLASS then st.(count := st.count + |v.decl.fields|) else st
  }

  /** NOO: a class adds its method count. */
  function NooStep(st: VisitState, v: Visited): VisitState {
    if v.VDecl? && v.decl.kind == CLASS then st.(count := st.count + |v.decl.methods|) else st
  }

  /** NPM: a public method adds one. */
  function NpmStep(st: VisitState, v: Visited): VisitState {
    if v.VMethod? && HasModifierPublic(v.meth) then st.(count := st.count + 1) else st
  }

  /** NOC: a namespace sets the prefix; a declaration bumps one key per parent type. */
  function NocStep(st: VisitState, v: Visited): VisitState {
    if v.VNamespace? then st.(ns := v.namespace.name)
    else if v.VDecl? then st.(counts := AddAll(st.counts, ParentKeys(st.ns, v.decl.parents)))
    else st
  }

  /** RFC's call visitor: a call or an instantiation adds its signature. */
  function RfcStep(st: VisitState, v: Visited): VisitState {
    if v.VExpr? && IsCall(v.expr) then st.(methodSet := st.methodSet + {CallKey(v.expr)}) else st
  }

  /** CBO's reference visitor: a name that resolves links the current declaration with the one found. */
  function CboStep(declMap: map<string, Decl>, st: VisitState, v: Visited): VisitState {
    var reference := Resolve(declMap, v);
    if reference.Some? then Updated(st, reference.value) else st
  }

  /** What one preVisit of the given kind does to the fields. */
  function Step(k: Kind, st: VisitState, v: Visited): VisitState {
    match k
    case NoaVisitor => NoaStep(st, v)
    case NooVisitor => NooStep(st, v)
    case NpmVisitor => NpmStep(st, v)
    case NocVisitor => NocStep(st, v)
    case RfcCallVisitor => RfcStep(st, v)
    case CboRefVisitor(declMap) => CboStep(declMap, st, v)
  }

  /** The fields after the visitor has been handed the nodes vs in order. */
  function Run(k: Kind, st: VisitState, vs: seq<Visited>): VisitState {
    if vs == [] then st else Step(k, Run(k, st, vs[..|vs| - 1]), vs[|vs| - 1])
  }

  lemma RunSnoc(k: Kind, st: VisitState, vs: seq<Visited>, v: Visited)
    ensures Run(k, st, vs + [v]) == Step(k, Run(k, st, vs), v)
  {
    assert (vs + [v])[..|vs|] == vs;
  }

  /** Being handed two runs of nodes is being handed the first, then the second. */
  lemma {:induction false} RunAppend(k: Kind, st: VisitState, a: seq<Visited>, b: seq<Visited>)
    ensures Run(k, st, a + b) == Run(k, Run(k, st, a), b)
    decreases |b|
  {
    if b == [] {
      assert a + b == a;
    } else {
      var n := |b| - 1;
      assert (a + b)[..|a + b| - 1] == a + b[..n];
      assert (a + b)[|a + b| - 1] == b[n];
      RunAppend(k, st, a, b[..n]);
    }
  }

  // ---------------------------------------------------------------------------------------------
  // What the metrics count

  /** The declarations among the visited nodes, in order. */
  function DeclsIn(vs: seq<Visited>): (r: seq<Decl>)
    ensures |r| <= |vs|
  {
    if vs == [] then []
    else DeclsIn(vs[..|vs| - 1]) + DeclOf(vs[|vs| - 1])
  }

  /** The declaration a visited node is, if it is one. */
  function DeclOf(v: Visited): (r: seq<Decl>)
    ensures |r| <= 1
  {
    if v.VDecl? then [v.decl] else []
  }

  /** The methods among the visited nodes, in order. */
  function MethodsIn(vs: seq<Visited>): (r: seq<Method>)
    ensures |r| <= |vs|
  {
    if vs == [] then []
    else MethodsIn(vs[..|vs| - 1]) + MethodOf(vs[|vs| - 1])
  }

  /** The method a visited node is, if it is one. */
  function MethodOf(v: Visited): (r: seq<Method>)
    ensures |r| <= 1
  {
    if v.VMethod? then [v.meth] else []
  }

  /** What a declaration adds to NOA or to NOO. */
  datatype Weight = Fields | Methods

  function Weigh(weight: Weight, d: Decl): nat {
    match weight
    case Fields => ClassFields(d)
    case Methods => ClassMethods(d)
  }

  /** The sum of a weight over declarations. */
  function Total(ds: seq<Decl>, weight: Weight): nat {
    if ds == [] then 0 else Total(ds[..|ds| - 1], weight) + Weigh(weight, ds[|ds| - 1])
  }

  /** NOA's weight: the field count of a class, nothing for any other kind of declaration. */
  function ClassFields(d: Decl): nat {
    if d.kind == CLASS then |d.fields| else 0
  }

  /** NOO's weight: the method count of a class. */
  function ClassMethods(d: Decl): nat {
    if d.kind == CLASS then |d.methods| else 0
  }

  /** The number of public methods in a list. */
  function PublicCount(ms: seq<Method>): (r: nat)
    ensures r <= |ms|
  {
    if ms == [] then 0 else PublicCount(ms[..|ms| - 1]) + (if HasModifierPublic(ms[|ms| - 1]) then 1 else 0)
  }

  /** The NOC keys of the parents of each declaration, in order, all seen in namespace ns. */
  function KeysIn(ns: string, ds: seq<Decl>): seq<string> {
    if ds == [] then [] else KeysIn(ns, ds[..|ds| - 1]) + ParentKeys(ns, ds[|ds| - 1].parents)
  }

  /** The NOC keys of a file: each namespace's name paired with the parents of every declaration under it. */
  function NamespacesKeys(nss: seq<Namespace>): seq<string> {
    if nss == [] then []
    else
      var n := nss[|nss| - 1];
      NamespacesKeys(nss[..|nss| - 1]) + KeysIn(n.name, DeclsIn(DeclsVisits(n.declarations)))
  }

  function RootKeys(root: ASTRoot): seq<string> {
    NamespacesKeys(root.namespaces)
  }

  /** The signatures of the calls and instantiations among the visited nodes. */
  function CallKeys(vs: seq<Visited>): set<string> {
    if vs == [] then {}
    else
      var v := vs[|vs| - 1];
      CallKeys(vs[..|vs| - 1]) + (if v.VExpr? && IsCall(v.expr) then {CallKey(v.expr)} else {})
  }

  /** The distinct (name, argument count) pairs of those calls. */
  function CallPairs(vs: seq<Visited>): set<(string, nat)> {
    if vs == [] then {}
    else
      var v := vs[|vs| - 1];
      CallPairs(vs[..|vs| - 1]) + (if v.VExpr? && IsCall(v.expr) then {(CallName(v.expr), |v.expr.methodArgs|)} else {})
  }

  /** The declarations the visited nodes refer to, by fully qualified name. */
  function Resolved(declMap: map<string, Decl>, vs: seq<Visited>): set<string> {
    if vs == [] then {}
    else
      var r := Resolve(declMap, vs[|vs| - 1]);
      Resolved(declMap, vs[..|vs| - 1]) + (if r.Some? then {r.value} else {})
  }

  // ---------------------------------------------------------------------------------------------
  // Each fold is the count it is meant to be

  lemma {:induction false} DeclsInAppend(a: seq<Visited>, b: seq<Visited>)
    ensures DeclsIn(a + b) == DeclsIn(a) + DeclsIn(b)
    decreases |b|
  {
    if b == [] {
      assert a + b == a;
    } else {
      var n := |b| - 1;
      assert (a + b)[..|a + b| - 1] == a + b[..n];
      DeclsInAppend(a, b[..n]);
    }
  }

  lemma {:induction false} MethodsInAppend(a: seq<Visited>, b: seq<Visited>)
    ensures MethodsIn(a + b) == MethodsIn(a) + MethodsIn(b)
    decreases |b|
  {
    if b == [] {
      assert a + b == a;
    } else {
      var n := |b| - 1;
      assert (a + b)[..|a + b| - 1] == a + b[..n];
      MethodsInAppend(a, b[..n]);
    }
  }

  lemma {:induction false} TotalAppend(a: seq<Decl>, b: seq<Decl>, weight: Weight)
    ensures Total(a + b, weight) == Total(a, weight) + Total(b, weight)
    decreases |b|
  {
    if b == [] {
      assert a + b == a;
    } else {
      var n := |b| - 1;
      assert (a + b)[..|a + b| - 1] == a + b[..n];
      TotalAppend(a, b[..n], weight);
    }
  }

  lemma {:induction false} PublicCountAppend(a: seq<Method>, b: seq<Method>)
    ensures PublicCount(a + b) == PublicCount(a) + PublicCount(b)
    decreases |b|
  {
    if b == [] {
      assert a + b == a;
    } else {
      var n := |b| - 1;
      assert (a + b)[..|a + b| - 1] == a + b[..n];
      PublicCountAppend(a, b[..n]);
    }
  }

  lemma TotalSnoc(ds: seq<Decl>, d: Decl, weight: Weight)
    ensures Total(ds + [d], weight) == Total(ds, weight) + Weigh(weight, d)
  {
    assert (ds + [d])[..|ds|] == ds;
  }

  lemma PublicCountSnoc(ms: seq<Method>, m: Method)
    ensures PublicCount(ms + [m]) == PublicCount(ms) + (if HasModifierPublic(m) then 1 else 0)
  {
    assert (ms + [m])[..|ms|] == ms;
  }

  lemma {:induction false} KeysInAppend(ns: string, a: seq<Decl>, b: seq<Decl>)
    ensures KeysIn(ns, a + b) == KeysIn(ns, a) + KeysIn(ns, b)
    decreases |b|
  {
    if b == [] {
      assert a + b == a;
    } else {
      var n := |b| - 1;
      var ab, front := a + b, b[..n];
      assert ab[..|ab| - 1] == a + front;
      KeysInAppend(ns, a, front);
      var x, y, z := KeysIn(ns, a), KeysIn(ns, front), ParentKeys(ns, b[n].parents);
      assert KeysIn(ns, ab) == x + y + z;
      assert KeysIn(ns, b) == y + z;
      assert x + y + z == x + (y + z);
    }
  }

  /** One node's effect on NOA and NOO, as the weight of the declarations it holds. */
  lemma ClassStepsAdd(r: VisitState, v: Visited)
    ensures NoaStep(r, v) == r.(count := r.count + Total(DeclOf(v), Fields))
    ensures NooStep(r, v) == r.(count := r.count + Total(DeclOf(v), Methods))
  {
    assert [v][..0] == [];
  }

  /** The NOA visitor adds the field counts of the classes it is handed. */
  lemma {:induction false} NoaRun(st: VisitState, vs: seq<Visited>)
    ensures Run(NoaVisitor, st, vs) == st.(count := st.count + Total(DeclsIn(vs), Fields))
    decreases |vs|
  {
    if vs != [] {
      var n := |vs| - 1;
      var pre, v := vs[..n], vs[n];
      NoaRun(st, pre);
      ClassStepsAdd(Run(NoaVisitor, st, pre), v);
      TotalAppend(DeclsIn(pre), DeclOf(v), Fields);
    }
  }

  /** The NOO visitor adds the method counts of the classes it is handed. */
  lemma {:induction false} NooRun(st: VisitState, vs: seq<Visited>)
    ensures Run(NooVisitor, st, vs) == st.(count := st.count + Total(DeclsIn(vs), Methods))
    decreases |vs|
  {
    if vs != [] {
      var n := |vs| - 1;
      var pre, v := vs[..n], vs[n];
      NooRun(st, pre);
      ClassStepsAdd(Run(NooVisitor, st, pre), v);
      TotalAppend(DeclsIn(pre), DeclOf(v), Methods);
    }
  }

  /** One node's effect on NPM, as the public methods it holds. */
  lemma NpmStepAdds(r: VisitState, v: Visited)
    ensures NpmStep(r, v) == r.(count := r.count + PublicCount(MethodOf(v)))
  {
    if v.VMethod? {
      PublicCountSnoc([], v.meth);
      assert [] + [v.meth] == [v.meth];
    }
  }

  /** The NPM visitor adds one for each public method it is handed. */
  lemma {:induction false} NpmRun(st: VisitState, vs: seq<Visited>)
    ensures Run(NpmVisitor, st, vs) == st.(count := st.count + PublicCount(MethodsIn(vs)))
    decreases |vs|
  {
    if vs != [] {
      var n := |vs| - 1;
      var pre, v := vs[..n], vs[n];
      NpmRun(st, pre);
      NpmStepAdds(Run(NpmVisitor, st, pre), v);
      PublicCountAppend(MethodsIn(pre), MethodOf(v));
    }
  }

  /** The RFC call visitor collects the signatures of the calls it is handed. */
  lemma {:induction false} RfcRun(st: VisitState, vs: seq<Visited>)
    ensures Run(RfcCallVisitor, st, vs) == st.(methodSet := st.methodSet + CallKeys(vs))
    decreases |vs|
  {
    if vs != [] {
      RfcRun(st, vs[..|vs| - 1]);
    }
  }

  lemma AddAllSnoc(m: map<string, int>, keys: seq<string>, k: string)
    ensures AddAll(m, keys + [k]) == AddAll(m, keys)[k := Get(AddAll(m, keys), k) + 1]
  {
    assert (keys + [k])[..|keys|] == keys;
  }

  lemma {:induction false} AddAllAppend(m: map<string, int>, a: seq<string>, b: seq<string>)
    ensures AddAll(m, a + b) == AddAll(AddAll(m, a), b)
    decreases |b|
  {
    if b == [] {
      assert a + b == a;
    } else {
      var n := |b| - 1;
      assert (a + b)[..|a + b| - 1] == a + b[..n];
      assert (a + b)[|a + b| - 1] == b[n];
      AddAllAppend(m, a, b[..n]);
    }
  }

  /** Bumping counters: each key's counter grows by the number of times the key occurs. */
  lemma {:induction false} AddAllCounts(m: map<string, int>, keys: seq<string>, k: string)
    ensures Get(AddAll(m, keys), k) == Get(m, k) + multiset(keys)[k]
    ensures k in AddAll(m, keys) <==> k in m || k in keys
    decreases |keys|
  {
    if keys != [] {
      var n := |keys| - 1;
      AddAllCounts(m, keys[..n], k);
      assert keys == keys[..n] + [keys[n]];
      assert multiset(keys) == multiset(keys[..n]) + multiset{keys[n]};
    }
  }

  /** A node other than a namespace bumps the NOC counters of the parent keys of the declaration it is. */
  lemma NocStepAdds(r: VisitState, v: Visited)
    requires !v.VNamespace?
    ensures NocStep(r, v) == r.(counts := AddAll(r.counts, KeysIn(r.ns, DeclOf(v))))
  {
    if v.VDecl? {
      var keys := ParentKeys(r.ns, v.decl.parents);
      assert [v.decl][..0] == [];
      assert KeysIn(r.ns, [v.decl]) == [] + keys == keys;
    }
  }

  /** Below a namespace, the NOC visitor counts the parent keys of the declarations it is handed. */
  lemma {:induction false} NocRun(st: VisitState, vs: seq<Visited>)
    requires NoNamespaces(vs)
    ensures Run(NocVisitor, st, vs) == st.(counts := AddAll(st.counts, KeysIn(st.ns, DeclsIn(vs))))
    decreases |vs|
  {
    if vs != [] {
      var n := |vs| - 1;
      var pre, v := vs[..n], vs[n];
      assert NoNamespaces(pre);
      NocRun(st, pre);
      NocStepAdds(Run(NocVisitor, st, pre), v);
      AddAllAppend(st.counts, KeysIn(st.ns, DeclsIn(pre)), KeysIn(st.ns, DeclOf(v)));
      KeysInAppend(st.ns, DeclsIn(pre), DeclOf(v));
    }
  }

  /** A namespace sets the prefix, and its declarations are counted under it. */
  lemma NocNamespace(st: VisitState, n: Namespace)
    ensures Run(NocVisitor, st, NamespaceVisits(n)).counts
         == AddAll(st.counts, KeysIn(n.name, DeclsIn(DeclsVisits(n.declarations))))
  {
    var tail := DeclsVisits(n.declarations);
    RunAppend(NocVisitor, st, [VNamespace(n)], tail);
    RunSnoc(NocVisitor, st, [], VNamespace(n));
    assert [] + [VNamespace(n)] == [VNamespace(n)];
    NocRun(st.(ns := n.name), tail);
  }

  /** Over a whole file, the NOC visitor counts exactly the file's parent keys. */
  lemma {:induction false} NocNamespaces(st: VisitState, nss: seq<Namespace>)
    ensures Run(NocVisitor, st, NamespacesVisits(nss)).counts == AddAll(st.counts, NamespacesKeys(nss))
    decreases |nss|
  {
    if nss != [] {
      var n := |nss| - 1;
      NocNamespaces(st, nss[..n]);
      var mid := Run(NocVisitor, st, NamespacesVisits(nss[..n]));
      RunAppend(NocVisitor, st, NamespacesVisits(nss[..n]), NamespaceVisits(nss[n]));
      NocNamespace(mid, nss[n]);
      AddAllAppend(st.counts, NamespacesKeys(nss[..n]), KeysIn(nss[n].name, DeclsIn(DeclsVisits(nss[n].declarations))));
    }
  }

  lemma {:induction false} CboRun(declMap: map<string, Decl>, st: VisitState, vs: seq<Visited>)
    ensures Run(CboRefVisitor(declMap), st, vs).curFqn == st.curFqn
    ensures forall a :: Refs(Run(CboRefVisitor(declMap), st, vs).references, a)
                     == Refs(st.references, a) + (if a == st.curFqn then Resolved(declMap, vs) else {})
    ensures forall b :: Refs(Run(CboRefVisitor(declMap), st, vs).referenced, b)
                     == Refs(st.referenced, b) + (if b in Resolved(declMap, vs) then {st.curFqn} else {})
    decreases |vs|
  {
    if vs != [] {
      CboRun(declMap, st, vs[..|vs| - 1]);
    }
  }

  // ---------------------------------------------------------------------------------------------
  // Properties of the metrics

  /** What a declaration's traversal weighs: its own weight plus that of everything below it. */
  lemma DeclWeight(d: Decl, weight: Weight)
    ensures Total(DeclsIn(DeclVisits(d)), weight)
         == Weigh(weight, d) + Total(DeclsIn(MemberVisits(d)), weight) + Total(DeclsIn(DeclsVisits(d.nested)), weight)
  {
    var t := TypesVisits(d.parents);
    var fs := VarsVisits(d.fields);
    var ms := MethodsVisits(d.methods);
    var ns := DeclsVisits(d.nested);
    assert DeclsIn([VDecl(d)]) == [d] by {
      assert [VDecl(d)][..0] == [];
    }
    assert DeclsIn(t) == [] by {
      TypesHoldNoDecls(d.parents);
    }
    DeclsInAppend([VDecl(d)], t);
    DeclsInAppend([VDecl(d)] + t, fs);
    DeclsInAppend([VDecl(d)] + t + fs, ms);
    DeclsInAppend([VDecl(d)] + t + fs + ms, ns);
    DeclsInAppend(fs, ms);
    TotalAppend([d] + DeclsIn(fs), DeclsIn(ms), weight);
    TotalAppend([d] + DeclsIn(fs) + DeclsIn(ms), DeclsIn(ns), weight);
    TotalAppend([d], DeclsIn(fs), weight);
    TotalAppend(DeclsIn(fs), DeclsIn(ms), weight);
    assert Total([d], weight) == Weigh(weight, d) by {
      assert [d][..0] == [];
    }
    assert [d] + [] == [d];
  }

  lemma {:induction false} TypesHoldNoDecls(ts: seq<TypeRef>)
    ensures DeclsIn(TypesVisits(ts)) == [] && MethodsIn(TypesVisits(ts)) == []
    decreases |ts|
  {
    if ts != [] {
      TypesHoldNoDecls(ts[..|ts| - 1]);
    }
  }

  /** A list's traversal weighs what the traversal of all but its last declaration and that of the last weigh together. */
  lemma DeclsVisitsSplit(ds: seq<Decl>, weight: Weight)
    requires ds != []
    ensures Total(DeclsIn(DeclsVisits(ds)), weight)
         == Total(DeclsIn(DeclsVisits(ds[..|ds| - 1])), weight) + Total(DeclsIn(DeclVisits(ds[|ds| - 1])), weight)
  {
    var front, last := DeclsVisits(ds[..|ds| - 1]), DeclVisits(ds[|ds| - 1]);
    DeclsInAppend(front, last);
    TotalAppend(DeclsIn(front), DeclsIn(last), weight);
  }

  /** Each declaration in a list weighs no more than the list's traversal. */
  lemma {:induction false} DeclsWeight(ds: seq<Decl>, k: nat, weight: Weight)
    requires k < |ds|
    ensures Total(DeclsIn(DeclsVisits(ds)), weight) >= Total(DeclsIn(DeclVisits(ds[k])), weight)
    decreases |ds|
  {
    var n := |ds| - 1;
    DeclsVisitsSplit(ds, weight);
    if k == n {
    } else {
      DeclsWeight(ds[..n], k, weight);
      assert ds[..n][k] == ds[k];
    }
  }

  /**
   * NOA and NOO count nested declarations too: a class's own fields and methods count, and so
   * does everything a nested declaration counts.
   */
  lemma NestedIncluded(d: Decl, k: nat)
    requires k < |d.nested|
    ensures Total(DeclsIn(DeclVisits(d)), Fields) >= ClassFields(d) + Total(DeclsIn(DeclVisits(d.nested[k])), Fields)
    ensures Total(DeclsIn(DeclVisits(d)), Methods) >= ClassMethods(d) + Total(DeclsIn(DeclVisits(d.nested[k])), Methods)
  {
    DeclWeight(d, Fields);
    DeclWeight(d, Methods);
    DeclsWeight(d.nested, k, Fields);
    DeclsWeight(d.nested, k, Methods);
  }

  /** A declaration that is not a class adds nothing of its own to NOA or NOO. */
  lemma OnlyClassesWeigh(d: Decl)
    requires d.kind != CLASS
    ensures Total(DeclsIn(DeclVisits(d)), Fields)
         == Total(DeclsIn(MemberVisits(d)), Fields) + Total(DeclsIn(DeclsVisits(d.nested)), Fields)
  {
    DeclWeight(d, Fields);
  }

  /** A method's own traversal reaches the method itself. */
  lemma MethodReachesItself(m: Method)
    ensures PublicCount(MethodsIn(MethodVisits(m))) >= if HasModifierPublic(m) then 1 else 0
  {
    var rest := [VType(m.returnType)] + VarsVisits(m.arguments) + StmtsVisits(m.statements);
    assert MethodVisits(m) == [VMethod(m)] + rest;
    MethodsInAppend([VMethod(m)], rest);
    assert MethodsIn([VMethod(m)]) == [m] by {
      assert [VMethod(m)][..0] == [];
    }
    PublicCountAppend([m], MethodsIn(rest));
    assert PublicCount([m]) == if HasModifierPublic(m) then 1 else 0 by {
      assert [m][..0] == [];
    }
  }

  /** The traversal of a list of methods is that of all but the last, then that of the last. */
  lemma MethodsVisitsSplit(ms: seq<Method>)
    requires ms != []
    ensures PublicCount(MethodsIn(MethodsVisits(ms)))
         == PublicCount(MethodsIn(MethodsVisits(ms[..|ms| - 1]))) + PublicCount(MethodsIn(MethodVisits(ms[|ms| - 1])))
  {
    var front, last := MethodsVisits(ms[..|ms| - 1]), MethodVisits(ms[|ms| - 1]);
    MethodsInAppend(front, last);
    PublicCountAppend(MethodsIn(front), MethodsIn(last));
  }

  /** Every method listed directly in a list is handed to the visitor. */
  lemma {:induction false} MethodsReached(ms: seq<Method>)
    ensures PublicCount(MethodsIn(MethodsVisits(ms))) >= PublicCount(ms)
    decreases |ms|
  {
    if ms != [] {
      MethodsReached(ms[..|ms| - 1]);
      MethodsVisitsSplit(ms);
      MethodReachesItself(ms[|ms| - 1]);
    }
  }

  /** NPM counts at least the public methods a declaration declares itself. */
  lemma NpmCountsOwnPublicMethods(d: Decl)
    ensures PublicCount(MethodsIn(DeclVisits(d))) >= PublicCount(d.methods)
  {
    var head := [VDecl(d)] + TypesVisits(d.parents) + VarsVisits(d.fields);
    var ms := MethodsVisits(d.methods);
    var ns := DeclsVisits(d.nested);
    assert DeclVisits(d) == head + ms + ns;
    MethodsInAppend(head + ms, ns);
    MethodsInAppend(head, ms);
    PublicCountAppend(MethodsIn(head) + MethodsIn(ms), MethodsIn(ns));
    PublicCountAppend(MethodsIn(head), MethodsIn(ms));
    MethodsReached(d.methods);
  }

  /** NOC counts each key as often as it occurs among the file's parent keys, and only those keys. */
  lemma NocCountsKeys(root: ASTRoot, k: string)
    ensures Get(Run(NocVisitor, Initial, RootVisits(root)).counts, k) == multiset(RootKeys(root))[k]
    ensures k in Run(NocVisitor, Initial, RootVisits(root)).counts <==> k in RootKeys(root)
  {
    NocNamespaces(Initial, root.namespaces);
    AddAllCounts(map[], RootKeys(root), k);
  }

  /** In a signature the last space is the one after the name. */
  lemma LastSpace(name: string, argc: nat)
    ensures LastIndexOf(Signature(name, argc), ' ') == |name|
  {
    var d := NatToString(argc);
    var s := Signature(name, argc);
    assert s[|name|] == ' ';
    assert forall j :: |name| < j < |s| ==> s[j] == d[j - |name| - 1];
  }

  /** A signature determines the name and the argument count. */
  lemma SignatureInjective(n1: string, c1: nat, n2: string, c2: nat)
    requires Signature(n1, c1) == Signature(n2, c2)
    ensures n1 == n2 && c1 == c2
  {
    var s := Signature(n1, c1);
    LastSpace(n1, c1);
    LastSpace(n2, c2);
    assert n1 == s[..|n1|] == n2;
    assert NatToString(c1) == s[|n1| + 1..] == NatToString(c2);
    ParseNatToString(c1);
    ParseNatToString(c2);
  }

  /** RFC's set has one signature for each distinct (name, argument count) pair. */
  lemma {:induction false} CallKeysCount(vs: seq<Visited>)
    ensures |CallKeys(vs)| == |CallPairs(vs)|
    ensures forall name: string, c: nat :: (name, c) in CallPairs(vs) <==> Signature(name, c) in CallKeys(vs)
    decreases |vs|
  {
    if vs != [] {
      var n := |vs| - 1;
      var v := vs[n];
      CallKeysCount(vs[..n]);
      if v.VExpr? && IsCall(v.expr) {
        var q := (CallName(v.expr), |v.expr.methodArgs|);
        forall name: string, c: nat
          ensures (name, c) in CallPairs(vs) <==> Signature(name, c) in CallKeys(vs)
        {
          if Signature(name, c) == Signature(q.0, q.1) {
            SignatureInjective(name, c, q.0, q.1);
          }
        }
        if q in CallPairs(vs[..n]) {
          assert CallPairs(vs) == CallPairs(vs[..n]);
          assert CallKeys(vs) == CallKeys(vs[..n]);
        } else {
          assert CallKey(v.expr) !in CallKeys(vs[..n]);
        }
      }
    }
  }

  /** The references and referenced tables are each other's inverse. */
  ghost predicate Inverse(st: VisitState) {
    forall a, b :: b in Refs(st.references, a) <==> a in Refs(st.referenced, b)
  }

  lemma UpdatedKeepsInverse(st: VisitState, reference: string)
    requires Inverse(st)
    ensures Inverse(Updated(st, reference))
  {
  }

  lemma {:induction false} CboRunKeepsInverse(declMap: map<string, Decl>, st: VisitState, vs: seq<Visited>)
    requires Inverse(st)
    ensures Inverse(Run(CboRefVisitor(declMap), st, vs))
    decreases |vs|
  {
    if vs != [] {
      var n := |vs| - 1;
      CboRunKeepsInverse(declMap, st, vs[..n]);
      var r := Resolve(declMap, vs[n]);
      if r.Some? {
        UpdatedKeepsInverse(Run(CboRefVisitor(declMap), st, vs[..n]), r.value);
      }
    }
  }

  // ---------------------------------------------------------------------------------------------
  // CBO over a map of declarations

  /** The members of the declaration under key k refer to these declarations. */
  function MemberRefs(decls: map<string, Decl>, k: string): set<string>
    requires k in decls
  {
    Resolved(decls, MemberVisits(decls[k]))
  }

  /** The tables after process has visited the members of the declarations under keys, in order. */
  function CboTables(decls: map<string, Decl>, keys: seq<string>): VisitState
    requires forall i :: 0 <= i < |keys| ==> keys[i] in decls
  {
    if keys == [] then Initial
    else
      var before := CboTables(decls, keys[..|keys| - 1]);
      var d := decls[keys[|keys| - 1]];
      Run(CboRefVisitor(decls), before.(curFqn := d.fqn), MemberVisits(d))
  }

  /** The declarations that a declaration named a refers to, over the declarations under the keys ks. */
  ghost function CoupledTo(decls: map<string, Decl>, ks: set<string>, a: string): set<string> {
    set k, b | k in ks && k in decls && decls[k].fqn == a && b in MemberRefs(decls, k) :: b
  }

  /** The declarations that refer to the declaration named b, over the declarations under the keys ks. */
  ghost function CoupledFrom(decls: map<string, Decl>, ks: set<string>, b: string): set<string> {
    set k | k in ks && k in decls && b in MemberRefs(decls, k) :: decls[k].fqn
  }

  function KeySet(keys: seq<string>): set<string> {
    set i | 0 <= i < |keys| :: keys[i]
  }

  lemma CoupledStep(decls: map<string, Decl>, ks: set<string>, k: string, a: string)
    requires k in decls
    ensures CoupledTo(decls, ks + {k}, a)
         == CoupledTo(decls, ks, a) + (if decls[k].fqn == a then MemberRefs(decls, k) else {})
    ensures CoupledFrom(decls, ks + {k}, a)
         == CoupledFrom(decls, ks, a) + (if a in MemberRefs(decls, k) then {decls[k].fqn} else {})
  {
  }

  lemma KeySetSnoc(keys: seq<string>)
    requires keys != []
    ensures KeySet(keys) == KeySet(keys[..|keys| - 1]) + {keys[|keys| - 1]}
  {
    var n := |keys| - 1;
    forall x | x in KeySet(keys)
      ensures x in KeySet(keys[..n]) + {keys[n]}
    {
      var i :| 0 <= i < |keys| && keys[i] == x;
      if i < n {
        assert keys[..n][i] == x;
      }
    }
    forall x | x in KeySet(keys[..n])
      ensures x in KeySet(keys)
    {
      var i :| 0 <= i < n && keys[..n][i] == x;
      assert keys[i] == x;
    }
  }

  /**
   * After process has visited the declarations under keys, references holds for each declaration
   * name what it refers to, and referenced holds for each name what refers to it; the tables stay
   * each other's inverse.
   */
  lemma {:induction false} CboTablesHold(decls: map<string, Decl>, keys: seq<string>)
    requires forall i :: 0 <= i < |keys| ==> keys[i] in decls
    ensures forall a :: Refs(CboTables(decls, keys).references, a) == CoupledTo(decls, KeySet(keys), a)
    ensures forall b :: Refs(CboTables(decls, keys).referenced, b) == CoupledFrom(decls, KeySet(keys), b)
    ensures Inverse(CboTables(decls, keys))
    decreases |keys|
  {
    if keys == [] {
      assert KeySet(keys) == {};
    } else {
      var n := |keys| - 1;
      var k := keys[n];
      var before := CboTables(decls, keys[..n]);
      CboTablesHold(decls, keys[..n]);
      var st := before.(curFqn := decls[k].fqn);
      CboRun(decls, st, MemberVisits(decls[k]));
      CboRunKeepsInverse(decls, st, MemberVisits(decls[k]));
      KeySetSnoc(keys);
      forall a
        ensures Refs(CboTables(decls, keys).references, a) == CoupledTo(decls, KeySet(keys), a)
        ensures Refs(CboTables(decls, keys).referenced, a) == CoupledFrom(decls, KeySet(keys), a)
      {
        CoupledStep(decls, KeySet(keys[..n]), k, a);
      }
    }
  }

  /** The final map: each declaration's name with the number of declarations it is coupled with. */
  function Tally(decls: map<string, Decl>, tables: VisitState, keys: seq<string>): map<string, int>
    requires forall i :: 0 <= i < |keys| ==> keys[i] in decls
  {
    if keys == [] then map[]
    else
      var fqn := decls[keys[|keys| - 1]].fqn;
      Tally(decls, tables, keys[..|keys| - 1])[fqn := |Refs(tables.references, fqn) + Refs(tables.referenced, fqn)|]
  }

  /** The fully qualified names of the declarations under the keys. */
  function Fqns(decls: map<string, Decl>, keys: seq<string>): set<string>
    requires forall i :: 0 <= i < |keys| ==> keys[i] in decls
  {
    if keys == [] then {} else Fqns(decls, keys[..|keys| - 1]) + {decls[keys[|keys| - 1]].fqn}
  }

  lemma {:induction false} FqnsMembers(decls: map<string, Decl>, keys: seq<string>, f: string)
    requires forall i :: 0 <= i < |keys| ==> keys[i] in decls
    ensures f in Fqns(decls, keys) <==> exists i :: 0 <= i < |keys| && decls[keys[i]].fqn == f
    decreases |keys|
  {
    if keys != [] {
      var n := |keys| - 1;
      FqnsMembers(decls, keys[..n], f);
      if exists i :: 0 <= i < n && decls[keys[..n][i]].fqn == f {
        var i :| 0 <= i < n && decls[keys[..n][i]].fqn == f;
        assert keys[..n][i] == keys[i];
      }
      if exists i :: 0 <= i < |keys| && decls[keys[i]].fqn == f {
        var i :| 0 <= i < |keys| && decls[keys[i]].fqn == f;
        if i < n {
          assert keys[..n][i] == keys[i];
        }
      }
    }
  }

  /** The final map has an entry for each declaration, the size of the union of its two tables. */
  lemma {:induction false} TallyHolds(decls: map<string, Decl>, tables: VisitState, keys: seq<string>)
    requires forall i :: 0 <= i < |keys| ==> keys[i] in decls
    ensures Tally(decls, tables, keys).Keys == Fqns(decls, keys)
    ensures forall f :: f in Tally(decls, tables, keys) ==>
      Tally(decls, tables, keys)[f] == |Refs(tables.references, f) + Refs(tables.referenced, f)|
    decreases |keys|
  {
    if keys != [] {
      TallyHolds(decls, tables, keys[..|keys| - 1]);
    }
  }

  // ---------------------------------------------------------------------------------------------
  // The visitor

  class MetricVisitor {
    const kind: Kind
    var count: int
    var ns: string
    var counts: map<string, int>
    var methodSet: set<string>
    var curFqn: string
    var references: map<string, set<string>>
    var referenced: map<string, set<string>>

    function State(): VisitState
      reads this
    {
      VisitState(count, ns, counts, methodSet, curFqn, references, referenced)
    }

    /** A visitor of the given kind, initialized. */
    constructor (kind: Kind)
      ensures this.kind == kind && State() == Initial
    {
      this.kind := kind;
      count := 0;
      ns := "";
      counts := map[];
      methodSet := {};
      curFqn := "";
      references := map[];
      referenced := map[];
    }

    /** updateMaps. */
    method UpdateMaps(reference: string)
      modifies this
      ensures State() == Updated(old(State()), reference)
    {
      var mine := if curFqn in references then references[curFqn] else {};
      references := references[curFqn := mine + {reference}];
      var theirs := if reference in referenced then referenced[reference] else {};
      referenced := referenced[reference := theirs + {curFqn}];
    }

    /** The preVisit overrides of the visitor's kind; every one of them answers true. */
    method PreVisit(v: Visited)
      modifies this
      ensures State() == Step(kind, old(State()), v)
    {
      match kind {
        case NoaVisitor =>
          if v.VDecl? && v.decl.kind == CLASS {
            count := count + |v.decl.fields|;
          }
        case NooVisitor =>
          if v.VDecl? && v.decl.kind == CLASS {
            count := count + |v.decl.methods|;
          }
        case NpmVisitor =>
          if v.VMethod? && HasModifierPublic(v.meth) {
            count := count + 1;
          }
        case NocVisitor =>
          NocPreVisit(v);
        case RfcCallVisitor =>
          RfcPreVisit(v);
        case CboRefVisitor(declMap) =>
          CboPreVisit(v);
      }
    }

    /** The NOC visitor: a namespace sets the prefix; a declaration bumps one key per parent type. */
    method NocPreVisit(v: Visited)
      requires kind == NocVisitor
      modifies this
      ensures State() == Step(kind, old(State()), v)
    {
      if v.VNamespace? {
        ns := v.namespace.name;
      } else if v.VDecl? {
        var parents := v.decl.parents;
        var m := counts;
        for i := 0 to |parents|
          invariant unchanged(this)
          invariant m == AddAll(counts, ParentKeys(ns, parents[..i]))
        {
          var key := ns + "." + parents[i].name;
          var val := if key in m then m[key] else 0;
          m := m[key := val + 1];
          assert parents[..i + 1][..i] == parents[..i];
          assert ParentKeys(ns, parents[..i + 1]) == ParentKeys(ns, parents[..i]) + [key];
          AddAllSnoc(counts, ParentKeys(ns, parents[..i]), key);
        }
        assert parents[..|parents|] == parents;
        counts := m;
      }
    }

    /** The RFC call visitor: a call or an instantiation adds its signature. */
    method RfcPreVisit(v: Visited)
      requires kind == RfcCallVisitor
      modifies this
      ensures State() == Step(kind, old(State()), v)
    {
      if v.VExpr? {
        var e := v.expr;
        if e.kind == METHODCALL {
          methodSet := methodSet + {e.methodName + " " + NatToString(|e.methodArgs|)};
        }
        if e.kind == NEW {
          methodSet := methodSet + {TypeName(e.newType) + " " + NatToString(|e.methodArgs|)};
        }
      }
    }

    /** The CBO visitor: a name that resolves links the current declaration with the one found. */
    method CboPreVisit(v: Visited)
      requires kind.CboRefVisitor?
      modifies this
      ensures State() == Step(kind, old(State()), v)
    {
      var name := RefName(v);
      if name.Some? {
        var reference := GetReference(kind.declMap, name.value);
        if reference.Some? {
          UpdateMaps(reference.value);
        }
      }
    }

    method VisitDecl(d: Decl)
      modifies this
      ensures State() == Run(kind, old(State()), DeclVisits(d))
      decreases d, 1
    {
      ghost var s0 := State();
      PreVisit(VDecl(d));
      RunSnoc(kind, s0, [], VDecl(d));
      assert [] + [VDecl(d)] == [VDecl(d)];
      VisitTypes(d.parents);
      RunAppend(kind, s0, [VDecl(d)], TypesVisits(d.parents));
      VisitVars(d.fields);
      RunAppend(kind, s0, [VDecl(d)] + TypesVisits(d.parents), VarsVisits(d.fields));
      VisitMethods(d.methods);
      RunAppend(kind, s0, [VDecl(d)] + TypesVisits(d.parents) + VarsVisits(d.fields), MethodsVisits(d.methods));
      VisitDecls(d.nested);
      RunAppend(kind, s0, [VDecl(d)] + TypesVisits(d.parents) + VarsVisits(d.fields) + MethodsVisits(d.methods), DeclsVisits(d.nested));
    }

    method VisitDecls(ds: seq<Decl>)
      modifies this
      ensures State() == Run(kind, old(State()), DeclsVisits(ds))
      decreases ds, 0
    {
      ghost var s0 := State();
      for i := 0 to |ds|
        invariant State() == Run(kind, s0, DeclsVisits(ds[..i]))
      {
        VisitDecl(ds[i]);
        RunAppend(kind, s0, DeclsVisits(ds[..i]), DeclVisits(ds[i]));
        assert ds[..i + 1][..i] == ds[..i];
      }
      assert ds[..|ds|] == ds;
    }

    method VisitTypes(ts: seq<TypeRef>)
      modifies this
      ensures State() == Run(kind, old(State()), TypesVisits(ts))
    {
      ghost var s0 := State();
      for i := 0 to |ts|
        invariant State() == Run(kind, s0, TypesVisits(ts[..i]))
      {
        PreVisit(VType(ts[i]));
        RunSnoc(kind, s0, TypesVisits(ts[..i]), VType(ts[i]));
        assert ts[..i + 1][..i] == ts[..i];
      }
      assert ts[..|ts|] == ts;
    }

    method VisitVar(x: Variable)
      modifies this
      ensures State() == Run(kind, old(State()), VarVisits(x))
      decreases x, 1
    {
      ghost var s0 := State();
      PreVisit(VVariable(x));
      PreVisit(VType(x.varType));
      RunSnoc(kind, s0, [], VVariable(x));
      RunSnoc(kind, s0, [VVariable(x)], VType(x.varType));
      assert [] + [VVariable(x)] == [VVariable(x)];
      assert [VVariable(x)] + [VType(x.varType)] == [VVariable(x), VType(x.varType)];
      VisitExprs(x.initializer);
      RunAppend(kind, s0, [VVariable(x), VType(x.varType)], ExprsVisits(x.initializer));
    }

    method VisitVars(xs: seq<Variable>)
      modifies this
      ensures State() == Run(kind, old(State()), VarsVisits(xs))
      decreases xs, 0
    {
      ghost var s0 := State();
      for i := 0 to |xs|
        invariant State() == Run(kind, s0, VarsVisits(xs[..i]))
      {
        VisitVar(xs[i]);
        RunAppend(kind, s0, VarsVisits(xs[..i]), VarVisits(xs[i]));
        assert xs[..i + 1][..i] == xs[..i];
      }
      assert xs[..|xs|] == xs;
    }

    method VisitMethod(m: Method)
      modifies this
      ensures State() == Run(kind, old(State()), MethodVisits(m))
      decreases m, 1
    {
      ghost var s0 := State();
      PreVisit(VMethod(m));
      PreVisit(VType(m.returnType));
      RunSnoc(kind, s0, [], VMethod(m));
      RunSnoc(kind, s0, [VMethod(m)], VType(m.returnType));
      assert [] + [VMethod(m)] == [VMethod(m)];
      assert [VMethod(m)] + [VType(m.returnType)] == [VMethod(m), VType(m.returnType)];
      VisitVars(m.arguments);
      RunAppend(kind, s0, [VMethod(m), VType(m.returnType)], VarsVisits(m.arguments));
      VisitStmts(m.statements);
      RunAppend(kind, s0, [VMethod(m), VType(m.returnType)] + VarsVisits(m.arguments), StmtsVisits(m.statements));
    }

    method VisitMethods(ms: seq<Method>)
      modifies this
      ensures State() == Run(kind, old(State()), MethodsVisits(ms))
      decreases ms, 0
    {
      ghost var s0 := State();
      for i := 0 to |ms|
        invariant State() == Run(kind, s0, MethodsVisits(ms[..i]))
      {
        VisitMethod(ms[i]);
        RunAppend(kind, s0, MethodsVisits(ms[..i]), MethodVisits(ms[i]));
        assert ms[..i + 1][..i] == ms[..i];
      }
      assert ms[..|ms|] == ms;
    }

    method VisitStmt(s: Stmt)
      modifies this
      ensures State() == Run(kind, old(State()), StmtVisits(s))
      decreases s, 1
    {
      ghost var s0 := State();
      PreVisit(VStmt(s));
      RunSnoc(kind, s0, [], VStmt(s));
      assert [] + [VStmt(s)] == [VStmt(s)];
      VisitStmts(s.statements);
      RunAppend(kind, s0, [VStmt(s)], StmtsVisits(s.statements));
      VisitExprs(s.expressions);
      RunAppend(kind, s0, [VStmt(s)] + StmtsVisits(s.statements), ExprsVisits(s.expressions));
      VisitVars(s.varDecls);
      RunAppend(kind, s0, [VStmt(s)] + StmtsVisits(s.statements) + ExprsVisits(s.expressions), VarsVisits(s.varDecls));
      VisitDecls(s.typeDecl);
      RunAppend(kind, s0, [VStmt(s)] + StmtsVisits(s.statements) + ExprsVisits(s.expressions) + VarsVisits(s.varDecls), DeclsVisits(s.typeDecl));
    }

    method VisitStmts(ss: seq<Stmt>)
      modifies this
      ensures State() == Run(kind, old(State()), StmtsVisits(ss))
      decreases ss, 0
    {
      ghost var s0 := State();
      for i := 0 to |ss|
        invariant State() == Run(kind, s0, StmtsVisits(ss[..i]))
      {
        VisitStmt(ss[i]);
        RunAppend(kind, s0, StmtsVisits(ss[..i]), StmtVisits(ss[i]));
        assert ss[..i + 1][..i] == ss[..i];
      }
      assert ss[..|ss|] == ss;
    }

    method VisitExpr(e: Expr)
      modifies this
      ensures State() == Run(kind, old(State()), ExprVisits(e))
      decreases e, 1
    {
      ghost var s0 := State();
      PreVisit(VExpr(e));
      RunSnoc(kind, s0, [], VExpr(e));
      assert [] + [VExpr(e)] == [VExpr(e)];
      ghost var a := [VExpr(e)];
      VisitExprs(e.expressions);
      RunAppend(kind, s0, a, ExprsVisits(e.expressions));
      a := a + ExprsVisits(e.expressions);
      VisitVars(e.varDecls);
      RunAppend(kind, s0, a, VarsVisits(e.varDecls));
      a := a + VarsVisits(e.varDecls);
      if e.newType.Some? {
        ghost var s1 := State();
        PreVisit(VType(e.newType.value));
        RunSnoc(kind, s1, [], VType(e.newType.value));
        assert [] + [VType(e.newType.value)] == [VType(e.newType.value)];
      }
      RunAppend(kind, s0, a, NewTypeVisits(e.newType));
      a := a + NewTypeVisits(e.newType);
      VisitExprs(e.methodArgs);
      RunAppend(kind, s0, a, ExprsVisits(e.methodArgs));
      a := a + ExprsVisits(e.methodArgs);
      VisitDecls(e.anonDecl);
      RunAppend(kind, s0, a, DeclsVisits(e.anonDecl));
    }

    method VisitExprs(es: seq<Expr>)
      modifies this
      ensures State() == Run(kind, old(State()), ExprsVisits(es))
      decreases es, 0
    {
      ghost var s0 := State();
      for i := 0 to |es|
        invariant State() == Run(kind, s0, ExprsVisits(es[..i]))
      {
        VisitExpr(es[i]);
        RunAppend(kind, s0, ExprsVisits(es[..i]), ExprVisits(es[i]));
        assert es[..i + 1][..i] == es[..i];
      }
      assert es[..|es|] == es;
    }

    method VisitNamespace(n: Namespace)
      modifies this
      ensures State() == Run(kind, old(State()), NamespaceVisits(n))
    {
      ghost var s0 := State();
      PreVisit(VNamespace(n));
      RunSnoc(kind, s0, [], VNamespace(n));
      assert [] + [VNamespace(n)] == [VNamespace(n)];
      VisitDecls(n.declarations);
      RunAppend(kind, s0, [VNamespace(n)], DeclsVisits(n.declarations));
    }

    method VisitRoot(root: ASTRoot)
      modifies this
      ensures State() == Run(kind, old(State()), RootVisits(root))
    {
      ghost var s0 := State();
      var nss := root.namespaces;
      for i := 0 to |nss|
        invariant State() == Run(kind, s0, NamespacesVisits(nss[..i]))
      {
        VisitNamespace(nss[i]);
        RunAppend(kind, s0, NamespacesVisits(nss[..i]), NamespaceVisits(nss[i]));
        assert nss[..i + 1][..i] == nss[..i];
      }
      assert nss[..|nss|] == nss;
    }
  }

  // ---------------------------------------------------------------------------------------------
  // The entry functions

  /** get_metric_noa: the field counts of every class the traversal of d reaches, summed. */
  method GetMetricNOA(d: Decl) returns (r: int)
    ensures r == Total(DeclsIn(DeclVisits(d)), Fields)
  {
    var v := new MetricVisitor(NoaVisitor);
    v.VisitDecl(d);
    r := v.count;
    NoaRun(Initial, DeclVisits(d));
  }

  /** get_metric_noo: the method counts of every class the traversal of d reaches, summed. */
  method GetMetricNOO(d: Decl) returns (r: int)
    ensures r == Total(DeclsIn(DeclVisits(d)), Methods)
  {
    var v := new MetricVisitor(NooVisitor);
    v.VisitDecl(d);
    r := v.count;
    NooRun(Initial, DeclVisits(d));
  }

  /** get_metric_npm: the number of public methods the traversal of d reaches. */
  method GetMetricNPM(d: Decl) returns (r: int)
    ensures r == PublicCount(MethodsIn(DeclVisits(d)))
  {
    var v := new MetricVisitor(NpmVisitor);
    v.VisitDecl(d);
    r := v.count;
    NpmRun(Initial, DeclVisits(d));
  }

  /**
   * get_metric_noc: for every key "namespace.parent", how many times a declaration of the file
   * names that parent; keys that never occur are absent.
   */
  method GetMetricNOC(root: ASTRoot) returns (r: map<string, int>)
    ensures forall k :: Get(r, k) == multiset(RootKeys(root))[k]
    ensures forall k :: k in r <==> k in RootKeys(root)
  {
    var v := new MetricVisitor(NocVisitor);
    v.VisitRoot(root);
    r := v.counts;
    forall k
      ensures Get(r, k) == multiset(RootKeys(root))[k]
      ensures k in r <==> k in RootKeys(root)
    {
      NocCountsKeys(root, k);
    }
  }

  /**
   * get_metric_rfc: the visitor's preVisit of d stops the traversal and sends the call visitor over
   * d's fields and methods; the result is the number of distinct (name, argument count) pairs of
   * the calls and instantiations found there, whatever was counted before.
   */
  method GetMetricRFC(d: Decl) returns (r: int)
    ensures r == |CallPairs(MemberVisits(d))|
  {
    var v := new MetricVisitor(RfcCallVisitor);
    v.VisitVars(d.fields);
    ghost var mid := v.State();
    v.VisitMethods(d.methods);
    RunAppend(RfcCallVisitor, Initial, VarsVisits(d.fields), MethodsVisits(d.methods));
    r := |v.methodSet|;
    RfcRun(Initial, MemberVisits(d));
    CallKeysCount(MemberVisits(d));
  }

  /** The loop of process that visits the members of each declaration under the given keys. */
  method ProcessMembers(v: MetricVisitor, decls: map<string, Decl>, order: seq<string>)
    requires forall i :: 0 <= i < |order| ==> order[i] in decls
    requires v.kind == CboRefVisitor(decls) && v.State() == Initial
    modifies v
    ensures v.State() == CboTables(decls, order)
  {
    for i := 0 to |order|
      invariant v.State() == CboTables(decls, order[..i])
    {
      var node := decls[order[i]];
      v.curFqn := node.fqn;
      v.VisitVars(node.fields);
      v.VisitMethods(node.methods);
      RunAppend(CboRefVisitor(decls), CboTables(decls, order[..i]).(curFqn := node.fqn), VarsVisits(node.fields), MethodsVisits(node.methods));
      assert order[..i + 1][..i] == order[..i];
    }
    assert order[..|order|] == order;
  }

  /** The loop of process that stores, for each declaration, the size of the union of its two tables. */
  method TallyUp(v: MetricVisitor, decls: map<string, Decl>, order: seq<string>) returns (r: map<string, int>)
    requires forall i :: 0 <= i < |order| ==> order[i] in decls
    ensures r == Tally(decls, v.State(), order)
  {
    r := map[];
    for i := 0 to |order|
      invariant r == Tally(decls, v.State(), order[..i])
    {
      var fqn := decls[order[i]].fqn;
      var union := {};
      if fqn in v.references {
        union := union + v.references[fqn];
      }
      if fqn in v.referenced {
        union := union + v.referenced[fqn];
      }
      r := r[fqn := |union|];
      assert order[..i + 1][..i] == order[..i];
    }
    assert order[..|order|] == order;
  }

  /** When the keys visited are all the map's keys, the final map is the coupling count of each declaration. */
  lemma CboResult(decls: map<string, Decl>, order: seq<string>)
    requires forall i :: 0 <= i < |order| ==> order[i] in decls
    requires forall k :: k in decls ==> k in order
    ensures Tally(decls, CboTables(decls, order), order).Keys == set k | k in decls :: decls[k].fqn
    ensures forall k :: k in decls ==>
      Tally(decls, CboTables(decls, order), order)[decls[k].fqn]
        == |CoupledTo(decls, decls.Keys, decls[k].fqn) + CoupledFrom(decls, decls.Keys, decls[k].fqn)|
  {
    var tables := CboTables(decls, order);
    CboTablesHold(decls, order);
    TallyHolds(decls, tables, order);
    assert KeySet(order) == decls.Keys by {
      forall k | k in decls
        ensures k in KeySet(order)
      {
        var i :| 0 <= i < |order| && order[i] == k;
      }
    }
    forall f
      ensures f in Fqns(decls, order) <==> f in set k | k in decls :: decls[k].fqn
    {
      FqnsMembers(decls, order, f);
      if f in set k | k in decls :: decls[k].fqn {
        var k :| k in decls && decls[k].fqn == f;
        var i :| 0 <= i < |order| && order[i] == k;
      }
    }
  }

  /**
   * get_metric_cbo: process visits the members of every declaration in the map, the keys taken in
   * the given order, then maps each declaration's fully qualified name to the number of
   * declarations it refers to or is referred to by.
   */
  method GetMetricCBO(decls: map<string, Decl>, order: seq<string>) returns (r: map<string, int>)
    requires forall i :: 0 <= i < |order| ==> order[i] in decls
    requires forall k :: k in decls ==> k in order
    ensures r.Keys == set k | k in decls :: decls[k].fqn
    ensures forall k :: k in decls ==>
      r[decls[k].fqn] == |CoupledTo(decls, decls.Keys, decls[k].fqn) + CoupledFrom(decls, decls.Keys, decls[k].fqn)|
  {
    var v := new MetricVisitor(CboRefVisitor(decls));
    ProcessMembers(v, decls, order);
    r := TallyUp(v, decls, order);
    CboResult(decls, order);
  }
}
