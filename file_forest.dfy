/**
 * The file forest of the later code generation: lineage trees over the file versions of the shared
 * store, the registration of accepted refactorings, and the pass that hands every file version to
 * the AST-change comparison.
 */
module FileForests {
  import opened Ast
  import opened Locations
  import opened Repository
  import opened FileNodes
  import opened Revisions
  import opened Trees
  import opened Database
  import opened Lineage

  /** How the forest links a tree seeded from a file version, given the claim table. */
  type FileLink = (FileNode, map<FileLocation, FileNode>) -> LinkOutcome<FileLocation, FileNode>

  /** The key under which the store registers a file version. */
  function FileKey(n: FileNode): FileLocation {
    n.loc
  }

  /** The file nodes of revisions n-1 down to i: newest revision first, each revision's nodes in order. */
  function NewestFirst(m: map<int, RevNode>, n: nat, i: nat): seq<FileNode>
    requires forall k :: 0 <= k < n ==> k in m
    decreases n - i
  {
    if i >= n then [] else NewestFirst(m, n, i + 1) + m[i].fileNodes
  }

  /** The candidates are exactly the file nodes of the revisions i .. n-1. */
  lemma {:induction false} NewestFirstMembers(m: map<int, RevNode>, n: nat, i: nat, c: FileNode)
    requires forall k :: 0 <= k < n ==> k in m
    ensures c in NewestFirst(m, n, i) <==> exists k :: i <= k < n && c in m[k].fileNodes
    decreases n - i
  {
    if i < n {
      NewestFirstMembers(m, n, i + 1, c);
      if c in m[i].fileNodes {
        assert c in NewestFirst(m, n, i);
      }
    }
  }

  /** What building does to the store, in terms of the sweep: claims, counter and kept trees. */
  function Built(claimed: map<FileLocation, FileNode>, nextId: nat, m: map<int, RevNode>, link: FileLink)
    : Sweep<FileLocation, FileNode>
    requires Contiguous(m)
  {
    Run(Sweep(claimed, [], nextId), NewestFirst(m, |m|, 0), FileKey, link, EverySeed)
  }

  /**
   * The tree table after the kept trees were put into it by id: the earlier entries plus one tree
   * per kept id, seeded from that kept tree's seed.
   */
  ghost predicate TableHolds(table: map<int, FileTree>, before: map<int, FileTree>, kept: seq<Kept<FileNode>>) {
    var st := SeedTable(kept);
    && table.Keys == before.Keys + st.Keys
    && (forall id :: id in st ==> table[id].seed == st[id] && table[id].id == id)
    && (forall id :: id in before && id !in st ==> table[id] == before[id])
  }

  /** Putting a new tree under its id keeps the table in step with one more kept tree. */
  lemma TableHoldsPut(table: map<int, FileTree>, before: map<int, FileTree>, kept: seq<Kept<FileNode>>, tree: FileTree)
    requires TableHolds(table, before, kept)
    ensures TableHolds(table[tree.id := tree], before, kept + [Kept(tree.seed, tree.id)])
  {
    SeedTableSnoc(kept, Kept(tree.seed, tree.id));
  }

  /** Building from an empty table with a fresh counter keeps every kept tree under its own, distinct id. */
  lemma BuiltTreesAllStored(claimed: map<FileLocation, FileNode>, m: map<int, RevNode>, link: FileLink, table: map<int, FileTree>)
    requires Contiguous(m)
    requires TableHolds(table, map[], Built(claimed, 0, m, link).kept)
    ensures |table| == |Built(claimed, 0, m, link).kept|
    ensures forall j :: 0 <= j < |Built(claimed, 0, m, link).kept| ==>
      var k := Built(claimed, 0, m, link).kept[j];
      k.id in table && table[k.id].seed == k.seed && k.id < Built(claimed, 0, m, link).nextId
  {
    var sp := Built(claimed, 0, m, link);
    EverySeedIdsIncrease(Sweep(claimed, [], 0), NewestFirst(m, |m|, 0), FileKey, link);
    SeedTableOfIncreasing(sp.kept, sp.nextId);
    assert table.Keys == SeedTable(sp.kept).Keys;
  }

  /** A refactoring batch handed to the connector, with the revision it belongs to. */
  datatype Connection = Connection(bonds: seq<IndexedBond>, rev: RevNode)

  /** The bonds for the refactorings whose type is accepted, in encounter order. */
  function Accepted(refs: seq<CodeRefactoring>, types: set<string>): (r: seq<RefactoringBond>)
    ensures |r| <= |refs|
  {
    if refs == [] then []
    else
      var last := refs[|refs| - 1];
      Accepted(refs[..|refs| - 1], types) + (if last.refType in types then [RefactoringBond(last)] else [])
  }

  /** A bond is accepted exactly when its refactoring is one of the given ones and of an accepted type. */
  lemma {:induction false} AcceptedMembers(refs: seq<CodeRefactoring>, types: set<string>, b: RefactoringBond)
    ensures b in Accepted(refs, types) <==> b.ref in refs && b.ref.refType in types
    decreases |refs|
  {
    if refs != [] {
      var n := |refs| - 1;
      AcceptedMembers(refs[..n], types, b);
      assert refs == refs[..n] + [refs[n]];
    }
  }

  /** Filtering distributes over concatenation, so the encounter order is kept. */
  lemma {:induction false} AcceptedAppend(a: seq<CodeRefactoring>, b: seq<CodeRefactoring>, types: set<string>)
    ensures Accepted(a + b, types) == Accepted(a, types) + Accepted(b, types)
    decreases |b|
  {
    if b == [] {
      assert a + b == a;
    } else {
      var n := |b| - 1;
      assert (a + b)[..|a + b| - 1] == a + b[..n];
      assert (a + b)[|a + b| - 1] == b[n];
      AcceptedAppend(a, b[..n], types);
    }
  }

  /** Refactorings of other types add nothing. */
  lemma {:induction false} AcceptedNoneOfOtherTypes(refs: seq<CodeRefactoring>, types: set<string>)
    requires forall i :: 0 <= i < |refs| ==> refs[i].refType !in types
    ensures Accepted(refs, types) == []
  {
    if refs != [] {
      AcceptedNoneOfOtherTypes(refs[..|refs| - 1], types);
    }
  }

  lemma AppendAssoc<T>(a: seq<T>, b: seq<T>, c: seq<T>)
    ensures a + (b + c) == (a + b) + c
  {
  }

  /** Bonds numbered from start on, as they are registered one after another. */
  function Numbered(bonds: seq<RefactoringBond>, start: nat): (r: seq<IndexedBond>)
    ensures |r| == |bonds|
    ensures forall i :: 0 <= i < |r| ==> r[i].bond == bonds[i] && r[i].index == start + i
  {
    seq(|bonds|, i requires 0 <= i < |bonds| => IndexedBond(bonds[i], start + i))
  }

  lemma NumberedSnoc(bonds: seq<RefactoringBond>, b: RefactoringBond, start: nat)
    ensures Numbered(bonds + [b], start) == Numbered(bonds, start) + [IndexedBond(b, start + |bonds|)]
  {
  }

  /** The bond list holds the bond at the position the batch entry records. */
  predicate BondAt(refDB: seq<RefactoringBond>, e: IndexedBond) {
    e.index < |refDB| && refDB[e.index] == e.bond
  }

  /** Bonds numbered from the length of the list they are appended to sit at their numbers, whatever is appended later. */
  lemma NumberedAt(base: seq<RefactoringBond>, bonds: seq<RefactoringBond>, rest: seq<RefactoringBond>)
    ensures forall e :: e in Numbered(bonds, |base|) ==> BondAt(base + bonds + rest, e)
  {
    var r := Numbered(bonds, |base|);
    forall e | e in r
      ensures BondAt(base + bonds + rest, e)
    {
      var i :| 0 <= i < |r| && r[i] == e;
      assert (base + bonds + rest)[|base| + i] == bonds[i];
    }
  }

  /** All bonds accepted for the revisions with the given ids, in order. */
  function AcceptedFrom(
    ids: seq<string>, revIdMap: map<string, RevNode>, refactorings: Revision -> seq<CodeRefactoring>, types: set<string>)
    : seq<RefactoringBond>
    requires forall k :: 0 <= k < |ids| ==> ids[k] in revIdMap
  {
    if ids == [] then []
    else
      AcceptedFrom(ids[..|ids| - 1], revIdMap, refactorings, types)
        + Accepted(refactorings(revIdMap[ids[|ids| - 1]].rev), types)
  }

  /**
   * The batches handed to the connector for the revisions with the given ids: each revision's
   * accepted bonds, numbered on from start plus the bonds accepted for the revisions before it.
   */
  function Batches(
    ids: seq<string>, revIdMap: map<string, RevNode>, refactorings: Revision -> seq<CodeRefactoring>, types: set<string>,
    start: nat): (r: seq<Connection>)
    requires forall k :: 0 <= k < |ids| ==> ids[k] in revIdMap
    ensures |r| == |ids|
  {
    if ids == [] then []
    else
      var init := ids[..|ids| - 1];
      var rev := revIdMap[ids[|ids| - 1]];
      Batches(init, revIdMap, refactorings, types, start)
        + [Connection(Numbered(Accepted(refactorings(rev.rev), types), start + |AcceptedFrom(init, revIdMap, refactorings, types)|), rev)]
  }

  lemma FromSnoc(
    ids: seq<string>, k: nat, revIdMap: map<string, RevNode>, refactorings: Revision -> seq<CodeRefactoring>,
    types: set<string>, start: nat)
    requires forall i :: 0 <= i < |ids| ==> ids[i] in revIdMap
    requires k < |ids|
    ensures AcceptedFrom(ids[..k + 1], revIdMap, refactorings, types)
      == AcceptedFrom(ids[..k], revIdMap, refactorings, types) + Accepted(refactorings(revIdMap[ids[k]].rev), types)
    ensures Batches(ids[..k + 1], revIdMap, refactorings, types, start)
      == Batches(ids[..k], revIdMap, refactorings, types, start)
        + [Connection(
             Numbered(Accepted(refactorings(revIdMap[ids[k]].rev), types), start + |AcceptedFrom(ids[..k], revIdMap, refactorings, types)|),
             revIdMap[ids[k]])]
  {
    assert ids[..k + 1][..k] == ids[..k];
  }

  /**
   * Each batch entry's number is its position in the bond list: after the bonds of all revisions
   * were appended to a list of length start, the list holds every batch entry's bond at its number.
   */
  lemma {:induction false} BatchesAt(
    ids: seq<string>, revIdMap: map<string, RevNode>, refactorings: Revision -> seq<CodeRefactoring>, types: set<string>,
    base: seq<RefactoringBond>, rest: seq<RefactoringBond>)
    requires forall k :: 0 <= k < |ids| ==> ids[k] in revIdMap
    ensures forall a, e :: 0 <= a < |ids| && e in Batches(ids, revIdMap, refactorings, types, |base|)[a].bonds ==>
      BondAt(base + AcceptedFrom(ids, revIdMap, refactorings, types) + rest, e)
    decreases |ids|
  {
    if ids != [] {
      var n := |ids| - 1;
      var init := ids[..n];
      var mine := Accepted(refactorings(revIdMap[ids[n]].rev), types);
      var earlier := AcceptedFrom(init, revIdMap, refactorings, types);
      assert AcceptedFrom(ids, revIdMap, refactorings, types) == earlier + mine;
      BatchesAt(init, revIdMap, refactorings, types, base, mine + rest);
      assert base + earlier + (mine + rest) == base + (earlier + mine) + rest;
      NumberedAt(base + earlier, mine, rest);
      assert base + earlier + mine + rest == base + (earlier + mine) + rest;
      forall a, e | 0 <= a < |ids| && e in Batches(ids, revIdMap, refactorings, types, |base|)[a].bonds
        ensures BondAt(base + AcceptedFrom(ids, revIdMap, refactorings, types) + rest, e)
      {
        if a < n {
          assert Batches(ids, revIdMap, refactorings, types, |base|)[a] == Batches(init, revIdMap, refactorings, types, |base|)[a];
        }
      }
    }
  }

  /** One call the AST-change pass makes for a file version. */
  datatype ASTCall =
    | UpdateFileAll(node: FileNode, decls: seq<Decl>, kind: ChangeKind, first: bool)
    | Compare(left: FileNode, right: FileNode, first: bool)

  /** The declarations of a declaration, itself first, then those nested in it, depth first. */
  function PreOrder(d: Decl): seq<Decl>
    decreases d, 1
  {
    [d] + PreOrderAll(d.nested)
  }

  function PreOrderAll(ds: seq<Decl>): seq<Decl>
    decreases ds, 0
  {
    if ds == [] then [] else PreOrderAll(ds[..|ds| - 1]) + PreOrder(ds[|ds| - 1])
  }

  /** The declarations of a file: each namespace's top-level declarations in pre-order. */
  function FileDecls(namespaces: seq<Namespace>): seq<Decl> {
    if namespaces == [] then []
    else FileDecls(namespaces[..|namespaces| - 1]) + PreOrderAll(namespaces[|namespaces| - 1].declarations)
  }

  lemma {:induction false} PreOrderAllMembers(ds: seq<Decl>, x: Decl)
    ensures x in PreOrderAll(ds) <==> exists k :: 0 <= k < |ds| && x in PreOrder(ds[k])
    decreases |ds|
  {
    if ds != [] {
      var n := |ds| - 1;
      PreOrderAllMembers(ds[..n], x);
      if x in PreOrder(ds[n]) {
        assert x in PreOrderAll(ds);
      }
      if exists k :: 0 <= k < n && x in PreOrder(ds[k]) {
        var k :| 0 <= k < n && x in PreOrder(ds[k]);
        assert ds[..n][k] == ds[k];
      }
    }
  }

  /**
   * The collection starts at the declaration and holds exactly it and what its nested declarations
   * collect: nothing inside methods or fields is reached.
   */
  lemma PreOrderMembers(d: Decl, x: Decl)
    ensures PreOrder(d)[0] == d
    ensures x in PreOrder(d) <==> x == d || exists k :: 0 <= k < |d.nested| && x in PreOrder(d.nested[k])
  {
    PreOrderAllMembers(d.nested, x);
  }

  /** The calls for one file version, in the order the pass makes them. */
  function NodeCalls(n: FileNode): seq<ASTCall>
    reads n
  {
    (if !n.HasFirstParent() && n.ASTChangeCount() == 0 then [UpdateFileAll(n, FileDecls(n.cf.ast.namespaces), ADDED, true)] else [])
      + (if n.HasFirstParent() then [Compare(n.firstParent, n, true)] else [])
      + (if n.HasSecondParent() then [Compare(n.secondParent, n, false)] else [])
  }

  /** The calls of the pass over the versions at the given locations, in that order. */
  function Plan(order: seq<FileLocation>, fileDB: map<FileLocation, FileNode>): seq<ASTCall>
    requires forall k :: 0 <= k < |order| ==> order[k] in fileDB
    reads fileDB.Values
  {
    if order == [] then []
    else Plan(order[..|order| - 1], fileDB) + NodeCalls(fileDB[order[|order| - 1]])
  }

  lemma PlanSnoc(order: seq<FileLocation>, fileDB: map<FileLocation, FileNode>, k: nat)
    requires forall i :: 0 <= i < |order| ==> order[i] in fileDB
    requires k < |order|
    ensures Plan(order[..k + 1], fileDB) == Plan(order[..k], fileDB) + NodeCalls(fileDB[order[k]])
  {
    assert order[..k + 1][..k] == order[..k];
  }

  /**
   * A version without a first parent and without recorded changes gets all its declarations as
   * ADDED; a version with a first parent is compared against it with flag true; a version with a
   * second parent is compared against that one with flag false.
   */
  lemma NodeCallsCases(n: FileNode)
    ensures UpdateFileAll(n, FileDecls(n.cf.ast.namespaces), ADDED, true) in NodeCalls(n)
      <==> n.firstParent == null && |n.astChanges| == 0
    ensures (exists c :: c in NodeCalls(n) && c.Compare? && c.first) <==> n.firstParent != null
    ensures (exists c :: c in NodeCalls(n) && c.Compare? && !c.first) <==> n.secondParent != null
    ensures forall c :: c in NodeCalls(n) && c.Compare? ==>
      c.right == n && c.left == (if c.first then n.firstParent else n.secondParent)
    ensures |NodeCalls(n)| <= 2
  {
    if n.firstParent != null {
      assert NodeCalls(n)[0] == Compare(n.firstParent, n, true);
    }
    if n.secondParent != null {
      assert NodeCalls(n)[|NodeCalls(n)| - 1] == Compare(n.secondParent, n, false);
    }
  }

  /** Every call of the pass concerns a version of the store, and every comparison is against one of its parents. */
  lemma {:induction false} PlanConcernsStoredVersions(order: seq<FileLocation>, fileDB: map<FileLocation, FileNode>, c: ASTCall)
    requires forall k :: 0 <= k < |order| ==> order[k] in fileDB
    requires c in Plan(order, fileDB)
    ensures c.UpdateFileAll? ==> c.node in fileDB.Values && c.node.firstParent == null && c.kind == ADDED
    ensures c.Compare? ==> c.right in fileDB.Values && c.left == (if c.first then c.right.firstParent else c.right.secondParent)
  {
    var n := |order| - 1;
    var init := order[..n];
    if c in Plan(init, fileDB) {
      PlanConcernsStoredVersions(init, fileDB, c);
    } else {
      NodeCallsCases(fileDB[order[n]]);
    }
  }

  /** The visitor that collects the declarations of a file (DeclCollector). */
  class DeclCollector {
    var nodes: seq<Decl>

    constructor ()
      ensures nodes == []
    {
      nodes := [];
    }

    /** Records the declaration, then visits its nested declarations; methods and fields are not entered. */
    method PreVisit(d: Decl)
      modifies this`nodes
      ensures nodes == old(nodes) + PreOrder(d)
      decreases d
    {
      nodes := nodes + [d];
      for k := 0 to |d.nested|
        invariant nodes == old(nodes) + [d] + PreOrderAll(d.nested[..k])
      {
        PreVisit(d.nested[k]);
        assert d.nested[..k + 1][..k] == d.nested[..k];
      }
      assert d.nested[..|d.nested|] == d.nested;
    }

    /** The declarations of the file version, collected afresh. */
    method GetDeclNodes(fn: FileNode) returns (r: seq<Decl>)
      modifies this`nodes
      ensures r == nodes == FileDecls(fn.cf.ast.namespaces)
    {
      nodes := [];
      var ns := fn.cf.ast.namespaces;
      for i := 0 to |ns|
        invariant nodes == FileDecls(ns[..i])
      {
        var ds := ns[i].declarations;
        for k := 0 to |ds|
          invariant nodes == FileDecls(ns[..i]) + PreOrderAll(ds[..k])
        {
          PreVisit(ds[k]);
          assert ds[..k + 1][..k] == ds[..k];
        }
        assert ds[..|ds|] == ds;
        assert ns[..i + 1][..i] == ns[..i];
      }
      assert ns[..|ns|] == ns;
      r := nodes;
    }
  }

  class FileForest {
    const db: ChangeDataBase
    var treeId: nat
    const debug: bool

    /** A forest over the store, built at once; its tree table is the store's file-forest table. */
    constructor (db: ChangeDataBase, debug: bool, linkAll: FileLink)
      requires Contiguous(db.revs.revIdxMap)
      modifies db`fileDB, db`fileForest
      ensures this.db == db && this.debug == debug
      ensures db.fileDB == Built(old(db.fileDB), 0, db.revs.revIdxMap, linkAll).claimed
      ensures treeId == Built(old(db.fileDB), 0, db.revs.revIdxMap, linkAll).nextId
      ensures TableHolds(db.fileForest, old(db.fileForest), Built(old(db.fileDB), 0, db.revs.revIdxMap, linkAll).kept)
    {
      this.db := db;
      this.debug := debug;
      treeId := 0;
      new;
      BuildTrees(linkAll);
    }

    /**
     * Revisions newest first, each revision's file versions in order: a version the store has not
     * claimed seeds a tree with the next counter value, and the tree is put into the table under
     * that id when linking succeeds.
     */
    method BuildTrees(linkAll: FileLink)
      requires Contiguous(db.revs.revIdxMap)
      modifies this`treeId, db`fileDB, db`fileForest
      ensures db.fileDB == Built(old(db.fileDB), old(treeId), db.revs.revIdxMap, linkAll).claimed
      ensures treeId == Built(old(db.fileDB), old(treeId), db.revs.revIdxMap, linkAll).nextId
      ensures TableHolds(db.fileForest, old(db.fileForest), Built(old(db.fileDB), old(treeId), db.revs.revIdxMap, linkAll).kept)
    {
      var m := db.revs.revIdxMap;
      SeedRevisions(m, |m|, linkAll, Sweep(db.fileDB, [], treeId), db.fileForest);
    }

    /** Revisions n-1 down to 0 of the index m, each one's file versions in order. */
    method SeedRevisions(
      m: map<int, RevNode>, n: nat, linkAll: FileLink, ghost s0: Sweep<FileLocation, FileNode>, ghost before: map<int, FileTree>)
      requires forall k :: 0 <= k < n ==> k in m
      requires Mirrors(s0, before)
      modifies this`treeId, db`fileDB, db`fileForest
      ensures Mirrors(Run(s0, NewestFirst(m, n, 0), FileKey, linkAll, EverySeed), before)
    {
      var i := n;
      while i > 0
        invariant 0 <= i <= n
        invariant Mirrors(Run(s0, NewestFirst(m, n, i), FileKey, linkAll, EverySeed), before)
      {
        i := i - 1;
        SeedNext(m, n, i, linkAll, s0, before);
      }
    }

    /** Revision i of the index, after the revisions above it. */
    method SeedNext(
      m: map<int, RevNode>, n: nat, i: nat, linkAll: FileLink, ghost s0: Sweep<FileLocation, FileNode>, ghost before: map<int, FileTree>)
      requires forall k :: 0 <= k < n ==> k in m
      requires i < n
      requires Mirrors(Run(s0, NewestFirst(m, n, i + 1), FileKey, linkAll, EverySeed), before)
      modifies this`treeId, db`fileDB, db`fileForest
      ensures Mirrors(Run(s0, NewestFirst(m, n, i), FileKey, linkAll, EverySeed), before)
    {
      var r := m[i];
      ghost var sp := Run(s0, NewestFirst(m, n, i + 1), FileKey, linkAll, EverySeed);
      SeedRevision(r, linkAll, sp, before);
      RunAppend(s0, NewestFirst(m, n, i + 1), r.fileNodes, FileKey, linkAll, EverySeed);
    }

    /** The store's claims, counter and tree table as the sweep state sp describes them. */
    ghost predicate Mirrors(sp: Sweep<FileLocation, FileNode>, before: map<int, FileTree>)
      reads this, db
    {
      db.fileDB == sp.claimed && treeId == sp.nextId && TableHolds(db.fileForest, before, sp.kept)
    }

    /** The file versions of one revision, in order. */
    method SeedRevision(r: RevNode, linkAll: FileLink, ghost sp: Sweep<FileLocation, FileNode>, ghost before: map<int, FileTree>)
      requires Mirrors(sp, before)
      modifies this`treeId, db`fileDB, db`fileForest
      ensures Mirrors(Run(sp, r.fileNodes, FileKey, linkAll, EverySeed), before)
    {
      ghost var cur := sp;
      for j := 0 to |r.fileNodes|
        invariant cur == Run(sp, r.fileNodes[..j], FileKey, linkAll, EverySeed)
        invariant Mirrors(cur, before)
      {
        var fn := r.fileNodes[j];
        RunSnoc(sp, r.fileNodes[..j], fn, FileKey, linkAll, EverySeed);
        assert r.fileNodes[..j + 1] == r.fileNodes[..j] + [fn];
        SeedFrom(fn, linkAll, cur, before);
        cur := Step(cur, fn, FileKey, linkAll, EverySeed);
      }
      assert r.fileNodes[..|r.fileNodes|] == r.fileNodes;
    }

    /** One candidate of the build: seed, link and keep, or skip a claimed version. */
    method SeedFrom(fn: FileNode, linkAll: FileLink, ghost sp: Sweep<FileLocation, FileNode>, ghost before: map<int, FileTree>)
      requires Mirrors(sp, before)
      modifies this`treeId, db`fileDB, db`fileForest
      ensures Mirrors(Step(sp, fn, FileKey, linkAll, EverySeed), before)
    {
      if fn.loc !in db.fileDB {
        var tree := new FileTree(fn, treeId);
        var o := linkAll(fn, db.fileDB);
        ghost var next := Step(sp, fn, FileKey, linkAll, EverySeed);
        assert next.claimed == sp.claimed + o.claims && next.nextId == sp.nextId + 1;
        assert next.kept == if o.ok then sp.kept + [Kept(fn, sp.nextId)] else sp.kept;
        treeId := treeId + 1;
        db.fileDB := db.fileDB + o.claims;
        if o.ok {
          TableHoldsPut(db.fileForest, before, sp.kept, tree);
          db.fileForest := db.fileForest[tree.id := tree];
        }
      }
    }

    /**
     * For each revision id in turn: the refactorings of an accepted type become bonds, each numbered
     * with its position in the store's bond list and appended to it; the revision's batch is handed
     * to the connector (returned here, one batch per id).
     */
    method UpdateWithRefs(refRevIds: seq<string>, refactorings: Revision -> seq<CodeRefactoring>)
      returns (connected: seq<Connection>)
      requires forall k :: 0 <= k < |refRevIds| ==> refRevIds[k] in db.revs.revIdMap
      modifies db`refDB
      ensures db.refDB == old(db.refDB) + AcceptedFrom(refRevIds, db.revs.revIdMap, refactorings, db.refTypes)
      ensures connected == Batches(refRevIds, db.revs.revIdMap, refactorings, db.refTypes, |old(db.refDB)|)
    {
      var revIdMap := db.revs.revIdMap;
      ghost var base := db.refDB;
      connected := [];
      for k := 0 to |refRevIds|
        invariant db.refDB == base + AcceptedFrom(refRevIds[..k], revIdMap, refactorings, db.refTypes)
        invariant connected == Batches(refRevIds[..k], revIdMap, refactorings, db.refTypes, |base|)
      {
        connected := RegisterRevision(refRevIds, k, revIdMap, refactorings, base, connected);
      }
      assert refRevIds[..|refRevIds|] == refRevIds;
    }

    /** The revision with the k-th id, after those with the ids before it. */
    method RegisterRevision(
      ids: seq<string>, k: nat, revIdMap: map<string, RevNode>, refactorings: Revision -> seq<CodeRefactoring>,
      ghost base: seq<RefactoringBond>, connected: seq<Connection>)
      returns (next: seq<Connection>)
      requires forall i :: 0 <= i < |ids| ==> ids[i] in revIdMap
      requires k < |ids|
      requires db.refDB == base + AcceptedFrom(ids[..k], revIdMap, refactorings, db.refTypes)
      requires connected == Batches(ids[..k], revIdMap, refactorings, db.refTypes, |base|)
      modifies db`refDB
      ensures db.refDB == base + AcceptedFrom(ids[..k + 1], revIdMap, refactorings, db.refTypes)
      ensures next == Batches(ids[..k + 1], revIdMap, refactorings, db.refTypes, |base|)
    {
      ghost var types := db.refTypes;
      ghost var done := AcceptedFrom(ids[..k], revIdMap, refactorings, types);
      FromSnoc(ids, k, revIdMap, refactorings, types, |base|);
      var r := revIdMap[ids[k]];
      ghost var mine := Accepted(refactorings(r.rev), types);
      var bonds := RegisterBonds(refactorings(r.rev));
      assert db.refDB == (base + done) + mine;
      AppendAssoc(base, done, mine);
      next := connected + [Connection(bonds, r)];
    }

    /** The refactorings of one revision: each one of an accepted type is numbered and appended. */
    method RegisterBonds(refs: seq<CodeRefactoring>) returns (bonds: seq<IndexedBond>)
      modifies db`refDB
      ensures db.refDB == old(db.refDB) + Accepted(refs, db.refTypes)
      ensures bonds == Numbered(Accepted(refs, db.refTypes), |old(db.refDB)|)
    {
      bonds := [];
      for j := 0 to |refs|
        invariant db.refDB == old(db.refDB) + Accepted(refs[..j], db.refTypes)
        invariant bonds == Numbered(Accepted(refs[..j], db.refTypes), |old(db.refDB)|)
      {
        assert refs[..j + 1][..j] == refs[..j];
        if refs[j].refType in db.refTypes {
          var bond := RefactoringBond(refs[j]);
          NumberedSnoc(Accepted(refs[..j], db.refTypes), bond, |old(db.refDB)|);
          bonds := bonds + [IndexedBond(bond, |db.refDB|)];
          db.refDB := db.refDB + [bond];
        }
      }
      assert refs[..|refs|] == refs;
    }

    /** The calls the pass makes for one version. */
    method CallsFor(rightNode: FileNode, collector: DeclCollector) returns (own: seq<ASTCall>)
      modifies collector`nodes
      ensures own == NodeCalls(rightNode)
    {
      own := [];
      if !rightNode.HasFirstParent() && rightNode.ASTChangeCount() == 0 {
        var decls := collector.GetDeclNodes(rightNode);
        own := own + [UpdateFileAll(rightNode, decls, ADDED, true)];
      }
      if rightNode.HasFirstParent() {
        own := own + [Compare(rightNode.firstParent, rightNode, true)];
      }
      if rightNode.HasSecondParent() {
        own := own + [Compare(rightNode.secondParent, rightNode, false)];
      }
    }

    /**
     * Every version of the store, newest location first: a version with no first parent and no
     * recorded changes has its declarations recorded as ADDED, and a version is compared against
     * each parent it has. The calls are returned in the order they are made.
     */
    method UpdateASTChanges() returns (order: seq<FileLocation>, calls: seq<ASTCall>)
      ensures StrictlyDescending(order) && |order| == |db.fileDB|
      ensures forall x :: x in order <==> x in db.fileDB
      ensures calls == Plan(order, db.fileDB)
    {
      var collector := new DeclCollector();
      order := Descending(db.fileDB.Keys);
      calls := [];
      for k := 0 to |order|
        invariant calls == Plan(order[..k], db.fileDB)
      {
        var rightNode := db.fileDB[order[k]];
        var own := CallsFor(rightNode, collector);
        PlanSnoc(order, db.fileDB, k);
        calls := calls + own;
      }
      assert order[..|order|] == order;
    }
  }
}
