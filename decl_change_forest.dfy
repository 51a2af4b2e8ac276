/**
 * The declaration forest: lineage trees over the declaration versions recorded on the store's file
 * versions, visited file by file from the newest location down.
 */
module DeclChangeForests {
  import opened Locations
  import opened FileNodes
  import opened DeclNodes
  import opened Trees
  import opened Database
  import opened Lineage

  /** How the forest links a tree seeded from a declaration version, given the claim table. */
  type DeclLink = (DeclNode, map<DeclLocation, DeclNode>) -> LinkOutcome<DeclLocation, DeclNode>

  function DeclKey(d: DeclNode): DeclLocation {
    d.loc
  }

  /** The refactoring types the declaration forest considers. */
  const ConsideredRefTypes: set<string> := {"Move Class", "Rename Class"}

  /** The declaration versions recorded on the file versions at the given locations, in that order. */
  function DeclCandidates(order: seq<FileLocation>, fileDB: map<FileLocation, FileNode>): seq<DeclNode>
    requires forall k :: 0 <= k < |order| ==> order[k] in fileDB
    reads fileDB.Values
  {
    if order == [] then []
    else DeclCandidates(order[..|order| - 1], fileDB) + fileDB[order[|order| - 1]].declChanges
  }

  /** The candidates are exactly the declaration versions recorded on the visited file versions. */
  lemma {:induction false} DeclCandidatesMembers(order: seq<FileLocation>, fileDB: map<FileLocation, FileNode>, d: DeclNode)
    requires forall k :: 0 <= k < |order| ==> order[k] in fileDB
    ensures d in DeclCandidates(order, fileDB) <==> exists k :: 0 <= k < |order| && d in fileDB[order[k]].declChanges
    decreases |order|
  {
    if order != [] {
      var n := |order| - 1;
      DeclCandidatesMembers(order[..n], fileDB, d);
      if exists k :: 0 <= k < n && d in fileDB[order[k]].declChanges {
        var k :| 0 <= k < n && d in fileDB[order[k]].declChanges;
        assert order[..n][k] == order[k];
      }
      if d in fileDB[order[n]].declChanges {
        assert d in DeclCandidates(order, fileDB);
      }
    }
  }

  /** One more file version adds its declaration versions at the end. */
  lemma DeclCandidatesSnoc(order: seq<FileLocation>, fileDB: map<FileLocation, FileNode>, i: nat)
    requires forall k :: 0 <= k < |order| ==> order[k] in fileDB
    requires i < |order|
    ensures DeclCandidates(order[..i + 1], fileDB) == DeclCandidates(order[..i], fileDB) + fileDB[order[i]].declChanges
  {
    assert order[..i + 1][..i] == order[..i];
  }

  /** What building does to the declaration table and the tree list, in terms of the sweep. */
  function Built(claimed: map<DeclLocation, DeclNode>, fileDB: map<FileLocation, FileNode>, link: DeclLink)
    : Sweep<DeclLocation, DeclNode>
    reads fileDB.Values
  {
    Run(Sweep(claimed, [], 0), DeclCandidates(Descending(fileDB.Keys), fileDB), DeclKey, link, KeptOnly)
  }

  /** The tree list holds the kept trees in order, with their seeds and ids. */
  ghost predicate TreesHold(trees: seq<DeclTree>, kept: seq<Kept<DeclNode>>) {
    |trees| == |kept| && forall j :: 0 <= j < |trees| ==> trees[j].seed == kept[j].seed && trees[j].id == kept[j].id
  }

  /** After building, every tree's id is its index in the list. */
  lemma BuiltTreeIdsAreIndices(
    claimed: map<DeclLocation, DeclNode>, fileDB: map<FileLocation, FileNode>, link: DeclLink, trees: seq<DeclTree>)
    requires TreesHold(trees, Built(claimed, fileDB, link).kept)
    ensures forall j :: 0 <= j < |trees| ==> trees[j].id == j
  {
    KeptOnlyIdIsIndex(Sweep(claimed, [], 0), DeclCandidates(Descending(fileDB.Keys), fileDB), DeclKey, link);
  }

  class DeclChangeForest {
    var trees: seq<DeclTree>
    const db: ChangeDataBase
    const debug: bool
    const refTypes: set<string>

    /** A forest over the store, built at once. */
    constructor (db: ChangeDataBase, debug: bool, linkAll: DeclLink)
      modifies db`declDB
      ensures this.db == db && this.debug == debug
      ensures refTypes == ConsideredRefTypes
      ensures db.declDB == Built(old(db.declDB), db.fileDB, linkAll).claimed
      ensures TreesHold(trees, Built(old(db.declDB), db.fileDB, linkAll).kept)
    {
      this.db := db;
      this.debug := debug;
      refTypes := ConsideredRefTypes;
      trees := [];
      new;
      BuildTrees(linkAll);
    }

    /** The declaration table and the tree list as the sweep state sp describes them. */
    ghost predicate Mirrors(sp: Sweep<DeclLocation, DeclNode>)
      reads this, db
    {
      db.declDB == sp.claimed && TreesHold(trees, sp.kept)
    }

    /**
     * File versions from the newest location down, each one's declaration versions in order: a
     * version the table has not claimed seeds a tree numbered by the list's length, and the tree is
     * appended when linking succeeds.
     */
    method BuildTrees(linkAll: DeclLink)
      requires trees == []
      modifies this`trees, db`declDB
      ensures db.declDB == Built(old(db.declDB), db.fileDB, linkAll).claimed
      ensures TreesHold(trees, Built(old(db.declDB), db.fileDB, linkAll).kept)
    {
      var order := Descending(db.fileDB.Keys);
      SeedFiles(order, db.fileDB, linkAll, Sweep(db.declDB, [], 0));
    }

    /** The file versions at the given locations, in order. */
    method SeedFiles(
      order: seq<FileLocation>, fileDB: map<FileLocation, FileNode>, linkAll: DeclLink,
      ghost s0: Sweep<DeclLocation, DeclNode>)
      requires forall k :: 0 <= k < |order| ==> order[k] in fileDB
      requires Mirrors(s0)
      modifies this`trees, db`declDB
      ensures Mirrors(Run(s0, DeclCandidates(order, fileDB), DeclKey, linkAll, KeptOnly))
    {
      ghost var sp := s0;
      ghost var cands: seq<DeclNode> := [];
      for i := 0 to |order|
        invariant cands == DeclCandidates(order[..i], fileDB)
        invariant sp == Run(s0, cands, DeclKey, linkAll, KeptOnly)
        invariant Mirrors(sp)
      {
        var fn := fileDB[order[i]];
        ghost var decls := fn.declChanges;
        DeclCandidatesSnoc(order, fileDB, i);
        RunAppend(s0, cands, decls, DeclKey, linkAll, KeptOnly);
        SeedFile(fn, linkAll, sp);
        sp := Run(sp, decls, DeclKey, linkAll, KeptOnly);
        cands := cands + decls;
      }
      assert order[..|order|] == order;
    }

    /** The declaration versions of one file version, in order. */
    method SeedFile(fn: FileNode, linkAll: DeclLink, ghost sp: Sweep<DeclLocation, DeclNode>)
      requires Mirrors(sp)
      modifies this`trees, db`declDB
      ensures Mirrors(Run(sp, fn.declChanges, DeclKey, linkAll, KeptOnly))
    {
      ghost var cur := sp;
      var decls := fn.declChanges;
      for j := 0 to |decls|
        invariant cur == Run(sp, decls[..j], DeclKey, linkAll, KeptOnly)
        invariant Mirrors(cur)
      {
        RunSnoc(sp, decls[..j], decls[j], DeclKey, linkAll, KeptOnly);
        assert decls[..j + 1] == decls[..j] + [decls[j]];
        SeedFrom(decls[j], linkAll, cur);
        cur := Step(cur, decls[j], DeclKey, linkAll, KeptOnly);
      }
      assert decls[..|decls|] == decls;
    }

    /** One candidate: seed, link and keep, or skip a claimed declaration version. */
    method SeedFrom(d: DeclNode, linkAll: DeclLink, ghost sp: Sweep<DeclLocation, DeclNode>)
      requires Mirrors(sp)
      modifies this`trees, db`declDB
      ensures Mirrors(Step(sp, d, DeclKey, linkAll, KeptOnly))
    {
      if d.loc !in db.declDB {
        var tree := new DeclTree(d, |trees|);
        var o := linkAll(d, db.declDB);
        ghost var next := Step(sp, d, DeclKey, linkAll, KeptOnly);
        assert next.claimed == sp.claimed + o.claims;
        assert next.kept == if o.ok then sp.kept + [Kept(d, |sp.kept|)] else sp.kept;
        db.declDB := db.declDB + o.claims;
        if o.ok {
          trees := trees + [tree];
        }
      }
    }
  }
}
