/**
 * The revision index: revision positions and ids mapped to revision nodes, each node carrying the
 * number of distinct contributors seen up to and including its position.
 */
module Revisions {
  import opened Locations
  import opened Repository
  import opened FileNodes

  /** A revision with its position, its running contributor count and one node per changed file. */
  datatype RevNode = RevNode(idx: nat, rev: Revision, nContributor: nat, fileNodes: seq<FileNode>)

  predicate IsJavaFile(fn: FileNode) {
    EndsWith(fn.cf.name, ".java")
  }

  /** The node's file nodes restricted to Java sources, in file order. */
  function JavaFileNodes(nodes: seq<FileNode>): (r: seq<FileNode>)
    ensures forall i :: 0 <= i < |r| ==> r[i] in nodes && IsJavaFile(r[i])
    ensures forall i :: 0 <= i < |nodes| && IsJavaFile(nodes[i]) ==> nodes[i] in r
  {
    if nodes == [] then []
    else (if IsJavaFile(nodes[0]) then [nodes[0]] else []) + JavaFileNodes(nodes[1..])
  }

  /**
   * The revision node the index builds for position idx: one fresh file node per changed file,
   * located by the file's own indices.
   */
  method NewRevNode(idx: nat, r: Revision, n: nat) returns (rn: RevNode)
    ensures rn.idx == idx && rn.rev == r && rn.nContributor == n
    ensures |rn.fileNodes| == |r.files|
    ensures forall k :: 0 <= k < |r.files| ==>
      && fresh(rn.fileNodes[k])
      && rn.fileNodes[k].cf == r.files[k]
      && rn.fileNodes[k].loc == FileLocation(r.files[k].revisionIdx, r.files[k].fileIdx)
  {
    var nodes: seq<FileNode> := [];
    for k := 0 to |r.files|
      invariant |nodes| == k
      invariant forall j :: 0 <= j < k ==>
        && fresh(nodes[j])
        && nodes[j].cf == r.files[j]
        && nodes[j].loc == FileLocation(r.files[j].revisionIdx, r.files[j].fileIdx)
    {
      var fn := new FileNode(r.files[k], r);
      nodes := nodes + [fn];
    }
    rn := RevNode(idx, r, n, nodes);
  }

  /** The usernames of the authors of revisions 0 .. n-1. */
  function Authors(cr: seq<Revision>, n: nat): set<string>
    requires n <= |cr|
  {
    set j | 0 <= j < n :: cr[j].author
  }

  /** The contributor count the index stores for position i. */
  function Contributors(cr: seq<Revision>, i: nat): nat
    requires i < |cr|
  {
    |Authors(cr, i + 1)|
  }

  lemma AuthorsStep(cr: seq<Revision>, n: nat)
    requires n < |cr|
    ensures Authors(cr, n + 1) == Authors(cr, n) + {cr[n].author}
  {
  }

  /** Contributor counts never decrease from one position to the next and grow by at most one. */
  lemma ContributorsStep(cr: seq<Revision>, i: nat)
    requires i + 1 < |cr|
    ensures Contributors(cr, i) <= Contributors(cr, i + 1) <= Contributors(cr, i) + 1
  {
    AuthorsStep(cr, i + 1);
    var a, x := Authors(cr, i + 1), cr[i + 1].author;
    if x in a {
      assert a + {x} == a;
    } else {
      assert |a + {x}| == |a| + 1;
    }
  }

  /** The count grows exactly when the author of the new position has not contributed before. */
  lemma ContributorsGrowOnNewAuthor(cr: seq<Revision>, i: nat)
    requires i + 1 < |cr|
    ensures Contributors(cr, i + 1) == Contributors(cr, i) + 1 <==> cr[i + 1].author !in Authors(cr, i + 1)
  {
    AuthorsStep(cr, i + 1);
    var a, x := Authors(cr, i + 1), cr[i + 1].author;
    if x in a {
      assert a + {x} == a;
    } else {
      assert |a + {x}| == |a| + 1;
    }
  }

  /** Over any stretch of history the count is monotone. */
  lemma {:induction false} ContributorsMonotone(cr: seq<Revision>, i: nat, j: nat)
    requires i <= j < |cr|
    ensures Contributors(cr, i) <= Contributors(cr, j) <= Contributors(cr, i) + (j - i)
    decreases j - i
  {
    if i < j {
      ContributorsMonotone(cr, i, j - 1);
      ContributorsStep(cr, j - 1);
    }
  }

  /**
   * What the index holds after positions 0 .. n-1 were indexed in order: the positions are exactly
   * 0 .. n-1, each node sits at its own position and wraps that revision with its contributor count,
   * and every id maps to the node of the last position carrying that id.
   */
  ghost predicate Indexed(
    cr: seq<Revision>, n: nat,
    nContributor: set<string>, revIdxMap: map<int, RevNode>, revIdMap: map<string, RevNode>)
  {
    && n <= |cr|
    && nContributor == Authors(cr, n)
    && PositionsIndexed(cr, n, revIdxMap)
    && IdsIndexed(cr, n, revIdxMap, revIdMap)
  }

  /** Positions 0 .. n-1 hold their own revisions with their contributor counts. */
  ghost predicate PositionsIndexed(cr: seq<Revision>, n: nat, revIdxMap: map<int, RevNode>)
    requires n <= |cr|
  {
    && (forall i :: i in revIdxMap <==> 0 <= i < n)
    && (forall i :: 0 <= i < n ==>
          revIdxMap[i].idx == i && revIdxMap[i].rev == cr[i] && revIdxMap[i].nContributor == |Authors(cr, i + 1)|)
  }

  /** Every indexed id maps to the node of a position with that id, the last such position. */
  ghost predicate IdsIndexed(cr: seq<Revision>, n: nat, revIdxMap: map<int, RevNode>, revIdMap: map<string, RevNode>)
    requires n <= |cr|
    requires PositionsIndexed(cr, n, revIdxMap)
  {
    && (forall i :: 0 <= i < n ==> cr[i].id in revIdMap)
    && (forall id :: id in revIdMap ==> exists i :: 0 <= i < n && cr[i].id == id && revIdMap[id] == revIdxMap[i])
    && (forall i :: 0 <= i < n && (forall j :: i < j < n ==> cr[j].id != cr[i].id) ==>
          revIdMap[cr[i].id] == revIdxMap[i])
  }

  /** Positions are contiguous from zero and every node sits at its own position. */
  ghost predicate Contiguous(revIdxMap: map<int, RevNode>) {
    forall i :: i in revIdxMap <==> 0 <= i < |revIdxMap|
  }

  lemma IndexedIsContiguous(
    cr: seq<Revision>, n: nat,
    nContributor: set<string>, revIdxMap: map<int, RevNode>, revIdMap: map<string, RevNode>)
    requires Indexed(cr, n, nContributor, revIdxMap, revIdMap)
    ensures |revIdxMap| == n && Contiguous(revIdxMap)
  {
    assert revIdxMap.Keys == Range(n);
  }

  /** The positions 0 .. n-1. */
  function Range(n: nat): (r: set<int>)
    ensures forall i :: i in r <==> 0 <= i < n
    ensures |r| == n
  {
    if n == 0 then {} else Range(n - 1) + {n - 1}
  }

  /** Indexing position n next keeps the index consistent for n + 1 positions. */
  lemma IndexedStep(
    cr: seq<Revision>, n: nat,
    nContributor: set<string>, revIdxMap: map<int, RevNode>, revIdMap: map<string, RevNode>,
    rev: RevNode)
    requires Indexed(cr, n, nContributor, revIdxMap, revIdMap)
    requires n < |cr|
    requires rev.idx == n && rev.rev == cr[n] && rev.nContributor == |nContributor + {cr[n].author}|
    ensures Indexed(cr, n + 1, nContributor + {cr[n].author}, revIdxMap[n := rev], revIdMap[cr[n].id := rev])
  {
    AuthorsStep(cr, n);
    PositionsStep(cr, n, revIdxMap, rev);
    IdsStep(cr, n, revIdxMap, revIdMap, rev);
  }

  lemma PositionsStep(cr: seq<Revision>, n: nat, revIdxMap: map<int, RevNode>, rev: RevNode)
    requires n < |cr| && PositionsIndexed(cr, n, revIdxMap)
    requires rev.idx == n && rev.rev == cr[n] && rev.nContributor == |Authors(cr, n + 1)|
    ensures PositionsIndexed(cr, n + 1, revIdxMap[n := rev])
  {
    var m := revIdxMap[n := rev];
    forall i | 0 <= i < n + 1
      ensures m[i].idx == i && m[i].rev == cr[i] && m[i].nContributor == |Authors(cr, i + 1)|
    {
      if i < n {
        assert m[i] == revIdxMap[i];
      }
    }
  }

  lemma IdsStep(cr: seq<Revision>, n: nat, revIdxMap: map<int, RevNode>, revIdMap: map<string, RevNode>, rev: RevNode)
    requires n < |cr| && PositionsIndexed(cr, n, revIdxMap) && IdsIndexed(cr, n, revIdxMap, revIdMap)
    requires rev.idx == n && rev.rev == cr[n] && rev.nContributor == |Authors(cr, n + 1)|
    ensures PositionsIndexed(cr, n + 1, revIdxMap[n := rev])
    ensures IdsIndexed(cr, n + 1, revIdxMap[n := rev], revIdMap[cr[n].id := rev])
  {
    PositionsStep(cr, n, revIdxMap, rev);
    var m, im := revIdxMap[n := rev], revIdMap[cr[n].id := rev];
    IdsStepMapped(cr, n, revIdxMap, revIdMap, rev, m, im);
    IdsStepLatest(cr, n, revIdxMap, revIdMap, rev, m, im);
  }

  /** Every id stays mapped to the node at one of its positions. */
  lemma IdsStepMapped(
    cr: seq<Revision>, n: nat, revIdxMap: map<int, RevNode>, revIdMap: map<string, RevNode>, rev: RevNode,
    m: map<int, RevNode>, im: map<string, RevNode>)
    requires n < |cr|
    requires forall i :: 0 <= i < n ==> i in revIdxMap
    requires forall id :: id in revIdMap ==> exists i :: 0 <= i < n && cr[i].id == id && revIdMap[id] == revIdxMap[i]
    requires m == revIdxMap[n := rev] && im == revIdMap[cr[n].id := rev]
    ensures forall id :: id in im ==> exists i :: 0 <= i < n + 1 && cr[i].id == id && im[id] == m[i]
  {
    forall id | id in im
      ensures exists i :: 0 <= i < n + 1 && cr[i].id == id && im[id] == m[i]
    {
      if id == cr[n].id {
        assert cr[n].id == id && im[id] == m[n];
      } else {
        var i :| 0 <= i < n && cr[i].id == id && revIdMap[id] == revIdxMap[i];
        assert im[id] == m[i];
      }
    }
  }

  /** The id of a revision not repeated later maps to that revision's node. */
  lemma IdsStepLatest(
    cr: seq<Revision>, n: nat, revIdxMap: map<int, RevNode>, revIdMap: map<string, RevNode>, rev: RevNode,
    m: map<int, RevNode>, im: map<string, RevNode>)
    requires n < |cr|
    requires forall i :: 0 <= i < n ==> i in revIdxMap && cr[i].id in revIdMap
    requires forall i :: 0 <= i < n && (forall j :: i < j < n ==> cr[j].id != cr[i].id) ==>
               revIdMap[cr[i].id] == revIdxMap[i]
    requires m == revIdxMap[n := rev] && im == revIdMap[cr[n].id := rev]
    ensures forall i :: 0 <= i < n + 1 && (forall j :: i < j < n + 1 ==> cr[j].id != cr[i].id) ==> im[cr[i].id] == m[i]
  {
    forall i | 0 <= i < n + 1 && (forall j :: i < j < n + 1 ==> cr[j].id != cr[i].id)
      ensures im[cr[i].id] == m[i]
    {
      if i < n {
        assert cr[n].id != cr[i].id;
        assert forall j :: i < j < n ==> cr[j].id != cr[i].id;
        assert revIdMap[cr[i].id] == revIdxMap[i];
      }
    }
  }

  /** Revision positions in the repository: every first parent precedes its child. */
  ghost predicate ParentsPrecede(cr: seq<Revision>) {
    forall i :: 0 <= i < |cr| && |cr[i].parents| > 0 ==> cr[i].parents[0] < i
  }

  /**
   * What the lineage builders rely on: positions are contiguous from zero, every node sits at its
   * own position and every id maps to one of the indexed nodes.
   */
  ghost predicate WellIndexed(revIdxMap: map<int, RevNode>, revIdMap: map<string, RevNode>) {
    && Contiguous(revIdxMap)
    && (forall i :: i in revIdxMap ==> revIdxMap[i].idx == i)
    && (forall id :: id in revIdMap ==> revIdMap[id].idx in revIdxMap && revIdxMap[revIdMap[id].idx] == revIdMap[id])
  }

  /** Every indexed node's first parent is an indexed position below its own. */
  ghost predicate FirstParentsBefore(revIdxMap: map<int, RevNode>) {
    forall i :: i in revIdxMap && |revIdxMap[i].rev.parents| > 0 ==>
      revIdxMap[i].rev.parents[0] < i && revIdxMap[i].rev.parents[0] in revIdxMap
  }

  lemma IndexedIsWellIndexed(
    cr: seq<Revision>, n: nat,
    nContributor: set<string>, revIdxMap: map<int, RevNode>, revIdMap: map<string, RevNode>)
    requires Indexed(cr, n, nContributor, revIdxMap, revIdMap)
    ensures WellIndexed(revIdxMap, revIdMap)
    ensures ParentsPrecede(cr) ==> FirstParentsBefore(revIdxMap)
  {
    IndexedIsContiguous(cr, n, nContributor, revIdxMap, revIdMap);
    forall id | id in revIdMap
      ensures revIdMap[id].idx in revIdxMap && revIdxMap[revIdMap[id].idx] == revIdMap[id]
    {
      var i :| 0 <= i < n && cr[i].id == id && revIdMap[id] == revIdxMap[i];
    }
  }

  /** The counts stored at any two indexed positions are ordered like the positions, and grow by at most one per step. */
  lemma IndexedCountsMonotone(
    cr: seq<Revision>, n: nat,
    nContributor: set<string>, revIdxMap: map<int, RevNode>, revIdMap: map<string, RevNode>,
    i: nat, j: nat)
    requires Indexed(cr, n, nContributor, revIdxMap, revIdMap)
    requires i <= j < n
    ensures revIdxMap[i].nContributor <= revIdxMap[j].nContributor <= revIdxMap[i].nContributor + (j - i)
  {
    ContributorsMonotone(cr, i, j);
  }

  /** When ids are unique, looking a revision up by id or by position gives the same node. */
  lemma UniqueIdsAgree(
    cr: seq<Revision>, n: nat,
    nContributor: set<string>, revIdxMap: map<int, RevNode>, revIdMap: map<string, RevNode>,
    i: nat)
    requires Indexed(cr, n, nContributor, revIdxMap, revIdMap)
    requires forall a, b :: 0 <= a < b < n ==> cr[a].id != cr[b].id
    requires i < n
    ensures revIdMap[cr[i].id] == revIdxMap[i]
  {
  }

  /**
   * The revision index shared by ChangeDataBase and FileChangeForest: a set of contributor names
   * and two maps from position and from id to revision nodes.
   */
  class RevisionIndex {
    var nContributor: set<string>
    var revIdxMap: map<int, RevNode>
    var revIdMap: map<string, RevNode>

    /** Indexes positions 0 .. revCount-1 in order. */
    constructor (cr: seq<Revision>, revCount: nat)
      requires revCount <= |cr|
      ensures Indexed(cr, revCount, nContributor, revIdxMap, revIdMap)
      ensures WellIndexed(revIdxMap, revIdMap)
      ensures ParentsPrecede(cr) ==> FirstParentsBefore(revIdxMap)
    {
      nContributor := {};
      revIdxMap := map[];
      revIdMap := map[];
      new;
      for i := 0 to revCount
        invariant Indexed(cr, i, nContributor, revIdxMap, revIdMap)
      {
        ghost var nc, m, im := nContributor, revIdxMap, revIdMap;
        var rn := GetRev(cr, i);
        IndexedStep(cr, i, nc, m, im, rn);
      }
      IndexedIsWellIndexed(cr, revCount, nContributor, revIdxMap, revIdMap);
    }

    /**
     * The node at position idx. An indexed position is returned as stored; otherwise the author is
     * added to the contributor set and a new node carrying the new set size is stored under the
     * position and under the revision id.
     */
    method GetRev(cr: seq<Revision>, idx: nat) returns (rn: RevNode)
      requires idx < |cr|
      modifies this
      ensures idx in old(revIdxMap) ==>
        && rn == old(revIdxMap[idx])
        && nContributor == old(nContributor) && revIdxMap == old(revIdxMap) && revIdMap == old(revIdMap)
      ensures idx !in old(revIdxMap) ==>
        && nContributor == old(nContributor) + {cr[idx].author}
        && rn.idx == idx && rn.rev == cr[idx] && rn.nContributor == |nContributor|
        && revIdxMap == old(revIdxMap)[idx := rn]
        && revIdMap == old(revIdMap)[cr[idx].id := rn]
      ensures idx in revIdxMap && revIdxMap[idx] == rn
    {
      if idx in revIdxMap {
        return revIdxMap[idx];
      }
      var r := cr[idx];
      nContributor := nContributor + {r.author};
      var rev := NewRevNode(idx, r, |nContributor|);
      revIdxMap := revIdxMap[idx := rev];
      revIdMap := revIdMap[r.id := rev];
      return revIdxMap[idx];
    }
  }
}
