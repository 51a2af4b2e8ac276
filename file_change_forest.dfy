/**
 * The file forest of the earlier code generation: lineage trees over the Java file versions of the
 * revisions, keyed by the string location id "revIdx fileIdx"; the pre-image search along the
 * first-parent chain; and the attachment of refactorings to the trees holding their pre-images.
 */
module FileChangeForests {
  import opened Base
  import opened Repository
  import opened FileNodes
  import opened Revisions
  import opened Trees
  import opened Lineage

  /** How the forest links a tree seeded from a file version, given the location-id table. */
  type LocIdLink = (FileNode, map<string, FileNode>) -> LinkOutcome<string, FileNode>

  function LocIdKey(n: FileNode): string {
    n.LocId()
  }

  /** The Java file nodes of revisions n-1 down to i: newest revision first, each revision's nodes in order. */
  function JavaNewestFirst(m: map<int, RevNode>, n: nat, i: nat): seq<FileNode>
    requires forall k :: 0 <= k < n ==> k in m
    decreases n - i
  {
    if i >= n then [] else JavaNewestFirst(m, n, i + 1) + JavaFileNodes(m[i].fileNodes)
  }

  /** The candidates are exactly the Java file nodes of the revisions i .. n-1. */
  lemma {:induction false} JavaNewestFirstMembers(m: map<int, RevNode>, n: nat, i: nat, c: FileNode)
    requires forall k :: 0 <= k < n ==> k in m
    ensures c in JavaNewestFirst(m, n, i) <==> IsJavaFile(c) && exists k :: i <= k < n && c in m[k].fileNodes
    decreases n - i
  {
    if i < n {
      JavaNewestFirstMembers(m, n, i + 1, c);
      if c in m[i].fileNodes && IsJavaFile(c) {
        assert c in JavaFileNodes(m[i].fileNodes);
        assert c in JavaNewestFirst(m, n, i);
      }
    }
  }

  /** What building the lists does to the location-id table and the tree list, in terms of the sweep. */
  function Lists(claimed: map<string, FileNode>, m: map<int, RevNode>, link: LocIdLink): Sweep<string, FileNode>
    requires Contiguous(m)
  {
    Run(Sweep(claimed, [], 0), JavaNewestFirst(m, |m|, 0), LocIdKey, link, KeptOnly)
  }

  /** The tree list holds the kept trees in order, with their seeds and ids. */
  ghost predicate TreesHold(trees: seq<FileTree>, kept: seq<Kept<FileNode>>) {
    |trees| == |kept| && forall j :: 0 <= j < |trees| ==> trees[j].seed == kept[j].seed && trees[j].id == kept[j].id
  }

  /** Every kept tree's id is its index in the list. */
  lemma ListsTreeIdsAreIndices(claimed: map<string, FileNode>, m: map<int, RevNode>, link: LocIdLink, trees: seq<FileTree>)
    requires Contiguous(m)
    requires TreesHold(trees, Lists(claimed, m, link).kept)
    ensures forall j :: 0 <= j < |trees| ==> trees[j].id == j
  {
    KeptOnlyIdIsIndex(Sweep(claimed, [], 0), JavaNewestFirst(m, |m|, 0), LocIdKey, link);
  }

  /**
   * Every kept tree was seeded from a Java file version of an indexed revision whose location id
   * was not in the table when the sweep reached it, and whose linking succeeded.
   */
  lemma ListsSeededFromUnclaimedJavaFiles(claimed: map<string, FileNode>, m: map<int, RevNode>, link: LocIdLink, j: nat)
    requires Contiguous(m)
    requires j < |Lists(claimed, m, link).kept|
    ensures IsJavaFile(Lists(claimed, m, link).kept[j].seed)
    ensures exists k :: 0 <= k < |m| && Lists(claimed, m, link).kept[j].seed in m[k].fileNodes
    ensures var cs := JavaNewestFirst(m, |m|, 0);
      exists i :: 0 <= i < |cs| && cs[i] == Lists(claimed, m, link).kept[j].seed
        && cs[i].LocId() !in Run(Sweep(claimed, [], 0), cs[..i], LocIdKey, link, KeptOnly).claimed
        && link(cs[i], Run(Sweep(claimed, [], 0), cs[..i], LocIdKey, link, KeptOnly).claimed).ok
  {
    var cs := JavaNewestFirst(m, |m|, 0);
    SeedsWereUnclaimed(Sweep(claimed, [], 0), cs, LocIdKey, link, KeptOnly, j);
    var i :| 0 <= i < |cs| && cs[i] == Lists(claimed, m, link).kept[j].seed;
    JavaNewestFirstMembers(m, |m|, 0, cs[i]);
  }

  /** The position of the first changed file with the given name, if any. */
  function FirstNamed(files: seq<ChangedFile>, path: string): (r: Option<nat>)
    ensures r.Some? ==> r.value < |files| && files[r.value].name == path
    ensures r.Some? ==> forall k :: 0 <= k < r.value ==> files[k].name != path
    ensures r.None? ==> forall k :: 0 <= k < |files| ==> files[k].name != path
  {
    if files == [] then None
    else if files[0].name == path then Some(0)
    else match FirstNamed(files[1..], path)
      case None => None
      case Some(k) => Some(k + 1)
  }

  /**
   * The node the table registers under the location id of the first changed file of r named path;
   * none when r has no such file or the table has no node under that id.
   */
  function NodeFrom(path: string, r: RevNode, table: map<string, FileNode>): Option<FileNode> {
    match FirstNamed(r.rev.files, path)
    case None => None
    case Some(k) =>
      var id := LocId(r.rev.files[k].revisionIdx, r.rev.files[k].fileIdx);
      if id in table then Some(table[id]) else None
  }

  /**
   * The walk from position i up the first-parent chain: the node for path in the nearest first
   * parent that has one, or none once a revision without parents is reached.
   */
  function WalkFrom(path: string, i: nat, m: map<int, RevNode>, table: map<string, FileNode>): Option<FileNode>
    requires FirstParentsBefore(m) && i in m
    decreases i
  {
    var cur := m[i];
    if |cur.rev.parents| == 0 then None
    else
      var p := cur.rev.parents[0];
      match NodeFrom(path, m[p], table)
      case Some(fn) => Some(fn)
      case None => WalkFrom(path, p, m, table)
  }

  /**
   * The pre-image of path as seen from revision r: r's own node when its record is ADDED, otherwise
   * the node from the nearest first-parent ancestor that has one.
   */
  function LastModification(path: string, r: RevNode, m: map<int, RevNode>, table: map<string, FileNode>): Option<FileNode>
    requires FirstParentsBefore(m) && r.idx in m && m[r.idx] == r
  {
    var fn := NodeFrom(path, r, table);
    if fn.Some? && fn.value.cf.change == ADDED then fn else WalkFrom(path, r.idx, m, table)
  }

  /** The k-th first-parent ancestor of position i, if the chain reaches that far. */
  function Ancestor(m: map<int, RevNode>, i: nat, k: nat): (r: Option<nat>)
    requires FirstParentsBefore(m) && i in m
    ensures r.Some? ==> r.value in m
    decreases k
  {
    if k == 0 then Some(i)
    else if |m[i].rev.parents| == 0 then None
    else Ancestor(m, m[i].rev.parents[0], k - 1)
  }

  /** The ancestor exists and the table has a node for path in it. */
  predicate Registers(path: string, a: Option<nat>, m: map<int, RevNode>, table: map<string, FileNode>) {
    a.Some? && a.value in m && NodeFrom(path, m[a.value], table).Some?
  }

  /** The k-th ancestor (k >= 1) is the nearest proper first-parent ancestor with a node for path. */
  predicate Nearest(path: string, i: nat, m: map<int, RevNode>, table: map<string, FileNode>, k: nat)
    requires FirstParentsBefore(m) && i in m
  {
    && 1 <= k
    && Registers(path, Ancestor(m, i, k), m, table)
    && forall j :: 1 <= j < k ==> !Registers(path, Ancestor(m, i, j), m, table)
  }

  /** One step up the chain. */
  lemma AncestorStep(m: map<int, RevNode>, i: nat, k: nat)
    requires FirstParentsBefore(m) && i in m
    requires |m[i].rev.parents| > 0 && 1 <= k
    ensures Ancestor(m, i, k) == Ancestor(m, m[i].rev.parents[0], k - 1)
  {
  }

  /**
   * The walk finds the node of the nearest proper first-parent ancestor that has one, and finds
   * nothing exactly when no proper first-parent ancestor has one.
   */
  lemma {:induction false} WalkFindsNearestAncestor(path: string, i: nat, m: map<int, RevNode>, table: map<string, FileNode>)
    requires FirstParentsBefore(m) && i in m
    ensures WalkFrom(path, i, m, table).None? ==> forall k: nat :: 1 <= k ==> !Registers(path, Ancestor(m, i, k), m, table)
    ensures WalkFrom(path, i, m, table).Some? ==>
      exists k: nat :: Nearest(path, i, m, table, k) && WalkFrom(path, i, m, table) == NodeFrom(path, m[Ancestor(m, i, k).value], table)
    decreases i
  {
    if |m[i].rev.parents| == 0 {
      forall k: nat | 1 <= k
        ensures Ancestor(m, i, k) == None
      {
      }
    } else {
      var p := m[i].rev.parents[0];
      AncestorStep(m, i, 1);
      assert Ancestor(m, p, 0) == Some(p);
      if NodeFrom(path, m[p], table).Some? {
        assert Nearest(path, i, m, table, 1);
      } else {
        WalkFindsNearestAncestor(path, p, m, table);
        if WalkFrom(path, p, m, table).None? {
          forall k: nat | 1 <= k
            ensures !Registers(path, Ancestor(m, i, k), m, table)
          {
            AncestorStep(m, i, k);
          }
        } else {
          var k': nat :| Nearest(path, p, m, table, k') && WalkFrom(path, p, m, table) == NodeFrom(path, m[Ancestor(m, p, k').value], table);
          AncestorStep(m, i, k' + 1);
          forall j: nat | 1 <= j < k' + 1
            ensures !Registers(path, Ancestor(m, i, j), m, table)
          {
            AncestorStep(m, i, j);
          }
          assert Nearest(path, i, m, table, k' + 1);
        }
      }
    }
  }

  /**
   * The pre-image is r's own node exactly when that node's record is ADDED; otherwise it is the
   * node of the nearest proper first-parent ancestor with one, and there is none when no such
   * ancestor exists.
   */
  lemma LastModificationIsNearest(path: string, r: RevNode, m: map<int, RevNode>, table: map<string, FileNode>)
    requires FirstParentsBefore(m) && r.idx in m && m[r.idx] == r
    ensures var own := NodeFrom(path, r, table);
      own.Some? && own.value.cf.change == ADDED ==> LastModification(path, r, m, table) == own
    ensures var own := NodeFrom(path, r, table);
      !(own.Some? && own.value.cf.change == ADDED) ==>
        && (LastModification(path, r, m, table).None? <==> forall k: nat :: 1 <= k ==> !Registers(path, Ancestor(m, r.idx, k), m, table))
        && (LastModification(path, r, m, table).Some? ==>
              exists k: nat :: Nearest(path, r.idx, m, table, k)
                && LastModification(path, r, m, table) == NodeFrom(path, m[Ancestor(m, r.idx, k).value], table))
  {
    WalkFindsNearestAncestor(path, r.idx, m, table);
  }

  /** A refactoring record together with the revision it was reported for. */
  datatype RefSite = RefSite(rev: RevNode, ref: CodeRefactoring)

  /** Where the refactorings of a revision come from: the recorded code change, or the prediction for the given types. */
  function RefsOf(
    r: Revision, refTypes: Option<set<string>>,
    codeChange: Revision -> seq<CodeRefactoring>, predicted: (Revision, set<string>) -> seq<CodeRefactoring>)
    : seq<CodeRefactoring>
  {
    match refTypes
    case None => codeChange(r)
    case Some(types) => predicted(r, types)
  }

  /** RefsOf for fixed types and sources. */
  function Source(
    refTypes: Option<set<string>>,
    codeChange: Revision -> seq<CodeRefactoring>, predicted: (Revision, set<string>) -> seq<CodeRefactoring>)
    : Revision -> seq<CodeRefactoring>
  {
    r => RefsOf(r, refTypes, codeChange, predicted)
  }

  /** The refactorings of one revision, in order, each with that revision. */
  function SitesOf(r: RevNode, refs: seq<CodeRefactoring>): (s: seq<RefSite>)
    ensures |s| == |refs| && forall j :: 0 <= j < |s| ==> s[j] == RefSite(r, refs[j])
  {
    seq(|refs|, j requires 0 <= j < |refs| => RefSite(r, refs[j]))
  }

  /** The refactorings of the revisions with the given ids, revision by revision. */
  function Sites(ids: seq<string>, revIdMap: map<string, RevNode>, refsOf: Revision -> seq<CodeRefactoring>): seq<RefSite>
    requires forall k :: 0 <= k < |ids| ==> ids[k] in revIdMap
  {
    if ids == [] then []
    else
      var r := revIdMap[ids[|ids| - 1]];
      Sites(ids[..|ids| - 1], revIdMap, refsOf) + SitesOf(r, refsOf(r.rev))
  }

  /** The sites of a prefix of the ids are a prefix of the sites. */
  lemma {:induction false} SitesPrefix(
    ids: seq<string>, revIdMap: map<string, RevNode>, refsOf: Revision -> seq<CodeRefactoring>, k: nat)
    requires forall k :: 0 <= k < |ids| ==> ids[k] in revIdMap
    requires k <= |ids|
    ensures Sites(ids[..k], revIdMap, refsOf) <= Sites(ids, revIdMap, refsOf)
    decreases |ids|
  {
    if k < |ids| {
      var n := |ids| - 1;
      assert ids[..n][..k] == ids[..k];
      SitesPrefix(ids[..n], revIdMap, refsOf, k);
    } else {
      assert ids[..k] == ids;
    }
  }

  lemma {:induction false} SitesSnoc(ids: seq<string>, revIdMap: map<string, RevNode>, refsOf: Revision -> seq<CodeRefactoring>, k: nat)
    requires forall k :: 0 <= k < |ids| ==> ids[k] in revIdMap
    requires k < |ids|
    ensures Sites(ids[..k + 1], revIdMap, refsOf)
         == Sites(ids[..k], revIdMap, refsOf) + SitesOf(revIdMap[ids[k]], refsOf(revIdMap[ids[k]].rev))
  {
    assert ids[..k + 1][..k] == ids[..k];
  }

  /** The refactorings of the k-th revision come right after those of the earlier revisions, and are among all the refactorings. */
  lemma {:induction false} RevisionSites(
    ids: seq<string>, revIdMap: map<string, RevNode>, refsOf: Revision -> seq<CodeRefactoring>, k: nat)
    requires forall k :: 0 <= k < |ids| ==> ids[k] in revIdMap
    requires k < |ids|
    ensures var r := revIdMap[ids[k]];
      && Sites(ids[..k + 1], revIdMap, refsOf) == Sites(ids[..k], revIdMap, refsOf) + SitesOf(r, refsOf(r.rev))
      && forall q :: 0 <= q < |refsOf(r.rev)| ==> RefSite(r, refsOf(r.rev)[q]) in Sites(ids, revIdMap, refsOf)
  {
    var r := revIdMap[ids[k]];
    var more := SitesOf(r, refsOf(r.rev));
    SitesSnoc(ids, revIdMap, refsOf, k);
    SitesPrefix(ids, revIdMap, refsOf, k + 1);
    InPrefix(Sites(ids[..k], revIdMap, refsOf), more, Sites(ids, revIdMap, refsOf));
    forall q | 0 <= q < |refsOf(r.rev)|
      ensures RefSite(r, refsOf(r.rev)[q]) in Sites(ids, revIdMap, refsOf)
    {
      assert more[q] in more;
    }
  }

  /** What a sequence starting with a + b holds of b. */
  lemma InPrefix<T>(a: seq<T>, b: seq<T>, s: seq<T>)
    requires a + b <= s
    ensures forall x :: x in b ==> x in s
  {
    forall x | x in b
      ensures x in s
    {
      var q :| 0 <= q < |b| && b[q] == x;
      assert s[|a| + q] == (a + b)[|a| + q];
    }
  }

  /**
   * The location id of the pre-image of a refactoring's first left-side location; none when the
   * refactoring has no left-side location, its revision is not the one indexed at its position, or
   * no pre-image exists (and none when some first parent does not come earlier, where the walk
   * would not end).
   */
  ghost function PreImageKey(s: RefSite, m: map<int, RevNode>, table: map<string, FileNode>): Option<string> {
    if !FirstParentsBefore(m) || |s.ref.leftSideLocations| == 0 || s.rev.idx !in m || m[s.rev.idx] != s.rev then None
    else match LastModification(s.ref.leftSideLocations[0].filePath, s.rev, m, table)
      case None => None
      case Some(fn) => Some(fn.LocId())
  }

  /** The index of the tree each of the table's linked nodes was put into, by key. */
  function Owners(table: map<string, FileNode>): (o: map<string, nat>)
    reads table.Values
    ensures forall key :: key in o <==> key in table && table[key].treeId.Some?
    ensures forall key :: key in o ==> o[key] == table[key].treeId.value.asInt
  {
    map key | key in table && table[key].treeId.Some? :: table[key].treeId.value.asInt
  }

  /** The keys of the refactorings as the key table gives them, in order; none for a refactoring it lacks. */
  function Keys(sites: seq<RefSite>, key: map<RefSite, Option<string>>): (r: seq<Option<string>>)
    ensures |r| == |sites|
  {
    if sites == [] then []
    else
      var s := sites[|sites| - 1];
      Keys(sites[..|sites| - 1], key) + [if s in key then key[s] else None]
  }

  /** The k-th key is the key table's entry for the k-th refactoring. */
  lemma {:induction false} KeysAt(sites: seq<RefSite>, key: map<RefSite, Option<string>>, k: nat)
    requires k < |sites| && sites[k] in key
    ensures Keys(sites, key)[k] == key[sites[k]]
    decreases |sites|
  {
    var n := |sites| - 1;
    if k < n {
      KeysAt(sites[..n], key, k);
    }
  }

  lemma {:induction false} KeysAppend(a: seq<RefSite>, b: seq<RefSite>, key: map<RefSite, Option<string>>)
    ensures Keys(a + b, key) == Keys(a, key) + Keys(b, key)
    decreases |b|
  {
    if b == [] {
      assert a + b == a;
    } else {
      var n := |b| - 1;
      assert (a + b)[..|a + b| - 1] == a + b[..n];
      assert (a + b)[|a + b| - 1] == b[n];
      KeysAppend(a, b[..n], key);
    }
  }

  /** The pre-image keys of the refactorings, in order. */
  ghost function PreImageKeys(sites: seq<RefSite>, m: map<int, RevNode>, table: map<string, FileNode>): (r: seq<Option<string>>)
    ensures |r| == |sites|
  {
    if sites == [] then []
    else PreImageKeys(sites[..|sites| - 1], m, table) + [PreImageKey(sites[|sites| - 1], m, table)]
  }

  /** A key table that holds every refactoring's pre-image key gives the pre-image keys. */
  lemma {:induction false} KeysArePreImageKeys(
    sites: seq<RefSite>, key: map<RefSite, Option<string>>, m: map<int, RevNode>, table: map<string, FileNode>)
    requires forall s :: s in sites ==> s in key && key[s] == PreImageKey(s, m, table)
    ensures Keys(sites, key) == PreImageKeys(sites, m, table)
    decreases |sites|
  {
    if sites != [] {
      var n := |sites| - 1;
      assert sites[n] in sites;
      forall s | s in sites[..n]
        ensures s in sites
      {
      }
      KeysArePreImageKeys(sites[..n], key, m, table);
    }
  }

  /** A key occurs among the pre-image keys exactly when some refactoring has it as its pre-image key. */
  lemma {:induction false} PreImageKeysMembers(
    sites: seq<RefSite>, m: map<int, RevNode>, table: map<string, FileNode>, y: Option<string>)
    ensures y in PreImageKeys(sites, m, table) <==> exists s :: s in sites && PreImageKey(s, m, table) == y
    decreases |sites|
  {
    if sites != [] {
      var n := |sites| - 1;
      PreImageKeysMembers(sites[..n], m, table, y);
      assert sites == sites[..n] + [sites[n]];
      assert PreImageKeys(sites, m, table) == PreImageKeys(sites[..n], m, table) + [PreImageKey(sites[n], m, table)];
      if exists s :: s in sites[..n] && PreImageKey(s, m, table) == y {
        var s :| s in sites[..n] && PreImageKey(s, m, table) == y;
        assert s in sites;
      }
      if exists s :: s in sites && PreImageKey(s, m, table) == y {
        var s :| s in sites && PreImageKey(s, m, table) == y;
        if s != sites[n] {
          assert s in sites[..n];
        }
      }
    }
  }

  /** A pre-image key when the node under it belongs to tree j. */
  function LandsAt(key: Option<string>, j: nat, owners: map<string, nat>): set<string> {
    if key.Some? && key.value in owners && owners[key.value] == j then {key.value} else {}
  }

  /** The pre-image keys that go to tree j. */
  function Attached(keys: seq<Option<string>>, j: nat, owners: map<string, nat>): set<string> {
    if keys == [] then {}
    else Attached(keys[..|keys| - 1], j, owners) + LandsAt(keys[|keys| - 1], j, owners)
  }

  lemma {:induction false} AttachedAppend(a: seq<Option<string>>, b: seq<Option<string>>, j: nat, owners: map<string, nat>)
    ensures Attached(a + b, j, owners) == Attached(a, j, owners) + Attached(b, j, owners)
    decreases |b|
  {
    if b == [] {
      assert a + b == a;
    } else {
      var n := |b| - 1;
      assert (a + b)[..|a + b| - 1] == a + b[..n];
      assert (a + b)[|a + b| - 1] == b[n];
      AttachedAppend(a, b[..n], j, owners);
    }
  }

  /** AttachedAppend for every tree below count. */
  lemma AttachedAppendAll(a: seq<Option<string>>, b: seq<Option<string>>, owners: map<string, nat>, count: nat)
    ensures forall j :: 0 <= j < count ==> Attached(a + b, j, owners) == Attached(a, j, owners) + Attached(b, j, owners)
  {
    forall j | 0 <= j < count
      ensures Attached(a + b, j, owners) == Attached(a, j, owners) + Attached(b, j, owners)
    {
      AttachedAppend(a, b, j, owners);
    }
  }

  /** Tree j receives exactly the pre-image keys whose node belongs to it. */
  lemma {:induction false} AttachedMembers(keys: seq<Option<string>>, j: nat, owners: map<string, nat>, x: string)
    ensures x in Attached(keys, j, owners) <==> Some(x) in keys && x in owners && owners[x] == j
    decreases |keys|
  {
    if keys != [] {
      var n := |keys| - 1;
      AttachedMembers(keys[..n], j, owners, x);
      assert keys == keys[..n] + [keys[n]];
    }
  }

  /** The refactoring has the first left- and right-side locations the pass reads. */
  predicate HasSides(s: RefSite) {
    |s.ref.leftSideLocations| > 0 && |s.ref.rightSideLocations| > 0
  }

  /**
   * A pre-image key the pass can follow: the pre-image exists, the table's node under its key was
   * linked into a tree, and that tree id indexes the tree list.
   */
  predicate Owned(key: Option<string>, owners: map<string, nat>, treeCount: nat) {
    key.Some? && key.value in owners && owners[key.value] < treeCount
  }

  /**
   * A key table for the refactorings of the revisions with the given ids: every id is indexed,
   * every entry is that refactoring's pre-image key, and every refactoring has its sides and a
   * key whose node lies in one of the treeCount listed trees.
   */
  ghost predicate KeyTable(
    ids: seq<string>, revIdMap: map<string, RevNode>, refsOf: Revision -> seq<CodeRefactoring>,
    m: map<int, RevNode>, table: map<string, FileNode>, key: map<RefSite, Option<string>>,
    owners: map<string, nat>, treeCount: nat)
  {
    && (forall k :: 0 <= k < |ids| ==> ids[k] in revIdMap)
    && (forall s {:trigger PreImageKey(s, m, table)} :: s in key ==> key[s] == PreImageKey(s, m, table))
    && (forall s :: s in Sites(ids, revIdMap, refsOf) ==> s in key && HasSides(s) && Owned(key[s], owners, treeCount))
  }

  class FileChangeForest {
    var trees: seq<FileTree>
    var fileLocIdToNode: map<string, FileNode>
    const debug: bool
    const revs: RevisionIndex

    /** Every tree's id is its index in the list, so distinct positions hold distinct trees. */
    ghost predicate Valid()
      reads this
    {
      forall j :: 0 <= j < |trees| ==> trees[j].id == j
    }

    /** The tree ids index the list, and the revision index is consistent with first parents earlier. */
    ghost predicate Ready()
      reads this, revs
    {
      Valid() && WellIndexed(revs.revIdxMap, revs.revIdMap) && FirstParentsBefore(revs.revIdxMap)
    }

    /** Indexes revisions 0 .. revCount-1, then builds the lists. */
    constructor (cr: seq<Revision>, revCount: nat, debug: bool, linkAll: LocIdLink)
      requires revCount <= |cr|
      ensures fresh(revs) && this.debug == debug
      ensures Indexed(cr, revCount, revs.nContributor, revs.revIdxMap, revs.revIdMap)
      ensures WellIndexed(revs.revIdxMap, revs.revIdMap)
      ensures ParentsPrecede(cr) ==> FirstParentsBefore(revs.revIdxMap)
      ensures fileLocIdToNode == Lists(map[], revs.revIdxMap, linkAll).claimed
      ensures TreesHold(trees, Lists(map[], revs.revIdxMap, linkAll).kept)
      ensures Valid()
    {
      revs := new RevisionIndex(cr, revCount);
      this.debug := debug;
      trees := [];
      fileLocIdToNode := map[];
      new;
      UpdateLists(linkAll);
      ListsTreeIdsAreIndices(map[], revs.revIdxMap, linkAll, trees);
    }

    /** The table and the tree list as the sweep state sp describes them. */
    ghost predicate Mirrors(sp: Sweep<string, FileNode>)
      reads this
    {
      fileLocIdToNode == sp.claimed && TreesHold(trees, sp.kept)
    }

    /**
     * Revisions from the highest position down to 0, each revision's Java file versions in order:
     * a version whose location id is not in the table seeds a tree numbered by the list's length,
     * and the tree is appended when linking succeeds.
     */
    method UpdateLists(linkAll: LocIdLink)
      requires trees == []
      requires Contiguous(revs.revIdxMap)
      modifies this`trees, this`fileLocIdToNode
      ensures fileLocIdToNode == Lists(old(fileLocIdToNode), revs.revIdxMap, linkAll).claimed
      ensures TreesHold(trees, Lists(old(fileLocIdToNode), revs.revIdxMap, linkAll).kept)
    {
      ghost var s0 := Sweep(fileLocIdToNode, [], 0);
      var m := revs.revIdxMap;
      var i := |m|;
      ghost var sp := s0;
      while i > 0
        invariant 0 <= i <= |m|
        invariant sp == Run(s0, JavaNewestFirst(m, |m|, i), LocIdKey, linkAll, KeptOnly)
        invariant Mirrors(sp)
      {
        i := i - 1;
        var r := m[i];
        var java := JavaFileNodes(r.fileNodes);
        SeedRevision(java, linkAll, sp);
        RunAppend(s0, JavaNewestFirst(m, |m|, i + 1), java, LocIdKey, linkAll, KeptOnly);
        sp := Run(sp, java, LocIdKey, linkAll, KeptOnly);
      }
    }

    /** The Java file versions of one revision, in order. */
    method SeedRevision(java: seq<FileNode>, linkAll: LocIdLink, ghost sp: Sweep<string, FileNode>)
      requires Mirrors(sp)
      modifies this`trees, this`fileLocIdToNode
      ensures Mirrors(Run(sp, java, LocIdKey, linkAll, KeptOnly))
    {
      ghost var cur := sp;
      for j := 0 to |java|
        invariant cur == Run(sp, java[..j], LocIdKey, linkAll, KeptOnly)
        invariant Mirrors(cur)
      {
        var fn := java[j];
        RunSnoc(sp, java[..j], fn, LocIdKey, linkAll, KeptOnly);
        assert java[..j + 1] == java[..j] + [fn];
        SeedFrom(fn, linkAll, cur);
        cur := Step(cur, fn, LocIdKey, linkAll, KeptOnly);
      }
      assert java[..|java|] == java;
    }

    /** One candidate: seed, link and keep, or skip a version whose location id is taken. */
    method SeedFrom(fn: FileNode, linkAll: LocIdLink, ghost sp: Sweep<string, FileNode>)
      requires Mirrors(sp)
      modifies this`trees, this`fileLocIdToNode
      ensures Mirrors(Step(sp, fn, LocIdKey, linkAll, KeptOnly))
    {
      if fn.LocId() !in fileLocIdToNode {
        var tree := new FileTree(fn, |trees|);
        var o := linkAll(fn, fileLocIdToNode);
        ghost var next := Step(sp, fn, LocIdKey, linkAll, KeptOnly);
        assert next.claimed == sp.claimed + o.claims;
        assert next.kept == if o.ok then sp.kept + [Kept(fn, |sp.kept|)] else sp.kept;
        fileLocIdToNode := fileLocIdToNode + o.claims;
        if o.ok {
          trees := trees + [tree];
        }
      }
    }

    /** The node registered for the first changed file of r named path, if there is one. */
    method GetFileNodeFrom(path: string, r: RevNode) returns (fn: Option<FileNode>)
      ensures fn == NodeFrom(path, r, fileLocIdToNode)
    {
      var files := r.rev.files;
      for k := 0 to |files|
        invariant forall j :: 0 <= j < k ==> files[j].name != path
      {
        if files[k].name == path {
          var id := LocId(files[k].revisionIdx, files[k].fileIdx);
          if id in fileLocIdToNode {
            return Some(fileLocIdToNode[id]);
          }
          return None;
        }
      }
      return None;
    }

    /**
     * r's own node for path when its record is ADDED; otherwise the first-parent chain is walked
     * up, returning the first node found, or none at a revision without parents.
     */
    method FindLastModification(path: string, r: RevNode) returns (fn: Option<FileNode>)
      requires WellIndexed(revs.revIdxMap, revs.revIdMap) && FirstParentsBefore(revs.revIdxMap)
      requires r.idx in revs.revIdxMap && revs.revIdxMap[r.idx] == r
      ensures fn == LastModification(path, r, revs.revIdxMap, fileLocIdToNode)
    {
      var m := revs.revIdxMap;
      fn := GetFileNodeFrom(path, r);
      if fn.Some? && fn.value.cf.change == ADDED {
        return;
      }
      var cur := r;
      var found := false;
      while !found
        invariant cur.idx in m && m[cur.idx] == cur
        invariant !found ==> WalkFrom(path, r.idx, m, fileLocIdToNode) == WalkFrom(path, cur.idx, m, fileLocIdToNode)
        invariant found ==> fn == WalkFrom(path, r.idx, m, fileLocIdToNode)
        decreases !found, cur.idx
      {
        if |cur.rev.parents| == 0 {
          fn := None;
          found := true;
        } else {
          var p := cur.rev.parents[0];
          cur := m[p];
          fn := GetFileNodeFrom(path, cur);
          found := fn.Some?;
        }
      }
    }

    /**
     * For each revision id in turn, each refactoring of that revision: the pre-image of its first
     * left-side location is looked up, and its location id is added to the reference locations of
     * the tree that the table's node under that id was linked into.
     */
    method UpdateRefLists(
      refRevIds: seq<string>, refTypes: Option<set<string>>,
      codeChange: Revision -> seq<CodeRefactoring>, predicted: (Revision, set<string>) -> seq<CodeRefactoring>)
      requires Valid()
      requires WellIndexed(revs.revIdxMap, revs.revIdMap) && FirstParentsBefore(revs.revIdxMap)
      requires forall k :: 0 <= k < |refRevIds| ==> refRevIds[k] in revs.revIdMap
      requires forall s :: s in Sites(refRevIds, revs.revIdMap, Source(refTypes, codeChange, predicted)) ==>
        HasSides(s) && Owned(PreImageKey(s, revs.revIdxMap, fileLocIdToNode), Owners(fileLocIdToNode), |trees|)
      modifies trees
      ensures forall j :: 0 <= j < |trees| ==>
        trees[j].refLocs == old(trees[j].refLocs)
          + Attached(PreImageKeys(Sites(refRevIds, revs.revIdMap, Source(refTypes, codeChange, predicted)), revs.revIdxMap, fileLocIdToNode), j, Owners(fileLocIdToNode))
    {
      var refsOf := Source(refTypes, codeChange, predicted);
      ghost var m, table := revs.revIdxMap, fileLocIdToNode;
      ghost var sites := Sites(refRevIds, revs.revIdMap, refsOf);
      ghost var key := map s | s in sites :: PreImageKey(s, m, table);
      ghost var owners := Owners(fileLocIdToNode);
      KeysArePreImageKeys(sites, key, m, table);
      AttachAll(refRevIds, refsOf, owners, m, table, key);
      assert owners == Owners(fileLocIdToNode);
      assert m == revs.revIdxMap && table == fileLocIdToNode && sites == Sites(refRevIds, revs.revIdMap, refsOf);
    }

    /** The trees' reference locations, in list order. */
    ghost function RefLocs(): (locs: seq<set<string>>)
      reads this, trees
      ensures |locs| == |trees| && forall j :: 0 <= j < |trees| ==> locs[j] == trees[j].refLocs
    {
      seq(|trees|, j requires 0 <= j < |trees| reads this, trees => trees[j].refLocs)
    }

    /** Each tree's reference locations are those in before plus the keys that go to it. */
    ghost predicate AttachedSince(before: seq<set<string>>, keys: seq<Option<string>>, owners: map<string, nat>)
      reads this, trees
    {
      |before| == |trees| && forall j :: 0 <= j < |trees| ==> trees[j].refLocs == before[j] + Attached(keys, j, owners)
    }

    /** The revisions with the given ids, in order; key gives each refactoring's pre-image key. */
    method AttachAll(
      ids: seq<string>, refsOf: Revision -> seq<CodeRefactoring>,
      ghost owners: map<string, nat>, ghost m: map<int, RevNode>, ghost table: map<string, FileNode>,
      ghost key: map<RefSite, Option<string>>)
      requires Ready()
      requires owners == Owners(fileLocIdToNode) && m == revs.revIdxMap && table == fileLocIdToNode
      requires KeyTable(ids, revs.revIdMap, refsOf, m, table, key, owners, |trees|)
      modifies trees
      ensures forall j :: 0 <= j < |trees| ==>
        trees[j].refLocs == old(trees[j].refLocs) + Attached(Keys(Sites(ids, revs.revIdMap, refsOf), key), j, owners)
      ensures owners == Owners(fileLocIdToNode)
    {
      var revIdMap := revs.revIdMap;
      ghost var before := RefLocs();
      for k := 0 to |ids|
        invariant owners == Owners(fileLocIdToNode)
        invariant AttachedSince(before, Keys(Sites(ids[..k], revIdMap, refsOf), key), owners)
      {
        AttachRevision(ids, k, revIdMap, refsOf, owners, m, table, key, before);
      }
      assert ids[..|ids|] == ids;
    }

    /** The refactorings of the k-th revision among the given ones, after those of the revisions before it. */
    method AttachRevision(
      ids: seq<string>, k: nat, revIdMap: map<string, RevNode>, refsOf: Revision -> seq<CodeRefactoring>,
      ghost owners: map<string, nat>, ghost m: map<int, RevNode>, ghost table: map<string, FileNode>,
      ghost key: map<RefSite, Option<string>>, ghost before: seq<set<string>>)
      requires Ready() && revIdMap == revs.revIdMap
      requires owners == Owners(fileLocIdToNode) && m == revs.revIdxMap && table == fileLocIdToNode
      requires KeyTable(ids, revIdMap, refsOf, m, table, key, owners, |trees|) && k < |ids|
      requires AttachedSince(before, Keys(Sites(ids[..k], revIdMap, refsOf), key), owners)
      modifies trees
      ensures AttachedSince(before, Keys(Sites(ids[..k + 1], revIdMap, refsOf), key), owners)
      ensures owners == Owners(fileLocIdToNode)
    {
      var r := revIdMap[ids[k]];
      var refs := refsOf(r.rev);
      ghost var done := Keys(Sites(ids[..k], revIdMap, refsOf), key);
      RevisionSites(ids, revIdMap, refsOf, k);
      AttachRefs(r, refs, owners, m, table, key);
      AttachedAppendAll(done, Keys(SitesOf(r, refs), key), owners, |trees|);
      KeysAppend(Sites(ids[..k], revIdMap, refsOf), SitesOf(r, refs), key);
    }

    /** The refactorings of one revision, in order; key gives their pre-image keys. */
    method AttachRefs(
      r: RevNode, refs: seq<CodeRefactoring>, ghost owners: map<string, nat>,
      ghost m: map<int, RevNode>, ghost table: map<string, FileNode>, ghost key: map<RefSite, Option<string>>)
      requires Ready()
      requires owners == Owners(fileLocIdToNode) && m == revs.revIdxMap && table == fileLocIdToNode
      requires r.idx in m && m[r.idx] == r
      requires forall s {:trigger PreImageKey(s, m, table)} :: s in key ==> key[s] == PreImageKey(s, m, table)
      requires forall q :: 0 <= q < |refs| ==>
        RefSite(r, refs[q]) in key && HasSides(RefSite(r, refs[q])) && Owned(key[RefSite(r, refs[q])], owners, |trees|)
      modifies trees
      ensures forall j :: 0 <= j < |trees| ==> trees[j].refLocs == old(trees[j].refLocs) + Attached(Keys(SitesOf(r, refs), key), j, owners)
      ensures owners == Owners(fileLocIdToNode)
    {
      ghost var keys := Keys(SitesOf(r, refs), key);
      for q := 0 to |refs|
        invariant owners == Owners(fileLocIdToNode)
        invariant forall j :: 0 <= j < |trees| ==> trees[j].refLocs == old(trees[j].refLocs) + Attached(keys[..q], j, owners)
      {
        var site := RefSite(r, refs[q]);
        KeysAt(SitesOf(r, refs), key, q);
        assert keys[q] == key[site] == PreImageKey(site, m, table);
        AttachOne(site, owners, keys[q]);
        assert keys[..q + 1][..q] == keys[..q];
      }
      assert keys[..|refs|] == keys;
    }

    /** One refactoring: its pre-image's location id goes to the tree that the table's node under that id belongs to. */
    method AttachOne(site: RefSite, ghost owners: map<string, nat>, ghost key: Option<string>)
      requires Ready()
      requires owners == Owners(fileLocIdToNode)
      requires site.rev.idx in revs.revIdxMap && revs.revIdxMap[site.rev.idx] == site.rev
      requires key == PreImageKey(site, revs.revIdxMap, fileLocIdToNode)
      requires HasSides(site) && Owned(key, owners, |trees|)
      modifies trees
      ensures forall j :: 0 <= j < |trees| ==> trees[j].refLocs == old(trees[j].refLocs) + LandsAt(key, j, owners)
      ensures owners == Owners(fileLocIdToNode)
    {
      var beforeFilePath := site.ref.leftSideLocations[0].filePath;
      var fileBefore := FindLastModification(beforeFilePath, site.rev);
      var afterFilePath := site.ref.rightSideLocations[0].filePath;
      var fileAfter := GetFileNodeFrom(afterFilePath, site.rev);
      var loc := fileBefore.value.LocId();
      var treeIdx := fileLocIdToNode[loc].treeId.value.asInt;
      var tree := trees[treeIdx];
      tree.refLocs := tree.refLocs + {loc};
    }
  }
}
