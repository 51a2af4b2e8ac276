/**
 * The declaration- and field-version nodes, as far as the file-level code, the method nodes and
 * the location tables use them: a node is its location and the syntax it wraps.
 */
module DeclNodes {
  import opened Ast
  import opened Locations

  class DeclNode {
    const loc: DeclLocation
    const decl: Decl

    constructor (loc: DeclLocation, decl: Decl)
      ensures this.loc == loc && this.decl == decl
    {
      this.loc := loc;
      this.decl := decl;
    }
  }

  class FieldNode {
    const loc: FieldLocation
    const field: Variable

    constructor (loc: FieldLocation, field: Variable)
      ensures this.loc == loc && this.field == field
    {
      this.loc := loc;
      this.field := field;
    }
  }
}

/** Java's 32-bit int arithmetic, used by the hash codes. */
module Int32 {
  const Two32: int := 0x1_0000_0000
  const Two31: int := 0x8000_0000

  predicate InRange(x: int) {
    -Two31 <= x < Two31
  }

  /** The value a Java int holds after an arithmetic result x wraps around. */
  function Wrap(x: int): (r: int)
    ensures InRange(r)
    ensures (r - x) % Two32 == 0
  {
    (x + Two31) % Two32 - Two31
  }
}

/**
 * One version of one file: the changed-file record it wraps and its location. Identity is the
 * location: two nodes with the same location are equal whatever else they hold.
 */
module FileNodes {
  import opened Base
  import opened Locations
  import opened Repository
  import opened DeclNodes
  import Int32

  /** The id of the lineage tree a node was linked into. */
  datatype TreeObjectId = TreeObjectId(asInt: nat)

  /** A structural change record attached by the AST-change pass (its content is not modelled). */
  datatype ASTChange = ASTChange(kind: ChangeKind)

  /** An accepted refactoring record. */
  datatype RefactoringBond = RefactoringBond(ref: CodeRefactoring)

  /** The bonds of one revision, each with its index in the global bond list. */
  datatype IndexedBond = IndexedBond(bond: RefactoringBond, index: nat)

  /** FileLocation.hashCode in the usual 31-multiplier form, with Java's int wrap-around. */
  function LocationHash(l: FileLocation): int {
    Int32.Wrap(31 * Int32.Wrap(31 + l.revIdx) + l.fileIdx)
  }

  class FileNode {
    const cf: ChangedFile
    const rev: Revision
    const loc: FileLocation
    var treeId: Option<TreeObjectId>
    var prevLocs: seq<FileLocation>
    var leftRefBonds: seq<IndexedBond>
    var rightRefBonds: seq<IndexedBond>
    var astChanges: seq<ASTChange>
    // Read by the file-forest passes of the later code generation; FileNode.java does not declare them.
    var firstParent: FileNode?
    var secondParent: FileNode?
    var declChanges: seq<DeclNode>

    /** A node at an explicit location. */
    constructor WithLocation(cf: ChangedFile, rev: Revision, loc: FileLocation)
      ensures this.cf == cf && this.rev == rev && this.loc == loc
      ensures Fresh()
    {
      this.cf := cf;
      this.rev := rev;
      this.loc := loc;
      treeId := None;
      prevLocs := [];
      leftRefBonds := [];
      rightRefBonds := [];
      astChanges := [];
      firstParent := null;
      secondParent := null;
      declChanges := [];
    }

    /** A node whose location is read off its changed-file record. */
    constructor (cf: ChangedFile, rev: Revision)
      ensures this.cf == cf && this.rev == rev
      ensures loc == FileLocation(cf.revisionIdx, cf.fileIdx)
      ensures RevIdx() == loc.revIdx && FileIdx() == loc.fileIdx
      ensures Fresh()
    {
      this.cf := cf;
      this.rev := rev;
      this.loc := FileLocation(cf.revisionIdx, cf.fileIdx);
      treeId := None;
      prevLocs := [];
      leftRefBonds := [];
      rightRefBonds := [];
      astChanges := [];
      firstParent := null;
      secondParent := null;
      declChanges := [];
    }

    /** The state of a node that no pass has touched yet. */
    ghost predicate Fresh()
      reads this
    {
      treeId == None && prevLocs == [] && astChanges == [] && leftRefBonds == [] && rightRefBonds == []
      && firstParent == null && secondParent == null
    }

    function RevIdx(): nat {
      cf.revisionIdx
    }

    function FileIdx(): nat {
      cf.fileIdx
    }

    /** The key "revIdx fileIdx" under which the older forest registers this node. */
    function LocId(): string {
      Base.LocId(loc.revIdx, loc.fileIdx)
    }

    function GetTreeObjectId(): Option<TreeObjectId>
      reads this
    {
      treeId
    }

    function GetListId(): (r: Option<TreeObjectId>)
      reads this
      ensures r == GetTreeObjectId()
    {
      treeId
    }

    method SetTreeObjectId(t: Option<TreeObjectId>)
      modifies this`treeId
      ensures treeId == t
    {
      treeId := t;
    }

    predicate HasFirstParent()
      reads this
    {
      firstParent != null
    }

    predicate HasSecondParent()
      reads this
    {
      secondParent != null
    }

    function ASTChangeCount(): nat
      reads this
    {
      |astChanges|
    }

    /** Equality by location only. */
    predicate Equals(other: FileNode?)
      ensures Equals(other) <==> other != null && other.loc == loc
    {
      this == other || (other != null && loc == other.loc)
    }

    function HashCode(): (h: int)
      ensures Int32.InRange(h)
    {
      Int32.Wrap(31 * 1 + LocationHash(loc))
    }
  }

  /** Nodes at the same location are equal and hash alike, whatever records they wrap. */
  lemma SameLocationSameNode(a: FileNode, b: FileNode)
    requires a.loc == b.loc
    ensures a.Equals(b) && b.Equals(a)
    ensures a.HashCode() == b.HashCode()
  {
  }

  /** Equality is decided by the location alone. */
  lemma EqualsIsLocationEquality(a: FileNode, b: FileNode)
    ensures a.Equals(b) <==> a.loc == b.loc
  {
  }

  /** Two nodes built from changed-file records get the same key exactly when their locations agree. */
  lemma LocIdIdentifiesLocation(a: FileNode, b: FileNode)
    ensures a.LocId() == b.LocId() <==> a.loc == b.loc
  {
    LocIdInjective(a.loc.revIdx, a.loc.fileIdx, b.loc.revIdx, b.loc.fileIdx);
  }
}
