/**
 * One version of one method inside a declaration version. As for files, identity is the location:
 * the containing declaration's location extended with the method's index.
 */
module MethodNodes {
  import opened Locations
  import opened DeclNodes
  import Int32
  import FileNodes

  function DeclLocationHash(l: DeclLocation): int {
    Int32.Wrap(31 * Int32.Wrap(31 + FileNodes.LocationHash(l.fileLoc)) + l.idx)
  }

  function MethodLocationHash(l: MethodLocation): int {
    Int32.Wrap(31 * Int32.Wrap(31 + DeclLocationHash(l.declLoc)) + l.idx)
  }

  class ChangedMethodNode {
    const signature: string
    const declNode: DeclNode
    const loc: MethodLocation
    var firstParent: ChangedMethodNode?
    var secondParent: ChangedMethodNode?

    /** A node at an explicit location. */
    constructor WithLocation(sig: string, declNode: DeclNode, loc: MethodLocation)
      ensures signature == sig && this.declNode == declNode && this.loc == loc
      ensures !HasFirstParent() && !HasSecondParent()
    {
      signature := sig;
      this.declNode := declNode;
      this.loc := loc;
      firstParent := null;
      secondParent := null;
    }

    /** The size-th method node of its declaration version. */
    constructor (sig: string, declNode: DeclNode, size: nat)
      ensures signature == sig && this.declNode == declNode
      ensures loc == MethodLocation(declNode.loc, size)
      ensures !HasFirstParent() && !HasSecondParent()
    {
      signature := sig;
      this.declNode := declNode;
      this.loc := MethodLocation(declNode.loc, size);
      firstParent := null;
      secondParent := null;
    }

    /** Equality by location only. */
    predicate Equals(other: ChangedMethodNode?)
      ensures Equals(other) <==> other != null && other.loc == loc
    {
      this == other || (other != null && loc == other.loc)
    }

    function HashCode(): (h: int)
      ensures Int32.InRange(h)
    {
      Int32.Wrap(31 * 1 + MethodLocationHash(loc))
    }

    predicate HasFirstParent()
      reads this
    {
      firstParent != null
    }

    predicate HasSecondParent()
      reads this
    {
      secondParent != null
    }

    method SetFirstParent(p: ChangedMethodNode?)
      modifies this`firstParent
      ensures firstParent == p
      ensures HasFirstParent() <==> p != null
    {
      firstParent := p;
    }

    method SetSecondParent(p: ChangedMethodNode?)
      modifies this`secondParent
      ensures secondParent == p
      ensures HasSecondParent() <==> p != null
    {
      secondParent := p;
    }
  }

  /** Nodes at the same location are equal and hash alike, whatever signature or declaration they carry. */
  lemma SameLocationSameNode(a: ChangedMethodNode, b: ChangedMethodNode)
    requires a.loc == b.loc
    ensures a.Equals(b) && b.Equals(a)
    ensures a.HashCode() == b.HashCode()
  {
  }
}
