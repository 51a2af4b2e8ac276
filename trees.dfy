/**
 * Lineage trees as the builders hold them: each tree knows the entity version it was seeded from
 * and its id. How a tree links the older versions of its seed is not part of this model; the
 * builders receive it as a function of the seed and the claim table.
 */
module Trees {
  import opened FileNodes
  import opened DeclNodes

  class FileTree {
    const seed: FileNode
    const id: nat
    /** Keys "revIdx fileIdx" of the pre-images of refactorings that touch this tree. */
    var refLocs: set<string>

    constructor (seed: FileNode, id: nat)
      ensures this.seed == seed && this.id == id && refLocs == {}
    {
      this.seed := seed;
      this.id := id;
      refLocs := {};
    }
  }

  class DeclTree {
    const seed: DeclNode
    const id: nat

    constructor (seed: DeclNode, id: nat)
      ensures this.seed == seed && this.id == id
    {
      this.seed := seed;
      this.id := id;
    }
  }
}
