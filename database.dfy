/**
 * The shared store of the later code generation: the revision index and the location-keyed tables
 * of file, declaration, method and field versions, the accepted refactoring bonds, the refactoring
 * types to accept and the file forest's tree table.
 */
module Database {
  import opened Locations
  import opened Repository
  import opened FileNodes
  import opened DeclNodes
  import opened MethodNodes
  import opened Revisions
  import opened Trees

  class ChangeDataBase {
    const revs: RevisionIndex
    var fileDB: map<FileLocation, FileNode>
    var refDB: seq<RefactoringBond>
    var declDB: map<DeclLocation, DeclNode>
    var methodDB: map<MethodLocation, ChangedMethodNode>
    var fieldDB: map<FieldLocation, FieldNode>
    var refTypes: set<string>
    var fileForest: map<int, FileTree>

    /** Indexes revisions 0 .. revCount-1 in order; every other table starts empty. */
    constructor (cr: seq<Revision>, revCount: nat, refTypes: set<string>)
      requires revCount <= |cr|
      ensures fresh(revs)
      ensures Indexed(cr, revCount, revs.nContributor, revs.revIdxMap, revs.revIdMap)
      ensures WellIndexed(revs.revIdxMap, revs.revIdMap)
      ensures ParentsPrecede(cr) ==> FirstParentsBefore(revs.revIdxMap)
      ensures fileDB == map[] && refDB == [] && declDB == map[] && methodDB == map[] && fieldDB == map[]
      ensures fileForest == map[] && this.refTypes == refTypes
    {
      revs := new RevisionIndex(cr, revCount);
      fileDB := map[];
      refDB := [];
      declDB := map[];
      methodDB := map[];
      fieldDB := map[];
      this.refTypes := refTypes;
      fileForest := map[];
    }
  }
}
