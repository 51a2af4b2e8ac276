# Boa change lineage, data-dependence graphs and class metrics in Dafny

This project models three parts of the Boa compiler's runtime library and proves properties about them.

- **Entity lineage** (`boa.functions.code.change`). The revision index gives each revision a position and a running count of distinct contributors. The forest builders walk file and declaration versions newest first. They seed a lineage tree only from a version nobody has claimed yet, and keep the tree when linking succeeds. The pre-image search follows first parents to the nearest revision that touched a path. Refactoring bonds are registered and numbered by their position in the bond list. The AST-change pass records the comparisons it makes. Declarations are collected in pre-order. File and method nodes are identified by their location.
- **Data-dependence graph** (`DDG.java`). A live-variable transfer and its fixpoint test run over a control-flow graph. Def-use chains and labelled edges are formed from the live pairs. The entry node is linked to every node nothing else reaches. Graph nodes are deduplicated by id.
- **Class metrics** (`BoaMetricIntrinsics.java`): NOA, NOO, NPM, WMC, NOC, RFC and CBO.

The code changes state step by step, and the model keeps that form:
- classes with `modifies` frames;
- loops with invariants;
- each method proved against a pure specification function;
- lemmas stating what the specification functions mean.

The modules follow the source:
- `Base`: option type, decimal text of indices, location ids.
- `Ast` and `Repository`: syntax-tree and revision records.
- `Locations`: locations and their newest-first order.
- `Revisions`: revision index.
- `Database`: the store behind the forests.
- `DeclNodes`, `Int32`, `FileNodes`, `MethodNodes`: nodes and Java `int` hashing.
- `Trees`: the lineage-tree objects.
- `Lineage`: the seeding sweep the three builders share.
- `FileChangeForests`, `FileForests`, `DeclChangeForests`: the three builders.
- `DataDependence`: the DDG.
- `Visits`: the traversal order of a visitor.
- `Metrics`: all metrics but WMC.
- `Complexity`: WMC.

The two code generations in the package are modelled as written:
- `FileChangeForest` keys file versions by the string "revisionIdx fileIdx" and numbers trees by list size.
- `FileForest` keys them by location in an ordered map and numbers trees with a counter that advances on every seed.

The `Lineage` module proves the difference. It holds a discarded seed's id:
- under the counter policy, that id is skipped and leaves a gap;
- under the list-size policy, it is reused.

Where the source's own comments and the code disagree, the model follows the code:
- The comments at src/java/boa/graphs/ddg/DDG.java:111 and :125 give the textbook equations: out is the union of the successors' in sets, and in is the uses joined with out minus the definition. The code instead adds to the in and out sets already stored for a node and does not recompute them from scratch.
- WMC reaches below a method's top-level statements, and into the methods of local and anonymous classes (see Findings). The comment at src/java/boa/functions/BoaMetricIntrinsics.java:172 calls it the sum of the methods' cyclomatic complexities.

## Model

| member | source | states |
|---|---|---|
| Base.NatToString | src/java/boa/functions/code/change/FileChangeForest.java:105 | the decimal text of an index is a non-empty string of digits |
| Base.ParseNatToString | src/java/boa/functions/code/change/FileChangeForest.java:105 | reading back the decimal text of an index gives that index |
| Base.NatToStringInjective | src/java/boa/functions/code/change/FileChangeForest.java:105 | distinct indices have distinct decimal texts |
| Base.LocIdInjective | src/java/boa/functions/code/change/FileChangeForest.java:105 | two "revisionIdx fileIdx" keys are equal exactly when both indices are equal |
| Locations.Descending | src/java/boa/functions/code/change/file/FileForest.java:76 | the descending iteration of a location-keyed table is strictly descending and lists every key exactly once |
| Locations.DescendingUnique | src/java/boa/functions/code/change/declaration/DeclChangeForest.java:30 | there is only one strictly descending listing of a key set, so every pass over the table sees the same order |
| Revisions.NewRevNode | src/java/boa/functions/code/change/ChangeDataBase.java:57 | a new revision node records its position, its revision and the contributor count. It has one fresh file node per changed file, located at that file's (revisionIdx, fileIdx) |
| Revisions.ContributorsStep | src/java/boa/functions/code/change/ChangeDataBase.java:56-57 | from one revision to the next, the contributor count stays the same or grows by one |
| Revisions.ContributorsGrowOnNewAuthor | src/java/boa/functions/code/change/ChangeDataBase.java:56-57 | the count grows exactly when the revision's author has not been seen before |
| Revisions.ContributorsMonotone | src/java/boa/functions/code/change/ChangeDataBase.java:56-57 | counts never decrease along positions, and grow by at most the distance between two positions |
| Revisions.IndexedStep | src/java/boa/functions/code/change/ChangeDataBase.java:55-59 | indexing the next position keeps the index invariant: positions 0..n are stored, each with its revision and its count of distinct authors so far, and the id map agrees |
| Revisions.PositionsStep | src/java/boa/functions/code/change/ChangeDataBase.java:57-58 | storing the node for the next position keeps every stored position's node right |
| Revisions.IdsStep | src/java/boa/functions/code/change/ChangeDataBase.java:57-59 | storing the node under its id keeps every id mapped to a node that the position map holds for that id |
| Revisions.IndexedCountsMonotone | src/java/boa/functions/code/change/ChangeDataBase.java:45-46 | the stored counts are non-decreasing in position, with at most one more per position |
| Revisions.UniqueIdsAgree | src/java/boa/functions/code/change/ChangeDataBase.java:57-59 | when revision ids are distinct, the id map and the position map hold the same node for each revision |
| Revisions.RevisionIndex.constructor | src/java/boa/functions/code/change/ChangeDataBase.java:44-47 | after construction, exactly positions 0..revCount-1 are indexed with their revisions and running contributor counts. When parents come earlier in the revision list, every first parent is indexed before its child |
| Revisions.RevisionIndex.GetRev | src/java/boa/functions/code/change/ChangeDataBase.java:52-61 | an indexed position returns the stored node and changes nothing. Otherwise the author is added, and the new node, with count equal to the number of authors so far, is stored under the position and under the id |
| Database.ChangeDataBase.constructor | src/java/boa/functions/code/change/ChangeDataBase.java:44-47 | the store's revision index is built over positions 0..revCount-1, and its file, declaration, method, field and bond tables start empty |
| Int32.Wrap | src/java/boa/functions/code/change/FileNode.java:78-84 | Java int arithmetic: the result is in the 32-bit range and congruent to the exact value modulo 2^32 |
| FileNodes.FileNode.WithLocation | src/java/boa/functions/code/change/FileNode.java:22-26 | the node holds the given record, revision and location, with no tree id, no parents and empty lists |
| FileNodes.FileNode.constructor | src/java/boa/functions/code/change/FileNode.java:28-32 | the location is (revisionIdx, fileIdx) of the changed file, so RevIdx and FileIdx agree with it; the node starts untouched |
| FileNodes.FileNode.GetListId | src/java/boa/functions/code/change/FileNode.java:62-64 | the list id is always the tree id |
| FileNodes.FileNode.SetTreeObjectId | src/java/boa/functions/code/change/FileNode.java:50-52 | sets the tree id and changes no other field |
| FileNodes.FileNode.Equals | src/java/boa/functions/code/change/FileNode.java:86-101 | a node equals another exactly when the other is non-null and has the same location |
| FileNodes.FileNode.HashCode | src/java/boa/functions/code/change/FileNode.java:78-84 | the hash is a Java int computed from the location alone |
| FileNodes.SameLocationSameNode | src/java/boa/functions/code/change/FileNode.java:78-101 | nodes with the same location are equal both ways and hash alike, whatever records they wrap |
| FileNodes.EqualsIsLocationEquality | src/java/boa/functions/code/change/FileNode.java:86-101 | equality of two nodes is equality of their locations |
| FileNodes.LocIdIdentifiesLocation | src/java/boa/functions/code/change/FileChangeForest.java:105 | two nodes have the same location id exactly when their locations are equal |
| MethodNodes.ChangedMethodNode.WithLocation | src/java/boa/functions/code/change/method/ChangedMethodNode.java:13-17 | the node holds the given signature, declaration and location and has no parents |
| MethodNodes.ChangedMethodNode.constructor | src/java/boa/functions/code/change/method/ChangedMethodNode.java:19-23 | the location is (declaration's location, size), and the node has no parents |
| MethodNodes.ChangedMethodNode.Equals | src/java/boa/functions/code/change/method/ChangedMethodNode.java:41-56 | equal exactly when the other is non-null and has the same location |
| MethodNodes.ChangedMethodNode.HashCode | src/java/boa/functions/code/change/method/ChangedMethodNode.java:33-39 | the hash is a Java int computed from the location alone |
| MethodNodes.ChangedMethodNode.SetFirstParent | src/java/boa/functions/code/change/method/ChangedMethodNode.java:75-85 | sets the first parent only; afterwards hasFirstParent holds exactly when it is non-null |
| MethodNodes.ChangedMethodNode.SetSecondParent | src/java/boa/functions/code/change/method/ChangedMethodNode.java:67-69 | sets the second parent only; afterwards hasSecondParent holds exactly when it is non-null |
| MethodNodes.SameLocationSameNode | src/java/boa/functions/code/change/method/ChangedMethodNode.java:33-56 | method nodes with the same location are equal both ways and hash alike |
| Trees.FileTree.constructor | src/java/boa/functions/code/change/FileChangeForest.java:48 | a tree starts from its seed with its id and no reference locations |
| Trees.DeclTree.constructor | src/java/boa/functions/code/change/declaration/DeclChangeForest.java:36 | a declaration tree starts from its seed with its id |
| Lineage.RunExtends | src/java/boa/functions/code/change/FileChangeForest.java:44-53 | as the sweep goes on, claims are never dropped and the trees kept so far stay a prefix |
| Lineage.SeedsWereUnclaimed | src/java/boa/functions/code/change/FileChangeForest.java:47-50 | every kept tree was seeded from a candidate whose key was unclaimed just before it, and whose linking succeeded |
| Lineage.KeptOnlyIdIsIndex | src/java/boa/functions/code/change/FileChangeForest.java:48-50 | when ids are taken from the list size, every kept tree's id is its index in the list, and no id is used up by a discarded seed |
| Lineage.EverySeedIdsIncrease | src/java/boa/functions/code/change/file/FileForest.java:42-44 | when ids come from a counter bumped on every seed, the counter advances by the number of seeds, and kept ids only increase and stay below the counter |
| Lineage.SeedsDistinct | src/java/boa/functions/code/change/declaration/DeclChangeForest.java:33-38 | when linking claims the seed's own key, no two kept trees share a seed key. Every seed key ends up claimed, and none was claimed before the sweep |
| Lineage.SeedIsUnclaimedBefore | src/java/boa/functions/code/change/file/FileForest.java:39 | the sweep only adds claims: every key claimed at the start is still claimed at the end |
| Lineage.SeedTableOfIncreasing | src/java/boa/functions/code/change/file/FileForest.java:42-44 | with increasing ids, the table keyed by id holds every kept tree under its own id and nothing else, one entry per tree |
| Lineage.EverySeedLeavesGaps | src/java/boa/functions/code/change/file/FileForest.java:42 | with the counter, a seed whose linking fails uses up its id: the next kept tree gets id 1 |
| Lineage.KeptOnlyReusesRejectedId | src/java/boa/functions/code/change/FileChangeForest.java:48 | with the list size, the same input gives the kept tree id 0 |
| FileChangeForests.JavaNewestFirstMembers | src/java/boa/functions/code/change/FileChangeForest.java:44-46 | the candidates of the sweep are exactly the Java file nodes of the indexed revisions, newest revision first |
| FileChangeForests.ListsTreeIdsAreIndices | src/java/boa/functions/code/change/FileChangeForest.java:48-50 | after updateLists, every tree's id is its index in the tree list |
| FileChangeForests.ListsSeededFromUnclaimedJavaFiles | src/java/boa/functions/code/change/FileChangeForest.java:44-50 | every tree is seeded from a Java file node of some indexed revision. Its location id was not in the table when it was met, and linking it succeeded |
| FileChangeForests.FirstNamed | src/java/boa/functions/code/change/FileChangeForest.java:103-104 | finds the first changed file of a revision with the given name, or reports that none has it |
| FileChangeForests.WalkFindsNearestAncestor | src/java/boa/functions/code/change/FileChangeForest.java:113-123 | the do-while walk returns the node from the nearest proper first-parent ancestor that registers the path. It returns nothing exactly when no such ancestor exists |
| FileChangeForests.LastModificationIsNearest | src/java/boa/functions/code/change/FileChangeForest.java:109-124 | findLastModification returns the revision's own node when that record is ADDED. Otherwise it returns the nearest first-parent ancestor's node for the path, or nothing exactly when no ancestor has one |
| FileChangeForests.RevisionSites | src/java/boa/functions/code/change/FileChangeForest.java:75-79 | the refactorings are visited revision by revision in the order of the ids, each revision's in its list order |
| FileChangeForests.PreImageKeysMembers | src/java/boa/functions/code/change/FileChangeForest.java:82-84 | a key is among the pre-image keys exactly when some visited refactoring's first left-side path leads to it |
| FileChangeForests.AttachedMembers | src/java/boa/functions/code/change/FileChangeForest.java:92-97 | tree j receives exactly the pre-image keys whose registered node belongs to tree j |
| FileChangeForests.FileChangeForest.constructor | src/java/boa/functions/code/change/FileChangeForest.java:36-41 | indexes revisions 0..revCount-1. The location-id table and the tree list are then the result of the newest-first sweep, and tree ids are list positions |
| FileChangeForests.FileChangeForest.UpdateLists | src/java/boa/functions/code/change/FileChangeForest.java:43-54 | the table and the trees are the sweep over the Java file nodes, revisions from the highest index down to 0, with ids taken from the list size |
| FileChangeForests.FileChangeForest.SeedRevision | src/java/boa/functions/code/change/FileChangeForest.java:46-52 | one revision's Java file nodes extend the sweep in order |
| FileChangeForests.FileChangeForest.SeedFrom | src/java/boa/functions/code/change/FileChangeForest.java:47-51 | a node whose location id is taken is skipped. Otherwise a tree is linked and appended when linkAll succeeds |
| FileChangeForests.FileChangeForest.GetFileNodeFrom | src/java/boa/functions/code/change/FileChangeForest.java:102-107 | returns the table's node under "revisionIdx fileIdx" of the first changed file with that name, or none |
| FileChangeForests.FileChangeForest.FindLastModification | src/java/boa/functions/code/change/FileChangeForest.java:109-124 | the loop computes LastModification |
| FileChangeForests.FileChangeForest.UpdateRefLists | src/java/boa/functions/code/change/FileChangeForest.java:74-100 | each tree's reference locations grow by exactly the pre-image location ids of the refactorings whose pre-image node belongs to that tree |
| FileChangeForests.FileChangeForest.AttachAll | src/java/boa/functions/code/change/FileChangeForest.java:75-99 | over all the given revisions, each tree gains the keys that go to it |
| FileChangeForests.FileChangeForest.AttachRevision | src/java/boa/functions/code/change/FileChangeForest.java:76-98 | one more revision's refactorings are attached after those of the previous ones |
| FileChangeForests.FileChangeForest.AttachRefs | src/java/boa/functions/code/change/FileChangeForest.java:79-98 | one revision's refactorings, in order, each add their key to its tree |
| FileChangeForests.FileChangeForest.AttachOne | src/java/boa/functions/code/change/FileChangeForest.java:82-97 | one refactoring adds its pre-image's location id to the tree that owns the node, and to no other tree |
| FileForests.NewestFirstMembers | src/java/boa/functions/code/change/file/FileForest.java:36-38 | the candidates are exactly the file nodes of the indexed revisions |
| FileForests.BuiltTreesAllStored | src/java/boa/functions/code/change/file/FileForest.java:42-44 | the tree table holds every kept tree under its own id, which is below the counter, with one entry per kept tree |
| FileForests.AcceptedMembers | src/java/boa/functions/code/change/file/FileForest.java:61-63 | a bond is accepted exactly when its refactoring is given and its type is one of the accepted types |
| FileForests.AcceptedAppend | src/java/boa/functions/code/change/file/FileForest.java:57-66 | filtering keeps the encounter order across revisions |
| FileForests.AcceptedNoneOfOtherTypes | src/java/boa/functions/code/change/file/FileForest.java:62 | refactorings of other types add no bond |
| FileForests.Numbered | src/java/boa/functions/code/change/file/FileForest.java:64-65 | the i-th registered bond is numbered with the list length before registration plus i |
| FileForests.BatchesAt | src/java/boa/functions/code/change/file/FileForest.java:57-68 | every bond handed to the connector sits at the position its batch records, whatever is appended later |
| FileForests.PreOrderMembers | src/java/boa/functions/code/change/file/FileForest.java:101-106 | a declaration's pre-order starts with it and holds exactly it and the pre-orders of its nested declarations |
| FileForests.NodeCallsCases | src/java/boa/functions/code/change/file/FileForest.java:81-93 | a version with no first parent and no AST changes gets all its declarations recorded as ADDED. One with a first parent is compared to it with flag true, and one with a second parent also with flag false |
| FileForests.PlanConcernsStoredVersions | src/java/boa/functions/code/change/file/FileForest.java:76-93 | every call of the pass concerns a stored version, and every comparison is against that version's parent |
| FileForests.DeclCollector.PreVisit | src/java/boa/functions/code/change/file/FileForest.java:101-106 | appends the declaration and its nested declarations in pre-order; methods and fields are not entered |
| FileForests.DeclCollector.GetDeclNodes | src/java/boa/functions/code/change/file/FileForest.java:108-112 | starting from an empty list, returns the file's declarations in pre-order, namespace by namespace |
| FileForests.FileForest.constructor | src/java/boa/functions/code/change/file/FileForest.java:28-33 | the store's file table, the counter and the tree table are the result of the build from counter 0 |
| FileForests.FileForest.BuildTrees | src/java/boa/functions/code/change/file/FileForest.java:35-48 | the sweep over revisions newest first, seeding only unclaimed locations. Every seed takes an id from the counter, and only linked trees are stored, under their id |
| FileForests.FileForest.SeedRevisions | src/java/boa/functions/code/change/file/FileForest.java:36-38 | revisions n-1 down to 0 extend the sweep |
| FileForests.FileForest.SeedNext | src/java/boa/functions/code/change/file/FileForest.java:36-38 | revision i extends the sweep over the revisions above it |
| FileForests.FileForest.SeedRevision | src/java/boa/functions/code/change/file/FileForest.java:38-46 | one revision's file nodes extend the sweep in order |
| FileForests.FileForest.SeedFrom | src/java/boa/functions/code/change/file/FileForest.java:39-45 | a claimed location is skipped. Otherwise the counter is bumped and the tree is stored when linkAll succeeds |
| FileForests.FileForest.UpdateWithRefs | src/java/boa/functions/code/change/file/FileForest.java:55-70 | the bond list grows by exactly the accepted refactorings in encounter order. The connector receives each revision's numbered batch |
| FileForests.FileForest.RegisterRevision | src/java/boa/functions/code/change/file/FileForest.java:57-69 | one more revision's accepted bonds are appended after the earlier ones and handed over as one batch |
| FileForests.FileForest.RegisterBonds | src/java/boa/functions/code/change/file/FileForest.java:60-67 | appends the accepted bonds and numbers each with its position in the list |
| FileForests.FileForest.CallsFor | src/java/boa/functions/code/change/file/FileForest.java:77-93 | the calls made for one version are those NodeCalls gives |
| FileForests.FileForest.UpdateASTChanges | src/java/boa/functions/code/change/file/FileForest.java:73-95 | every stored version is processed exactly once, in strictly descending location order, with the calls of the plan |
| DeclChangeForests.DeclCandidatesMembers | src/java/boa/functions/code/change/declaration/DeclChangeForest.java:30-32 | the candidates are exactly the declaration versions recorded on the stored file versions |
| DeclChangeForests.BuiltTreeIdsAreIndices | src/java/boa/functions/code/change/declaration/DeclChangeForest.java:36-38 | every declaration tree's id is its index in the list |
| DeclChangeForests.DeclChangeForest.constructor | src/java/boa/functions/code/change/declaration/DeclChangeForest.java:20-27 | the considered types are exactly "Move Class" and "Rename Class". The declaration table and the trees are the result of the build |
| DeclChangeForests.DeclChangeForest.BuildTrees | src/java/boa/functions/code/change/declaration/DeclChangeForest.java:29-42 | the sweep over the declaration versions of the file versions in descending location order, seeding unclaimed locations, with ids from the list size |
| DeclChangeForests.DeclChangeForest.SeedFiles | src/java/boa/functions/code/change/declaration/DeclChangeForest.java:30-41 | the visited file versions extend the sweep in order |
| DeclChangeForests.DeclChangeForest.SeedFile | src/java/boa/functions/code/change/declaration/DeclChangeForest.java:32-40 | one file version's declaration versions extend the sweep in order |
| DeclChangeForests.DeclChangeForest.SeedFrom | src/java/boa/functions/code/change/declaration/DeclChangeForest.java:33-39 | a claimed declaration location is skipped. Otherwise a tree is linked and appended when linkAll succeeds |
| DataDependence.SuccInMembers | src/java/boa/graphs/ddg/DDG.java:111-116 | a pair is in the successors' union exactly when some successor with a value has it live on entry |
| DataDependence.TransferMembers | src/java/boa/graphs/ddg/DDG.java:104-131 | out is the stored out plus the successors' in sets. In is the stored in, plus a pair for each used variable, plus the out pairs the node does not kill |
| DataDependence.TransferFirstVisit | src/java/boa/graphs/ddg/DDG.java:104-131 | on a node's first visit: out is the union of the successors' in, and in is the uses plus out minus the pairs of the defined variable |
| DataDependence.TransferAccumulates | src/java/boa/graphs/ddg/DDG.java:107-109 | the transfer only adds to what was stored for the node |
| DataDependence.FixpointReached | src/java/boa/graphs/ddg/DDG.java:146-150 | invoke1 holds exactly when the current in set is contained in the previous one |
| DataDependence.FixpointTestIsStability | src/java/boa/graphs/ddg/DDG.java:146-150 | since the transfer only adds, the test holds exactly when the in set did not change |
| DataDependence.PreTraverse | src/java/boa/graphs/ddg/DDG.java:104-131 | the step-by-step preTraverse computes the transfer |
| DataDependence.AddSuccessorsIn | src/java/boa/graphs/ddg/DDG.java:111-116 | the loop adds the in sets of the successors that have a value |
| DataDependence.WithoutKilled | src/java/boa/graphs/ddg/DDG.java:119-123 | the copy of out loses exactly the pairs of the node's non-empty defined variable |
| DataDependence.AddUses | src/java/boa/graphs/ddg/DDG.java:126-127 | in gains a pair (variable, node) for each used variable |
| DataDependence.LiveVariableTraversal.Traverse | src/java/boa/graphs/ddg/DDG.java:133-141 | a visit stores the transfer under the node's id, and a flagged visit also keeps it as the current result |
| DataDependence.LiveVariables | src/java/boa/graphs/ddg/DDG.java:158-161 | the live variables are the traversal's values without the exit node's entry |
| DataDependence.Fresh | src/java/boa/graphs/ddg/DDG.java:224-235 | a new graph node copies id, statement, expression, defined and used variables and kind |
| DataDependence.AddLinksKeepsShape | src/java/boa/graphs/ddg/DDG.java:183-187 | links between graph nodes keep the relations closed, successor and predecessor entries symmetric, and edges matched to both ends |
| DataDependence.LinksShaped | src/java/boa/graphs/ddg/DDG.java:183-187 | the def-use links alone are closed, symmetric and matched |
| DataDependence.DefUseLinksMembers | src/java/boa/graphs/ddg/DDG.java:171-190 | a def-use link exists exactly from a live node other than 0, with a non-empty defined variable, to a use whose pair of that variable is live on its exit |
| DataDependence.ChainStep | src/java/boa/graphs/ddg/DDG.java:179-181 | creating an empty entry when needed and adding the use keeps the chain table equal to the links |
| DataDependence.Made | src/java/boa/graphs/ddg/DDG.java:223-239 | the nodes made for a set of ids are keyed by exactly those ids, each copied from its control-flow node |
| DataDependence.MadeKeyed | src/java/boa/graphs/ddg/DDG.java:225-230 | nodes made from a well-formed graph are stored under their own ids, so no two share an id |
| DataDependence.MadeAdd | src/java/boa/graphs/ddg/DDG.java:223-239 | looking up or adding the node for an id keeps the nodes made from the control-flow graph |
| DataDependence.FormedShape | src/java/boa/graphs/ddg/DDG.java:173-187 | the def-use links join nodes that are made |
| DataDependence.FormedLinks | src/java/boa/graphs/ddg/DDG.java:175-190 | a successor entry, a predecessor entry and a labelled edge exist for (d, u) exactly when d is a live node other than 0 whose defined variable is live with u on its exit |
| DataDependence.EntryLinksAttach | src/java/boa/graphs/ddg/DDG.java:200-214 | after constructDDG no node other than 0 is detached. Detached nodes gain only the entry as predecessor, the entry gains exactly them as successors, and other lists are unchanged |
| DataDependence.PredsAfterEntry | src/java/boa/graphs/ddg/DDG.java:205-208 | a node's predecessor list gains the entry exactly when it was detached |
| DataDependence.SuccsAfterEntry | src/java/boa/graphs/ddg/DDG.java:207 | only the entry's successor list changes, gaining the detached nodes |
| DataDependence.FormedValid | src/java/boa/graphs/ddg/DDG.java:169-193 | the formed graph is valid: keyed nodes, closed symmetric relations, a chain table equal to its links |
| DataDependence.EntryValid | src/java/boa/graphs/ddg/DDG.java:200-215 | linking the entry keeps the graph valid and sets the entry node to node 0 when it exists |
| DataDependence.DDG.constructor | src/java/boa/graphs/ddg/DDG.java:41-45 | the graph is the def-use links of the live variables plus the entry links, with nodes made for exactly their ends and the chain table equal to the def-use links |
| DataDependence.DDG.FindNode | src/java/boa/graphs/ddg/DDG.java:86-92 | returns a node with the id when one exists, and none exactly when no node has it |
| DataDependence.DDG.GetNode | src/java/boa/graphs/ddg/DDG.java:223-239 | returns the stored node for the id, adding exactly one copied node when there is none |
| DataDependence.DDG.GetDefNodes | src/java/boa/graphs/ddg/DDG.java:70-78 | returns exactly the chain keys whose defined variable is v |
| DataDependence.DDG.FormDefUseChains | src/java/boa/graphs/ddg/DDG.java:169-193 | the graph afterwards holds exactly the def-use links of all live nodes and the nodes at their ends |
| DataDependence.DDG.FormNode | src/java/boa/graphs/ddg/DDG.java:171-191 | one more live node's links are added |
| DataDependence.DDG.ChainNode | src/java/boa/graphs/ddg/DDG.java:172-190 | a node's out pairs add its links, and the node with its links' users |
| DataDependence.DDG.LinkPair | src/java/boa/graphs/ddg/DDG.java:175-189 | a pair of the defined variable adds one chain entry, one successor and predecessor entry and one labelled edge; any other pair adds nothing |
| DataDependence.DDG.ConstructDDG | src/java/boa/graphs/ddg/DDG.java:200-215 | the relations grow by exactly the entry links, the graph stays valid, and the entry node is node 0 |
| DataDependence.DDG.LinkEntry | src/java/boa/graphs/ddg/DDG.java:202-213 | one more id visited adds its entry link when it is detached |
| Metrics.GetReference | src/java/boa/functions/BoaMetricIntrinsics.java:303-313 | an exact key resolves to its declaration's name. Otherwise the text after the last dot resolves when that dot is past the start. Otherwise there is no reference |
| Metrics.Updated | src/java/boa/functions/BoaMetricIntrinsics.java:315-322 | the current class's references gain the reference, the reference's referrers gain the current class, and every other entry is unchanged |
| Metrics.NoaRun | src/java/boa/functions/BoaMetricIntrinsics.java:39-46 | over any visit sequence, NOA adds the fields of the CLASS declarations met and changes nothing else |
| Metrics.NooRun | src/java/boa/functions/BoaMetricIntrinsics.java:66-73 | the same with the methods of the CLASS declarations |
| Metrics.NpmRun | src/java/boa/functions/BoaMetricIntrinsics.java:93-100 | NPM adds the number of public methods met |
| Metrics.RfcRun | src/java/boa/functions/BoaMetricIntrinsics.java:254-260 | the method set gains exactly the "name argc" keys of the calls and instance creations met |
| Metrics.AddAllCounts | src/java/boa/functions/BoaMetricIntrinsics.java:221-225 | after the increments, each key's value is its old value plus how often it occurs. A key is present exactly when it was present before or occurs |
| Metrics.NocRun | src/java/boa/functions/BoaMetricIntrinsics.java:220-227 | below a namespace, NOC adds one increment per parent of each declaration met, keyed namespace "." parent |
| Metrics.NocNamespace | src/java/boa/functions/BoaMetricIntrinsics.java:213-227 | a namespace's declarations count under that namespace's name |
| Metrics.NocNamespaces | src/java/boa/functions/BoaMetricIntrinsics.java:213-227 | the namespaces' keys are counted in order |
| Metrics.CboRun | src/java/boa/functions/BoaMetricIntrinsics.java:324-348 | the current class's references gain exactly the resolved names met, and each resolved name's referrers gain the current class |
| Metrics.DeclWeight | src/java/boa/functions/BoaMetricIntrinsics.java:39-46 | a declaration's total is its own weight plus that of the declarations inside its members and its nested declarations |
| Metrics.DeclsWeight | src/java/boa/functions/BoaMetricIntrinsics.java:39-46 | a list of declarations weighs at least each one of them |
| Metrics.NestedIncluded | src/java/boa/functions/BoaMetricIntrinsics.java:39-46 | NOA and NOO of a declaration count its own fields and methods and those of every nested declaration |
| Metrics.OnlyClassesWeigh | src/java/boa/functions/BoaMetricIntrinsics.java:42-43 | a declaration that is not a CLASS adds nothing of its own |
| Metrics.MethodsReached | src/java/boa/functions/BoaMetricIntrinsics.java:93-100 | every public method of a list is counted |
| Metrics.NpmCountsOwnPublicMethods | src/java/boa/functions/BoaMetricIntrinsics.java:93-100 | NPM of a declaration is at least the number of its own public methods |
| Metrics.NocCountsKeys | src/java/boa/functions/BoaMetricIntrinsics.java:210-242 | each key's count is the number of parent entries with that key in the tree, and only such keys appear |
| Metrics.SignatureInjective | src/java/boa/functions/BoaMetricIntrinsics.java:256-258 | "name argc" keys identify name and argument count |
| Metrics.CallKeysCount | src/java/boa/functions/BoaMetricIntrinsics.java:254-270 | RFC counts exactly the distinct (name, argument count) pairs of the calls and instance creations |
| Metrics.UpdatedKeepsInverse | src/java/boa/functions/BoaMetricIntrinsics.java:315-322 | updateMaps keeps references and referenced mutually inverse |
| Metrics.CboRunKeepsInverse | src/java/boa/functions/BoaMetricIntrinsics.java:324-348 | any visit sequence keeps them mutually inverse |
| Metrics.CboTablesHold | src/java/boa/functions/BoaMetricIntrinsics.java:351-361 | after the first loop, a class's references are exactly the declarations its members refer to, and its referrers exactly those whose members refer to it |
| Metrics.TallyHolds | src/java/boa/functions/BoaMetricIntrinsics.java:362-370 | the second loop gives each visited class's name the size of the union of its references and referrers |
| Metrics.MetricVisitor.constructor | src/java/boa/functions/BoaMetricIntrinsics.java:58 | an initialized visitor: count 0, empty maps and sets |
| Metrics.MetricVisitor.UpdateMaps | src/java/boa/functions/BoaMetricIntrinsics.java:315-322 | the fields change as Updated says |
| Metrics.MetricVisitor.PreVisit | src/java/boa/functions/BoaMetricIntrinsics.java:41-98 | each preVisit reaction changes the fields as the step of its metric says |
| Metrics.MetricVisitor.NocPreVisit | src/java/boa/functions/BoaMetricIntrinsics.java:213-227 | a namespace sets the prefix; a declaration increments one key per parent |
| Metrics.MetricVisitor.RfcPreVisit | src/java/boa/functions/BoaMetricIntrinsics.java:254-260 | a call or instance creation adds its key |
| Metrics.MetricVisitor.CboPreVisit | src/java/boa/functions/BoaMetricIntrinsics.java:324-348 | an access, variable or type adds its resolved reference |
| Metrics.MetricVisitor.VisitDecl | src/java/boa/functions/BoaMetricIntrinsics.java:58 | visiting a declaration leaves the fields as the fold over its traversal |
| Metrics.MetricVisitor.VisitDecls | src/java/boa/functions/BoaMetricIntrinsics.java:58 | the same for a list of declarations |
| Metrics.MetricVisitor.VisitTypes | src/java/boa/functions/BoaMetricIntrinsics.java:343-347 | the same for a list of types |
| Metrics.MetricVisitor.VisitVar | src/java/boa/functions/BoaMetricIntrinsics.java:266-267 | the same for a variable |
| Metrics.MetricVisitor.VisitVars | src/java/boa/functions/BoaMetricIntrinsics.java:266-267 | the same for a list of variables |
| Metrics.MetricVisitor.VisitMethod | src/java/boa/functions/BoaMetricIntrinsics.java:268-269 | the same for a method |
| Metrics.MetricVisitor.VisitMethods | src/java/boa/functions/BoaMetricIntrinsics.java:268-269 | the same for a list of methods |
| Metrics.MetricVisitor.VisitStmt | src/java/boa/functions/BoaMetricIntrinsics.java:268-269 | the same for a statement |
| Metrics.MetricVisitor.VisitStmts | src/java/boa/functions/BoaMetricIntrinsics.java:268-269 | the same for a list of statements |
| Metrics.MetricVisitor.VisitExpr | src/java/boa/functions/BoaMetricIntrinsics.java:254-260 | the same for an expression |
| Metrics.MetricVisitor.VisitExprs | src/java/boa/functions/BoaMetricIntrinsics.java:254-260 | the same for a list of expressions |
| Metrics.MetricVisitor.VisitNamespace | src/java/boa/functions/BoaMetricIntrinsics.java:213-217 | the same for a namespace |
| Metrics.MetricVisitor.VisitRoot | src/java/boa/functions/BoaMetricIntrinsics.java:240 | the same for a whole tree |
| Metrics.GetMetricNOA | src/java/boa/functions/BoaMetricIntrinsics.java:57-60 | NOA is the total number of fields of the CLASS declarations in the declaration, nested ones included |
| Metrics.GetMetricNOO | src/java/boa/functions/BoaMetricIntrinsics.java:84-87 | NOO is the total number of methods of those declarations |
| Metrics.GetMetricNPM | src/java/boa/functions/BoaMetricIntrinsics.java:111-114 | NPM is the number of public methods reached |
| Metrics.GetMetricNOC | src/java/boa/functions/BoaMetricIntrinsics.java:239-242 | each key maps to the number of parent entries with that key in its namespace, and only such keys appear |
| Metrics.GetMetricRFC | src/java/boa/functions/BoaMetricIntrinsics.java:286-289 | RFC is the number of distinct (name, argument count) pairs in the fields and methods, assigned rather than accumulated |
| Metrics.ProcessMembers | src/java/boa/functions/BoaMetricIntrinsics.java:351-361 | the first loop leaves the tables describing who refers to whom |
| Metrics.TallyUp | src/java/boa/functions/BoaMetricIntrinsics.java:362-370 | the second loop puts, for each class, the size of its union of references and referrers |
| Metrics.CboResult | src/java/boa/functions/BoaMetricIntrinsics.java:351-371 | the result has an entry for each input declaration's name, equal to the number of names coupled to it either way |
| Metrics.GetMetricCBO | src/java/boa/functions/BoaMetricIntrinsics.java:384-388 | CBO maps every input declaration's name to the number of declarations it refers to or is referred to by |
| Complexity.CcMethod | src/java/boa/functions/BoaMetricIntrinsics.java:126-146 | a method's count, as the shared counter leaves it, is at least one |
| Complexity.CcMethods | src/java/boa/functions/BoaMetricIntrinsics.java:126-127 | after a list of methods the counter holds the last method's own count |
| Complexity.WmcAtLeastMethods | src/java/boa/functions/BoaMetricIntrinsics.java:158-164 | WMC is never below the number of methods |
| Complexity.CcMethodCounts | src/java/boa/functions/BoaMetricIntrinsics.java:126-155 | with no local or anonymous class in the body, a method weighs one plus its branching top-level statements plus its "or" expressions |
| Complexity.NestedMethodResetsCount | src/java/boa/functions/BoaMetricIntrinsics.java:127 | two ifs followed by an anonymous class with one empty method weigh 2, although the method has two branches |
| Complexity.FixedMethodCounts | src/java/boa/functions/BoaMetricIntrinsics.java:126-155 | the corrected count is one plus the branching top-level statements plus the "or" expressions of the body |
| Complexity.FixedAgreesWhenDeclFree | src/java/boa/functions/BoaMetricIntrinsics.java:126-155 | on bodies without nested declarations the code and the corrected count agree |
| Complexity.FixedCountsNestedExample | src/java/boa/functions/BoaMetricIntrinsics.java:126-155 | the corrected count of the example is 3 |
| Complexity.WmcVisitor.constructor | src/java/boa/functions/BoaMetricIntrinsics.java:180 | an initialized visitor has count 0 |
| Complexity.WmcVisitor.VisitMethod | src/java/boa/functions/BoaMetricIntrinsics.java:126-146 | the inner preVisit leaves the counter at the method's count and does not touch count |
| Complexity.WmcVisitor.VisitStmt | src/java/boa/functions/BoaMetricIntrinsics.java:142 | walking a statement moves the counter as CcStmt says |
| Complexity.WmcVisitor.VisitStmts | src/java/boa/functions/BoaMetricIntrinsics.java:142 | the same for a list of statements |
| Complexity.WmcVisitor.VisitExpr | src/java/boa/functions/BoaMetricIntrinsics.java:149-155 | an "or" expression bumps the counter, then the walk goes on below it |
| Complexity.WmcVisitor.VisitExprs | src/java/boa/functions/BoaMetricIntrinsics.java:149-155 | the same for a list of expressions |
| Complexity.WmcVisitor.VisitVar | src/java/boa/functions/BoaMetricIntrinsics.java:142 | a variable's initializers move the counter |
| Complexity.WmcVisitor.VisitVars | src/java/boa/functions/BoaMetricIntrinsics.java:142 | the same for a list of variables |
| Complexity.WmcVisitor.VisitDecl | src/java/boa/functions/BoaMetricIntrinsics.java:142 | a nested declaration's fields, methods and nested declarations move the counter |
| Complexity.WmcVisitor.VisitDecls | src/java/boa/functions/BoaMetricIntrinsics.java:142 | the same for a list of declarations |
| Complexity.WmcVisitor.VisitMethods | src/java/boa/functions/BoaMetricIntrinsics.java:126-146 | each method restarts the counter |
| Complexity.WmcVisitor.PreVisitDecl | src/java/boa/functions/BoaMetricIntrinsics.java:158-164 | count grows by the sum of the own methods' counts; nested declarations are not entered |
| Complexity.GetMetricWMC | src/java/boa/functions/BoaMetricIntrinsics.java:179-182 | WMC is the sum of the own methods' counts, and at least the number of methods |

## Left out

- The visitor traversal order (`BoaAbstractVisitor`) is not part of this model. `Visits` fixes the order: each node first, then its children, field by field as the syntax-tree records list them.
- The metric visitors are single shared static objects that `initialize()` resets. The model creates a fresh visitor per call.
- NOC's namespace prefix is not reset between calls. This is harmless, since every declaration is met after its namespace.
- Java `long` and `int` overflow of the metric counts is not modelled, since the counts are unbounded integers. Hash codes do wrap as Java `int`s.
- Metrics.GetMetricCBO: HashMap iteration order is a parameter `order` listing every key once or more. The result does not depend on it.
- Metrics.TypeName: an instance creation without a type reads as the empty name, which is the protocol-buffer default.
- Metrics.MetricVisitor.PreVisit: the `hasModifierPublic` helper is not part of this model. It is modelled as "the public visibility modifier is among the modifiers".
- Metrics.GetMetricNOC: the map is stated per key, as a count of occurrences. The sum of the values is not stated separately.
- LCOM is left out because it computes with floating point.
- DIT and CA are left out because they are empty stubs.
- `FileTree.linkAll`, `DeclTree.linkAll`, `RefactoringConnector.connect`, `ASTChange.compare` and `updateFileAll` are not part of this model. They are parameters or logged calls.
- FileForests.FileForest.UpdateWithRefs: the model assumes `connect` leaves `refDB` and `refTypes` unchanged, so bond numbers follow only the appends shown. The connector is built over the whole store, but its body is not part of this model.
- The repository readers `getRevision`, `getCodeChange` and `getRefactorings` are not part of this model. They are the revision list and functions passed in.
- `RevNode` is not part of this model. It is a record with its position, revision, contributor count and file nodes. Its `getJavaFileNodes` is modelled as the file nodes whose name ends in ".java", in file order, and `getFileChangeMap().values()` as the file nodes in file order.
- `FileNode` in the later code generation also has `getLocId`, parent links, `getASTChangeCount` and `declChanges`. `FileNode.java` does not declare them, and the model adds them.
- The `ChangeDataBase` shown has no `refTypes` and no file-forest table, and the model adds both. The builder that records them is not part of this model.
- FileChangeForests.FileChangeForest.UpdateRefLists: the null dereferences of a failed lookup are preconditions (every visited pre-image is registered and belongs to a tree). The error messages it prints are left out. Its `fileAfter` lookup is modelled in `AttachOne`, and its result is unused, as in the source. The `fileObjectIdToLocs` table is left out.
- FileChangeForests.FileChangeForest.UpdateRefLists: `linkAll` gives each node it registers the id of its tree (`setTreeObjectId`), and that assignment is not part of this model. `linkAll` is a parameter that only reports success and claims, so a forest built by the model starts with no owners. `UpdateRefLists` takes the ownership table (`Owners`, `Owned`) as given.
- FileForests.FileForest.UpdateASTChanges: the model assumes that `compare` and `updateFileAll` do not change the AST-change counts or first parents that later iterations read. The calls are therefore planned from the state before the pass.
- FileForests.FileForest.UpdateWithRefs and FileChangeForests.FileChangeForest.UpdateRefLists: `refRevIds` is a `HashSet`, and its iteration order is a `seq` parameter. The contracts hold for every order, but the positions in the refactoring table and the bond numbers follow it.
- FileNodes.LocationHash, MethodNodes.DeclLocationHash, MethodNodes.MethodLocationHash and Locations.Before: `FileLocation.hashCode` and `compareTo`, and their declaration and method counterparts, are not part of this model. They are modelled as chosen functions: the usual multiply-by-31 field hash, and lexicographic order on the location's indices. So "computed from the location alone" is a property of these chosen formulas.
- FileChangeForests.PreImageKeysMembers: when first parents do not come earlier, the walk has no measure; the model's key is then none.
- `getTreesAsList`, `getTrees`, `toString`, `getUseNodes`, the `debug` printing and other plain getters are left out.
- DataDependence.DDG.constructor: the fixpoint traversal driver and the construction of the control-flow graph are not part of this model. The traversal's result is a parameter.
- DataDependence.DDG.constructor and DataDependence.DDG.ConstructDDG: when no node has id 0 but some node has no predecessor, the source dereferences a missing entry node and throws a `NullPointerException`. The model rules this case out by a precondition (`0 in live.Keys + Uses(links) || EntryLinks(...) == {}`) and does not model the exception.
- Graph nodes are kept by id. Successor and predecessor lists and edges are relations, so their order and duplicates are not modelled. Duplicates cannot arise, since each (def, use) pair is linked once. So "one predecessor, which is the node itself" is the relation {node}.
- DataDependence.PreTraverse: it updates the stored sets in place; the model returns the new value.
- Ids are natural numbers. `DDGNode` equality is by id.
- Trees.FileTree: `refLocs` is a set of location strings, so its order is not modelled. A `FileNode` always has a location; a null `loc` is not modelled.

## Findings

| source | as written | input that shows it | evidently intended | confidence | as-written member | corrected member |
|---|---|---|---|---|---|---|
| src/java/boa/functions/BoaMetricIntrinsics.java:127 | every method the inner visitor enters zeroes the one shared counter, including a method of a local or anonymous class inside the body being measured | a method whose body is `if`, `if`, then an expression statement creating an anonymous class with one empty method: WMC 2 | the enclosing method keeps its own count, here 3, and the nested class's methods do not disturb it | not executed | Complexity.NestedMethodResetsCount | Complexity.FixedMethodCounts |
