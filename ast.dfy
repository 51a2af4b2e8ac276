/**
 * The parts of Boa's syntax-tree messages that the metrics, the declaration collector and the
 * data-dependence graph read. Only the children the visitors walk are kept.
 */
module Ast {
  import opened Base

  datatype TypeKind = CLASS | INTERFACE | ANONYMOUS | ENUM | ANNOTATION | GENERIC | OTHER_TYPE

  datatype StmtKind =
    | BLOCK | FOR | DO | WHILE | IF | CASE | CATCH | SWITCH | TRY | RETURN | EXPRESSION | OTHER_STMT

  datatype ExprKind = METHODCALL | NEW | LOGICAL_OR | LOGICAL_AND | VARACCESS | ASSIGN | LITERAL | OTHER_EXPR

  datatype Visibility = PUBLIC | PRIVATE | PROTECTED | NAMESPACE

  datatype Modifier = VisibilityModifier(visibility: Visibility) | StaticModifier | FinalModifier | OtherModifier

  datatype TypeRef = TypeRef(name: string)

  datatype Variable = Variable(name: string, varType: TypeRef, initializer: seq<Expr>)

  datatype Expr = Expr(
    kind: ExprKind,
    expressions: seq<Expr>,
    varDecls: seq<Variable>,
    newType: Option<TypeRef>,
    variable: string,
    methodName: string,
    methodArgs: seq<Expr>,
    anonDecl: seq<Decl>)

  datatype Stmt = Stmt(
    kind: StmtKind,
    statements: seq<Stmt>,
    expressions: seq<Expr>,
    varDecls: seq<Variable>,
    typeDecl: seq<Decl>)

  datatype Method = Method(
    name: string,
    modifiers: seq<Modifier>,
    returnType: TypeRef,
    arguments: seq<Variable>,
    statements: seq<Stmt>)

  datatype Decl = Decl(
    name: string,
    fqn: string,
    kind: TypeKind,
    parents: seq<TypeRef>,
    fields: seq<Variable>,
    methods: seq<Method>,
    nested: seq<Decl>)

  datatype Namespace = Namespace(name: string, declarations: seq<Decl>)

  datatype ASTRoot = ASTRoot(namespaces: seq<Namespace>)

  /** A method is public when one of its modifiers is the public visibility modifier. */
  predicate HasModifierPublic(m: Method) {
    VisibilityModifier(PUBLIC) in m.modifiers
  }
}

/** The revision and change records the lineage builders receive from the repository reader. */
module Repository {
  import opened Ast

  datatype ChangeKind = ADDED | MODIFIED | DELETED | RENAMED | COPIED | UNKNOWN

  /** One changed file of a revision; revisionIdx and fileIdx address it in the repository. */
  datatype ChangedFile = ChangedFile(name: string, change: ChangeKind, revisionIdx: nat, fileIdx: nat, ast: ASTRoot)

  /** One commit: parents are revision positions, the first one being the main-line parent. */
  datatype Revision = Revision(id: string, author: string, parents: seq<nat>, files: seq<ChangedFile>)

  datatype CodeLocation = CodeLocation(filePath: string)

  /** A record of the refactoring detector: its type and the code locations before and after. */
  datatype CodeRefactoring = CodeRefactoring(
    refType: string,
    leftSideLocations: seq<CodeLocation>,
    rightSideLocations: seq<CodeLocation>,
    description: string)

  predicate EndsWith(s: string, suffix: string) {
    |suffix| <= |s| && s[|s| - |suffix|..] == suffix
  }
}
