/** The parts of a Babel syntax tree that the `mute` plugin inspects or builds. */
module Ast {

  datatype Option<T> = None | Some(value: T)

  /** Source offsets of a node. Nodes built by the plugin have `start` and `end`
      undefined; `Synthetic` stands for that pair, and two synthetic spans are
      equal just as `undefined === undefined` holds. */
  datatype Span = At(start: int, end: int) | Synthetic

  /** Expressions, with every node kind the rewrite rules tell apart; anything
      else is `OtherExpr` with its Babel node type. Numeric literal values are
      JavaScript numbers, modelled as reals. */
  datatype Expr =
    | Ident(name: string, span: Span)
    | NumLit(value: real, span: Span)
    | StrLit(text: string, span: Span)
    | Call(callee: Expr, args: seq<Expr>, span: Span)
    | Member(object: Expr, property: Expr, computed: bool, span: Span)
    | Binary(op: string, left: Expr, right: Expr, span: Span)
    | Assign(op: string, left: Expr, right: Expr, span: Span)
    | OtherExpr(kind: string, span: Span)

  /** The Babel `type` string of a node. */
  function TypeOf(e: Expr): string {
    match e
    case Ident(_, _) => "Identifier"
    case NumLit(_, _) => "NumericLiteral"
    case StrLit(_, _) => "StringLiteral"
    case Call(_, _, _) => "CallExpression"
    case Member(_, _, _, _) => "MemberExpression"
    case Binary(_, _, _, _) => "BinaryExpression"
    case Assign(_, _, _, _) => "AssignmentExpression"
    case OtherExpr(k, _) => k
  }

  /** One `IgnoreNode` record of the ignore list: a node type and its offsets. */
  datatype IgnoreNode = IgnoreNode(nodeType: string, span: Span)

  /** The record under which a node is entered in the ignore list. */
  function Key(e: Expr): IgnoreNode {
    IgnoreNode(TypeOf(e), e.span)
  }

  /** `id = init` inside a `let`/`var`/`const` list; `id` may be a pattern. */
  datatype Declarator = Declarator(id: Expr, init: Option<Expr>, span: Span)

  /** The imported name of an import specifier: `{a as b}` or `{"a" as b}`. */
  datatype ModuleExportName = ExportIdent(name: string) | ExportString(value: string)

  datatype ImportSpecifier =
    | NamedSpecifier(imported: ModuleExportName, local: string)
    | DefaultSpecifier(local: string)
    | NamespaceSpecifier(local: string)

  datatype ImportDeclaration = ImportDeclaration(source: Expr, specifiers: seq<ImportSpecifier>)

  /** The parent of a visited identifier, as far as the Identifier visitor
      looks at it: an expression node (calls, member accesses, assignments, ...),
      a variable declarator, an object property, or any other node, named by its
      Babel node type. */
  datatype Parent =
    | ExprParent(node: Expr)
    | DeclaratorParent
    | PropertyParent
    | OtherParent(kind: string)

  /** The Babel `type` string of a parent: every encoding of the same node
      type gives the same string. */
  function ParentType(p: Parent): string {
    match p
    case ExprParent(e) => TypeOf(e)
    case DeclaratorParent => "VariableDeclarator"
    case PropertyParent => "ObjectProperty"
    case OtherParent(k) => k
  }

  /** A parent encoded in the most specific form: node types the expression
      datatype represents are never given as `OtherParent` or `OtherExpr`, nor
      declarators and object properties. */
  predicate WellFormedParent(p: Parent) {
    var structured := ["Identifier", "NumericLiteral", "StringLiteral", "CallExpression", "MemberExpression",
                       "BinaryExpression", "AssignmentExpression", "VariableDeclarator", "ObjectProperty"];
    match p
    case OtherParent(k) => k !in structured
    case ExprParent(OtherExpr(k, _)) => k !in structured
    case _ => true
  }

  /** `name[0]`, the accessor of a state-hook handle: a computed member access
      whose property is the numeric literal 0, all of it without offsets. */
  function Accessor(name: string): Expr {
    Member(Ident(name, Synthetic), NumLit(0.0, Synthetic), true, Synthetic)
  }

  /** `name[1]`, the updater of a state-hook handle. */
  function Updater(name: string): Expr {
    Member(Ident(name, Synthetic), NumLit(1.0, Synthetic), true, Synthetic)
  }

  /** `React.useState(args...)`. */
  function UseStateCall(args: seq<Expr>): Expr {
    Call(Member(Ident("React", Synthetic), Ident("useState", Synthetic), false, Synthetic), args, Synthetic)
  }
}
