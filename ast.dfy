/** The fragment of a Babel syntax tree and lexical scope that the dva HMR
    plugin inspects, as a closed set of node kinds. */
module Ast {

  datatype Option<+T> = None | Some(value: T)

  /** Expression nodes. `Literal` stands for a string literal; every node
      kind the plugin never looks inside is `Other`. */
  datatype Node =
    | CallExpr(callee: Node, args: seq<Node>)
    | MemberExpr(obj: Node, property: Node)
    | Identifier(name: string)
    | Literal(value: string)
    | Other

  /** One `id = init` entry of a variable declaration; `init` is absent for
      a declaration such as `let x;`. */
  datatype Declarator = Declarator(id: Node, init: Option<Node>)

  /** The statement that introduces a binding (Babel's `binding.path.parent`). */
  datatype BindingParent =
    | ImportDecl(source: string)
    | VarDecl(declarations: seq<Declarator>)
    | OtherParent

  /** A flat lexical scope: each bound name and the statement that binds it. */
  type Scope = map<string, BindingParent>
}
