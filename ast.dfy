/** The syntax tree: two closed, immutable variant sets. A Java visitor's `accept` becomes a
    `match` on these datatypes, and Dafny checks that every variant is handled. */
module Ast {
  import opened Tokens

  /** Expression nodes. */
  datatype Expr =
    | Binary(left: Expr, operator: Token, right: Expr)
    | Grouping(expression: Expr)
    | Literal(lit: LiteralValue)
    | Unary(operator: Token, right: Expr)
    | Variable(name: Token)
    | Assign(name: Token, value: Expr)
    | AssignShorthand(name: Token, operator: Token, value: Expr)
    | Logical(left: Expr, operator: Token, right: Expr)
    | Call(callee: Expr, paren: Token, arguments: seq<Expr>)

  /** Statement nodes. A statement list may hold `None` where a declaration failed to parse
      (the Java parser leaves a `null` there). */
  datatype Stmt =
    | Expression(expression: Expr)
    | Print(expression: Expr)
    | Var(name: Token, initializer: Option<Expr>)
    | Block(statements: seq<Option<Stmt>>)
    | If(condition: Expr, thenBranch: Stmt, elseBranch: Option<Stmt>)
    | Ternary(condition: Expr, ifTrue: Stmt, ifFalse: Stmt)
    | While(condition: Expr, body: Stmt)
    | DoWhile(condition: Expr, body: Stmt)
    | Function(name: Token, params: seq<Token>, statements: seq<Option<Stmt>>)
    | Return(keyword: Token, value: Option<Expr>)
}
