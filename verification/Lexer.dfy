/** The token vocabulary of the rule language (crates/aether-script/src/lexer.rs). */
module Lexer {
  import A = Ast

  datatype Token =
    | Rule | When | Then | For | And | Or | Alert | Kill | Log | Severity
    | Info | Warning | Critical | Process
    | Gte | Lte | Eq | Neq | Gt | Lt
    | LBrace | RBrace | Dot
    | Percent(p: A.Float)
    | Duration(secs: nat)
    | Float(f: A.Float)
    | Integer(n: A.Int64)
    | StringLit(s: string)
    | Ident(name: string)
}
