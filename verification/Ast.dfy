/** The rule language's syntax trees (crates/aether-script/src/ast.rs). */
module Ast {
  import opened Results

  /** A floating-point number up to rounding: what a comparison can tell apart.
      The two zeros compare equal, so both are `Finite(0.0)`. */
  datatype Float = NaN | NegInf | PosInf | Finite(value: real)

  type Int64 = x: int | -0x8000_0000_0000_0000 <= x < 0x8000_0000_0000_0000

  datatype Severity = Info | Warning | Critical {
    function AsI64(): Int64 {
      match this
      case Info => 0
      case Warning => 1
      case Critical => 2
    }
  }

  datatype CmpOp = Gt | Lt | Gte | Lte | Eq | Neq

  datatype Literal =
    | IntLit(n: Int64)
    | FloatLit(f: Float)
    | PercentLit(f: Float)
    | DurationLit(secs: nat)
    | StrLit(s: string)

  datatype Expr = FieldAccess(obj: string, field: string) | Lit(lit: Literal)

  datatype Condition =
    | Comparison(left: Expr, op: CmpOp, right: Expr)
    | Duration(condition: Condition, seconds: nat)
    | And(l: Condition, r: Condition)
    | Or(l: Condition, r: Condition)
    | Not(inner: Condition)
  {
    /** Size of the tree, the termination measure of everything that walks it. */
    function Nodes(): nat {
      match this
      case Comparison(_, _, _) => 1
      case Duration(c, _) => 1 + c.Nodes()
      case And(l, r) => 1 + l.Nodes() + r.Nodes()
      case Or(l, r) => 1 + l.Nodes() + r.Nodes()
      case Not(c) => 1 + c.Nodes()
    }
  }

  datatype Action = Alert(message: string, severity: Severity) | Kill | Log(message: string)

  datatype Span = Span(start: nat, end: nat)

  datatype Rule = Rule(name: string, condition: Condition, actions: seq<Action>, span: Span) {
    function DurationSecs(): Option<nat> {
      if condition.Duration? then Some(condition.seconds) else None
    }

    /** The condition the compiled code evaluates: one outer duration is peeled off. */
    function EvalCondition(): Condition {
      if condition.Duration? then condition.condition else condition
    }
  }
}
