/** The parser's behaviour as functions: what each parse method returns from position `p`.

    `Got(v, q)` is success with the next position, `Failed(m, q)` the one error that is reported,
    with the position the parser is left at. */
module Grammar {
  import opened Results
  import opened Ast
  import L = Lexer

  datatype Message =
    | ExpectedToken(expected: L.Token, found: Option<L.Token>)
    | ExpectedRuleName(found: Option<L.Token>)
    | NoActions
    | ExpectedDuration(found: Option<L.Token>)
    | ExpectedCmpOp(found: Option<L.Token>)
    | ExpectedExpression(found: Option<L.Token>)
    | ExpectedField(found: Option<L.Token>)
    | ExpectedDot(obj: string)
    | ExpectedAction(found: Option<L.Token>)
    | ExpectedString(context: string, found: Option<L.Token>)
    | ExpectedSeverity(found: Option<L.Token>)

  datatype Parse<+T> = Got(value: T, next: nat) | Failed(message: Message, at: nat) {
    predicate IsFailure() {
      Failed?
    }

    function PropagateFailure<U>(): Parse<U>
      requires Failed?
    {
      Failed(message, at)
    }

    function Extract(): (T, nat)
      requires Got?
    {
      (value, next)
    }

    function End(): nat {
      if Got? then next else at
    }
  }

  type Tokens = seq<L.Token>

  function Peek(ts: Tokens, p: nat): Option<L.Token> {
    if p < |ts| then Some(ts[p]) else None
  }

  /** What every parse function does with its input: it moves forward, strictly if it succeeds,
      never past the end, and never over a `rule` keyword. */
  predicate Consumes<T>(ts: Tokens, p: nat, r: Parse<T>) {
    && p <= r.End() <= |ts|
    && (r.Got? ==> p < r.next)
    && (forall i | p <= i < r.End() :: ts[i] != L.Rule)
  }

  function ExpectAt(ts: Tokens, p: nat, t: L.Token): (r: Parse<()>)
    requires p <= |ts|
    ensures t != L.Rule ==> Consumes(ts, p, r)
  {
    if Peek(ts, p) == Some(t) then Got((), p + 1) else Failed(ExpectedToken(t, Peek(ts, p)), p)
  }

  function FieldAt(ts: Tokens, p: nat, obj: string): (r: Parse<Expr>)
    requires p <= |ts|
    ensures Consumes(ts, p, r)
  {
    match Peek(ts, p)
    case Some(Ident(field)) => Got(FieldAccess(obj, field), p + 1)
    case found => Failed(ExpectedField(found), p)
  }

  function ExprAt(ts: Tokens, p: nat): (r: Parse<Expr>)
    requires p <= |ts|
    ensures Consumes(ts, p, r)
  {
    match Peek(ts, p)
    case Some(Process) =>
      var (_, q) :- ExpectAt(ts, p + 1, L.Dot);
      FieldAt(ts, q, "process")
    case Some(Ident(obj)) =>
      if Peek(ts, p + 1) == Some(L.Dot) then FieldAt(ts, p + 2, obj) else Failed(ExpectedDot(obj), p + 1)
    case Some(Integer(n)) => Got(Lit(IntLit(n)), p + 1)
    case Some(Float(f)) => Got(Lit(FloatLit(f)), p + 1)
    case Some(Percent(f)) => Got(Lit(PercentLit(f)), p + 1)
    case Some(Duration(n)) => Got(Lit(DurationLit(n)), p + 1)
    case Some(StringLit(s)) => Got(Lit(StrLit(s)), p + 1)
    case found => Failed(ExpectedExpression(found), p)
  }

  function CmpOpAt(ts: Tokens, p: nat): (r: Parse<CmpOp>)
    requires p <= |ts|
    ensures Consumes(ts, p, r)
  {
    match Peek(ts, p)
    case Some(Gt) => Got(CmpOp.Gt, p + 1)
    case Some(Lt) => Got(CmpOp.Lt, p + 1)
    case Some(Gte) => Got(CmpOp.Gte, p + 1)
    case Some(Lte) => Got(CmpOp.Lte, p + 1)
    case Some(Eq) => Got(CmpOp.Eq, p + 1)
    case Some(Neq) => Got(CmpOp.Neq, p + 1)
    case found => Failed(ExpectedCmpOp(found), p)
  }

  function ComparisonAt(ts: Tokens, p: nat): (r: Parse<Condition>)
    requires p <= |ts|
    ensures Consumes(ts, p, r)
  {
    var (left, q) :- ExprAt(ts, p);
    var (op, q) :- CmpOpAt(ts, q);
    var (right, q) :- ExprAt(ts, q);
    Got(Comparison(left, op, right), q)
  }

  function NotAt(ts: Tokens, p: nat): (r: Parse<Condition>)
    requires p <= |ts|
    ensures Consumes(ts, p, r)
    decreases |ts| - p
  {
    if Peek(ts, p) == Some(L.Ident("not")) then
      var (inner, q) :- NotAt(ts, p + 1);
      Got(Not(inner), q)
    else ComparisonAt(ts, p)
  }

  /** The loop of `parse_and` with `left` parsed so far. */
  function AndTail(ts: Tokens, p: nat, left: Condition): (r: Parse<Condition>)
    requires p <= |ts|
    ensures p <= r.End() <= |ts| && forall i | p <= i < r.End() :: ts[i] != L.Rule
    decreases |ts| - p
  {
    if Peek(ts, p) == Some(L.And) then
      var (right, q) :- NotAt(ts, p + 1);
      AndTail(ts, q, And(left, right))
    else Got(left, p)
  }

  function AndAt(ts: Tokens, p: nat): (r: Parse<Condition>)
    requires p <= |ts|
    ensures Consumes(ts, p, r)
  {
    var (left, q) :- NotAt(ts, p);
    AndTail(ts, q, left)
  }

  /** The loop of `parse_or` with `left` parsed so far. */
  function OrTail(ts: Tokens, p: nat, left: Condition): (r: Parse<Condition>)
    requires p <= |ts|
    ensures p <= r.End() <= |ts| && forall i | p <= i < r.End() :: ts[i] != L.Rule
    decreases |ts| - p
  {
    if Peek(ts, p) == Some(L.Or) then
      var (right, q) :- AndAt(ts, p + 1);
      OrTail(ts, q, Or(left, right))
    else Got(left, p)
  }

  function OrAt(ts: Tokens, p: nat): (r: Parse<Condition>)
    requires p <= |ts|
    ensures Consumes(ts, p, r)
  {
    var (left, q) :- AndAt(ts, p);
    OrTail(ts, q, left)
  }

  function ConditionAt(ts: Tokens, p: nat): (r: Parse<Condition>)
    requires p <= |ts|
    ensures Consumes(ts, p, r)
  {
    var (cond, q) :- OrAt(ts, p);
    ForSuffix(ts, q, cond)
  }

  /** The optional `for <duration>` after a condition. */
  function ForSuffix(ts: Tokens, p: nat, cond: Condition): (r: Parse<Condition>)
    requires p <= |ts|
    ensures p <= r.End() <= |ts| && forall i | p <= i < r.End() :: ts[i] != L.Rule
  {
    if Peek(ts, p) == Some(L.For) then
      match Peek(ts, p + 1)
      case Some(Duration(secs)) => Got(Condition.Duration(cond, secs), p + 2)
      case found => Failed(ExpectedDuration(found), p + 1)
    else Got(cond, p)
  }

  function StringAt(ts: Tokens, p: nat, context: string): (r: Parse<string>)
    requires p <= |ts|
    ensures Consumes(ts, p, r)
  {
    match Peek(ts, p)
    case Some(StringLit(s)) => Got(s, p + 1)
    case found => Failed(ExpectedString(context, found), p)
  }

  function SeverityAt(ts: Tokens, p: nat): (r: Parse<Severity>)
    requires p <= |ts|
    ensures Consumes(ts, p, r)
  {
    match Peek(ts, p)
    case Some(Info) => Got(Severity.Info, p + 1)
    case Some(Warning) => Got(Severity.Warning, p + 1)
    case Some(Critical) => Got(Severity.Critical, p + 1)
    case found => Failed(ExpectedSeverity(found), p)
  }

  function ActionAt(ts: Tokens, p: nat): (r: Parse<Action>)
    requires p <= |ts|
    ensures Consumes(ts, p, r)
  {
    match Peek(ts, p)
    case Some(Alert) =>
      var (message, q) :- StringAt(ts, p + 1, "alert message");
      var (_, q) :- ExpectAt(ts, q, L.Severity);
      var (severity, q) :- SeverityAt(ts, q);
      Got(Action.Alert(message, severity), q)
    case Some(Kill) => Got(Action.Kill, p + 1)
    case Some(Log) =>
      var (message, q) :- StringAt(ts, p + 1, "log message");
      Got(Action.Log(message), q)
    case found => Failed(ExpectedAction(found), p)
  }

  predicate StartsAction(ts: Tokens, p: nat) {
    p < |ts| && (ts[p] == L.Alert || ts[p] == L.Kill || ts[p] == L.Log)
  }

  /** The action loop of `parse_rule` with `actions` parsed so far. */
  function ActionsTail(ts: Tokens, p: nat, actions: seq<Action>): (r: Parse<seq<Action>>)
    requires p <= |ts|
    ensures p <= r.End() <= |ts| && forall i | p <= i < r.End() :: ts[i] != L.Rule
    decreases |ts| - p
  {
    if StartsAction(ts, p) then
      var (action, q) :- ActionAt(ts, p);
      ActionsTail(ts, q, actions + [action])
    else Got(actions, p)
  }

  /** One rule, with its span still to be filled in. */
  function RuleAt(ts: Tokens, p: nat): (r: Parse<Rule>)
    requires p <= |ts|
    ensures p <= r.End() <= |ts| && forall i | p < i < r.End() :: ts[i] != L.Rule
    ensures Peek(ts, p) == Some(L.Rule) <==> p < r.End()
  {
    var (_, q) :- ExpectAt(ts, p, L.Rule);
    var (name, q) :- NameAt(ts, q);
    RuleBodyAt(ts, q, name)
  }

  function NameAt(ts: Tokens, p: nat): (r: Parse<string>)
    requires p <= |ts|
    ensures Consumes(ts, p, r)
  {
    match Peek(ts, p)
    case Some(Ident(name)) => Got(name, p + 1)
    case found => Failed(ExpectedRuleName(found), p)
  }

  function RuleBodyAt(ts: Tokens, p: nat, name: string): (r: Parse<Rule>)
    requires p <= |ts|
    ensures Consumes(ts, p, r)
  {
    hide ConditionAt, ActionsTail;
    var (_, q) :- ExpectAt(ts, p, L.LBrace);
    var (_, q) :- ExpectAt(ts, q, L.When);
    var (condition, q) :- ConditionAt(ts, q);
    var (_, q) :- ExpectAt(ts, q, L.Then);
    var (actions, q) :- ActionsTail(ts, q, []);
    if actions == [] then Failed(NoActions, q)
    else
      var (_, q) :- ExpectAt(ts, q, L.RBrace);
      Got(Rule(name, condition, actions, Span(0, 0)), q)
  }

  /** Error recovery: the next `rule` keyword, or the end. */
  function RecoverFrom(ts: Tokens, p: nat): (q: nat)
    requires p <= |ts|
    ensures p <= q <= |ts| && (q < |ts| ==> ts[q] == L.Rule)
    ensures forall i | p <= i < q :: ts[i] != L.Rule
    decreases |ts| - p
  {
    if p == |ts| || ts[p] == L.Rule then p else RecoverFrom(ts, p + 1)
  }

  /** Where the next rule attempt starts after the one at `p`: always further on. */
  function NextAttempt(ts: Tokens, p: nat): (q: nat)
    requires p < |ts|
    ensures p < q <= |ts|
  {
    match RuleAt(ts, p)
    case Got(_, q) => q
    case Failed(_, q) => RecoverFrom(ts, q)
  }

  // ---------------------------------------------------------------- spans and whole files

  datatype ParseError = ParseError(message: Message, span: Span)

  function SpanAt(spans: seq<Span>, p: nat): Span {
    if p < |spans| then spans[p]
    else if spans == [] then Span(0, 0)
    else Span(spans[|spans| - 1].end, spans[|spans| - 1].end)
  }

  function Spanned(r: Rule, spans: seq<Span>, p: nat, q: nat): Rule
    requires p < q <= |spans|
  {
    r.(span := Span(spans[p].start, spans[q - 1].end))
  }

  /** Rules and errors of all attempts from `p` on. */
  function FileFrom(ts: Tokens, spans: seq<Span>, p: nat): (seq<Rule>, seq<ParseError>)
    requires p <= |ts| == |spans|
    decreases |ts| - p
  {
    if p == |ts| then ([], [])
    else
      var (rules, errors) := FileFrom(ts, spans, NextAttempt(ts, p));
      match RuleAt(ts, p)
      case Got(rule, q) => ([Spanned(rule, spans, p, q)] + rules, errors)
      case Failed(m, at) => (rules, [ParseError(m, SpanAt(spans, at))] + errors)
  }

  function ParseFile(ts: Tokens, spans: seq<Span>): Result<seq<Rule>, seq<ParseError>>
    requires |ts| == |spans|
  {
    var (rules, errors) := FileFrom(ts, spans, 0);
    if errors == [] then Ok(rules) else Err(errors)
  }

  // ---------------------------------------------------------------- error accounting

  /** Start positions of all rule attempts from `p` on. */
  function Attempts(ts: Tokens, p: nat): seq<nat>
    requires p <= |ts|
    decreases |ts| - p
  {
    if p == |ts| then [] else [p] + Attempts(ts, NextAttempt(ts, p))
  }

  function Failures(ts: Tokens, starts: seq<nat>): nat
    requires forall k | 0 <= k < |starts| :: starts[k] <= |ts|
  {
    if starts == [] then 0
    else (if RuleAt(ts, starts[0]).Failed? then 1 else 0) + Failures(ts, starts[1..])
  }

  lemma NextSkipsNoRule(ts: Tokens, p: nat)
    requires p < |ts|
    ensures forall i | p < i < NextAttempt(ts, p) :: ts[i] != L.Rule
  {
    hide RuleAt;
  }

  /** Attempts go strictly forward and every `rule` keyword of the input starts one: recovery skips
      none and no attempt swallows one. */
  lemma {:induction false} AttemptsCover(ts: Tokens, p: nat)
    requires p <= |ts|
    ensures var starts := Attempts(ts, p);
            && (forall a | a in starts :: p <= a < |ts|)
            && (forall k, l | 0 <= k < l < |starts| :: starts[k] < starts[l])
            && (forall i | p <= i < |ts| && ts[i] == L.Rule :: i in starts)
    decreases |ts| - p
  {
    hide RuleAt;
    if p < |ts| {
      NextSkipsNoRule(ts, p);
      hide NextAttempt;
      AttemptsCover(ts, NextAttempt(ts, p));
      var rest := Attempts(ts, NextAttempt(ts, p));
      assert Attempts(ts, p) == [p] + rest;
      assert forall k | 0 <= k < |rest| :: rest[k] in rest;
    }
  }

  /** Each failed attempt reports exactly one error and each other attempt yields one rule, so the
      parse is Ok exactly when no attempt failed. */
  lemma {:induction false} OneErrorPerFailure(ts: Tokens, spans: seq<Span>, p: nat)
    requires p <= |ts| == |spans|
    ensures forall k | 0 <= k < |Attempts(ts, p)| :: Attempts(ts, p)[k] <= |ts|
    ensures var (rules, errors) := FileFrom(ts, spans, p);
            |errors| == Failures(ts, Attempts(ts, p)) && |rules| + |errors| == |Attempts(ts, p)|
    decreases |ts| - p
  {
    AttemptsCover(ts, p);
    if p < |ts| {
      OneErrorPerFailure(ts, spans, NextAttempt(ts, p));
      assert Attempts(ts, p)[1..] == Attempts(ts, NextAttempt(ts, p));
    }
  }
}
