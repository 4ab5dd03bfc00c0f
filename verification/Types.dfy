/** The type checker (crates/aether-script/src/types.rs), the typing judgement it decides, and how it
    relates to what the code generator accepts. */
module Types {
  import opened Results
  import opened Ast
  import C = Codegen

  datatype AetherType =
    Percent | DurationType | Int | Float | Str | Bool | ProcessState | Process | System
  {
    predicate IsNumeric() {
      Percent? || Int? || Float? || DurationType?
    }

    predicate CompatibleWith(other: AetherType) {
      if this == other then true
      else if IsNumeric() && other.IsNumeric() then
        if DurationType? || other.DurationType? then DurationType? && other.DurationType? else true
      else false
    }
  }

  datatype TypeError =
    | UnknownObject(obj: string)
    | UnknownField(obj: string, field: string)
    | NotOrdered(op: CmpOp, ty: AetherType)
    | Mismatch(left: AetherType, right: AetherType)
    | EmptyAlert
    | EmptyLog

  const PROCESS_FIELDS: map<string, AetherType> := map[
    "cpu" := Percent, "mem_bytes" := Int, "mem_growth" := Percent, "state" := ProcessState,
    "name" := Str, "pid" := Int, "parent" := Str, "hp" := Percent]

  const SYSTEM_FIELDS: map<string, AetherType> := map[
    "load" := Percent, "total_mem" := Int, "process_count" := Int]

  function ResolveField(obj: string, field: string): Result<AetherType, TypeError> {
    if obj == "process" then
      if field in PROCESS_FIELDS then Ok(PROCESS_FIELDS[field]) else Err(UnknownField(obj, field))
    else if obj == "system" then
      if field in SYSTEM_FIELDS then Ok(SYSTEM_FIELDS[field]) else Err(UnknownField(obj, field))
    else Err(UnknownObject(obj))
  }

  function LiteralType(lit: Literal): AetherType {
    match lit
    case IntLit(_) => Int
    case FloatLit(_) => Float
    case PercentLit(_) => Percent
    case DurationLit(_) => DurationType
    case StrLit(_) => Str
  }

  function ResolveExpr(e: Expr): Result<AetherType, TypeError> {
    match e
    case FieldAccess(obj, field) => ResolveField(obj, field)
    case Lit(lit) => Ok(LiteralType(lit))
  }

  predicate IsOrdered(op: CmpOp) {
    op == Gt || op == Lt || op == Gte || op == Lte
  }

  // ---------------------------------------------------------------- the errors, as a function

  function ComparisonErrors(left: Expr, op: CmpOp, right: Expr): seq<TypeError> {
    match (ResolveExpr(left), ResolveExpr(right))
    case (Err(e), _) => [e]
    case (_, Err(e)) => [e]
    case (Ok(l), Ok(r)) =>
      if IsOrdered(op) && !l.IsNumeric() then [NotOrdered(op, l)]
      else if !l.CompatibleWith(r) then [Mismatch(l, r)]
      else []
  }

  function ConditionErrors(c: Condition): seq<TypeError> {
    match c
    case Comparison(left, op, right) => ComparisonErrors(left, op, right)
    case Duration(inner, _) => ConditionErrors(inner)
    case And(l, r) => ConditionErrors(l) + ConditionErrors(r)
    case Or(l, r) => ConditionErrors(l) + ConditionErrors(r)
    case Not(inner) => ConditionErrors(inner)
  }

  function ActionErrors(a: Action): seq<TypeError> {
    match a
    case Alert(message, _) => if message == "" then [EmptyAlert] else []
    case Log(message) => if message == "" then [EmptyLog] else []
    case Kill => []
  }

  function ActionsErrors(actions: seq<Action>): seq<TypeError> {
    if actions == [] then [] else ActionErrors(actions[0]) + ActionsErrors(actions[1..])
  }

  function FileErrors(rules: seq<Rule>): seq<TypeError> {
    if rules == [] then []
    else ConditionErrors(rules[0].condition) + ActionsErrors(rules[0].actions) + FileErrors(rules[1..])
  }

  // ---------------------------------------------------------------- the checker

  /** The error vector every check pushes onto. */
  class ErrorSink {
    var errors: seq<TypeError>

    constructor ()
      ensures errors == []
    {
      errors := [];
    }

    method Push(e: TypeError)
      modifies this
      ensures errors == old(errors) + [e]
    {
      errors := errors + [e];
    }
  }

  method CheckComparison(left: Expr, op: CmpOp, right: Expr, sink: ErrorSink)
    modifies sink
    ensures sink.errors == old(sink.errors) + ComparisonErrors(left, op, right)
  {
    var l := ResolveExpr(left);
    if l.Err? {
      sink.Push(l.error);
      return;
    }
    var r := ResolveExpr(right);
    if r.Err? {
      sink.Push(r.error);
      return;
    }
    if IsOrdered(op) && !l.value.IsNumeric() {
      sink.Push(NotOrdered(op, l.value));
      return;
    }
    if !l.value.CompatibleWith(r.value) {
      sink.Push(Mismatch(l.value, r.value));
    }
  }

  method CheckCondition(c: Condition, sink: ErrorSink)
    modifies sink
    ensures sink.errors == old(sink.errors) + ConditionErrors(c)
    decreases c
  {
    match c
    case Comparison(left, op, right) => CheckComparison(left, op, right, sink);
    case Duration(inner, _) => CheckCondition(inner, sink);
    case And(l, r) =>
      CheckCondition(l, sink);
      CheckCondition(r, sink);
    case Or(l, r) =>
      CheckCondition(l, sink);
      CheckCondition(r, sink);
    case Not(inner) => CheckCondition(inner, sink);
  }

  method CheckAction(a: Action, sink: ErrorSink)
    modifies sink
    ensures sink.errors == old(sink.errors) + ActionErrors(a)
  {
    match a
    case Alert(message, _) =>
      if message == "" { sink.Push(EmptyAlert); }
    case Log(message) =>
      if message == "" { sink.Push(EmptyLog); }
    case Kill =>
  }

  method CheckRule(rule: Rule, sink: ErrorSink)
    modifies sink
    ensures sink.errors == old(sink.errors) + (ConditionErrors(rule.condition) + ActionsErrors(rule.actions))
  {
    hide ConditionErrors, ActionErrors;
    CheckCondition(rule.condition, sink);
    ghost var before := sink.errors;
    for k := 0 to |rule.actions|
      invariant sink.errors + ActionsErrors(rule.actions[k..]) == before + ActionsErrors(rule.actions)
    {
      CheckAction(rule.actions[k], sink);
      assert rule.actions[k..][1..] == rule.actions[k + 1..];
    }
    assert sink.errors + [] == sink.errors;
  }

  /** Check a file. It is accepted exactly when every rule is well typed; otherwise all errors of all
      rules are returned in order. */
  method Check(rules: seq<Rule>) returns (r: Result<(), seq<TypeError>>)
    ensures r == if FileErrors(rules) == [] then Ok(()) else Err(FileErrors(rules))
    ensures r.Ok? <==> forall k | 0 <= k < |rules| :: RuleTyped(rules[k])
  {
    hide ConditionErrors, ActionsErrors, RuleTyped;
    var sink := new ErrorSink();
    for k := 0 to |rules|
      invariant sink.errors + FileErrors(rules[k..]) == FileErrors(rules)
    {
      CheckRule(rules[k], sink);
      assert rules[k..][1..] == rules[k + 1..];
    }
    assert sink.errors + [] == sink.errors;
    FileTyped(rules);
    r := if sink.errors == [] then Ok(()) else Err(sink.errors);
  }

  // ---------------------------------------------------------------- the typing judgement

  /** The kinds of value a comparison can be about. */
  datatype Kind = NumberKind | TimeKind | TextKind | TruthKind | StateKind | ProcessKind | SystemKind

  function KindOf(t: AetherType): Kind {
    match t
    case Percent => NumberKind
    case Int => NumberKind
    case Float => NumberKind
    case DurationType => TimeKind
    case Str => TextKind
    case Bool => TruthKind
    case ProcessState => StateKind
    case Process => ProcessKind
    case System => SystemKind
  }

  /** `e` denotes a value of kind `k`. */
  predicate HasKind(e: Expr, k: Kind) {
    match e
    case FieldAccess(obj, field) =>
      || (obj == "process" && k == NumberKind && field in ["pid", "cpu", "mem_bytes", "mem_growth", "hp"])
      || (obj == "process" && k == TextKind && field in ["name", "parent"])
      || (obj == "process" && k == StateKind && field == "state")
      || (obj == "system" && k == NumberKind && field in ["load", "total_mem", "process_count"])
    case Lit(IntLit(_)) => k == NumberKind
    case Lit(FloatLit(_)) => k == NumberKind
    case Lit(PercentLit(_)) => k == NumberKind
    case Lit(DurationLit(_)) => k == TimeKind
    case Lit(StrLit(_)) => k == TextKind
  }

  /** Both sides are of one kind, and order is asked of numbers and durations only. */
  ghost predicate LeafTyped(left: Expr, op: CmpOp, right: Expr) {
    exists k :: HasKind(left, k) && HasKind(right, k) && (op == Eq || op == Neq || k == NumberKind || k == TimeKind)
  }

  ghost predicate ConditionTyped(c: Condition) {
    match c
    case Comparison(left, op, right) => LeafTyped(left, op, right)
    case Duration(inner, _) => ConditionTyped(inner)
    case And(l, r) => ConditionTyped(l) && ConditionTyped(r)
    case Or(l, r) => ConditionTyped(l) && ConditionTyped(r)
    case Not(inner) => ConditionTyped(inner)
  }

  ghost predicate RuleTyped(r: Rule) {
    ConditionTyped(r.condition) && (forall k | 0 <= k < |r.actions| :: ActionTyped(r.actions[k]))
  }

  /** Actions that carry a message carry a non-empty one. */
  predicate ActionTyped(a: Action) {
    a.Kill? || a.message != ""
  }

  /** Compatibility is an equivalence: being of one kind. */
  lemma CompatibleIsSameKind(a: AetherType, b: AetherType)
    ensures a.CompatibleWith(b) <==> KindOf(a) == KindOf(b)
    ensures a.IsNumeric() <==> KindOf(a) == NumberKind || KindOf(a) == TimeKind
  {
  }

  lemma KindIsResolved(e: Expr)
    ensures forall k :: HasKind(e, k) <==> ResolveExpr(e).Ok? && KindOf(ResolveExpr(e).value) == k
  {
  }

  lemma LeafDecided(left: Expr, op: CmpOp, right: Expr)
    ensures ComparisonErrors(left, op, right) == [] <==> LeafTyped(left, op, right)
  {
    hide HasKind, ResolveExpr, KindOf;
    KindIsResolved(left);
    KindIsResolved(right);
    if ResolveExpr(left).Ok? && ResolveExpr(right).Ok? {
      var l, r := ResolveExpr(left).value, ResolveExpr(right).value;
      CompatibleIsSameKind(l, r);
      assert HasKind(left, KindOf(l)) && HasKind(right, KindOf(r));
    }
  }

  /** What an error says of the comparison it was reported for. */
  ghost predicate Blames(error: TypeError, left: Expr, op: CmpOp, right: Expr) {
    match error
    case UnknownObject(obj) =>
      obj != "process" && obj != "system"
      && ((left.FieldAccess? && left.obj == obj) || (right.FieldAccess? && right.obj == obj))
    case UnknownField(obj, field) =>
      && (obj == "process" || obj == "system") && (forall k :: !HasKind(FieldAccess(obj, field), k))
      && (left == FieldAccess(obj, field) || right == FieldAccess(obj, field))
    case NotOrdered(o, t) =>
      o == op && op != Eq && op != Neq && HasKind(left, KindOf(t)) && KindOf(t) != NumberKind && KindOf(t) != TimeKind
    case Mismatch(l, r) => HasKind(left, KindOf(l)) && HasKind(right, KindOf(r)) && KindOf(l) != KindOf(r)
    case _ => false
  }

  /** A comparison gets at most one error, and what that says is so. */
  lemma ErrorsAreTrue(left: Expr, op: CmpOp, right: Expr)
    ensures |ComparisonErrors(left, op, right)| <= 1
    ensures forall e | e in ComparisonErrors(left, op, right) :: Blames(e, left, op, right)
  {
    FaultOf(left);
    FaultOf(right);
    KindIsResolved(left);
    KindIsResolved(right);
    hide HasKind, ResolveExpr, KindOf;
    if ResolveExpr(left).Ok? && ResolveExpr(right).Ok? {
      CompatibleIsSameKind(ResolveExpr(left).value, ResolveExpr(right).value);
    }
  }

  /** The ill-typed comparisons of a condition, from left to right. */
  ghost function BadLeaves(c: Condition): seq<Condition> {
    match c
    case Comparison(left, op, right) => if LeafTyped(left, op, right) then [] else [c]
    case Duration(inner, _) => BadLeaves(inner)
    case And(l, r) => BadLeaves(l) + BadLeaves(r)
    case Or(l, r) => BadLeaves(l) + BadLeaves(r)
    case Not(inner) => BadLeaves(inner)
  }

  /** One true error for each ill-typed comparison, in order, and no other. */
  lemma {:induction false} OneErrorPerBadLeaf(c: Condition)
    ensures |ConditionErrors(c)| == |BadLeaves(c)|
    ensures forall k | 0 <= k < |BadLeaves(c)| ::
              var leaf := BadLeaves(c)[k];
              leaf.Comparison? && Blames(ConditionErrors(c)[k], leaf.left, leaf.op, leaf.right)
  {
    hide ComparisonErrors, LeafTyped, Blames;
    match c
    case Comparison(left, op, right) =>
      LeafDecided(left, op, right);
      ErrorsAreTrue(left, op, right);
    case Duration(inner, _) => OneErrorPerBadLeaf(inner);
    case And(l, r) =>
      OneErrorPerBadLeaf(l);
      OneErrorPerBadLeaf(r);
    case Or(l, r) =>
      OneErrorPerBadLeaf(l);
      OneErrorPerBadLeaf(r);
    case Not(inner) => OneErrorPerBadLeaf(inner);
  }

  lemma FaultOf(e: Expr)
    ensures ResolveExpr(e).Err? ==>
              e.FieldAccess? && (forall k :: !HasKind(e, k))
              && ResolveExpr(e).error == if e.obj == "process" || e.obj == "system" then UnknownField(e.obj, e.field)
                                         else UnknownObject(e.obj)
  {
  }

  /** The checker reports nothing exactly when the judgement holds at every leaf. */
  lemma {:induction false} CheckerDecidesTyping(c: Condition)
    ensures ConditionErrors(c) == [] <==> ConditionTyped(c)
  {
    hide ComparisonErrors, LeafTyped;
    match c
    case Comparison(left, op, right) => LeafDecided(left, op, right);
    case Duration(inner, _) => CheckerDecidesTyping(inner);
    case And(l, r) =>
      CheckerDecidesTyping(l);
      CheckerDecidesTyping(r);
    case Or(l, r) =>
      CheckerDecidesTyping(l);
      CheckerDecidesTyping(r);
    case Not(inner) => CheckerDecidesTyping(inner);
  }

  lemma {:induction false} ActionsDecided(actions: seq<Action>)
    ensures ActionsErrors(actions) == [] <==>
              forall k | 0 <= k < |actions| :: ActionErrors(actions[k]) == []
  {
    hide ActionErrors;
    if actions != [] {
      ActionsDecided(actions[1..]);
      assert forall k | 1 <= k < |actions| :: actions[k] == actions[1..][k - 1];
    }
  }

  /** An action gets an error exactly if its message is empty, and the one for its kind. */
  lemma ActionFault(a: Action)
    ensures ActionErrors(a) == match a
                               case Alert("", _) => [EmptyAlert]
                               case Log("") => [EmptyLog]
                               case _ => []
  {
  }

  lemma {:induction false} RuleDecided(r: Rule)
    ensures ConditionErrors(r.condition) == [] && ActionsErrors(r.actions) == [] <==> RuleTyped(r)
  {
    hide ConditionErrors, ConditionTyped, ActionsErrors;
    CheckerDecidesTyping(r.condition);
    ActionsDecided(r.actions);
  }

  lemma {:induction false} FileTyped(rules: seq<Rule>)
    ensures FileErrors(rules) == [] <==> forall k | 0 <= k < |rules| :: RuleTyped(rules[k])
  {
    hide ConditionErrors, ActionsErrors, RuleTyped;
    if rules != [] {
      RuleDecided(rules[0]);
      FileTyped(rules[1..]);
      assert forall k | 1 <= k < |rules| :: rules[k] == rules[1..][k - 1];
    }
  }

  // ---------------------------------------------------------------- checker against code generator

  /** The leaves both accept: a process field known to both against a literal of its own number class. */
  predicate SharedLeaf(left: Expr, right: Expr) {
    && left.FieldAccess? && left.obj == "process" && right.Lit?
    && (if left.field in ["pid", "mem_bytes"] then right.lit.IntLit?
        else left.field in ["cpu", "mem_growth", "hp"] && (right.lit.FloatLit? || right.lit.PercentLit?))
  }

  predicate SharedCondition(c: Condition) {
    match c
    case Comparison(left, _, right) => SharedLeaf(left, right)
    case Duration(inner, _) => SharedCondition(inner)
    case And(l, r) => SharedCondition(l) && SharedCondition(r)
    case Or(l, r) => SharedCondition(l) && SharedCondition(r)
    case Not(inner) => SharedCondition(inner)
  }

  lemma SharedLeafExactly(left: Expr, op: CmpOp, right: Expr)
    ensures ComparisonErrors(left, op, right) == [] && C.LeafCompiles(left, right) <==> SharedLeaf(left, right)
  {
  }

  /** A condition passes the checker and compiles exactly when all its leaves are shared leaves; so
      every accepted condition over shared leaves compiles, and nothing else does both. */
  lemma {:induction false} BothAcceptExactly(c: Condition, narrow: C.Narrowing)
    ensures ConditionErrors(c) == [] && C.ConditionCode(c, 0, 2, narrow).Ok? <==> SharedCondition(c)
  {
    C.CompilesExactly(c, 0, 2, narrow);
    SharedExactly(c);
  }

  lemma {:induction false} SharedExactly(c: Condition)
    ensures ConditionErrors(c) == [] && C.Compilable(c) <==> SharedCondition(c)
  {
    hide ComparisonErrors, C.LeafCompiles, SharedLeaf;
    match c
    case Comparison(left, op, right) => SharedLeafExactly(left, op, right);
    case Duration(inner, _) => SharedExactly(inner);
    case And(l, r) =>
      SharedExactly(l);
      SharedExactly(r);
    case Or(l, r) =>
      SharedExactly(l);
      SharedExactly(r);
    case Not(inner) => SharedExactly(inner);
  }

  /** An integer against a percentage type-checks and does not compile. */
  lemma CheckedNotCompiled(narrow: C.Narrowing)
    ensures var c := C.OnField("cpu", Gt, 90);
            ConditionErrors(c) == [] && C.ConditionCode(c, 0, 2, narrow).Err?
  {
    C.CompilesExactly(C.OnField("cpu", Gt, 90), 0, 2, narrow);
  }

  /** A process state against an integer compiles and does not type-check. */
  lemma CompiledNotChecked(narrow: C.Narrowing)
    ensures var c := C.OnField("state", Eq, 2);
            ConditionErrors(c) != [] && C.ConditionCode(c, 0, 2, narrow).Ok?
  {
    C.CompilesExactly(C.OnField("state", Eq, 2), 0, 2, narrow);
  }
}
