/** Lowering of rules to IR (crates/aether-script/src/codegen.rs) and its correctness.

    `narrow` stands for the conversion of an f64 literal to f32; every statement holds
    for whatever function it is. */
module Codegen {
  import opened Results
  import opened Ast
  import opened Ir

  datatype ScriptError =
    | UnknownObject(obj: string)
    | UnknownField(obj: string, field: string)
    | LeftNotField
    | RightNotLiteral
    | TypeMismatch(ty: Ty, lit: Literal)
    | NoActions

  type Narrowing = Float -> Float

  // ---------------------------------------------------------------- what a rule means

  /** A field's value in a state, by name and without reference to memory. */
  datatype Reading = Int32Reading(v: UInt32) | Int64Reading(w: UInt64) | FloatReading(f: Float)

  function Read(st: WorldState, obj: string, field: string): Option<Reading> {
    if obj != "process" then None
    else if field == "pid" then Some(Int32Reading(st.pid))
    else if field == "cpu" || field == "cpu_percent" then Some(FloatReading(st.cpuPercent))
    else if field == "mem" || field == "mem_bytes" then Some(Int64Reading(st.memBytes))
    else if field == "mem_growth" || field == "mem_growth_percent" then Some(FloatReading(st.memGrowthPercent))
    else if field == "state" then Some(Int32Reading(st.state))
    else if field == "hp" then Some(FloatReading(st.hp))
    else None
  }

  /** `sign` is negative, zero or positive as the left side is below, equal to or above the right. */
  predicate OpHolds(op: CmpOp, sign: int) {
    match op
    case Gt => sign > 0
    case Lt => sign < 0
    case Gte => sign >= 0
    case Lte => sign <= 0
    case Eq => sign == 0
    case Neq => sign != 0
  }

  function Order(a: Float, b: Float): int
    requires !a.NaN? && !b.NaN?
  {
    if a == b then 0
    else if a.NegInf? || b.PosInf? || (a.Finite? && b.Finite? && a.value < b.value) then -1
    else 1
  }

  predicate LeafHolds(left: Expr, op: CmpOp, right: Expr, st: WorldState, narrow: Narrowing) {
    if !left.FieldAccess? || !right.Lit? then false
    else
      match (Read(st, left.obj, left.field), right.lit)
      case (Some(Int32Reading(u)), IntLit(n)) => OpHolds(op, Signed32(u) - Signed32(Wrap32(n)))
      case (Some(Int64Reading(w)), IntLit(n)) => OpHolds(op, Signed64(w) - n)
      case (Some(FloatReading(f)), FloatLit(x)) => FloatLeafHolds(op, f, narrow(x))
      case (Some(FloatReading(f)), PercentLit(x)) => FloatLeafHolds(op, f, narrow(x))
      case _ => false
  }

  predicate FloatLeafHolds(op: CmpOp, a: Float, b: Float) {
    if a.NaN? || b.NaN? then op == Neq else OpHolds(op, Order(a, b))
  }

  /** The boolean meaning of a condition in one state; durations are the runtime's business. */
  predicate Holds(c: Condition, st: WorldState, narrow: Narrowing) {
    match c
    case Comparison(left, op, right) => LeafHolds(left, op, right, st, narrow)
    case Duration(inner, _) => Holds(inner, st, narrow)
    case And(l, r) => Holds(l, st, narrow) && Holds(r, st, narrow)
    case Or(l, r) => Holds(l, st, narrow) || Holds(r, st, narrow)
    case Not(inner) => !Holds(inner, st, narrow)
  }

  function ActionCode(a: Action): UInt32 {
    match a
    case Alert(_, _) => 1
    case Kill => 2
    case Log(_) => 3
  }

  function SeverityCode(a: Action): UInt32 {
    if a.Alert? then (match a.severity case Info => 0 case Warning => 1 case Critical => 2) else 0
  }

  /** The result a rule should produce: only its first action counts. */
  function Outcome(rule: Rule, st: WorldState, narrow: Narrowing): RuleResult
    requires rule.actions != []
  {
    if Holds(rule.condition, st, narrow)
    then RuleResult(1, ActionCode(rule.actions[0]), st.pid, SeverityCode(rule.actions[0]))
    else RuleResult(0, 0, 0, 0)
  }

  /** Leaves the compiler accepts: a known process field against a literal of its class. */
  predicate LeafCompiles(left: Expr, right: Expr) {
    && left.FieldAccess? && left.obj == "process" && right.Lit?
    && (if left.field in ["pid", "state", "mem", "mem_bytes"] then right.lit.IntLit?
        else && left.field in ["cpu", "cpu_percent", "mem_growth", "mem_growth_percent", "hp"]
             && (right.lit.FloatLit? || right.lit.PercentLit?))
  }

  predicate Compilable(c: Condition) {
    match c
    case Comparison(left, _, right) => LeafCompiles(left, right)
    case Duration(inner, _) => Compilable(inner)
    case And(l, r) => Compilable(l) && Compilable(r)
    case Or(l, r) => Compilable(l) && Compilable(r)
    case Not(inner) => Compilable(inner)
  }

  // ---------------------------------------------------------------- the compiler's tables

  function ResolveField(obj: string, field: string): Result<(nat, Ty), ScriptError> {
    if obj != "process" then Err(UnknownObject(obj))
    else if field == "pid" then Ok((0, I32))
    else if field == "cpu" || field == "cpu_percent" then Ok((4, F32))
    else if field == "mem" || field == "mem_bytes" then Ok((8, I64))
    else if field == "mem_growth" || field == "mem_growth_percent" then Ok((16, F32))
    else if field == "state" then Ok((20, I32))
    else if field == "hp" then Ok((24, F32))
    else Err(UnknownField(obj, field))
  }

  function ToIntCC(op: CmpOp): IntCC {
    match op
    case Gt => SignedGreaterThan
    case Lt => SignedLessThan
    case Gte => SignedGreaterThanOrEqual
    case Lte => SignedLessThanOrEqual
    case Eq => IntEqual
    case Neq => IntNotEqual
  }

  function ToFloatCC(op: CmpOp): FloatCC {
    match op
    case Gt => GreaterThan
    case Lt => LessThan
    case Gte => GreaterThanOrEqual
    case Lte => LessThanOrEqual
    case Eq => FloatEqual
    case Neq => FloatNotEqual
  }

  // ---------------------------------------------------------------- the emitted code, as a function

  /** Code for `value n compared with lit`, where value n was loaded with type `ty`. */
  function LiteralCode(ty: Ty, n: ValueId, op: CmpOp, lit: Literal, narrow: Narrowing): Result<seq<Inst>, ScriptError> {
    if lit.IntLit? && (ty == I32 || ty == I64) then
      Ok([Iconst(ty, lit.n), Icmp(ToIntCC(op), n, n + 1)])
    else if (lit.FloatLit? || lit.PercentLit?) && ty == F32 then
      Ok([F32const(narrow(lit.f)), Fcmp(ToFloatCC(op), n, n + 1)])
    else Err(TypeMismatch(ty, lit))
  }

  function LeafCode(left: Expr, op: CmpOp, right: Expr, sp: ValueId, n: ValueId, narrow: Narrowing)
    : Result<seq<Inst>, ScriptError>
  {
    if !left.FieldAccess? then Err(LeftNotField)
    else
      var (offset, ty) :- ResolveField(left.obj, left.field);
      if !right.Lit? then Err(RightNotLiteral)
      else
        var cmp :- LiteralCode(ty, n, op, right.lit, narrow);
        Ok([Load(ty, sp, offset)] + cmp)
  }

  /** Code of a condition whose first fresh SSA number is `n`; its result is its last value. */
  function ConditionCode(c: Condition, sp: ValueId, n: ValueId, narrow: Narrowing): (r: Result<seq<Inst>, ScriptError>)
    ensures r.Ok? ==> |r.value| > 0
    decreases c.Nodes(), 0
  {
    match c
    case Comparison(left, op, right) => LeafCode(left, op, right, sp, n, narrow)
    case Duration(inner, _) => ConditionCode(inner, sp, n, narrow)
    case And(l, r) =>
      var (lc, rc) :- BothCode(l, r, sp, n, narrow);
      Ok(lc + rc + [Band(n + |lc| - 1, n + |lc| + |rc| - 1)])
    case Or(l, r) =>
      var (lc, rc) :- BothCode(l, r, sp, n, narrow);
      Ok(lc + rc + [Bor(n + |lc| - 1, n + |lc| + |rc| - 1)])
    case Not(inner) =>
      var ic :- ConditionCode(inner, sp, n, narrow);
      Ok(ic + [Iconst(I8, 1), Bxor(n + |ic| - 1, n + |ic|)])
  }

  function BothCode(l: Condition, r: Condition, sp: ValueId, n: ValueId, narrow: Narrowing)
    : (both: Result<(seq<Inst>, seq<Inst>), ScriptError>)
    ensures both.Ok? ==> |both.value.0| > 0 && |both.value.1| > 0
    decreases l.Nodes() + r.Nodes(), 1
  {
    var lc :- ConditionCode(l, sp, n, narrow);
    var rc :- ConditionCode(r, sp, n + |lc|, narrow);
    Ok((lc, rc))
  }

  function ActionConstants(a: Action): seq<Inst> {
    match a
    case Alert(_, severity) => [Iconst(I32, 1), Iconst(I32, severity.AsI64())]
    case Kill => [Iconst(I32, 2), Iconst(I32, 0)]
    case Log(_) => [Iconst(I32, 3), Iconst(I32, 0)]
  }

  function ReturnCode(sp: ValueId, rp: ValueId, matched: ValueId, a: Action, n: ValueId): seq<Inst> {
    ActionConstants(a) + [
      Load(I32, sp, 0),
      Uextend(I32, matched),
      Iconst(I32, 0),
      Select(matched, n, n + 4),
      Select(matched, n + 2, n + 4),
      Select(matched, n + 1, n + 4),
      Store(n + 3, rp, 0),
      Store(n + 5, rp, 4),
      Store(n + 6, rp, 8),
      Store(n + 7, rp, 12),
      Return
    ]
  }

  function RuleCode(rule: Rule, narrow: Narrowing): Result<seq<Inst>, ScriptError> {
    var code :- ConditionCode(rule.EvalCondition(), 0, 2, narrow);
    if rule.actions == [] then Err(NoActions)
    else Ok(code + ReturnCode(0, 1, 2 + |code| - 1, rule.actions[0], 2 + |code|))
  }

  // ---------------------------------------------------------------- the code generator

  /** The function under construction: its instructions and the next free SSA number. */
  class FunctionBuilder {
    var insts: seq<Inst>
    var nextValue: ValueId

    /** A fresh function whose two parameters are already values 0 and 1. */
    constructor ()
      ensures insts == [] && nextValue == 2
    {
      insts, nextValue := [], 2;
    }

    /** Append an instruction that defines a value. */
    method Define(i: Inst) returns (v: ValueId)
      modifies this
      ensures insts == old(insts) + [i]
      ensures v == old(nextValue) && nextValue == v + 1
    {
      insts := insts + [i];
      v, nextValue := nextValue, nextValue + 1;
    }

    /** Append an instruction without a result. */
    method Append(i: Inst)
      modifies this
      ensures insts == old(insts) + [i] && nextValue == old(nextValue)
    {
      insts := insts + [i];
    }
  }

  /** What an emitter did to the builder: `code` appended, its last value returned. */
  twostate predicate Emitted(b: FunctionBuilder, code: seq<Inst>)
    reads b
  {
    b.insts == old(b.insts) + code && b.nextValue == old(b.nextValue) + |code|
  }

  method EmitLiteralCmp(b: FunctionBuilder, loaded: ValueId, ty: Ty, op: CmpOp, lit: Literal, narrow: Narrowing)
    returns (r: Result<ValueId, ScriptError>)
    requires loaded + 1 == b.nextValue
    modifies b
    ensures match LiteralCode(ty, loaded, op, lit, narrow)
            case Ok(code) => Emitted(b, code) && r == Ok(b.nextValue - 1)
            case Err(e) => r == Err(e) && old(b.insts) <= b.insts
  {
    if lit.IntLit? && (ty == I32 || ty == I64) {
      var rhs := b.Define(Iconst(ty, lit.n));
      var v := b.Define(Icmp(ToIntCC(op), loaded, rhs));
      return Ok(v);
    } else if (lit.FloatLit? || lit.PercentLit?) && ty == F32 {
      var rhs := b.Define(F32const(narrow(lit.f)));
      var v := b.Define(Fcmp(ToFloatCC(op), loaded, rhs));
      return Ok(v);
    } else {
      return Err(TypeMismatch(ty, lit));
    }
  }

  method EmitComparison(b: FunctionBuilder, sp: ValueId, left: Expr, op: CmpOp, right: Expr, narrow: Narrowing)
    returns (r: Result<ValueId, ScriptError>)
    modifies b
    ensures match LeafCode(left, op, right, sp, old(b.nextValue), narrow)
            case Ok(code) => Emitted(b, code) && r == Ok(b.nextValue - 1)
            case Err(e) => r == Err(e) && old(b.insts) <= b.insts
  {
    if !left.FieldAccess? {
      return Err(LeftNotField);
    }
    var place := ResolveField(left.obj, left.field);
    if place.Err? {
      return Err(place.error);
    }
    var (offset, ty) := place.value;
    var loaded := b.Define(Load(ty, sp, offset));
    if right.Lit? {
      r := EmitLiteralCmp(b, loaded, ty, op, right.lit, narrow);
    } else {
      r := Err(RightNotLiteral);
    }
  }

  method EmitCondition(b: FunctionBuilder, sp: ValueId, c: Condition, narrow: Narrowing)
    returns (r: Result<ValueId, ScriptError>)
    modifies b
    ensures match ConditionCode(c, sp, old(b.nextValue), narrow)
            case Ok(code) => Emitted(b, code) && r == Ok(b.nextValue - 1)
            case Err(e) => r == Err(e) && old(b.insts) <= b.insts
    decreases c.Nodes(), 0
  {
    hide LeafCode;
    match c
    case Comparison(left, op, right) =>
      r := EmitComparison(b, sp, left, op, right, narrow);
    case And(left, right) =>
      var sides :- EmitBoth(b, sp, left, right, narrow);
      var v := b.Define(Band(sides.0, sides.1));
      r := Ok(v);
    case Or(left, right) =>
      var sides :- EmitBoth(b, sp, left, right, narrow);
      var v := b.Define(Bor(sides.0, sides.1));
      r := Ok(v);
    case Not(inner) =>
      var v :- EmitCondition(b, sp, inner, narrow);
      var one := b.Define(Iconst(I8, 1));
      var flipped := b.Define(Bxor(v, one));
      r := Ok(flipped);
    case Duration(inner, _) =>
      r := EmitCondition(b, sp, inner, narrow);
  }

  /** The two sides of a connective, left before right, stopping at the first error. */
  method EmitBoth(b: FunctionBuilder, sp: ValueId, left: Condition, right: Condition, narrow: Narrowing)
    returns (r: Result<(ValueId, ValueId), ScriptError>)
    modifies b
    ensures match BothCode(left, right, sp, old(b.nextValue), narrow)
            case Ok((lc, rc)) =>
              Emitted(b, lc + rc) && r == Ok((old(b.nextValue) + |lc| - 1, b.nextValue - 1))
            case Err(e) => r == Err(e) && old(b.insts) <= b.insts
    decreases left.Nodes() + right.Nodes(), 1
  {
    hide ConditionCode;
    var l := EmitCondition(b, sp, left, narrow);
    if l.Err? {
      return Err(l.error);
    }
    var rr := EmitCondition(b, sp, right, narrow);
    if rr.Err? {
      return Err(rr.error);
    }
    r := Ok((l.value, rr.value));
  }

  method EmitActionConstants(b: FunctionBuilder, a: Action) returns (action: ValueId, severity: ValueId)
    modifies b
    ensures Emitted(b, ActionConstants(a))
    ensures action == old(b.nextValue) && severity == action + 1
  {
    match a
    case Alert(_, sev) =>
      action := b.Define(Iconst(I32, 1));
      severity := b.Define(Iconst(I32, sev.AsI64()));
    case Kill =>
      action := b.Define(Iconst(I32, 2));
      severity := b.Define(Iconst(I32, 0));
    case Log(_) =>
      action := b.Define(Iconst(I32, 3));
      severity := b.Define(Iconst(I32, 0));
  }

  method EmitReturn(b: FunctionBuilder, sp: ValueId, rp: ValueId, matched: ValueId, a: Action)
    modifies b
    ensures b.insts == old(b.insts) + ReturnCode(sp, rp, matched, a, old(b.nextValue))
  {
    ghost var before, n := b.insts, b.nextValue;
    var actionVal, severityVal := EmitActionConstants(b, a);
    ghost var start := b.insts;
    var pid := b.Define(Load(I32, sp, 0));
    var matched32 := b.Define(Uextend(I32, matched));
    var zero := b.Define(Iconst(I32, 0));
    var finalAction := b.Define(Select(matched, actionVal, zero));
    var finalPid := b.Define(Select(matched, pid, zero));
    var finalSev := b.Define(Select(matched, severityVal, zero));
    b.Append(Store(matched32, rp, 0));
    b.Append(Store(finalAction, rp, 4));
    b.Append(Store(finalPid, rp, 8));
    b.Append(Store(finalSev, rp, 12));
    b.Append(Return);
    ReturnAppended(before, start, b.insts, sp, rp, matched, a, n);
  }

  /** The pieces the epilogue is appended in are its code. */
  lemma ReturnAppended(before: seq<Inst>, start: seq<Inst>, end: seq<Inst>,
                       sp: ValueId, rp: ValueId, matched: ValueId, a: Action, n: ValueId)
    requires start == before + ActionConstants(a)
    requires end == start + [Load(I32, sp, 0)] + [Uextend(I32, matched)] + [Iconst(I32, 0)]
                    + [Select(matched, n, n + 4)] + [Select(matched, n + 2, n + 4)] + [Select(matched, n + 1, n + 4)]
                    + [Store(n + 3, rp, 0)] + [Store(n + 5, rp, 4)] + [Store(n + 6, rp, 8)] + [Store(n + 7, rp, 12)]
                    + [Return]
    ensures end == before + ReturnCode(sp, rp, matched, a, n)
  {
    hide ActionConstants;
  }

  /** Compile one rule. Success means exactly that its condition, a duration around it or not, is in the compilable
      fragment and there is an action; and the compiled code answers, in every state, with the first action where the
      condition holds and with zeros where it does not. */
  method GenerateRule(rule: Rule, narrow: Narrowing) returns (r: Result<seq<Inst>, ScriptError>)
    ensures r == RuleCode(rule, narrow)
    ensures r.Ok? <==> Compilable(rule.condition) && rule.actions != []
    ensures r.Err? ==>
              match BadLeaf(rule.condition)
              case Some(leaf) => Faults(r.error, leaf)
              case None => r.error == NoActions && rule.actions == []
    ensures r.Ok? ==> forall st ::
              Call(r.value, st)
              == Some(if Holds(rule.condition, st, narrow)
                      then RuleResult(1, ActionCode(rule.actions[0]), st.pid, SeverityCode(rule.actions[0]))
                      else RuleResult(0, 0, 0, 0))
  {
    var b := new FunctionBuilder();
    var matched := EmitCondition(b, 0, rule.EvalCondition(), narrow);
    CompilesExactly(rule.EvalCondition(), 0, 2, narrow);
    PeelingKeepsMeaning(rule);
    FailsOnBadLeaf(rule.EvalCondition(), 0, 2, narrow);
    if matched.Err? {
      return Err(matched.error);
    }
    if rule.actions == [] {
      return Err(NoActions);
    }
    EmitReturn(b, 0, 1, matched.value, rule.actions[0]);
    r := Ok(b.insts);
    var code := ConditionCode(rule.EvalCondition(), 0, 2, narrow).value;
    assert [] + code == code;
    forall st {
      RuleCorrect(rule, st, narrow);
    }
  }

  // ---------------------------------------------------------------- correctness

  /** Peeling the outer duration off changes neither what is accepted nor what the condition means in one state. */
  lemma PeelingKeepsMeaning(rule: Rule)
    ensures Compilable(rule.EvalCondition()) <==> Compilable(rule.condition)
    ensures BadLeaf(rule.EvalCondition()) == BadLeaf(rule.condition)
    ensures forall st, narrow :: Holds(rule.EvalCondition(), st, narrow) <==> Holds(rule.condition, st, narrow)
  {
    hide LeafHolds, LeafCompiles;
  }

  /** The numbers the result carries for the three actions and, of an alert, for the three severities. */
  lemma CodesExactly(a: Action)
    ensures match a
            case Alert(_, Info) => ActionCode(a) == 1 && SeverityCode(a) == 0
            case Alert(_, Warning) => ActionCode(a) == 1 && SeverityCode(a) == 1
            case Alert(_, Critical) => ActionCode(a) == 1 && SeverityCode(a) == 2
            case Kill => ActionCode(a) == 2 && SeverityCode(a) == 0
            case Log(_) => ActionCode(a) == 3 && SeverityCode(a) == 0
  {
  }

  /** The offset table agrees with the C layout of the record: loading a field the compiler
      knows yields that field, whatever the state. */
  lemma FieldTableMatchesLayout(st: WorldState, obj: string, field: string)
    ensures ResolveField(obj, field).Ok? <==> Read(st, obj, field).Some?
    ensures ResolveField(obj, field).Ok? ==>
              var (offset, ty) := ResolveField(obj, field).value;
              match Read(st, obj, field).value
              case Int32Reading(u) => ty == I32 && ReadState(st, ty, offset) == Some(V32(u))
              case Int64Reading(w) => ty == I64 && ReadState(st, ty, offset) == Some(V64(w))
              case FloatReading(f) => ty == F32 && ReadState(st, ty, offset) == Some(VF32(f))
    ensures obj == "process" ==>
              && (field == "pid" ==> Read(st, obj, field) == Some(Int32Reading(st.pid)))
              && (field in ["cpu", "cpu_percent"] ==> Read(st, obj, field) == Some(FloatReading(st.cpuPercent)))
              && (field in ["mem", "mem_bytes"] ==> Read(st, obj, field) == Some(Int64Reading(st.memBytes)))
              && (field in ["mem_growth", "mem_growth_percent"] ==>
                    Read(st, obj, field) == Some(FloatReading(st.memGrowthPercent)))
              && (field == "state" ==> Read(st, obj, field) == Some(Int32Reading(st.state)))
              && (field == "hp" ==> Read(st, obj, field) == Some(FloatReading(st.hp)))
  {
    assert OffsetOf(1) == 4;
    assert OffsetOf(2) == 8;
    assert OffsetOf(3) == 16;
    assert OffsetOf(4) == 20;
    assert OffsetOf(5) == 24;
  }

  lemma ComparisonTables(op: CmpOp, a: int, b: int, x: Float, y: Float)
    ensures IntHolds(ToIntCC(op), a, b) == OpHolds(op, a - b)
    ensures FloatHolds(ToFloatCC(op), x, y) == FloatLeafHolds(op, x, y)
  {
  }

  /** The compilable fragment is exactly where code generation succeeds. */
  lemma {:induction false} CompilesExactly(c: Condition, sp: ValueId, n: ValueId, narrow: Narrowing)
    ensures ConditionCode(c, sp, n, narrow).Ok? <==> Compilable(c)
  {
    match c
    case Comparison(left, op, right) =>
    case Duration(inner, _) => CompilesExactly(inner, sp, n, narrow);
    case And(l, r) =>
      CompilesExactly(l, sp, n, narrow);
      if Compilable(l) { CompilesExactly(r, sp, n + |ConditionCode(l, sp, n, narrow).value|, narrow); }
    case Or(l, r) =>
      CompilesExactly(l, sp, n, narrow);
      if Compilable(l) { CompilesExactly(r, sp, n + |ConditionCode(l, sp, n, narrow).value|, narrow); }
    case Not(inner) => CompilesExactly(inner, sp, n, narrow);
  }

  /** The leftmost comparison the compiler does not accept. */
  function BadLeaf(c: Condition): Option<Condition> {
    match c
    case Comparison(left, _, right) => if LeafCompiles(left, right) then None else Some(c)
    case Duration(inner, _) => BadLeaf(inner)
    case And(l, r) => if BadLeaf(l).Some? then BadLeaf(l) else BadLeaf(r)
    case Or(l, r) => if BadLeaf(l).Some? then BadLeaf(l) else BadLeaf(r)
    case Not(inner) => BadLeaf(inner)
  }

  /** What an error says of the comparison it was reported for. */
  predicate Faults(e: ScriptError, c: Condition) {
    && c.Comparison?
    && match e
       case LeftNotField => !c.left.FieldAccess?
       case UnknownObject(obj) => c.left.FieldAccess? && c.left.obj == obj && obj != "process"
       case UnknownField(obj, field) =>
         && obj == "process" && c.left == FieldAccess(obj, field)
         && field !in ["pid", "cpu", "cpu_percent", "mem", "mem_bytes", "mem_growth", "mem_growth_percent", "state", "hp"]
       case RightNotLiteral => c.left.FieldAccess? && !c.right.Lit?
       case TypeMismatch(ty, lit) =>
         && c.left.FieldAccess? && c.right == Lit(lit)
         && ResolveField(c.left.obj, c.left.field).Ok? && ResolveField(c.left.obj, c.left.field).value.1 == ty
         && (if ty == F32 then !lit.FloatLit? && !lit.PercentLit? else !lit.IntLit?)
       case NoActions => false
  }

  /** Code generation fails on the leftmost comparison it does not accept, for the reason given. */
  lemma {:induction false} FailsOnBadLeaf(c: Condition, sp: ValueId, n: ValueId, narrow: Narrowing)
    ensures ConditionCode(c, sp, n, narrow).Ok? <==> BadLeaf(c).None?
    ensures BadLeaf(c).Some? ==> Faults(ConditionCode(c, sp, n, narrow).error, BadLeaf(c).value)
    decreases c.Nodes(), 0
  {
    hide Faults, LeafCompiles, LeafCode;
    match c
    case Comparison(left, op, right) => LeafFails(left, op, right, sp, n, narrow);
    case Duration(inner, _) => FailsOnBadLeaf(inner, sp, n, narrow);
    case And(l, r) => BothFail(l, r, sp, n, narrow);
    case Or(l, r) => BothFail(l, r, sp, n, narrow);
    case Not(inner) => FailsOnBadLeaf(inner, sp, n, narrow);
  }

  lemma {:induction false} BothFail(l: Condition, r: Condition, sp: ValueId, n: ValueId, narrow: Narrowing)
    ensures BothCode(l, r, sp, n, narrow).Ok? <==> BadLeaf(l).None? && BadLeaf(r).None?
    ensures BothCode(l, r, sp, n, narrow).Err? ==>
              Faults(BothCode(l, r, sp, n, narrow).error, if BadLeaf(l).Some? then BadLeaf(l).value else BadLeaf(r).value)
    decreases l.Nodes() + r.Nodes(), 1
  {
    hide Faults, BadLeaf, ConditionCode;
    FailsOnBadLeaf(l, sp, n, narrow);
    if BadLeaf(l).None? {
      FailsOnBadLeaf(r, sp, n + |ConditionCode(l, sp, n, narrow).value|, narrow);
    }
  }

  lemma LeafFails(left: Expr, op: CmpOp, right: Expr, sp: ValueId, n: ValueId, narrow: Narrowing)
    ensures LeafCode(left, op, right, sp, n, narrow).Ok? <==> LeafCompiles(left, right)
    ensures LeafCode(left, op, right, sp, n, narrow).Err? ==>
              Faults(LeafCode(left, op, right, sp, n, narrow).error, Comparison(left, op, right))
  {
  }

  /** `code` takes `m` to `m` plus the values `vs`. */
  predicate Extends(code: seq<Inst>, m: Machine, st: WorldState, vs: seq<Val>) {
    Run(code, m, st) == Some(m.(vals := m.vals + vs))
  }

  lemma ExtendNothing(m: Machine, st: WorldState)
    ensures Extends([], m, st, [])
  {
    assert m.vals + [] == m.vals;
  }

  lemma ExtendSnoc(code: seq<Inst>, i: Inst, m: Machine, st: WorldState, vs: seq<Val>, v: Val)
    requires !m.returned && Extends(code, m, st, vs)
    requires !i.Return? && !i.Store? && Compute(i, m.vals + vs, st) == Some(v)
    ensures Extends(code + [i], m, st, vs + [v])
  {
    hide Compute;
    RunSnoc(code, i, m, st);
    assert m.vals + vs + [v] == m.vals + (vs + [v]);
  }

  /** A leaf loads its field, defines its literal and compares the two. */
  lemma LeafCorrect(left: Expr, op: CmpOp, right: Expr, sp: ValueId, m: Machine, st: WorldState, narrow: Narrowing)
    returns (vs: seq<Val>)
    requires !m.returned && sp < |m.vals| && m.vals[sp] == StatePtr
    requires LeafCode(left, op, right, sp, |m.vals|, narrow).Ok?
    ensures |vs| == |LeafCode(left, op, right, sp, |m.vals|, narrow).value| == 3
    ensures vs[2] == Flag(LeafHolds(left, op, right, st, narrow))
    ensures Extends(LeafCode(left, op, right, sp, |m.vals|, narrow).value, m, st, vs)
  {
    hide *;
    var n := |m.vals|;
    LeafParts(left, op, right, sp, n, narrow);
    var place := ResolveField(left.obj, left.field).value;
    var cmp := LiteralCode(place.1, n, op, right.lit, narrow).value;
    var load := Load(place.1, sp, place.0);
    var field := FieldLoads(left, sp, m.vals, st);
    var literal := LiteralDefines(place.1, n, op, right.lit, m.vals + [field], st, narrow);
    var flag := Flag(LeafHolds(left, op, right, st, narrow));
    LeafComparison(left, op, right, m.vals + [field, literal], n, st, narrow);
    assert m.vals + ([] + [field]) == m.vals + [field] && m.vals + ([] + [field, literal]) == m.vals + [field, literal];
    assert m.vals + [] == m.vals;
    ExtendNothing(m, st);
    ExtendThree([], load, cmp[0], cmp[1], m, st, [], field, literal, flag);
    vs := [field, literal, flag];
    assert [] + [load, cmp[0], cmp[1]] == [load, cmp[0], cmp[1]] && [] + vs == vs;
  }

  /** The three instructions of a leaf. */
  lemma LeafParts(left: Expr, op: CmpOp, right: Expr, sp: ValueId, n: ValueId, narrow: Narrowing)
    requires LeafCode(left, op, right, sp, n, narrow).Ok?
    ensures left.FieldAccess? && right.Lit? && ResolveField(left.obj, left.field).Ok?
    ensures LeafCode(left, op, right, 0, n, narrow).Ok?
    ensures var place := ResolveField(left.obj, left.field).value;
            var cmp := LiteralCode(place.1, n, op, right.lit, narrow);
            && cmp.Ok? && |cmp.value| == 2
            && (cmp.value[0].Iconst? || cmp.value[0].F32const?) && (cmp.value[1].Icmp? || cmp.value[1].Fcmp?)
            && LeafCode(left, op, right, sp, n, narrow).value == [Load(place.1, sp, place.0), cmp.value[0], cmp.value[1]]
  {
    hide ResolveField;
  }

  lemma FieldLoads(left: Expr, sp: ValueId, vals: seq<Val>, st: WorldState) returns (field: Val)
    requires left.FieldAccess? && ResolveField(left.obj, left.field).Ok? && sp < |vals| && vals[sp] == StatePtr
    ensures var place := ResolveField(left.obj, left.field).value;
            ReadState(st, place.1, place.0) == Some(field) && Compute(Load(place.1, sp, place.0), vals, st) == Some(field)
  {
    hide ResolveField, ReadState, Read;
    FieldTableMatchesLayout(st, left.obj, left.field);
    var place := ResolveField(left.obj, left.field).value;
    field := ReadState(st, place.1, place.0).value;
  }

  /** The literal's instruction needs no other value. */
  lemma LiteralDefines(ty: Ty, n: ValueId, op: CmpOp, lit: Literal, vals: seq<Val>, st: WorldState, narrow: Narrowing)
    returns (literal: Val)
    requires LiteralCode(ty, n, op, lit, narrow).Ok?
    ensures var cmp := LiteralCode(ty, n, op, lit, narrow).value;
            |cmp| == 2 && Compute(cmp[0], [], st) == Some(literal) && Compute(cmp[0], vals, st) == Some(literal)
  {
    literal := Compute(LiteralCode(ty, n, op, lit, narrow).value[0], [], st).value;
  }

  lemma ExtendThree(code: seq<Inst>, i: Inst, j: Inst, k: Inst, m: Machine, st: WorldState,
                    vs: seq<Val>, u: Val, v: Val, w: Val)
    requires !m.returned && !i.Return? && !i.Store? && !j.Return? && !j.Store? && !k.Return? && !k.Store?
    requires Extends(code, m, st, vs) && Compute(i, m.vals + vs, st) == Some(u)
    requires Compute(j, m.vals + (vs + [u]), st) == Some(v) && Compute(k, m.vals + (vs + [u, v]), st) == Some(w)
    ensures Extends(code + [i, j, k], m, st, vs + [u, v, w])
  {
    hide Compute, Extends;
    ExtendSnoc(code, i, m, st, vs, u);
    assert vs + [u] + [v] == vs + [u, v];
    ExtendSnoc(code + [i], j, m, st, vs + [u], v);
    assert vs + [u] + [v] + [w] == vs + [u, v, w] && code + [i] + [j] + [k] == code + [i, j, k];
    ExtendSnoc(code + [i] + [j], k, m, st, vs + [u] + [v], w);
  }

  lemma LeafComparison(left: Expr, op: CmpOp, right: Expr, vals: seq<Val>, n: ValueId, st: WorldState, narrow: Narrowing)
    requires |vals| == n + 2 && LeafCode(left, op, right, 0, n, narrow).Ok?
    requires var place := ResolveField(left.obj, left.field).value;
             var cmp := LiteralCode(place.1, n, op, right.lit, narrow).value;
             ReadState(st, place.1, place.0) == Some(vals[n]) && Compute(cmp[0], [], st) == Some(vals[n + 1])
    ensures var place := ResolveField(left.obj, left.field).value;
            var cmp := LiteralCode(place.1, n, op, right.lit, narrow).value;
            Compute(cmp[1], vals, st) == Some(Flag(LeafHolds(left, op, right, st, narrow)))
  {
    hide ReadState, Read;
    FieldTableMatchesLayout(st, left.obj, left.field);
    match vals[n]
    case V32(u) => ComparisonTables(op, Signed32(u), Signed32(vals[n + 1].u), NaN, NaN);
    case V64(w) =>
      assert Signed64(vals[n + 1].w) == right.lit.n;
      ComparisonTables(op, Signed64(w), right.lit.n, NaN, NaN);
    case VF32(f) => ComparisonTables(op, 0, 0, f, vals[n + 1].f);
  }

  /** Negation flips the last value. */
  lemma FlipCorrect(code: seq<Inst>, m: Machine, st: WorldState, vs: seq<Val>, b: bool)
    requires !m.returned && Extends(code, m, st, vs) && vs != [] && vs[|vs| - 1] == Flag(b) && |code| == |vs|
    ensures var n := |m.vals|;
            Extends(code + [Iconst(I8, 1), Bxor(n + |code| - 1, n + |code|)], m, st, vs + [V8(1)] + [Flag(!b)])
  {
    hide Run, Step;
    var n := |m.vals|;
    var one, flip := Iconst(I8, 1), Bxor(n + |code| - 1, n + |code|);
    ExtendSnoc(code, one, m, st, vs, V8(1));
    ExtendSnoc(code + [one], flip, m, st, vs + [V8(1)], Flag(!b));
    assert code + [one] + [flip] == code + [one, flip];
  }

  /** Eager band/bor/bxor compute the source connectives: every condition the compiler accepts
      runs to the end, disturbs no earlier value, and ends in 1 if it holds and 0 otherwise. */
  lemma {:induction false} ConditionCorrect(c: Condition, sp: ValueId, m: Machine, st: WorldState, narrow: Narrowing)
    returns (vs: seq<Val>)
    requires !m.returned && sp < |m.vals| && m.vals[sp] == StatePtr
    requires ConditionCode(c, sp, |m.vals|, narrow).Ok?
    ensures Extends(ConditionCode(c, sp, |m.vals|, narrow).value, m, st, vs)
    ensures |vs| == |ConditionCode(c, sp, |m.vals|, narrow).value|
    ensures vs[|vs| - 1] == Flag(Holds(c, st, narrow))
    decreases c.Nodes(), 0
  {
    hide Run, Step, LeafHolds, LeafCode, ReadState, IntHolds, FloatHolds;
    var n := |m.vals|;
    match c
    case Comparison(left, op, right) =>
      vs := LeafCorrect(left, op, right, sp, m, st, narrow);
    case Duration(inner, _) =>
      vs := ConditionCorrect(inner, sp, m, st, narrow);
    case And(l, r) =>
      var code := BothCode(l, r, sp, n, narrow).value;
      var both := BothCorrect(l, r, sp, m, st, narrow);
      var v := Flag(Holds(c, st, narrow));
      ExtendSnoc(code.0 + code.1, Band(n + |code.0| - 1, n + |both| - 1), m, st, both, v);
      vs := both + [v];
    case Or(l, r) =>
      var code := BothCode(l, r, sp, n, narrow).value;
      var both := BothCorrect(l, r, sp, m, st, narrow);
      var v := Flag(Holds(c, st, narrow));
      ExtendSnoc(code.0 + code.1, Bor(n + |code.0| - 1, n + |both| - 1), m, st, both, v);
      vs := both + [v];
    case Not(inner) =>
      var ic := ConditionCode(inner, sp, n, narrow).value;
      var iv := ConditionCorrect(inner, sp, m, st, narrow);
      FlipCorrect(ic, m, st, iv, Holds(inner, st, narrow));
      vs := iv + [V8(1)] + [Flag(Holds(c, st, narrow))];
  }

  lemma {:induction false} BothCorrect(l: Condition, r: Condition, sp: ValueId, m: Machine, st: WorldState,
                                       narrow: Narrowing)
    returns (vs: seq<Val>)
    requires !m.returned && sp < |m.vals| && m.vals[sp] == StatePtr
    requires BothCode(l, r, sp, |m.vals|, narrow).Ok?
    ensures var (lc, rc) := BothCode(l, r, sp, |m.vals|, narrow).value;
            && Extends(lc + rc, m, st, vs) && |vs| == |lc| + |rc|
            && vs[|lc| - 1] == Flag(Holds(l, st, narrow))
            && vs[|vs| - 1] == Flag(Holds(r, st, narrow))
    decreases l.Nodes() + r.Nodes(), 1
  {
    hide Run, Step, Compute, Holds;
    var (lc, rc) := BothCode(l, r, sp, |m.vals|, narrow).value;
    var lv := ConditionCorrect(l, sp, m, st, narrow);
    var mid := m.(vals := m.vals + lv);
    var rv := ConditionCorrect(r, sp, mid, st, narrow);
    RunConcat(lc, rc, m, st);
    vs := lv + rv;
    assert m.vals + lv + rv == m.vals + (lv + rv);
  }

  /** The values the return sequence computes before it stores anything. */
  lemma ReturnValues(a: Action, m: Machine, matched: ValueId, b: bool, st: WorldState) returns (vs: seq<Val>)
    requires !m.returned && |m.vals| >= 2 && m.vals[0] == StatePtr
    requires matched < |m.vals| && m.vals[matched] == Flag(b)
    ensures Extends(ReturnCode(0, 1, matched, a, |m.vals|)[..8], m, st, vs)
    ensures vs == [V32(ActionCode(a)), V32(SeverityCode(a)), V32(st.pid), V32(if b then 1 else 0), V32(0),
                   V32(if b then ActionCode(a) else 0), V32(if b then st.pid else 0), V32(if b then SeverityCode(a) else 0)]
  {
    hide Run, Step;
    var constants := ReturnConstants(a, m, matched, b, st);
    var n := |m.vals|;
    var code := ReturnCode(0, 1, matched, a, n);
    var u, v, w := V32(if b then ActionCode(a) else 0), V32(if b then st.pid else 0), V32(if b then SeverityCode(a) else 0);
    ExtendThree(code[..5], code[5], code[6], code[7], m, st, constants, u, v, w);
    assert code[..8] == code[..5] + [code[5], code[6], code[7]];
    vs := constants + [u, v, w];
  }

  lemma ConstantsCorrect(a: Action, m: Machine, st: WorldState) returns (vs: seq<Val>)
    requires !m.returned
    ensures vs == [V32(ActionCode(a)), V32(SeverityCode(a))]
    ensures Extends(ActionConstants(a), m, st, vs)
  {
    hide Run, Step;
    var code := ActionConstants(a);
    ExtendNothing(m, st);
    ExtendSnoc([], code[0], m, st, [], V32(ActionCode(a)));
    vs := [] + [V32(ActionCode(a))];
    ExtendSnoc([] + [code[0]], code[1], m, st, vs, V32(SeverityCode(a)));
    vs := vs + [V32(SeverityCode(a))];
    assert code == [] + [code[0]] + [code[1]];
  }

  lemma ReturnConstants(a: Action, m: Machine, matched: ValueId, b: bool, st: WorldState) returns (vs: seq<Val>)
    requires !m.returned && |m.vals| >= 2 && m.vals[0] == StatePtr
    requires matched < |m.vals| && m.vals[matched] == Flag(b)
    ensures Extends(ReturnCode(0, 1, matched, a, |m.vals|)[..5], m, st, vs)
    ensures vs == [V32(ActionCode(a)), V32(SeverityCode(a)), V32(st.pid), V32(if b then 1 else 0), V32(0)]
  {
    hide Run, Step, ReadState;
    var code := ReturnCode(0, 1, matched, a, |m.vals|);
    FieldTableMatchesLayout(st, "process", "pid");
    var constants := ConstantsCorrect(a, m, st);
    assert code[..2] == ActionConstants(a);
    var u, v, w := V32(st.pid), V32(if b then 1 else 0), V32(0);
    ExtendThree(code[..2], code[2], code[3], code[4], m, st, constants, u, v, w);
    assert code[..5] == code[..2] + [code[2], code[3], code[4]];
    vs := constants + [u, v, w];
  }

  lemma StoreSnoc(code: seq<Inst>, i: Inst, m: Machine, mid: Machine, st: WorldState)
    requires Run(code, m, st) == Some(mid) && !mid.returned
    requires i.Store? && i.x < |mid.vals| && mid.vals[i.x].V32? && i.base < |mid.vals| && mid.vals[i.base] == ResultPtr
    ensures Run(code + [i], m, st) == Some(mid.(words := mid.words[i.offset := mid.vals[i.x].u]))
  {
    hide Compute, Run;
    RunSnoc(code, i, m, st);
  }

  lemma StoreTwo(code: seq<Inst>, i: Inst, j: Inst, m: Machine, mid: Machine, st: WorldState)
    requires Run(code, m, st) == Some(mid) && !mid.returned
    requires i.Store? && i.x < |mid.vals| && mid.vals[i.x].V32? && i.base < |mid.vals| && mid.vals[i.base] == ResultPtr
    requires j.Store? && j.x < |mid.vals| && mid.vals[j.x].V32? && j.base < |mid.vals| && mid.vals[j.base] == ResultPtr
    ensures Run(code + [i, j], m, st)
            == Some(mid.(words := mid.words[i.offset := mid.vals[i.x].u][j.offset := mid.vals[j.x].u]))
  {
    hide Run;
    StoreSnoc(code, i, m, mid, st);
    StoreSnoc(code + [i], j, m, mid.(words := mid.words[i.offset := mid.vals[i.x].u]), st);
    assert code + [i] + [j] == code + [i, j];
  }

  lemma ReturnSnoc(code: seq<Inst>, m: Machine, mid: Machine, st: WorldState)
    requires Run(code, m, st) == Some(mid) && !mid.returned
    ensures Run(code + [Return], m, st) == Some(mid.(returned := true))
  {
    RunSnoc(code, Return, m, st);
  }

  lemma ReturnCorrect(a: Action, m: Machine, matched: ValueId, b: bool, st: WorldState)
    requires !m.returned && |m.vals| >= 2 && m.vals[0] == StatePtr && m.vals[1] == ResultPtr
    requires matched < |m.vals| && m.vals[matched] == Flag(b)
    ensures var end := Run(ReturnCode(0, 1, matched, a, |m.vals|), m, st);
            && end.Some? && end.value.returned
            && end.value.words == m.words[0 := if b then 1 else 0]
                                         [4 := if b then ActionCode(a) else 0]
                                         [8 := if b then st.pid else 0]
                                         [12 := if b then SeverityCode(a) else 0]
  {
    hide Run, Step, Compute;
    var code := ReturnCode(0, 1, matched, a, |m.vals|);
    var vs := ReturnValues(a, m, matched, b, st);
    var m8 := m.(vals := m.vals + vs);
    StoreTwo(code[..8], code[8], code[9], m, m8, st);
    assert code[..10] == code[..8] + [code[8], code[9]];
    var m10 := m8.(words := m8.words[0 := if b then 1 else 0][4 := if b then ActionCode(a) else 0]);
    StoreTwo(code[..10], code[10], code[11], m, m10, st);
    assert code[..12] == code[..10] + [code[10], code[11]];
    var m12 := m10.(words := m10.words[8 := if b then st.pid else 0][12 := if b then SeverityCode(a) else 0]);
    ReturnSnoc(code[..12], m, m12, st);
    assert code == code[..12] + [code[12]];
  }

  /** The whole compiled rule stores (1, action, pid, severity) on a match and zeros otherwise. */
  lemma RuleCorrect(rule: Rule, st: WorldState, narrow: Narrowing)
    requires RuleCode(rule, narrow).Ok?
    ensures Call(RuleCode(rule, narrow).value, st) == Some(Outcome(rule, st, narrow))
  {
    hide Run, Step, Compute, ReturnCode, ConditionCode, Holds;
    var c := rule.EvalCondition();
    PeelingKeepsMeaning(rule);
    var code := ConditionCode(c, 0, 2, narrow).value;
    var vs := ConditionCorrect(c, 0, ENTRY, st, narrow);
    var m := ENTRY.(vals := ENTRY.vals + vs);
    var n := |m.vals|;
    ReturnCorrect(rule.actions[0], m, n - 1, Holds(c, st, narrow), st);
    RunConcat(code, ReturnCode(0, 1, n - 1, rule.actions[0], n), ENTRY, st);
  }

  // ---------------------------------------------------------------- unsigned fields, signed comparisons

  /** What the author of a rule means by `process.<field> op n`: the unsigned field itself. */
  predicate FieldCompares(op: CmpOp, field: nat, n: Int64) {
    match op
    case Gt => field > n
    case Lt => field < n
    case Gte => field >= n
    case Lte => field <= n
    case Eq => field == n
    case Neq => field != n
  }

  predicate Fits32(n: Int64) {
    -0x8000_0000 <= n < 0x8000_0000
  }

  function OnField(field: string, op: CmpOp, n: Int64): Condition {
    Comparison(FieldAccess("process", field), op, Lit(IntLit(n)))
  }

  /** A literal that does not fit 32 bits is compared by its remainder: the one number in the signed range that differs
      from it by a multiple of 2^32. */
  lemma NarrowedLiteral(n: Int64)
    ensures Fits32(Signed32(Wrap32(n))) && (Signed32(Wrap32(n)) - n) % 0x1_0000_0000 == 0
    ensures Fits32(n) ==> Signed32(Wrap32(n)) == n
  {
  }

  /** Floats compare as numbers, with the infinities at the ends; against NaN only `!=` holds. */
  lemma FloatsComparedTruly(op: CmpOp, a: Float, b: Float)
    ensures a.NaN? || b.NaN? ==> (FloatLeafHolds(op, a, b) <==> op == Neq)
    ensures a.Finite? && b.Finite? ==>
              (FloatLeafHolds(op, a, b) <==>
                 match op
                 case Gt => a.value > b.value
                 case Lt => a.value < b.value
                 case Gte => a.value >= b.value
                 case Lte => a.value <= b.value
                 case Eq => a.value == b.value
                 case Neq => a.value != b.value)
    ensures (a.NegInf? && (b.Finite? || b.PosInf?)) || (a.Finite? && b.PosInf?) ==>
              (FloatLeafHolds(op, a, b) <==> op == Lt || op == Lte || op == Neq)
              && (FloatLeafHolds(op, b, a) <==> op == Gt || op == Gte || op == Neq)
    ensures a == b && !a.NaN? ==> (FloatLeafHolds(op, a, b) <==> op == Gte || op == Lte || op == Eq)
  {
  }

  /** The generated comparison is signed. On the 32-bit pid it says what the rule says, for every
      operator and every literal that fits, exactly when the pid's top bit is clear. */
  lemma PidComparedTrulyExactly(st: WorldState, narrow: Narrowing)
    ensures (forall op, n | Fits32(n) :: Holds(OnField("pid", op, n), st, narrow) <==> FieldCompares(op, st.pid, n))
            <==> st.pid < 0x8000_0000
  {
    if st.pid >= 0x8000_0000 {
      assert Fits32(0) && !Holds(OnField("pid", Gt, 0), st, narrow) && FieldCompares(Gt, st.pid, 0);
    }
  }

  /** The same for the 64-bit memory size, where every literal fits. */
  lemma MemoryComparedTrulyExactly(st: WorldState, narrow: Narrowing)
    ensures (forall op, n: Int64 :: Holds(OnField("mem_bytes", op, n), st, narrow) <==> FieldCompares(op, st.memBytes, n))
            <==> st.memBytes < 0x8000_0000_0000_0000
  {
    if st.memBytes >= 0x8000_0000_0000_0000 {
      assert !Holds(OnField("mem_bytes", Gt, 0), st, narrow) && FieldCompares(Gt, st.memBytes, 0);
    }
  }

  /** A rule `when process.mem_bytes > 0 then kill` compiles, yet stays silent at 2^63 bytes. */
  lemma HugeMemoryMissed(st: WorldState, narrow: Narrowing)
    requires st.memBytes == 0x8000_0000_0000_0000
    ensures var rule := Rule("big", OnField("mem_bytes", Gt, 0), [Action.Kill], Span(0, 0));
            && RuleCode(rule, narrow).Ok?
            && Call(RuleCode(rule, narrow).value, st) == Some(RuleResult(0, 0, 0, 0))
  {
    var rule := Rule("big", OnField("mem_bytes", Gt, 0), [Action.Kill], Span(0, 0));
    CompilesExactly(rule.condition, 0, 2, narrow);
    RuleCorrect(rule, st, narrow);
  }
}
