/** The part of Cranelift's IR that the rule compiler emits, with an interpreter.
    A rule compiles to one straight-line block; every instruction that has a result
    gets the next SSA number, and numbers 0 and 1 are the two pointer parameters. */
module Ir {
  import opened Results
  import opened Ast

  type UInt32 = x: int | 0 <= x < 0x1_0000_0000
  type UInt64 = x: int | 0 <= x < 0x1_0000_0000_0000_0000

  datatype Ty = I8 | I32 | I64 | F32

  datatype IntCC =
    | SignedGreaterThan
    | SignedLessThan
    | SignedGreaterThanOrEqual
    | SignedLessThanOrEqual
    | IntEqual
    | IntNotEqual

  datatype FloatCC =
    | GreaterThan
    | LessThan
    | GreaterThanOrEqual
    | LessThanOrEqual
    | FloatEqual
    | FloatNotEqual

  type ValueId = nat

  datatype Inst =
    | Load(ty: Ty, base: ValueId, offset: nat)
    | Iconst(ty: Ty, imm: Int64)
    | F32const(f: Float)
    | Icmp(icc: IntCC, x: ValueId, y: ValueId)
    | Fcmp(fcc: FloatCC, x: ValueId, y: ValueId)
    | Band(x: ValueId, y: ValueId)
    | Bor(x: ValueId, y: ValueId)
    | Bxor(x: ValueId, y: ValueId)
    | Uextend(ty: Ty, x: ValueId)
    | Select(c: ValueId, x: ValueId, y: ValueId)
    | Store(x: ValueId, base: ValueId, offset: nat)
    | Return

  datatype Val =
    | StatePtr
    | ResultPtr
    | V8(b: bv8)
    | V32(u: UInt32)
    | V64(w: UInt64)
    | VF32(f: Float)

  /** The process record that compiled rules read (its scalar fields). */
  datatype WorldState = WorldState(
    pid: UInt32, cpuPercent: Float, memBytes: UInt64, memGrowthPercent: Float, state: UInt32, hp: Float)

  // ---------------------------------------------------------------- C layout

  function Size(ty: Ty): nat {
    match ty
    case I8 => 1
    case I32 => 4
    case I64 => 8
    case F32 => 4
  }

  function AlignUp(n: nat, align: nat): nat
    requires align > 0
  {
    if n % align == 0 then n else n + (align - n % align)
  }

  /** Field types of the record in declaration order. */
  const STATE_FIELDS: seq<Ty> := [I32, F32, I64, F32, I32, F32]

  /** `repr(C)`: each field starts at the first multiple of its size after the previous one. */
  function OffsetOf(k: nat): nat
    requires k < |STATE_FIELDS|
  {
    if k == 0 then 0
    else AlignUp(OffsetOf(k - 1) + Size(STATE_FIELDS[k - 1]), Size(STATE_FIELDS[k]))
  }

  function FieldVal(st: WorldState, k: nat): Val
    requires k < |STATE_FIELDS|
  {
    match k
    case 0 => V32(st.pid)
    case 1 => VF32(st.cpuPercent)
    case 2 => V64(st.memBytes)
    case 3 => VF32(st.memGrowthPercent)
    case 4 => V32(st.state)
    case _ => VF32(st.hp)
  }

  /** A load that does not hit exactly one field of the loaded type has no meaning here. */
  function ReadState(st: WorldState, ty: Ty, offset: nat, k: nat := 0): Option<Val>
    requires k <= |STATE_FIELDS|
    decreases |STATE_FIELDS| - k
  {
    if k == |STATE_FIELDS| then None
    else if OffsetOf(k) == offset && STATE_FIELDS[k] == ty then Some(FieldVal(st, k))
    else ReadState(st, ty, offset, k + 1)
  }

  // ---------------------------------------------------------------- arithmetic

  function Signed32(u: UInt32): Int64 {
    if u < 0x8000_0000 then u else u - 0x1_0000_0000
  }

  function Signed64(w: UInt64): Int64 {
    if w < 0x8000_0000_0000_0000 then w else w - 0x1_0000_0000_0000_0000
  }

  function Wrap32(n: Int64): UInt32 {
    n % 0x1_0000_0000
  }

  function Wrap64(n: Int64): UInt64 {
    n % 0x1_0000_0000_0000_0000
  }

  function Wrap8(n: Int64): bv8 {
    (n % 256) as bv8
  }

  function IntHolds(cc: IntCC, a: int, b: int): bool {
    match cc
    case SignedGreaterThan => a > b
    case SignedLessThan => a < b
    case SignedGreaterThanOrEqual => a >= b
    case SignedLessThanOrEqual => a <= b
    case IntEqual => a == b
    case IntNotEqual => a != b
  }

  function Below(a: Float, b: Float): bool
    requires !a.NaN? && !b.NaN?
  {
    match (a, b)
    case (NegInf, NegInf) => false
    case (NegInf, _) => true
    case (_, PosInf) => a != PosInf
    case (Finite(x), Finite(y)) => x < y
    case _ => false
  }

  /** Section 5.11 of IEEE 754-2019: NaN is unordered with everything, itself included. */
  function FloatHolds(cc: FloatCC, a: Float, b: Float): bool {
    if a.NaN? || b.NaN? then cc == FloatNotEqual
    else
      match cc
      case GreaterThan => Below(b, a)
      case LessThan => Below(a, b)
      case GreaterThanOrEqual => Below(b, a) || a == b
      case LessThanOrEqual => Below(a, b) || a == b
      case FloatEqual => a == b
      case FloatNotEqual => a != b
  }

  function Flag(b: bool): Val {
    V8(if b then 1 else 0)
  }

  // ---------------------------------------------------------------- interpreter

  /** `vals[i]` is SSA value i; `words` is the result record, keyed by byte offset. */
  datatype Machine = Machine(vals: seq<Val>, words: map<nat, UInt32>, returned: bool) {
    function Define(v: Val): Machine {
      this.(vals := vals + [v])
    }
  }

  /** The value an instruction defines; None when it is ill-typed or uses an undefined value. */
  function Compute(i: Inst, vals: seq<Val>, st: WorldState): Option<Val>
  {
    match i
    case Load(ty, base, offset) =>
      if base < |vals| && vals[base].StatePtr? then ReadState(st, ty, offset) else None
    case Iconst(I8, n) => Some(V8(Wrap8(n)))
    case Iconst(I32, n) => Some(V32(Wrap32(n)))
    case Iconst(I64, n) => Some(V64(Wrap64(n)))
    case F32const(f) => Some(VF32(f))
    case Icmp(cc, x, y) =>
      if x >= |vals| || y >= |vals| then None
      else if vals[x].V32? && vals[y].V32? then
        Some(Flag(IntHolds(cc, Signed32(vals[x].u), Signed32(vals[y].u))))
      else if vals[x].V64? && vals[y].V64? then
        Some(Flag(IntHolds(cc, Signed64(vals[x].w), Signed64(vals[y].w))))
      else None
    case Fcmp(cc, x, y) =>
      if x < |vals| && y < |vals| && vals[x].VF32? && vals[y].VF32?
      then Some(Flag(FloatHolds(cc, vals[x].f, vals[y].f))) else None
    case Band(x, y) =>
      if x < |vals| && y < |vals| && vals[x].V8? && vals[y].V8?
      then Some(V8(vals[x].b & vals[y].b)) else None
    case Bor(x, y) =>
      if x < |vals| && y < |vals| && vals[x].V8? && vals[y].V8?
      then Some(V8(vals[x].b | vals[y].b)) else None
    case Bxor(x, y) =>
      if x < |vals| && y < |vals| && vals[x].V8? && vals[y].V8?
      then Some(V8(vals[x].b ^ vals[y].b)) else None
    case Uextend(I32, x) =>
      if x < |vals| && vals[x].V8? then Some(V32(vals[x].b as int)) else None
    case Select(c, x, y) =>
      if c < |vals| && x < |vals| && y < |vals| && vals[c].V8?
      then Some(if vals[c].b != 0 then vals[x] else vals[y]) else None
    case _ => None
  }

  function Step(i: Inst, m: Machine, st: WorldState): Option<Machine> {
    if m.returned then None
    else
      match i
      case Return => Some(m.(returned := true))
      case Store(x, base, offset) =>
        if x < |m.vals| && base < |m.vals| && m.vals[base].ResultPtr? && m.vals[x].V32?
        then Some(m.(words := m.words[offset := m.vals[x].u])) else None
      case _ =>
        match Compute(i, m.vals, st)
        case Some(v) => Some(m.Define(v))
        case None => None
  }

  function Run(code: seq<Inst>, m: Machine, st: WorldState): Option<Machine> {
    if code == [] then Some(m)
    else
      match Step(code[0], m, st)
      case Some(next) => Run(code[1..], next, st)
      case None => None
  }

  lemma {:induction false} RunConcat(a: seq<Inst>, b: seq<Inst>, m: Machine, st: WorldState)
    ensures Run(a + b, m, st) ==
            match Run(a, m, st)
            case Some(mid) => Run(b, mid, st)
            case None => None
  {
    if a == [] {
      assert a + b == b;
    } else {
      assert (a + b)[1..] == a[1..] + b;
      match Step(a[0], m, st)
      case Some(next) => RunConcat(a[1..], b, next, st);
      case None =>
    }
  }

  lemma RunSnoc(a: seq<Inst>, i: Inst, m: Machine, st: WorldState)
    ensures Run(a + [i], m, st) ==
            match Run(a, m, st)
            case Some(mid) => Step(i, mid, st)
            case None => None
  {
    RunConcat(a, [i], m, st);
    match Run(a, m, st)
    case Some(mid) => assert Run([i], mid, st) == Step(i, mid, st);
    case None =>
  }

  /** The four result words after a call; `call` starts from all zeros. */
  datatype RuleResult = RuleResult(matched: UInt32, actionType: UInt32, targetPid: UInt32, severity: UInt32)

  const ENTRY := Machine([StatePtr, ResultPtr], map[0 := 0, 4 := 0, 8 := 0, 12 := 0], false)

  /** What `CompiledRule::call` returns; None if the code gets stuck or never returns. */
  function Call(code: seq<Inst>, st: WorldState): Option<RuleResult> {
    match Run(code, ENTRY, st)
    case Some(m) =>
      if m.returned && {0, 4, 8, 12} <= m.words.Keys
      then Some(RuleResult(m.words[0], m.words[4], m.words[8], m.words[12]))
      else None
    case None => None
  }
}
