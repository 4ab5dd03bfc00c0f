/** A printer for rule files, and the proof that it and the parser undo each other. */
module Printer {
  import opened Results
  import opened Ast
  import opened Grammar
  import L = Lexer

  // ---------------------------------------------------------------- printing

  function PrintExpr(e: Expr): Tokens {
    match e
    case FieldAccess(obj, field) =>
      [if obj == "process" then L.Process else L.Ident(obj), L.Dot, L.Ident(field)]
    case Lit(IntLit(n)) => [L.Integer(n)]
    case Lit(FloatLit(f)) => [L.Float(f)]
    case Lit(PercentLit(f)) => [L.Percent(f)]
    case Lit(DurationLit(n)) => [L.Duration(n)]
    case Lit(StrLit(s)) => [L.StringLit(s)]
  }

  function PrintOp(op: CmpOp): L.Token {
    match op
    case Gt => L.Gt
    case Lt => L.Lt
    case Gte => L.Gte
    case Lte => L.Lte
    case Eq => L.Eq
    case Neq => L.Neq
  }

  function PrintCondition(c: Condition): Tokens {
    match c
    case Comparison(left, op, right) => PrintExpr(left) + ([PrintOp(op)] + PrintExpr(right))
    case Not(inner) => [L.Ident("not")] + PrintCondition(inner)
    case And(l, r) => PrintCondition(l) + ([L.And] + PrintCondition(r))
    case Or(l, r) => PrintCondition(l) + ([L.Or] + PrintCondition(r))
    case Duration(inner, secs) => PrintCondition(inner) + [L.For, L.Duration(secs)]
  }

  function PrintSeverity(s: Severity): L.Token {
    match s
    case Info => L.Info
    case Warning => L.Warning
    case Critical => L.Critical
  }

  function PrintAction(a: Action): Tokens {
    match a
    case Alert(message, severity) => [L.Alert, L.StringLit(message), L.Severity, PrintSeverity(severity)]
    case Kill => [L.Kill]
    case Log(message) => [L.Log, L.StringLit(message)]
  }

  function PrintActions(actions: seq<Action>): Tokens {
    if actions == [] then [] else PrintAction(actions[0]) + PrintActions(actions[1..])
  }

  function PrintRule(r: Rule): Tokens {
    [L.Rule, L.Ident(r.name), L.LBrace, L.When] +
    (PrintCondition(r.condition) + ([L.Then] + (PrintActions(r.actions) + [L.RBrace])))
  }

  function PrintFile(rules: seq<Rule>): Tokens {
    if rules == [] then [] else PrintRule(rules[0]) + PrintFile(rules[1..])
  }

  // ---------------------------------------------------------------- the trees the grammar can produce

  /** A comparison whose first word is not taken for the operator `not`. */
  predicate ComparisonLevel(c: Condition) {
    c.Comparison? && !(c.left.FieldAccess? && c.left.obj == "not")
  }

  predicate NotLevel(c: Condition) {
    if c.Not? then NotLevel(c.inner) else ComparisonLevel(c)
  }

  /** Conjunctions nest to the left. */
  predicate AndLevel(c: Condition) {
    if c.And? then AndLevel(c.l) && NotLevel(c.r) else NotLevel(c)
  }

  predicate OrLevel(c: Condition) {
    if c.Or? then OrLevel(c.l) && AndLevel(c.r) else AndLevel(c)
  }

  predicate CanonicalCondition(c: Condition) {
    if c.Duration? then OrLevel(c.condition) else OrLevel(c)
  }

  predicate CanonicalRule(r: Rule) {
    CanonicalCondition(r.condition) && r.actions != []
  }

  predicate CanonicalFile(rules: seq<Rule>) {
    forall k | 0 <= k < |rules| :: CanonicalRule(rules[k])
  }

  /** The parser reads the identifier "process" before a dot like the keyword; otherwise a token
      means itself. A lexer that gives keywords priority makes this the identity. */
  function Normal(ts: Tokens): (ns: Tokens)
    ensures |ns| == |ts|
  {
    seq(|ts|, i requires 0 <= i < |ts| =>
      if ts[i] == L.Ident("process") && i + 1 < |ts| && ts[i + 1] == L.Dot then L.Process else ts[i])
  }

  lemma NormalIsIdentity(ts: Tokens)
    requires L.Ident("process") !in ts
    ensures Normal(ts) == ts
  {
  }

  /** `x` stands at position `p` of the normalised tokens. */
  predicate At(ts: Tokens, p: nat, x: Tokens) {
    p + |x| <= |ts| && Normal(ts)[p..p + |x|] == x
  }

  lemma AtSplit(ts: Tokens, p: nat, a: Tokens, b: Tokens)
    ensures At(ts, p, a + b) <==> At(ts, p, a) && At(ts, p + |a|, b)
  {
    hide Normal;
    if p + |a| + |b| <= |ts| {
      SliceSplit(Normal(ts), p, a, b);
    }
  }

  lemma SliceSplit(ns: Tokens, p: nat, a: Tokens, b: Tokens)
    requires p + |a| + |b| <= |ns|
    ensures ns[p..p + |a| + |b|] == a + b <==> ns[p..p + |a|] == a && ns[p + |a|..p + |a| + |b|] == b
  {
    var x, y := ns[p..p + |a|], ns[p + |a|..p + |a| + |b|];
    assert ns[p..p + |a| + |b|] == x + y;
    if x + y == a + b {
      assert x == (x + y)[..|a|] == (a + b)[..|a|] == a;
      assert y == (x + y)[|a|..] == (a + b)[|a|..] == b;
    }
  }

  lemma AtNothing(ts: Tokens, p: nat)
    requires p <= |ts|
    ensures At(ts, p, [])
  {
  }

  lemma AtOne(ts: Tokens, p: nat, t: L.Token)
    ensures At(ts, p, [t]) <==> p < |ts| && Normal(ts)[p] == t
  {
    if p < |ts| {
      assert Normal(ts)[p..p + 1] == [Normal(ts)[p]];
    }
  }

  /** Tokens other than identifiers and `process` are what they are. */
  lemma AtPlain(ts: Tokens, p: nat, t: L.Token)
    requires !t.Ident? && !t.Process?
    ensures At(ts, p, [t]) <==> Peek(ts, p) == Some(t)
  {
    AtOne(ts, p, t);
  }

  predicate NotDot(ts: Tokens, p: nat) {
    Peek(ts, p) != Some(L.Dot)
  }

  lemma AtIdent(ts: Tokens, p: nat, name: string)
    ensures At(ts, p, [L.Ident(name)]) ==> Peek(ts, p) == Some(L.Ident(name))
    ensures Peek(ts, p) == Some(L.Ident(name)) && (name != "process" || NotDot(ts, p + 1)) ==> At(ts, p, [L.Ident(name)])
  {
    AtOne(ts, p, L.Ident(name));
  }

  // ---------------------------------------------------------------- expressions and comparisons

  lemma ExprRoundTrip(ts: Tokens, p: nat, e: Expr)
    requires p <= |ts|
    ensures At(ts, p, PrintExpr(e)) ==> ExprAt(ts, p) == Got(e, p + |PrintExpr(e)|)
    ensures ExprAt(ts, p).Got? && ExprAt(ts, p).value == e && NotDot(ts, ExprAt(ts, p).next) ==>
              At(ts, p, PrintExpr(e)) && ExprAt(ts, p).next == p + |PrintExpr(e)|
  {
    hide At, Normal;
    if e.FieldAccess? {
      FieldRoundTrip(ts, p, e.obj, e.field);
    } else {
      AtPlain(ts, p, PrintExpr(e)[0]);
    }
  }

  lemma FieldRoundTrip(ts: Tokens, p: nat, obj: string, field: string)
    requires p <= |ts|
    ensures At(ts, p, PrintExpr(FieldAccess(obj, field))) ==> ExprAt(ts, p) == Got(FieldAccess(obj, field), p + 3)
    ensures ExprAt(ts, p).Got? && ExprAt(ts, p).value == FieldAccess(obj, field) && NotDot(ts, ExprAt(ts, p).next) ==>
              At(ts, p, PrintExpr(FieldAccess(obj, field))) && ExprAt(ts, p).next == p + 3
  {
    hide At, Normal, PrintExpr;
    FieldPrinted(ts, p, obj, field);
    if Peek(ts, p + 1) == Some(L.Dot) {
      AtObject(ts, p, obj);
    }
    AtIdent(ts, p + 2, field);
  }

  lemma FieldPrinted(ts: Tokens, p: nat, obj: string, field: string)
    ensures At(ts, p, PrintExpr(FieldAccess(obj, field))) <==>
              && At(ts, p, [if obj == "process" then L.Process else L.Ident(obj)])
              && Peek(ts, p + 1) == Some(L.Dot)
              && At(ts, p + 2, [L.Ident(field)])
  {
    hide At, Normal;
    var first := if obj == "process" then L.Process else L.Ident(obj);
    assert PrintExpr(FieldAccess(obj, field)) == [first] + ([L.Dot] + [L.Ident(field)]);
    AtSplit(ts, p, [first], [L.Dot] + [L.Ident(field)]);
    AtSplit(ts, p + 1, [L.Dot], [L.Ident(field)]);
    AtPlain(ts, p + 1, L.Dot);
  }

  /** The object of a field access, next to its dot. */
  lemma AtObject(ts: Tokens, p: nat, obj: string)
    requires Peek(ts, p + 1) == Some(L.Dot)
    ensures At(ts, p, [if obj == "process" then L.Process else L.Ident(obj)]) <==>
              Peek(ts, p) == Some(L.Ident(obj)) || (obj == "process" && Peek(ts, p) == Some(L.Process))
  {
    AtOne(ts, p, if obj == "process" then L.Process else L.Ident(obj));
  }

  lemma OpRoundTrip(ts: Tokens, p: nat, op: CmpOp)
    requires p <= |ts|
    ensures At(ts, p, [PrintOp(op)]) <==> CmpOpAt(ts, p) == Got(op, p + 1)
    ensures CmpOpAt(ts, p).Got? ==> NotDot(ts, p) && CmpOpAt(ts, p).next == p + 1
  {
    AtPlain(ts, p, PrintOp(op));
  }

  lemma ComparisonForward(ts: Tokens, p: nat, c: Condition)
    requires p <= |ts| && c.Comparison? && At(ts, p, PrintCondition(c))
    ensures ComparisonAt(ts, p) == Got(c, p + |PrintCondition(c)|)
  {
    hide ExprAt, CmpOpAt, PrintExpr, At;
    var l, r := PrintExpr(c.left), PrintExpr(c.right);
    AtSplit(ts, p, l, [PrintOp(c.op)] + r);
    AtSplit(ts, p + |l|, [PrintOp(c.op)], r);
    ExprRoundTrip(ts, p, c.left);
    assert p + |l| <= |ts|;
    OpRoundTrip(ts, p + |l|, c.op);
    assert p + |l| + 1 <= |ts|;
    ExprRoundTrip(ts, p + |l| + 1, c.right);
  }

  lemma ComparisonBackward(ts: Tokens, p: nat)
    requires p <= |ts| && ComparisonAt(ts, p).Got? && NotDot(ts, ComparisonAt(ts, p).next)
    ensures var Got(c, q) := ComparisonAt(ts, p);
            c.Comparison? && At(ts, p, PrintCondition(c)) && q == p + |PrintCondition(c)|
  {
    hide ExprAt, CmpOpAt, PrintExpr, At;
    var left, op := ExprAt(ts, p), CmpOpAt(ts, ExprAt(ts, p).next);
    var right := ExprAt(ts, op.next);
    OpRoundTrip(ts, left.next, op.value);
    ExprRoundTrip(ts, p, left.value);
    ExprRoundTrip(ts, op.next, right.value);
    var l, r := PrintExpr(left.value), PrintExpr(right.value);
    AtSplit(ts, p, l, [PrintOp(op.value)] + r);
    AtSplit(ts, p + |l|, [PrintOp(op.value)], r);
    assert PrintCondition(Comparison(left.value, op.value, right.value)) == l + ([PrintOp(op.value)] + r);
  }

  // ---------------------------------------------------------------- not, and, or

  lemma {:induction false} NotForward(ts: Tokens, p: nat, c: Condition)
    requires p <= |ts| && NotLevel(c) && At(ts, p, PrintCondition(c))
    ensures NotAt(ts, p) == Got(c, p + |PrintCondition(c)|)
    decreases c
  {
    hide At;
    if c.Not? {
      AtSplit(ts, p, [L.Ident("not")], PrintCondition(c.inner));
      AtIdent(ts, p, "not");
      NotForward(ts, p + 1, c.inner);
    } else {
      FirstIsNotNot(ts, p, c);
      ComparisonForward(ts, p, c);
    }
  }

  lemma FirstIsNotNot(ts: Tokens, p: nat, c: Condition)
    requires ComparisonLevel(c) && At(ts, p, PrintCondition(c))
    ensures Peek(ts, p) != Some(L.Ident("not"))
  {
    hide At;
    var l := PrintExpr(c.left);
    AtSplit(ts, p, l, [PrintOp(c.op)] + PrintExpr(c.right));
    AtSplit(ts, p, [l[0]], l[1..]);
    assert l == [l[0]] + l[1..];
    AtOne(ts, p, l[0]);
  }

  lemma {:induction false} NotBackward(ts: Tokens, p: nat)
    requires p <= |ts| && NotAt(ts, p).Got? && NotDot(ts, NotAt(ts, p).next)
    ensures var Got(c, q) := NotAt(ts, p);
            NotLevel(c) && At(ts, p, PrintCondition(c)) && q == p + |PrintCondition(c)|
    decreases |ts| - p
  {
    hide At;
    if Peek(ts, p) == Some(L.Ident("not")) {
      NotBackward(ts, p + 1);
      var inner := NotAt(ts, p + 1).value;
      AtIdent(ts, p, "not");
      AtSplit(ts, p, [L.Ident("not")], PrintCondition(inner));
    } else {
      ComparisonBackward(ts, p);
      LeftIsNotNot(ts, p);
    }
  }

  lemma LeftIsNotNot(ts: Tokens, p: nat)
    requires p <= |ts| && ComparisonAt(ts, p).Got? && Peek(ts, p) != Some(L.Ident("not"))
    ensures ComparisonLevel(ComparisonAt(ts, p).value)
  {
    hide CmpOpAt;
  }

  /** A printed connective: both sides with the keyword between them. */
  lemma InfixPrinted(ts: Tokens, p: nat, l: Tokens, t: L.Token, r: Tokens)
    requires !t.Ident? && !t.Process?
    ensures At(ts, p, l + ([t] + r)) <==> At(ts, p, l) && Peek(ts, p + |l|) == Some(t) && At(ts, p + |l| + 1, r)
    ensures |l + ([t] + r)| == |l| + 1 + |r|
  {
    hide At, Normal, Peek;
    AtSplit(ts, p, l, [t] + r);
    AtSplit(ts, p + |l|, [t], r);
    AtPlain(ts, p + |l|, t);
  }

  lemma InfixOf(l: Condition, r: Condition)
    ensures PrintCondition(And(l, r)) == PrintCondition(l) + ([L.And] + PrintCondition(r))
    ensures PrintCondition(Or(l, r)) == PrintCondition(l) + ([L.Or] + PrintCondition(r))
  {
  }

  lemma AndPrinted(ts: Tokens, p: nat, l: Condition, r: Condition)
    ensures var a, b := PrintCondition(l), PrintCondition(r);
            && |PrintCondition(And(l, r))| == |a| + 1 + |b|
            && (At(ts, p, PrintCondition(And(l, r))) <==>
                  At(ts, p, a) && Peek(ts, p + |a|) == Some(L.And) && At(ts, p + |a| + 1, b))
  {
    hide *;
    InfixOf(l, r);
    InfixPrinted(ts, p, PrintCondition(l), L.And, PrintCondition(r));
  }

  lemma OrPrinted(ts: Tokens, p: nat, l: Condition, r: Condition)
    ensures var a, b := PrintCondition(l), PrintCondition(r);
            && |PrintCondition(Or(l, r))| == |a| + 1 + |b|
            && (At(ts, p, PrintCondition(Or(l, r))) <==>
                  At(ts, p, a) && Peek(ts, p + |a|) == Some(L.Or) && At(ts, p + |a| + 1, b))
  {
    hide *;
    InfixOf(l, r);
    InfixPrinted(ts, p, PrintCondition(l), L.Or, PrintCondition(r));
  }

  lemma AtEnds(ts: Tokens, p: nat, x: Tokens)
    requires At(ts, p, x)
    ensures p + |x| <= |ts|
  {
  }

  lemma LevelsNest(c: Condition)
    ensures NotLevel(c) ==> AndLevel(c)
    ensures AndLevel(c) ==> OrLevel(c)
    ensures OrLevel(c) ==> !c.Duration?
  {
  }

  lemma AndTailStep(ts: Tokens, p: nat, left: Condition)
    requires p < |ts| && Peek(ts, p) == Some(L.And) && NotAt(ts, p + 1).Got?
    ensures AndTail(ts, p, left) == AndTail(ts, NotAt(ts, p + 1).next, And(left, NotAt(ts, p + 1).value))
  {
    hide NotAt;
  }

  lemma AndAtStep(ts: Tokens, p: nat)
    requires p <= |ts| && NotAt(ts, p).Got?
    ensures AndAt(ts, p) == AndTail(ts, NotAt(ts, p).next, NotAt(ts, p).value)
  {
    hide NotAt, AndTail;
  }

  lemma OrTailStep(ts: Tokens, p: nat, left: Condition)
    requires p < |ts| && Peek(ts, p) == Some(L.Or) && AndAt(ts, p + 1).Got?
    ensures OrTail(ts, p, left) == OrTail(ts, AndAt(ts, p + 1).next, Or(left, AndAt(ts, p + 1).value))
  {
    hide AndAt;
  }

  lemma OrAtStep(ts: Tokens, p: nat)
    requires p <= |ts| && AndAt(ts, p).Got?
    ensures OrAt(ts, p) == OrTail(ts, AndAt(ts, p).next, AndAt(ts, p).value)
  {
    hide AndAt, OrTail;
  }

  /** Parsing a printed conjunction reaches the loop of `parse_and` with the whole conjunction in hand. */
  lemma {:induction false} AndForward(ts: Tokens, p: nat, c: Condition)
    requires p <= |ts| && AndLevel(c) && At(ts, p, PrintCondition(c))
    ensures p + |PrintCondition(c)| <= |ts|
    ensures AndAt(ts, p) == AndTail(ts, p + |PrintCondition(c)|, c)
    decreases c
  {
    hide At, NotLevel, NotAt, AndAt, AndTail, PrintCondition;
    AtEnds(ts, p, PrintCondition(c));
    if c.And? {
      var n := |PrintCondition(c.l)|;
      AndPrinted(ts, p, c.l, c.r);
      AndForward(ts, p, c.l);
      NotForward(ts, p + n + 1, c.r);
      AndTailStep(ts, p + n, c.l);
    } else {
      NotForward(ts, p, c);
      AndAtStep(ts, p);
    }
  }

  /** Between its parts a successful conjunction has no dot. */
  lemma AndTailNext(ts: Tokens, p: nat, left: Condition)
    requires p <= |ts| && AndTail(ts, p, left).Got? && NotDot(ts, AndTail(ts, p, left).next)
    ensures NotDot(ts, p)
  {
  }

  /** The loop only extends what it started with. */
  lemma {:induction false} AndTailBackward(ts: Tokens, p: nat, start: nat, left: Condition)
    requires start <= p <= |ts| && AndTail(ts, p, left).Got? && NotDot(ts, AndTail(ts, p, left).next)
    requires AndLevel(left) && At(ts, start, PrintCondition(left)) && p == start + |PrintCondition(left)|
    ensures var Got(c, q) := AndTail(ts, p, left);
            AndLevel(c) && At(ts, start, PrintCondition(c)) && q == start + |PrintCondition(c)|
    decreases |ts| - p
  {
    hide At, NotLevel, NotAt, PrintCondition;
    if Peek(ts, p) == Some(L.And) {
      var right := NotAt(ts, p + 1);
      AndTailNext(ts, right.next, And(left, right.value));
      NotBackward(ts, p + 1);
      AndPrinted(ts, start, left, right.value);
      AndTailBackward(ts, right.next, start, And(left, right.value));
    }
  }

  lemma AndBackward(ts: Tokens, p: nat)
    requires p <= |ts| && AndAt(ts, p).Got? && NotDot(ts, AndAt(ts, p).next)
    ensures var Got(c, q) := AndAt(ts, p);
            AndLevel(c) && At(ts, p, PrintCondition(c)) && q == p + |PrintCondition(c)|
  {
    hide At, NotLevel, AndLevel, NotAt, AndTail;
    var left := NotAt(ts, p);
    AndTailNext(ts, left.next, left.value);
    NotBackward(ts, p);
    LevelsNest(left.value);
    AndTailBackward(ts, left.next, p, left.value);
  }

  lemma {:induction false} OrForward(ts: Tokens, p: nat, c: Condition)
    requires p <= |ts| && OrLevel(c) && At(ts, p, PrintCondition(c))
    requires Peek(ts, p + |PrintCondition(c)|) != Some(L.And)
    ensures p + |PrintCondition(c)| <= |ts|
    ensures OrAt(ts, p) == OrTail(ts, p + |PrintCondition(c)|, c)
    decreases c
  {
    hide At, AndLevel, AndAt, OrAt, OrTail, PrintCondition;
    AtEnds(ts, p, PrintCondition(c));
    if c.Or? {
      var n := |PrintCondition(c.l)|;
      OrPrinted(ts, p, c.l, c.r);
      OrForward(ts, p, c.l);
      AndForwardEnd(ts, p + n + 1, c.r);
      OrTailStep(ts, p + n, c.l);
    } else {
      AndForwardEnd(ts, p, c);
      OrAtStep(ts, p);
    }
  }

  lemma AndForwardEnd(ts: Tokens, p: nat, c: Condition)
    requires p <= |ts| && AndLevel(c) && At(ts, p, PrintCondition(c))
    requires Peek(ts, p + |PrintCondition(c)|) != Some(L.And)
    ensures AndAt(ts, p) == Got(c, p + |PrintCondition(c)|)
  {
    hide At, AndLevel, AndAt, PrintCondition;
    AndForward(ts, p, c);
  }

  lemma OrForwardEnd(ts: Tokens, p: nat, c: Condition)
    requires p <= |ts| && OrLevel(c) && At(ts, p, PrintCondition(c))
    requires Peek(ts, p + |PrintCondition(c)|) != Some(L.And) && Peek(ts, p + |PrintCondition(c)|) != Some(L.Or)
    ensures OrAt(ts, p) == Got(c, p + |PrintCondition(c)|)
  {
    hide At, OrLevel, OrAt, PrintCondition;
    OrForward(ts, p, c);
  }

  lemma OrTailNext(ts: Tokens, p: nat, left: Condition)
    requires p <= |ts| && OrTail(ts, p, left).Got? && NotDot(ts, OrTail(ts, p, left).next)
    ensures NotDot(ts, p)
  {
  }

  lemma {:induction false} OrTailBackward(ts: Tokens, p: nat, start: nat, left: Condition)
    requires start <= p <= |ts| && OrTail(ts, p, left).Got? && NotDot(ts, OrTail(ts, p, left).next)
    requires OrLevel(left) && At(ts, start, PrintCondition(left)) && p == start + |PrintCondition(left)|
    ensures var Got(c, q) := OrTail(ts, p, left);
            OrLevel(c) && At(ts, start, PrintCondition(c)) && q == start + |PrintCondition(c)|
    decreases |ts| - p
  {
    hide At, AndLevel, AndAt, PrintCondition;
    if Peek(ts, p) == Some(L.Or) {
      var right := AndAt(ts, p + 1);
      OrTailNext(ts, right.next, Or(left, right.value));
      AndBackward(ts, p + 1);
      OrPrinted(ts, start, left, right.value);
      OrTailBackward(ts, right.next, start, Or(left, right.value));
    }
  }

  lemma OrBackward(ts: Tokens, p: nat)
    requires p <= |ts| && OrAt(ts, p).Got? && NotDot(ts, OrAt(ts, p).next)
    ensures var Got(c, q) := OrAt(ts, p);
            OrLevel(c) && At(ts, p, PrintCondition(c)) && q == p + |PrintCondition(c)|
  {
    hide At, AndLevel, OrLevel, AndAt, OrTail;
    var left := AndAt(ts, p);
    OrTailNext(ts, left.next, left.value);
    AndBackward(ts, p);
    LevelsNest(left.value);
    OrTailBackward(ts, left.next, p, left.value);
  }

  // ---------------------------------------------------------------- durations, actions, rules

  lemma ForPrinted(ts: Tokens, p: nat, x: Tokens, secs: nat)
    ensures At(ts, p, x + [L.For, L.Duration(secs)]) <==>
              At(ts, p, x) && Peek(ts, p + |x|) == Some(L.For) && Peek(ts, p + |x| + 1) == Some(L.Duration(secs))
  {
    hide At, Normal, Peek;
    assert [L.For, L.Duration(secs)] == [L.For] + [L.Duration(secs)];
    InfixPrinted(ts, p, x, L.For, [L.Duration(secs)]);
    AtPlain(ts, p + |x| + 1, L.Duration(secs));
  }

  lemma ConditionForward(ts: Tokens, p: nat, c: Condition)
    requires p <= |ts| && CanonicalCondition(c) && At(ts, p, PrintCondition(c))
    requires Peek(ts, p + |PrintCondition(c)|) == Some(L.Then)
    ensures ConditionAt(ts, p) == Got(c, p + |PrintCondition(c)|)
  {
    hide At, OrLevel, OrAt;
    if c.Duration? {
      var x := PrintCondition(c.condition);
      ForPrinted(ts, p, x, c.seconds);
      assert PrintCondition(c) == x + [L.For, L.Duration(c.seconds)];
      hide PrintCondition;
      OrForwardEnd(ts, p, c.condition);
    } else {
      hide PrintCondition;
      OrForwardEnd(ts, p, c);
    }
  }

  lemma ConditionBackward(ts: Tokens, p: nat)
    requires p <= |ts| && ConditionAt(ts, p).Got? && Peek(ts, ConditionAt(ts, p).next) == Some(L.Then)
    ensures var Got(c, q) := ConditionAt(ts, p);
            CanonicalCondition(c) && At(ts, p, PrintCondition(c)) && q == p + |PrintCondition(c)|
  {
    hide At, OrLevel, OrAt;
    var inner := OrAt(ts, p);
    OrBackward(ts, p);
    LevelsNest(inner.value);
    if Peek(ts, inner.next) == Some(L.For) {
      ForPrinted(ts, p, PrintCondition(inner.value), ConditionAt(ts, p).value.seconds);
    }
  }

  predicate Spells(ts: Tokens, p: nat, x: Tokens) {
    forall i | 0 <= i < |x| :: Peek(ts, p + i) == Some(x[i])
  }

  /** Where no identifier is involved, normalised tokens are the tokens. */
  lemma AtSpells(ts: Tokens, p: nat, x: Tokens)
    requires p <= |ts| && forall i | 0 <= i < |x| :: !x[i].Ident? && !x[i].Process?
    ensures At(ts, p, x) <==> Spells(ts, p, x)
  {
    var ns := Normal(ts);
    if At(ts, p, x) {
      forall i | 0 <= i < |x|
        ensures Peek(ts, p + i) == Some(x[i])
      {
        assert ns[p..p + |x|][i] == ns[p + i];
      }
    }
    if Spells(ts, p, x) && x != [] {
      assert Peek(ts, p + (|x| - 1)) == Some(x[|x| - 1]);
      forall i | 0 <= i < |x|
        ensures ns[p..p + |x|][i] == x[i]
      {
        assert Peek(ts, p + i) == Some(x[i]);
      }
      assert |ns[p..p + |x|]| == |x|;
    }
  }

  /** A printed action, token by token. */
  lemma ActionPrinted(ts: Tokens, p: nat, a: Action)
    requires p <= |ts|
    ensures At(ts, p, PrintAction(a)) <==>
              match a
              case Alert(message, severity) =>
                && Peek(ts, p) == Some(L.Alert) && Peek(ts, p + 1) == Some(L.StringLit(message))
                && Peek(ts, p + 2) == Some(L.Severity) && Peek(ts, p + 3) == Some(PrintSeverity(severity))
              case Kill => Peek(ts, p) == Some(L.Kill)
              case Log(message) => Peek(ts, p) == Some(L.Log) && Peek(ts, p + 1) == Some(L.StringLit(message))
  {
    hide At;
    var x := PrintAction(a);
    AtSpells(ts, p, x);
    assert Spells(ts, p, x) ==> Peek(ts, p + 0) == Some(x[0]);
    if a.Alert? {
      assert Spells(ts, p, x) <==>
               Peek(ts, p) == Some(x[0]) && Peek(ts, p + 1) == Some(x[1]) &&
               Peek(ts, p + 2) == Some(x[2]) && Peek(ts, p + 3) == Some(x[3]);
    } else if a.Log? {
      assert Spells(ts, p, x) <==> Peek(ts, p) == Some(x[0]) && Peek(ts, p + 1) == Some(x[1]);
    }
  }

  lemma ActionRoundTrip(ts: Tokens, p: nat, a: Action)
    requires p <= |ts|
    ensures At(ts, p, PrintAction(a)) <==> ActionAt(ts, p) == Got(a, p + |PrintAction(a)|)
    ensures ActionAt(ts, p).Got? && ActionAt(ts, p).value == a ==> ActionAt(ts, p).next == p + |PrintAction(a)|
    ensures At(ts, p, PrintAction(a)) ==> StartsAction(ts, p)
  {
    hide At;
    ActionPrinted(ts, p, a);
  }

  lemma {:induction false} ActionsForward(ts: Tokens, p: nat, done: seq<Action>, actions: seq<Action>)
    requires p <= |ts| && At(ts, p, PrintActions(actions))
    requires !StartsAction(ts, p + |PrintActions(actions)|)
    ensures ActionsTail(ts, p, done) == Got(done + actions, p + |PrintActions(actions)|)
    decreases actions
  {
    hide At, ActionAt, PrintAction, StartsAction;
    if actions == [] {
      assert done + actions == done;
    } else {
      var a, rest := actions[0], actions[1..];
      AtSplit(ts, p, PrintAction(a), PrintActions(rest));
      ActionRoundTrip(ts, p, a);
      AtEnds(ts, p, PrintAction(a));
      ActionsForward(ts, p + |PrintAction(a)|, done + [a], rest);
      assert done + [a] + rest == done + actions;
    }
  }

  lemma {:induction false} ActionsBackward(ts: Tokens, p: nat, done: seq<Action>) returns (actions: seq<Action>)
    requires p <= |ts| && ActionsTail(ts, p, done).Got?
    ensures ActionsTail(ts, p, done).value == done + actions
    ensures At(ts, p, PrintActions(actions)) && ActionsTail(ts, p, done).next == p + |PrintActions(actions)|
    decreases |ts| - p
  {
    hide ActionAt, PrintAction, StartsAction, At, Normal;
    if StartsAction(ts, p) {
      var first := ActionAt(ts, p);
      var rest := ActionsBackward(ts, first.next, done + [first.value]);
      ActionRoundTrip(ts, p, first.value);
      actions := [first.value] + rest;
      assert actions[1..] == rest;
      AtSplit(ts, p, PrintAction(first.value), PrintActions(rest));
      assert done + [first.value] + rest == done + actions;
    } else {
      actions := [];
      assert done + actions == done;
      AtNothing(ts, p);
    }
  }

  lemma HeadPrinted(ts: Tokens, p: nat, name: string)
    requires p <= |ts|
    ensures At(ts, p, [L.Rule, L.Ident(name), L.LBrace, L.When]) <==>
              && Peek(ts, p) == Some(L.Rule) && Peek(ts, p + 1) == Some(L.Ident(name))
              && Peek(ts, p + 2) == Some(L.LBrace) && Peek(ts, p + 3) == Some(L.When)
  {
    hide At, Normal;
    assert [L.Rule, L.Ident(name), L.LBrace, L.When] == [L.Rule] + ([L.Ident(name)] + [L.LBrace, L.When]);
    AtSplit(ts, p, [L.Rule], [L.Ident(name)] + [L.LBrace, L.When]);
    AtSplit(ts, p + 1, [L.Ident(name)], [L.LBrace, L.When]);
    AtPlain(ts, p, L.Rule);
    AtIdent(ts, p + 1, name);
    assert [L.LBrace, L.When] == [L.LBrace] + [L.When];
    AtSplit(ts, p + 2, [L.LBrace], [L.When]);
    AtPlain(ts, p + 2, L.LBrace);
    AtPlain(ts, p + 3, L.When);
  }

  lemma TailPrinted(ts: Tokens, p: nat, c: Tokens, a: Tokens)
    ensures At(ts, p, c + ([L.Then] + (a + [L.RBrace]))) <==>
              && At(ts, p, c) && Peek(ts, p + |c|) == Some(L.Then)
              && At(ts, p + 1 + |c|, a) && Peek(ts, p + 1 + |c| + |a|) == Some(L.RBrace)
  {
    hide At, Normal, Peek;
    InfixPrinted(ts, p, c, L.Then, a + [L.RBrace]);
    AtSplit(ts, p + 1 + |c|, a, [L.RBrace]);
    AtPlain(ts, p + 1 + |c| + |a|, L.RBrace);
  }

  /** A printed rule, part by part. */
  lemma RulePrinted(ts: Tokens, p: nat, r: Rule)
    requires p <= |ts|
    ensures var c, a := PrintCondition(r.condition), PrintActions(r.actions);
            && |PrintRule(r)| == 6 + |c| + |a|
            && (At(ts, p, PrintRule(r)) <==>
                  && Peek(ts, p) == Some(L.Rule) && Peek(ts, p + 1) == Some(L.Ident(r.name))
                  && Peek(ts, p + 2) == Some(L.LBrace) && Peek(ts, p + 3) == Some(L.When)
                  && At(ts, p + 4, c) && Peek(ts, p + 4 + |c|) == Some(L.Then)
                  && At(ts, p + 5 + |c|, a) && Peek(ts, p + 5 + |c| + |a|) == Some(L.RBrace))
  {
    var c, a := PrintCondition(r.condition), PrintActions(r.actions);
    hide *;
    HeadPrinted(ts, p, r.name);
    TailPrinted(ts, p + 4, c, a);
    PartsPrinted(ts, p, r, [L.Rule, L.Ident(r.name), L.LBrace, L.When], c + ([L.Then] + (a + [L.RBrace])));
  }

  lemma PartsPrinted(ts: Tokens, p: nat, r: Rule, head: Tokens, tail: Tokens)
    requires head == [L.Rule, L.Ident(r.name), L.LBrace, L.When]
    requires tail == PrintCondition(r.condition) + ([L.Then] + (PrintActions(r.actions) + [L.RBrace]))
    ensures |PrintRule(r)| == 6 + |PrintCondition(r.condition)| + |PrintActions(r.actions)|
    ensures At(ts, p, PrintRule(r)) <==> At(ts, p, head) && At(ts, p + 4, tail)
  {
    hide At, Normal, PrintCondition, PrintActions;
    AtSplit(ts, p, head, tail);
  }

  lemma BodyParsed(ts: Tokens, p: nat, name: string, q: nat, n: nat)
    requires p + 2 <= |ts| && q < |ts| && n <= |ts|
    requires Peek(ts, p) == Some(L.LBrace) && Peek(ts, p + 1) == Some(L.When)
    requires ConditionAt(ts, p + 2).Got? && ConditionAt(ts, p + 2).next == q && Peek(ts, q) == Some(L.Then)
    requires ActionsTail(ts, q + 1, []).Got? && ActionsTail(ts, q + 1, []).next == n && Peek(ts, n) == Some(L.RBrace)
    requires ActionsTail(ts, q + 1, []).value != []
    ensures RuleBodyAt(ts, p, name)
            == Got(Rule(name, ConditionAt(ts, p + 2).value, ActionsTail(ts, q + 1, []).value, Span(0, 0)), n + 1)
  {
    hide ConditionAt, ActionsTail;
  }

  /** What the rule parser needs to see before the body. */
  lemma RuleParsed(ts: Tokens, p: nat, name: string)
    requires p + 2 <= |ts| && Peek(ts, p) == Some(L.Rule) && Peek(ts, p + 1) == Some(L.Ident(name))
    ensures RuleAt(ts, p) == RuleBodyAt(ts, p + 2, name)
  {
    hide RuleBodyAt;
  }

  lemma RuleForward(ts: Tokens, p: nat, r: Rule)
    requires p <= |ts| && CanonicalRule(r) && At(ts, p, PrintRule(r))
    ensures RuleAt(ts, p) == Got(r.(span := Span(0, 0)), p + |PrintRule(r)|)
  {
    hide *;
    RulePrinted(ts, p, r);
    CanonicalParts(r);
    var q := p + 4 + |PrintCondition(r.condition)|;
    var n := q + 1 + |PrintActions(r.actions)|;
    Inside(ts, p + 3);
    Inside(ts, q);
    Inside(ts, n);
    ConditionForward(ts, p + 4, r.condition);
    BraceEndsActions(ts, n);
    ActionsForward(ts, q + 1, [], r.actions);
    assert [] + r.actions == r.actions;
    RuleParsed(ts, p, r.name);
    BodyParsed(ts, p + 2, r.name, q, n);
  }

  lemma CanonicalParts(r: Rule)
    requires CanonicalRule(r)
    ensures CanonicalCondition(r.condition) && r.actions != []
  {
  }

  lemma Inside(ts: Tokens, p: nat)
    requires Peek(ts, p).Some?
    ensures p < |ts|
  {
  }

  lemma BraceEndsActions(ts: Tokens, p: nat)
    requires Peek(ts, p) == Some(L.RBrace)
    ensures !StartsAction(ts, p)
  {
  }

  lemma RuleBackward(ts: Tokens, p: nat)
    requires p <= |ts| && RuleAt(ts, p).Got?
    ensures var Got(r, q) := RuleAt(ts, p);
            CanonicalRule(r) && At(ts, p, PrintRule(r)) && q == p + |PrintRule(r)|
  {
    hide At, PrintRule, CanonicalCondition, ConditionAt, PrintCondition, PrintActions, ActionsTail;
    var r := RuleAt(ts, p).value;
    ConditionBackward(ts, p + 4);
    var q := ConditionAt(ts, p + 4).next;
    var actions := ActionsBackward(ts, q + 1, []);
    assert [] + actions == actions;
    RulePrinted(ts, p, r);
  }

  // ---------------------------------------------------------------- files

  predicate SameUpToSpans(a: seq<Rule>, b: seq<Rule>) {
    |a| == |b| && forall k | 0 <= k < |a| :: a[k].(span := b[k].span) == b[k]
  }

  lemma FilePrinted(ts: Tokens, p: nat, rules: seq<Rule>)
    requires rules != []
    ensures |PrintFile(rules)| == |PrintRule(rules[0])| + |PrintFile(rules[1..])|
    ensures At(ts, p, PrintFile(rules)) <==>
              At(ts, p, PrintRule(rules[0])) && At(ts, p + |PrintRule(rules[0])|, PrintFile(rules[1..]))
  {
    assert PrintFile(rules) == PrintRule(rules[0]) + PrintFile(rules[1..]);
    hide *;
    AtSplit(ts, p, PrintRule(rules[0]), PrintFile(rules[1..]));
  }

  lemma RuleIsLong(r: Rule)
    ensures |PrintRule(r)| > 0
  {
    hide PrintCondition, PrintActions;
  }

  lemma {:induction false} FileForward(ts: Tokens, spans: seq<Span>, p: nat, rules: seq<Rule>)
    requires p <= |ts| == |spans| && CanonicalFile(rules)
    requires At(ts, p, PrintFile(rules)) && p + |PrintFile(rules)| == |ts|
    ensures FileFrom(ts, spans, p).1 == [] && SameUpToSpans(FileFrom(ts, spans, p).0, rules)
    decreases |ts| - p
  {
    hide At, PrintRule, RuleAt, CanonicalRule, SameUpToSpans;
    if rules != [] {
      hide PrintFile, FileFrom;
      var r, rest := rules[0], rules[1..];
      var q := p + |PrintRule(r)|;
      FilePrinted(ts, p, rules);
      RuleForward(ts, p, r);
      RuleIsLong(r);
      FileForward(ts, spans, q, rest);
      FileFromGot(ts, spans, p);
      SameCons(FileFrom(ts, spans, p).0[0], r, FileFrom(ts, spans, q).0, rest);
      assert rules == [r] + rest;
    } else {
      SameNil();
    }
  }

  lemma FileFromGot(ts: Tokens, spans: seq<Span>, p: nat)
    requires p < |ts| == |spans| && RuleAt(ts, p).Got?
    ensures var Got(r, q) := RuleAt(ts, p);
            FileFrom(ts, spans, p) == ([Spanned(r, spans, p, q)] + FileFrom(ts, spans, q).0, FileFrom(ts, spans, q).1)
  {
    hide RuleAt;
  }

  lemma SameCons(r: Rule, s: Rule, a: seq<Rule>, b: seq<Rule>)
    requires r.(span := s.span) == s && SameUpToSpans(a, b)
    ensures SameUpToSpans([r] + a, [s] + b)
  {
  }

  lemma SameNil()
    ensures SameUpToSpans([], [])
  {
  }

  lemma {:induction false} FileBackward(ts: Tokens, spans: seq<Span>, p: nat)
    requires p <= |ts| == |spans| && FileFrom(ts, spans, p).1 == []
    ensures var rules := FileFrom(ts, spans, p).0;
            CanonicalFile(rules) && At(ts, p, PrintFile(rules)) && p + |PrintFile(rules)| == |ts|
    decreases |ts| - p
  {
    hide PrintRule, RuleAt;
    if p < |ts| {
      RuleBackward(ts, p);
      var Got(r, q) := RuleAt(ts, p);
      FileBackward(ts, spans, q);
      var rules := FileFrom(ts, spans, p).0;
      PrintIgnoresSpan(r, rules[0].span);
      assert rules[1..] == FileFrom(ts, spans, q).0;
      FilePrinted(ts, p, rules);
    }
  }

  lemma PrintIgnoresSpan(r: Rule, span: Span)
    ensures PrintRule(r.(span := span)) == PrintRule(r)
    ensures CanonicalRule(r.(span := span)) == CanonicalRule(r)
  {
  }

  /** Printing then parsing gives the file back, up to spans. */
  lemma PrintThenParse(ts: Tokens, spans: seq<Span>, rules: seq<Rule>)
    requires |ts| == |spans| && CanonicalFile(rules) && Normal(ts) == PrintFile(rules)
    ensures ParseFile(ts, spans).Ok? && SameUpToSpans(ParseFile(ts, spans).value, rules)
  {
    assert Normal(ts)[0..0 + |ts|] == Normal(ts);
    FileForward(ts, spans, 0, rules);
  }

  /** Whatever parses is canonical and prints to exactly the tokens it came from. */
  lemma ParseThenPrint(ts: Tokens, spans: seq<Span>)
    requires |ts| == |spans| && ParseFile(ts, spans).Ok?
    ensures CanonicalFile(ParseFile(ts, spans).value) && PrintFile(ParseFile(ts, spans).value) == Normal(ts)
  {
    FileBackward(ts, spans, 0);
    assert Normal(ts)[0..0 + |ts|] == Normal(ts);
  }

  /** From a lexer that gives the keyword priority, whatever parses prints to exactly the tokens given. */
  lemma ParseThenPrintPlain(ts: Tokens, spans: seq<Span>)
    requires |ts| == |spans| && L.Ident("process") !in ts && ParseFile(ts, spans).Ok?
    ensures CanonicalFile(ParseFile(ts, spans).value) && PrintFile(ParseFile(ts, spans).value) == ts
  {
    hide ParseFile, CanonicalFile, PrintFile, Normal;
    ParseThenPrint(ts, spans);
    NormalIsIdentity(ts);
  }

  /** The parser accepts exactly the printed canonical files. */
  lemma AcceptsExactly(ts: Tokens, spans: seq<Span>)
    requires |ts| == |spans|
    ensures ParseFile(ts, spans).Ok? <==> exists rules :: CanonicalFile(rules) && PrintFile(rules) == Normal(ts)
  {
    hide ParseFile, CanonicalFile, PrintFile, Normal;
    if ParseFile(ts, spans).Ok? {
      ParseThenPrint(ts, spans);
    }
    if rules :| CanonicalFile(rules) && PrintFile(rules) == Normal(ts) {
      PrintThenParse(ts, spans, rules);
    }
  }

  // ---------------------------------------------------------------- printed files are normal

  predicate Clean(x: Tokens) {
    && (x != [] ==> x[0] != L.Dot)
    && forall i | 0 <= i < |x| - 1 :: x[i] == L.Ident("process") ==> x[i + 1] != L.Dot
  }

  lemma CleanConcat(a: Tokens, b: Tokens)
    requires Clean(a) && Clean(b)
    ensures Clean(a + b)
  {
  }

  lemma {:induction false} ConditionClean(c: Condition)
    ensures Clean(PrintCondition(c))
  {
    match c
    case Comparison(left, op, right) =>
      CleanConcat([PrintOp(op)], PrintExpr(right));
      CleanConcat(PrintExpr(left), [PrintOp(op)] + PrintExpr(right));
    case Not(inner) =>
      ConditionClean(inner);
      CleanConcat([L.Ident("not")], PrintCondition(inner));
    case And(l, r) =>
      ConditionClean(l);
      ConditionClean(r);
      CleanConcat([L.And], PrintCondition(r));
      CleanConcat(PrintCondition(l), [L.And] + PrintCondition(r));
    case Or(l, r) =>
      ConditionClean(l);
      ConditionClean(r);
      CleanConcat([L.Or], PrintCondition(r));
      CleanConcat(PrintCondition(l), [L.Or] + PrintCondition(r));
    case Duration(inner, secs) =>
      ConditionClean(inner);
      CleanConcat(PrintCondition(inner), [L.For, L.Duration(secs)]);
  }

  lemma {:induction false} ActionsClean(actions: seq<Action>)
    ensures Clean(PrintActions(actions))
  {
    if actions != [] {
      ActionsClean(actions[1..]);
      CleanConcat(PrintAction(actions[0]), PrintActions(actions[1..]));
    }
  }

  lemma {:induction false} FileClean(rules: seq<Rule>)
    ensures Clean(PrintFile(rules))
  {
    if rules != [] {
      var r := rules[0];
      var c, a := PrintCondition(r.condition), PrintActions(r.actions);
      ConditionClean(r.condition);
      ActionsClean(r.actions);
      FileClean(rules[1..]);
      CleanConcat(a, [L.RBrace]);
      CleanConcat([L.Then], a + [L.RBrace]);
      CleanConcat(c, [L.Then] + (a + [L.RBrace]));
      CleanConcat([L.Rule, L.Ident(r.name), L.LBrace, L.When], c + ([L.Then] + (a + [L.RBrace])));
      CleanConcat(PrintRule(r), PrintFile(rules[1..]));
    }
  }

  /** Every canonical file survives printing and parsing, whatever the spans of its tokens. */
  lemma RoundTrip(rules: seq<Rule>, spans: seq<Span>)
    requires CanonicalFile(rules) && |spans| == |PrintFile(rules)|
    ensures ParseFile(PrintFile(rules), spans).Ok?
    ensures SameUpToSpans(ParseFile(PrintFile(rules), spans).value, rules)
  {
    var ts := PrintFile(rules);
    FileClean(rules);
    assert Normal(ts) == ts;
    PrintThenParse(ts, spans, rules);
  }

  /** No two different canonical files print alike. */
  lemma PrintIsInjective(a: seq<Rule>, b: seq<Rule>)
    requires CanonicalFile(a) && CanonicalFile(b) && PrintFile(a) == PrintFile(b)
    ensures SameUpToSpans(a, b)
  {
    var spans := seq(|PrintFile(a)|, _ => Span(0, 0));
    RoundTrip(a, spans);
    RoundTrip(b, spans);
  }
}
