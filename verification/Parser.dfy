/** The recursive-descent parser as it is written (crates/aether-script/src/parser.rs): a cursor over
    the token vector and a growing error list. Every method is proved to do what the function of
    module Grammar says, so no index is ever out of range and every loop ends. */
module Parser {
  import opened Results
  import opened Ast
  import opened Grammar
  import L = Lexer

  class Parser {
    const kinds: Tokens
    const spans: seq<Span>
    var pos: nat
    var errors: seq<ParseError>

    ghost predicate Valid()
      reads this
    {
      pos <= |kinds| == |spans|
    }

    constructor (kinds: Tokens, spans: seq<Span>)
      requires |kinds| == |spans|
      ensures Valid() && this.kinds == kinds && this.spans == spans && pos == 0 && errors == []
    {
      this.kinds, this.spans := kinds, spans;
      pos, errors := 0, [];
    }

    /** A parse method did what the grammar function says: on success it moved to the next position
        and left the errors alone, on failure it reported the one error and stayed where it was found. */
    twostate predicate Did<T>(new spec: Parse<T>, new r: Result<T, ()>)
      reads this
    {
      && Valid()
      && pos == spec.End()
      && match spec
         case Got(v, _) => r == Ok(v) && errors == old(errors)
         case Failed(m, at) => r.Err? && errors == old(errors) + [ParseError(m, SpanAt(spans, at))]
    }

    // -------------------------------------------------------------- helpers

    function PeekToken(): (t: Option<L.Token>)
      reads this
      ensures t == Peek(kinds, pos)
    {
      if pos < |kinds| then Some(kinds[pos]) else None
    }

    method Advance() returns (t: L.Token)
      requires Valid() && pos < |kinds|
      modifies this`pos
      ensures Valid() && pos == old(pos) + 1 && t == kinds[old(pos)]
    {
      t := kinds[pos];
      pos := pos + 1;
    }

    method Error(m: Message)
      requires Valid()
      modifies this`errors
      ensures errors == old(errors) + [ParseError(m, SpanAt(spans, pos))]
    {
      errors := errors + [ParseError(m, SpanAt(spans, pos))];
    }

    method Expect(t: L.Token) returns (r: Result<(), ()>)
      requires Valid()
      modifies this
      ensures Did(ExpectAt(kinds, old(pos), t), r)
    {
      if PeekToken() == Some(t) {
        var _ := Advance();
        return Ok(());
      } else {
        Error(ExpectedToken(t, PeekToken()));
        return Err(());
      }
    }

    method RecoverToRule()
      requires Valid()
      modifies this`pos
      ensures Valid() && pos == RecoverFrom(kinds, old(pos))
    {
      while pos < |kinds| && kinds[pos] != L.Rule
        invariant Valid()
        invariant RecoverFrom(kinds, pos) == RecoverFrom(kinds, old(pos))
      {
        pos := pos + 1;
      }
    }

    // -------------------------------------------------------------- expressions

    method ParseField(obj: string) returns (r: Result<Expr, ()>)
      requires Valid()
      modifies this
      ensures Did(FieldAt(kinds, old(pos), obj), r)
    {
      match PeekToken()
      case Some(Ident(_)) =>
        var t := Advance();
        r := Ok(FieldAccess(obj, t.name));
      case found =>
        Error(ExpectedField(found));
        r := Err(());
    }

    method ParseExpr() returns (r: Result<Expr, ()>)
      requires Valid()
      modifies this
      ensures Did(ExprAt(kinds, old(pos)), r)
    {
      hide Consumes, FieldAt, ExpectAt, Peek, SpanAt;
      match PeekToken()
      case Some(Process) =>
        var _ := Advance();
        var dot := Expect(L.Dot);
        if dot.Err? { return Err(()); }
        r := ParseField("process");
      case Some(Ident(obj)) =>
        var _ := Advance();
        if PeekToken() == Some(L.Dot) {
          var _ := Advance();
          r := ParseField(obj);
        } else {
          Error(ExpectedDot(obj));
          r := Err(());
        }
      case Some(Integer(n)) =>
        var _ := Advance();
        r := Ok(Lit(IntLit(n)));
      case Some(Float(f)) =>
        var _ := Advance();
        r := Ok(Lit(FloatLit(f)));
      case Some(Percent(f)) =>
        var _ := Advance();
        r := Ok(Lit(PercentLit(f)));
      case Some(Duration(n)) =>
        var _ := Advance();
        r := Ok(Lit(DurationLit(n)));
      case Some(StringLit(s)) =>
        var _ := Advance();
        r := Ok(Lit(StrLit(s)));
      case found =>
        Error(ExpectedExpression(found));
        r := Err(());
    }

    method ParseCmpOp() returns (r: Result<CmpOp, ()>)
      requires Valid()
      modifies this
      ensures Did(CmpOpAt(kinds, old(pos)), r)
    {
      var op: CmpOp;
      match PeekToken() {
        case Some(Gt) => op := CmpOp.Gt;
        case Some(Lt) => op := CmpOp.Lt;
        case Some(Gte) => op := CmpOp.Gte;
        case Some(Lte) => op := CmpOp.Lte;
        case Some(Eq) => op := CmpOp.Eq;
        case Some(Neq) => op := CmpOp.Neq;
        case found =>
          Error(ExpectedCmpOp(found));
          return Err(());
      }
      var _ := Advance();
      r := Ok(op);
    }

    // -------------------------------------------------------------- conditions

    method ParseComparison() returns (r: Result<Condition, ()>)
      requires Valid()
      modifies this
      ensures Did(ComparisonAt(kinds, old(pos)), r)
    {
      hide ExprAt, CmpOpAt;
      var left := ParseExpr();
      if left.Err? { return Err(()); }
      var op := ParseCmpOp();
      if op.Err? { return Err(()); }
      var right := ParseExpr();
      if right.Err? { return Err(()); }
      r := Ok(Comparison(left.value, op.value, right.value));
    }

    method ParseNot() returns (r: Result<Condition, ()>)
      requires Valid()
      modifies this
      ensures Did(NotAt(kinds, old(pos)), r)
      decreases |kinds| - pos
    {
      hide ComparisonAt;
      if PeekToken() == Some(L.Ident("not")) {
        var _ := Advance();
        var inner := ParseNot();
        if inner.Err? { return Err(()); }
        r := Ok(Not(inner.value));
      } else {
        r := ParseComparison();
      }
    }

    method ParseAnd() returns (r: Result<Condition, ()>)
      requires Valid()
      modifies this
      ensures Did(AndAt(kinds, old(pos)), r)
    {
      hide NotAt;
      var first := ParseNot();
      if first.Err? { return Err(()); }
      var left := first.value;
      while PeekToken() == Some(L.And)
        invariant Valid() && errors == old(errors)
        invariant AndTail(kinds, pos, left) == AndAt(kinds, old(pos))
        decreases |kinds| - pos
      {
        var _ := Advance();
        var right := ParseNot();
        if right.Err? { return Err(()); }
        left := And(left, right.value);
      }
      r := Ok(left);
    }

    method ParseOr() returns (r: Result<Condition, ()>)
      requires Valid()
      modifies this
      ensures Did(OrAt(kinds, old(pos)), r)
    {
      hide AndAt;
      var first := ParseAnd();
      if first.Err? { return Err(()); }
      var left := first.value;
      while PeekToken() == Some(L.Or)
        invariant Valid() && errors == old(errors)
        invariant OrTail(kinds, pos, left) == OrAt(kinds, old(pos))
        decreases |kinds| - pos
      {
        var _ := Advance();
        var right := ParseAnd();
        if right.Err? { return Err(()); }
        left := Or(left, right.value);
      }
      r := Ok(left);
    }

    method ParseCondition() returns (r: Result<Condition, ()>)
      requires Valid()
      modifies this
      ensures Did(ConditionAt(kinds, old(pos)), r)
    {
      hide OrAt;
      var cond := ParseOr();
      if cond.Err? { return Err(()); }
      if PeekToken() == Some(L.For) {
        var _ := Advance();
        match PeekToken()
        case Some(Duration(_)) =>
          var t := Advance();
          r := Ok(Condition.Duration(cond.value, t.secs));
        case found =>
          Error(ExpectedDuration(found));
          r := Err(());
      } else {
        r := Ok(cond.value);
      }
    }

    // -------------------------------------------------------------- actions

    method ExpectString(context: string) returns (r: Result<string, ()>)
      requires Valid()
      modifies this
      ensures Did(StringAt(kinds, old(pos), context), r)
    {
      match PeekToken()
      case Some(StringLit(_)) =>
        var t := Advance();
        r := Ok(t.s);
      case found =>
        Error(ExpectedString(context, found));
        r := Err(());
    }

    method ParseSeverity() returns (r: Result<Severity, ()>)
      requires Valid()
      modifies this
      ensures Did(SeverityAt(kinds, old(pos)), r)
    {
      match PeekToken()
      case Some(Info) =>
        var _ := Advance();
        r := Ok(Severity.Info);
      case Some(Warning) =>
        var _ := Advance();
        r := Ok(Severity.Warning);
      case Some(Critical) =>
        var _ := Advance();
        r := Ok(Severity.Critical);
      case found =>
        Error(ExpectedSeverity(found));
        r := Err(());
    }

    method ParseAction() returns (r: Result<Action, ()>)
      requires Valid()
      modifies this
      ensures Did(ActionAt(kinds, old(pos)), r)
    {
      hide StringAt, SeverityAt;
      match PeekToken()
      case Some(Alert) =>
        var _ := Advance();
        var message := ExpectString("alert message");
        if message.Err? { return Err(()); }
        var keyword := Expect(L.Severity);
        if keyword.Err? { return Err(()); }
        var severity := ParseSeverity();
        if severity.Err? { return Err(()); }
        r := Ok(Action.Alert(message.value, severity.value));
      case Some(Kill) =>
        var _ := Advance();
        r := Ok(Action.Kill);
      case Some(Log) =>
        var _ := Advance();
        var message := ExpectString("log message");
        if message.Err? { return Err(()); }
        r := Ok(Action.Log(message.value));
      case found =>
        Error(ExpectedAction(found));
        r := Err(());
    }

    method ParseActions() returns (r: Result<seq<Action>, ()>)
      requires Valid()
      modifies this
      ensures Did(ActionsTail(kinds, old(pos), []), r)
    {
      hide ActionAt;
      var actions: seq<Action> := [];
      while StartsAction(kinds, pos)
        invariant Valid() && errors == old(errors)
        invariant ActionsTail(kinds, pos, actions) == ActionsTail(kinds, old(pos), [])
        decreases |kinds| - pos
      {
        var action := ParseAction();
        if action.Err? { return Err(()); }
        actions := actions + [action.value];
      }
      r := Ok(actions);
    }

    // -------------------------------------------------------------- rules and files

    method ParseName() returns (r: Result<string, ()>)
      requires Valid()
      modifies this
      ensures Did(NameAt(kinds, old(pos)), r)
    {
      match PeekToken()
      case Some(Ident(_)) =>
        var t := Advance();
        r := Ok(t.name);
      case found =>
        Error(ExpectedRuleName(found));
        r := Err(());
    }

    method ParseRuleBody(name: string) returns (r: Result<Rule, ()>)
      requires Valid()
      modifies this
      ensures Did(RuleBodyAt(kinds, old(pos), name), r)
    {
      hide ConditionAt, ActionsTail;
      var brace := Expect(L.LBrace);
      if brace.Err? { return Err(()); }
      var whenWord := Expect(L.When);
      if whenWord.Err? { return Err(()); }
      var condition := ParseCondition();
      if condition.Err? { return Err(()); }
      var thenWord := Expect(L.Then);
      if thenWord.Err? { return Err(()); }
      var actions := ParseActions();
      if actions.Err? { return Err(()); }
      if actions.value == [] {
        Error(NoActions);
        return Err(());
      }
      var close := Expect(L.RBrace);
      if close.Err? { return Err(()); }
      r := Ok(Rule(name, condition.value, actions.value, Span(0, 0)));
    }

    /** One rule attempt; the span runs from the keyword to the closing brace. */
    method ParseRule() returns (r: Result<Rule, ()>)
      requires Valid()
      modifies this
      ensures Did(RuleAt(kinds, old(pos)), if r.Ok? then Ok(r.value.(span := Span(0, 0))) else Err(()))
      ensures r.Ok? ==> old(pos) < pos && r.value.span == Span(spans[old(pos)].start, spans[pos - 1].end)
    {
      hide RuleBodyAt;
      var start := SpanAt(spans, pos).start;
      var keyword := Expect(L.Rule);
      if keyword.Err? { return Err(()); }
      var name := ParseName();
      if name.Err? { return Err(()); }
      var body := ParseRuleBody(name.value);
      if body.Err? { return Err(()); }
      BodySpan(kinds, old(pos) + 2, name.value);
      r := Ok(body.value.(span := Span(start, spans[pos - 1].end)));
    }

    /** The top loop: every iteration consumes input, through recovery if need be. */
    method ParseRuleFile() returns (rules: seq<Rule>)
      requires Valid() && pos == 0 && errors == []
      modifies this
      ensures Valid() && pos == |kinds|
      ensures rules == FileFrom(kinds, spans, 0).0 && errors == FileFrom(kinds, spans, 0).1
    {
      hide RuleAt;
      rules := [];
      while pos < |kinds|
        invariant Valid()
        invariant rules + FileFrom(kinds, spans, pos).0 == FileFrom(kinds, spans, 0).0
        invariant errors + FileFrom(kinds, spans, pos).1 == FileFrom(kinds, spans, 0).1
        decreases |kinds| - pos
      {
        ghost var p, rules0, errors0 := pos, rules, errors;
        var rule := ParseRule();
        if rule.Ok? {
          rules := rules + [rule.value];
          assert rule.value == Spanned(RuleAt(kinds, p).value, spans, p, pos);
        } else {
          RecoverToRule();
        }
        AttemptAdds(kinds, spans, p, rules0, errors0);
      }
      assert rules + [] == rules && errors + [] == errors;
    }
  }

  /** What the attempt at `p` contributes, in accumulating form. */
  lemma AttemptAdds(ts: Tokens, spans: seq<Span>, p: nat, rules: seq<Rule>, errors: seq<ParseError>)
    requires p < |ts| == |spans|
    ensures var rest, now, here := FileFrom(ts, spans, NextAttempt(ts, p)), FileFrom(ts, spans, p), RuleAt(ts, p);
            if here.Got? then
              && rules + now.0 == rules + [Spanned(here.value, spans, p, here.next)] + rest.0
              && now.1 == rest.1
            else
              && now.0 == rest.0
              && errors + now.1 == errors + [ParseError(here.message, SpanAt(spans, here.at))] + rest.1
  {
    hide RuleAt;
  }

  lemma BodySpan(ts: Tokens, p: nat, name: string)
    requires p <= |ts|
    ensures RuleBodyAt(ts, p, name).Got? ==> RuleBodyAt(ts, p, name).value.span == Span(0, 0)
  {
    hide ConditionAt, ActionsTail;
  }

  /** Parse a token vector; an error result carries every error found. */
  method ParseTokens(kinds: Tokens, spans: seq<Span>) returns (r: Result<seq<Rule>, seq<ParseError>>)
    requires |kinds| == |spans|
    ensures r == ParseFile(kinds, spans)
  {
    var parser := new Parser(kinds, spans);
    var rules := parser.ParseRuleFile();
    if parser.errors == [] {
      r := Ok(rules);
    } else {
      r := Err(parser.errors);
    }
  }
}
