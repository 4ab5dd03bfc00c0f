/** What the parser's errors and spans say of the input (crates/aether-script/src/parser.rs): every error stands where its
    message is true, and every rule's span runs from its `rule` keyword to its closing brace. */
module ParseErrors {
  import opened Results
  import opened Ast
  import opened Grammar
  import L = Lexer

  /** The token before a position. */
  function Before(ts: Tokens, p: nat): Option<L.Token> {
    if p == 0 then None else Peek(ts, p - 1)
  }

  predicate StartsExpression(t: L.Token) {
    t.Process? || t.Ident? || t.Integer? || t.Float? || t.Percent? || t.Duration? || t.StringLit?
  }

  /** The message is true of the position: what it found is there, and that is not what it asked for after what stands
      before. */
  predicate Tells(ts: Tokens, at: nat, m: Message) {
    var here, before := Peek(ts, at), Before(ts, at);
    match m
    case ExpectedToken(t, found) => found == here != Some(t)
    case ExpectedRuleName(found) => found == here && before == Some(L.Rule) && !(here.Some? && here.value.Ident?)
    case NoActions =>
      before == Some(L.Then) && here != Some(L.Alert) && here != Some(L.Kill) && here != Some(L.Log)
    case ExpectedDuration(found) => found == here && before == Some(L.For) && !(here.Some? && here.value.Duration?)
    case ExpectedCmpOp(found) =>
      found == here && !(here.Some? && here.value in [L.Gt, L.Lt, L.Gte, L.Lte, L.Eq, L.Neq])
    case ExpectedExpression(found) => found == here && !(here.Some? && StartsExpression(here.value))
    case ExpectedField(found) => found == here && before == Some(L.Dot) && !(here.Some? && here.value.Ident?)
    case ExpectedDot(obj) => before == Some(L.Ident(obj)) && here != Some(L.Dot)
    case ExpectedAction(found) => found == here && here != Some(L.Alert) && here != Some(L.Kill) && here != Some(L.Log)
    case ExpectedString(context, found) =>
      && found == here && !(here.Some? && here.value.StringLit?)
      && ((context == "alert message" && before == Some(L.Alert)) || (context == "log message" && before == Some(L.Log)))
    case ExpectedSeverity(found) =>
      && found == here && before == Some(L.Severity)
      && here != Some(L.Info) && here != Some(L.Warning) && here != Some(L.Critical)
  }

  predicate FailsTruly<T>(ts: Tokens, r: Parse<T>) {
    r.Failed? ==> Tells(ts, r.at, r.message)
  }

  // ---------------------------------------------------------------- every failure tells the truth

  lemma ExprFails(ts: Tokens, p: nat)
    requires p <= |ts|
    ensures FailsTruly(ts, ExprAt(ts, p))
  {
    hide Consumes;
  }

  lemma CmpOpFails(ts: Tokens, p: nat)
    requires p <= |ts|
    ensures FailsTruly(ts, CmpOpAt(ts, p))
  {
    hide Consumes;
  }

  lemma ComparisonFails(ts: Tokens, p: nat)
    requires p <= |ts|
    ensures FailsTruly(ts, ComparisonAt(ts, p))
  {
    hide ExprAt, CmpOpAt, Tells;
    ExprFails(ts, p);
    if ExprAt(ts, p).Got? {
      var q := ExprAt(ts, p).next;
      CmpOpFails(ts, q);
      if CmpOpAt(ts, q).Got? {
        ExprFails(ts, CmpOpAt(ts, q).next);
      }
    }
  }

  lemma {:induction false} NotFails(ts: Tokens, p: nat)
    requires p <= |ts|
    ensures FailsTruly(ts, NotAt(ts, p))
    decreases |ts| - p
  {
    hide ComparisonAt, Tells, Consumes;
    if Peek(ts, p) == Some(L.Ident("not")) {
      NotFails(ts, p + 1);
    } else {
      ComparisonFails(ts, p);
    }
  }

  lemma {:induction false} AndTailFails(ts: Tokens, p: nat, left: Condition)
    requires p <= |ts|
    ensures FailsTruly(ts, AndTail(ts, p, left))
    decreases |ts| - p
  {
    hide NotAt, Tells;
    if Peek(ts, p) == Some(L.And) {
      NotFails(ts, p + 1);
      var r := NotAt(ts, p + 1);
      if r.Got? {
        AndTailFails(ts, r.next, And(left, r.value));
      }
    }
  }

  lemma AndFails(ts: Tokens, p: nat)
    requires p <= |ts|
    ensures FailsTruly(ts, AndAt(ts, p))
  {
    hide NotAt, AndTail, Tells;
    NotFails(ts, p);
    var r := NotAt(ts, p);
    if r.Got? {
      AndTailFails(ts, r.next, r.value);
    }
  }

  lemma {:induction false} OrTailFails(ts: Tokens, p: nat, left: Condition)
    requires p <= |ts|
    ensures FailsTruly(ts, OrTail(ts, p, left))
    decreases |ts| - p
  {
    hide AndAt, Tells;
    if Peek(ts, p) == Some(L.Or) {
      AndFails(ts, p + 1);
      var r := AndAt(ts, p + 1);
      if r.Got? {
        OrTailFails(ts, r.next, Or(left, r.value));
      }
    }
  }

  lemma OrFails(ts: Tokens, p: nat)
    requires p <= |ts|
    ensures FailsTruly(ts, OrAt(ts, p))
  {
    hide AndAt, OrTail, Tells;
    AndFails(ts, p);
    var r := AndAt(ts, p);
    if r.Got? {
      OrTailFails(ts, r.next, r.value);
    }
  }

  lemma ForFails(ts: Tokens, p: nat, cond: Condition)
    requires p <= |ts|
    ensures FailsTruly(ts, ForSuffix(ts, p, cond))
  {
  }

  lemma ConditionFails(ts: Tokens, p: nat)
    requires p <= |ts|
    ensures FailsTruly(ts, ConditionAt(ts, p))
  {
    hide OrAt, ForSuffix, Tells;
    OrFails(ts, p);
    var r := OrAt(ts, p);
    if r.Got? {
      ForFails(ts, r.next, r.value);
    }
  }

  lemma StringFails(ts: Tokens, p: nat, context: string)
    requires 0 < p <= |ts|
    requires (context == "alert message" && ts[p - 1] == L.Alert) || (context == "log message" && ts[p - 1] == L.Log)
    ensures FailsTruly(ts, StringAt(ts, p, context))
  {
    hide Consumes;
  }

  lemma SeverityFails(ts: Tokens, p: nat)
    requires 0 < p <= |ts| && ts[p - 1] == L.Severity
    ensures FailsTruly(ts, SeverityAt(ts, p))
  {
    hide Consumes;
  }

  lemma ExpectFails(ts: Tokens, p: nat, t: L.Token)
    requires p <= |ts|
    ensures FailsTruly(ts, ExpectAt(ts, p, t))
    ensures ExpectAt(ts, p, t).Got? ==> ExpectAt(ts, p, t).next == p + 1 && Before(ts, p + 1) == Some(t)
  {
    hide Consumes;
  }

  lemma ActionFails(ts: Tokens, p: nat)
    requires p < |ts|
    ensures FailsTruly(ts, ActionAt(ts, p))
  {
    if ts[p] == L.Alert {
      StringFails(ts, p + 1, "alert message");
      var message := StringAt(ts, p + 1, "alert message");
      if message.Got? {
        ExpectFails(ts, message.next, L.Severity);
        if ExpectAt(ts, message.next, L.Severity).Got? {
          SeverityFails(ts, message.next + 1);
        }
      }
    } else if ts[p] == L.Log {
      StringFails(ts, p + 1, "log message");
    }
    hide StringAt, SeverityAt;
  }

  lemma {:induction false} ActionsFail(ts: Tokens, p: nat, actions: seq<Action>)
    requires p <= |ts|
    ensures FailsTruly(ts, ActionsTail(ts, p, actions))
    ensures var r := ActionsTail(ts, p, actions);
            r.Got? ==> !StartsAction(ts, r.next) && (r.value == actions ==> r.next == p) && |r.value| >= |actions|
    decreases |ts| - p
  {
    hide ActionAt, Tells;
    if StartsAction(ts, p) {
      ActionFails(ts, p);
      var r := ActionAt(ts, p);
      if r.Got? {
        ActionsFail(ts, r.next, actions + [r.value]);
      }
    }
  }

  lemma BodyFails(ts: Tokens, p: nat, name: string)
    requires p <= |ts|
    ensures FailsTruly(ts, RuleBodyAt(ts, p, name))
    ensures var r := RuleBodyAt(ts, p, name); r.Got? ==> Before(ts, r.next) == Some(L.RBrace)
  {
    hide ConditionAt, ActionsTail, ExpectAt, Tells, Before, StartsAction;
    ExpectFails(ts, p, L.LBrace);
    if ExpectAt(ts, p, L.LBrace).Got? {
      ExpectFails(ts, p + 1, L.When);
      if ExpectAt(ts, p + 1, L.When).Got? {
        ConditionFails(ts, p + 2);
        var c := ConditionAt(ts, p + 2);
        if c.Got? {
          ExpectFails(ts, c.next, L.Then);
          if ExpectAt(ts, c.next, L.Then).Got? {
            ActionsFail(ts, c.next + 1, []);
            var actions := ActionsTail(ts, c.next + 1, []);
            if actions.Got? && actions.value == [] {
              NothingToDo(ts, c.next + 1);
            } else if actions.Got? {
              ExpectFails(ts, actions.next, L.RBrace);
            }
          }
        }
      }
    }
  }

  lemma NothingToDo(ts: Tokens, p: nat)
    requires Before(ts, p) == Some(L.Then) && !StartsAction(ts, p)
    ensures Tells(ts, p, NoActions)
  {
  }

  lemma RuleFails(ts: Tokens, p: nat)
    requires p <= |ts|
    ensures FailsTruly(ts, RuleAt(ts, p))
    ensures var r := RuleAt(ts, p); r.Got? ==> Peek(ts, p) == Some(L.Rule) && Before(ts, r.next) == Some(L.RBrace)
  {
    hide RuleBodyAt;
    if Peek(ts, p) == Some(L.Rule) {
      NameFails(ts, p + 1);
      if NameAt(ts, p + 1).Got? {
        BodyFails(ts, NameAt(ts, p + 1).next, NameAt(ts, p + 1).value);
      }
    }
  }

  lemma NameFails(ts: Tokens, p: nat)
    requires 0 < p <= |ts| && ts[p - 1] == L.Rule
    ensures FailsTruly(ts, NameAt(ts, p))
  {
    hide Consumes;
  }

  /** Operators, severities, literals and actions are the ones their tokens are named after. */
  lemma TokensAreRead(ts: Tokens, p: nat)
    requires p < |ts|
    ensures match ts[p]
            case Gt => CmpOpAt(ts, p) == Got(CmpOp.Gt, p + 1)
            case Lt => CmpOpAt(ts, p) == Got(CmpOp.Lt, p + 1)
            case Gte => CmpOpAt(ts, p) == Got(CmpOp.Gte, p + 1)
            case Lte => CmpOpAt(ts, p) == Got(CmpOp.Lte, p + 1)
            case Eq => CmpOpAt(ts, p) == Got(CmpOp.Eq, p + 1)
            case Neq => CmpOpAt(ts, p) == Got(CmpOp.Neq, p + 1)
            case Info => SeverityAt(ts, p) == Got(Severity.Info, p + 1)
            case Warning => SeverityAt(ts, p) == Got(Severity.Warning, p + 1)
            case Critical => SeverityAt(ts, p) == Got(Severity.Critical, p + 1)
            case Integer(n) => ExprAt(ts, p) == Got(Lit(IntLit(n)), p + 1)
            case Float(f) => ExprAt(ts, p) == Got(Lit(FloatLit(f)), p + 1)
            case Percent(f) => ExprAt(ts, p) == Got(Lit(PercentLit(f)), p + 1)
            case Duration(secs) => ExprAt(ts, p) == Got(Lit(DurationLit(secs)), p + 1)
            case StringLit(s) => ExprAt(ts, p) == Got(Lit(StrLit(s)), p + 1)
            case Kill => ActionAt(ts, p) == Got(Action.Kill, p + 1)
            case Log => p + 1 < |ts| && ts[p + 1].StringLit? ==> ActionAt(ts, p) == Got(Action.Log(ts[p + 1].s), p + 2)
            case _ => true
  {
    hide Consumes;
  }

  // ---------------------------------------------------------------- the whole file

  /** The span of a position: that of its token, or the empty one after the last token. */
  predicate SpanIs(spans: seq<Span>, p: nat, span: Span) {
    if p < |spans| then span == spans[p]
    else if spans == [] then span == Span(0, 0)
    else span.start == span.end == spans[|spans| - 1].end
  }

  /** The errors stand, in order, at the places `at`, and are true there. */
  ghost predicate ErrorsStand(ts: Tokens, spans: seq<Span>, p: nat, errors: seq<ParseError>, at: seq<nat>) {
    && |at| == |errors|
    && (forall k | 0 <= k < |at| ::
          p <= at[k] <= |ts| && Tells(ts, at[k], errors[k].message) && SpanIs(spans, at[k], errors[k].span))
    && (forall k, l | 0 <= k < l < |at| :: at[k] < at[l])
  }

  /** The rules' spans run, one after the other, from a `rule` keyword to a closing brace. */
  ghost predicate RulesStand(ts: Tokens, spans: seq<Span>, p: nat, rules: seq<Rule>, from: seq<nat>, to: seq<nat>)
    requires |ts| == |spans|
  {
    && |from| == |to| == |rules|
    && (forall k | 0 <= k < |from| ::
          && p <= from[k] < to[k] < |ts| && ts[from[k]] == L.Rule && ts[to[k]] == L.RBrace
          && rules[k].span == Span(spans[from[k]].start, spans[to[k]].end))
    && (forall k, l | 0 <= k < l < |from| :: to[k] < from[l])
  }

  lemma FileNext(ts: Tokens, spans: seq<Span>, p: nat)
    requires p < |ts| == |spans|
    ensures var r, rest := RuleAt(ts, p), FileFrom(ts, spans, NextAttempt(ts, p));
            FileFrom(ts, spans, p)
            == if r.Got? then ([r.value.(span := Span(spans[p].start, spans[r.next - 1].end))] + rest.0, rest.1)
               else (rest.0, [ParseError(r.message, SpanAt(spans, r.at))] + rest.1)
  {
    hide RuleAt, NextAttempt;
  }

  lemma NextStands(ts: Tokens, p: nat)
    requires p < |ts|
    ensures var r, next := RuleAt(ts, p), NextAttempt(ts, p);
            if r.Got? then next == r.next else p <= r.at <= next && (next < |ts| ==> ts[next] == L.Rule)
  {
    hide RuleAt;
  }

  lemma ErrorsFrom(ts: Tokens, spans: seq<Span>, p: nat, q: nat, errors: seq<ParseError>, at: seq<nat>)
    requires p <= q && ErrorsStand(ts, spans, q, errors, at)
    ensures ErrorsStand(ts, spans, p, errors, at)
  {
    hide Tells, SpanIs;
  }

  lemma ErrorsCons(ts: Tokens, spans: seq<Span>, p: nat, errors: seq<ParseError>, at: seq<nat>, e: ParseError, place: nat)
    requires ErrorsStand(ts, spans, p, errors, at) && (at == [] || place < at[0])
    requires p <= place <= |ts| && Tells(ts, place, e.message) && SpanIs(spans, place, e.span)
    ensures ErrorsStand(ts, spans, p, [e] + errors, [place] + at)
  {
    hide Tells, SpanIs;
  }

  lemma NothingStands(ts: Tokens, spans: seq<Span>)
    requires |ts| == |spans|
    ensures ErrorsStand(ts, spans, |ts|, FileFrom(ts, spans, |ts|).1, [])
    ensures RulesStand(ts, spans, |ts|, FileFrom(ts, spans, |ts|).0, [], [])
  {
  }

  lemma SpanAtIs(spans: seq<Span>, p: nat)
    ensures SpanIs(spans, p, SpanAt(spans, p))
  {
  }

  /** Every error of a file stands where its message is true, with the span of the token there or the end of the input,
      and no two at one place. */
  lemma {:induction false} ErrorsTellTheTruth(ts: Tokens, spans: seq<Span>, p: nat) returns (at: seq<nat>)
    requires p <= |ts| == |spans|
    ensures ErrorsStand(ts, spans, p, FileFrom(ts, spans, p).1, at)
    ensures at != [] ==> p < |ts| && p <= at[0] && (at[0] == p ==> ts[p] != L.Rule)
    decreases |ts| - p
  {
    hide RuleAt, Tells, FileFrom, NextAttempt, SpanIs, SpanAt, ErrorsStand, RulesStand;
    if p == |ts| {
      at := [];
      NothingStands(ts, spans);
    } else {
      RuleFails(ts, p);
      RuleGoesOn(ts, p);
      NextStands(ts, p);
      FileNext(ts, spans, p);
      var next, r := NextAttempt(ts, p), RuleAt(ts, p);
      at := ErrorsTellTheTruth(ts, spans, next);
      var errors := FileFrom(ts, spans, next).1;
      ErrorsFrom(ts, spans, p, next, errors, at);
      if r.Failed? {
        SpanAtIs(spans, r.at);
        ErrorsCons(ts, spans, p, errors, at, ParseError(r.message, SpanAt(spans, r.at)), r.at);
        at := [r.at] + at;
      }
    }
  }

  lemma RuleGoesOn(ts: Tokens, p: nat)
    requires p < |ts|
    ensures p <= RuleAt(ts, p).End() <= |ts| && (ts[p] == L.Rule <==> p < RuleAt(ts, p).End())
  {
    hide RuleAt;
  }

  lemma RulesFrom(ts: Tokens, spans: seq<Span>, p: nat, q: nat, rules: seq<Rule>, from: seq<nat>, to: seq<nat>)
    requires |ts| == |spans| && p <= q && RulesStand(ts, spans, q, rules, from, to)
    ensures RulesStand(ts, spans, p, rules, from, to)
  {
  }

  lemma RulesCons(ts: Tokens, spans: seq<Span>, p: nat, q: nat, rules: seq<Rule>, from: seq<nat>, to: seq<nat>, r: Rule)
    requires p + 1 < q <= |ts| == |spans| && RulesStand(ts, spans, q, rules, from, to)
    requires ts[p] == L.Rule && ts[q - 1] == L.RBrace && r.span == Span(spans[p].start, spans[q - 1].end)
    ensures RulesStand(ts, spans, p, [r] + rules, [p] + from, [q - 1] + to)
  {
  }

  /** Every parsed rule has the span from its keyword to its closing brace, and the rules follow one another. */
  lemma {:induction false} SpansCoverRules(ts: Tokens, spans: seq<Span>, p: nat) returns (from: seq<nat>, to: seq<nat>)
    requires p <= |ts| == |spans|
    ensures RulesStand(ts, spans, p, FileFrom(ts, spans, p).0, from, to)
    decreases |ts| - p
  {
    hide RuleAt, Tells, FileFrom, NextAttempt, SpanAt, ErrorsStand, RulesStand;
    if p == |ts| {
      from, to := [], [];
      NothingStands(ts, spans);
    } else {
      RuleFails(ts, p);
      NextStands(ts, p);
      FileNext(ts, spans, p);
      var next, r := NextAttempt(ts, p), RuleAt(ts, p);
      from, to := SpansCoverRules(ts, spans, next);
      var rules := FileFrom(ts, spans, next).0;
      if r.Got? {
        RulesCons(ts, spans, p, next, rules, from, to, r.value.(span := Span(spans[p].start, spans[r.next - 1].end)));
        from, to := [p] + from, [r.next - 1] + to;
      } else {
        RulesFrom(ts, spans, p, next, rules, from, to);
      }
    }
  }
}
