/** What the sample grammar's parser computes: the value an `Identifier` or a
    `Keyword` yields, and whole parses of small inputs, derived from the
    reference semantics (without memoization, the default). */
module SampleRuns {
  import opened Values
  import opened Utf8
  import opened Grammar
  import opened Memo
  import opened Errors
  import opened Semantics
  import opened TokenGrammar
  import Cursor
  import Matchers
  import Laws

  /** Without memoization a running evaluation with fuel evaluates by kind. */
  lemma Fresh(env: Env, e: Expr, s: St, fuel: nat)
    requires Inv(env, s) && |s.vstack| > 0 && s.halt == Running && !env.memoize && fuel > 0
    ensures Eval(env, e, s, fuel) == EvalKind(env, e, s, fuel - 1)
  {
  }

  // The tokens the rules yield.

  /** An `Identifier` that matched in a running parse yields a plain token
      whose text is exactly the bytes it matched. */
  lemma IdentifierToken(env: Env, s: St, fuel: nat)
    requires env.actions == Actions && !env.memoize && Inv(env, s)
    ensures var r := EvalRule(env, IdentifierRule, s, fuel);
      r.ok && r.st.halt == Running ==>
        r.v == Tok(Token(false, Cursor.Span(env.data, s.pt.offset, r.st.pt.offset)))
  {
    var e := IdentifierRule.expr;
    var inner := Pushed(s.(rstack := s.rstack + [IdentifierRule]));
    if inner.halt == Running && fuel > 0 {
      Fresh(env, e, inner, fuel);
      var c := Eval(env, e.expr, inner, fuel - 1);
      if c.ok && c.st.halt == Running {
        Cursor.CursorOkCanAdvance(env.data, c.st.pt);
        var cur := Current(inner.pt.Pos(), Cursor.Span(env.data, inner.pt.offset, c.st.pt.offset));
        assert env.actions(e.run, cur, c.st.vstack[|c.st.vstack| - 1]) == Returned(Tok(Token(false, cur.text)), None);
      }
    }
  }

  /** The four keyword alternatives' callbacks. */
  predicate KeywordRun(run: nat)
  {
    run == RunKeyword2 || run == RunKeyword10 || run == RunKeyword18 || run == RunKeyword28
  }

  /** A keyword alternative that matched in a running parse yields a keyword
      token: its callback either builds one or faults, stopping the parse. */
  lemma BracedToken(env: Env, x: Expr, s: St, fuel: nat)
    requires env.actions == Actions && !env.memoize && Inv(env, s) && |s.vstack| > 0
    requires x.ActionExpr? && KeywordRun(x.run)
    ensures var r := Eval(env, x, s, fuel);
      r.ok && r.st.halt == Running ==> r.v.Tok? && r.v.token.kw
  {
    if s.halt == Running && fuel > 0 {
      Fresh(env, x, s, fuel);
      var c := Eval(env, x.expr, s, fuel - 1);
      if c.ok && c.st.halt == Running {
        Cursor.CursorOkCanAdvance(env.data, c.st.pt);
        var cur := Current(s.pt.Pos(), Cursor.Span(env.data, s.pt.offset, c.st.pt.offset));
        var a := env.actions(x.run, cur, c.st.vstack[|c.st.vstack| - 1]);
        assert a.Returned? ==> a.value.Tok? && a.value.token.kw;
      }
    }
  }

  /** The keyword alternatives from `i` on. */
  lemma {:induction false} KeywordAlts(env: Env, alts: seq<Expr>, i: nat, s: St, fuel: nat)
    requires env.actions == Actions && !env.memoize && Inv(env, s) && |s.vstack| > 0 && i <= |alts|
    requires forall k | 0 <= k < |alts| :: alts[k].ActionExpr? && KeywordRun(alts[k].run)
    ensures var r := EvalAlts(env, alts, i, s, fuel);
      r.ok && r.st.halt == Running ==> r.v.Tok? && r.v.token.kw
    decreases |alts| - i
  {
    if i < |alts| {
      var c := Scoped(env, alts[i], s, fuel);
      BracedToken(env, alts[i], Pushed(s), fuel);
      if !c.ok {
        KeywordAlts(env, alts, i + 1, c.st, fuel);
      }
    }
  }

  /** A `Keyword` that matched in a running parse yields a keyword token
      (whose text is the one of the identifier bound to `v`, see
      `TokenGrammar.KeywordActions`). */
  lemma KeywordToken(env: Env, s: St, fuel: nat)
    requires env.actions == Actions && !env.memoize && Inv(env, s)
    ensures var r := EvalRule(env, KeywordRule, s, fuel);
      r.ok && r.st.halt == Running ==> r.v.Tok? && r.v.token.kw
  {
    var inner := Pushed(s.(rstack := s.rstack + [KeywordRule]));
    if inner.halt == Running && fuel > 0 {
      Fresh(env, KeywordRule.expr, inner, fuel);
      KeywordAlts(env, KeywordRule.expr.alternatives, 0, inner, fuel - 1);
    }
  }

  // Failing at the end of the input.

  /** `e` fails at the end of the input, with `fuel`, whichever rules of
      `rules` it refers to: every path reaches an atomic matcher first. */
  ghost predicate Blocked(e: Expr, rules: map<string, Rule>, fuel: nat)
    decreases fuel
  {
    && fuel > 0
    && (if e.AnyMatcher? || e.CharClassMatcher? then true
        else if e.LitMatcher? then |e.val| > 0
        else if e.ActionExpr? || e.LabeledExpr? || e.OneOrMoreExpr? then Blocked(e.expr, rules, fuel - 1)
        else if e.SeqExpr? then |e.exprs| > 0 && Blocked(e.exprs[0], rules, fuel - 1)
        else if e.ChoiceExpr? then forall k | 0 <= k < |e.alternatives| :: Blocked(e.alternatives[k], rules, fuel - 1)
        else if e.RuleRefExpr? then e.name != "" && e.name in rules && Blocked(rules[e.name].expr, rules, fuel - 1)
        else false)
  }

  /** `t` is `s` with at most the fail record changed. */
  ghost predicate Quiet(s: St, t: St)
  {
    t == s.(failPos := t.failPos, failExp := t.failExp, attempts := t.attempts)
  }

  /** At the end of the input a blocked expression fails, changing nothing
      but the fail record. */
  lemma {:induction false} BlockedFails(env: Env, e: Expr, s: St, fuel: nat)
    requires Inv(env, s) && |s.vstack| > 0 && s.halt == Running && !env.memoize
    requires Cursor.AtEnd(env.data, s.pt) && Blocked(e, s.rules, fuel)
    ensures var r := Eval(env, e, s, fuel); !r.ok && Quiet(s, r.st)
    decreases fuel, 1
  {
    var f := fuel - 1;
    Fresh(env, e, s, fuel);
    match e
    case AnyMatcher(_, _) => BlockedAtomic(env, e, s, f);
    case CharClassMatcher(_, _, _, _, _, _, _, _) => BlockedAtomic(env, e, s, f);
    case LitMatcher(_, _, _, _) => BlockedAtomic(env, e, s, f);
    case ActionExpr(_, _, x, _) =>
      BlockedFails(env, x, s, f);
      BlockedAction(env, e, s, f);
    case LabeledExpr(_, _, _, x) =>
      BlockedFails(env, x, Pushed(s), f);
      BlockedLabeled(env, e, s, f);
    case OneOrMoreExpr(_, _, x) =>
      BlockedFails(env, x, Pushed(s), f);
      BlockedPlus(env, e, s, f);
    case SeqExpr(_, _, xs) =>
      BlockedFails(env, xs[0], s, f);
      BlockedSeq(env, e, s, f);
    case ChoiceExpr(_, _, alts) =>
      BlockedAlts(env, alts, 0, s, f);
      BlockedChoice(env, e, s, f);
    case RuleRefExpr(_, _, name) =>
      BlockedFails(env, s.rules[name].expr, Pushed(s.(rstack := s.rstack + [s.rules[name]])), f);
      BlockedRef(env, e, s, f);
  }

  // One step of `BlockedFails` per kind of expression, given its child's failure.

  lemma BlockedAtomic(env: Env, e: Expr, s: St, f: nat)
    requires e.AnyMatcher? || e.CharClassMatcher? || (e.LitMatcher? && |e.val| > 0)
    requires Inv(env, s) && |s.vstack| > 0 && s.halt == Running && Cursor.AtEnd(env.data, s.pt)
    ensures var r := EvalKind(env, e, s, f); !r.ok && Quiet(s, r.st)
  {
    Cursor.CursorOkCanAdvance(env.data, s.pt);
  }

  lemma BlockedAction(env: Env, e: Expr, s: St, f: nat)
    requires e.ActionExpr? && Inv(env, s) && |s.vstack| > 0 && s.halt == Running
    requires var c := Eval(env, e.expr, s, f); !c.ok && Quiet(s, c.st)
    ensures var r := EvalKind(env, e, s, f); !r.ok && Quiet(s, r.st)
  {
    assert EvalKind(env, e, s, f) == EvalAction(env, e, s, f) == Eval(env, e.expr, s, f);
  }

  lemma BlockedLabeled(env: Env, e: Expr, s: St, f: nat)
    requires e.LabeledExpr? && Inv(env, s) && |s.vstack| > 0 && s.halt == Running
    requires var c := Eval(env, e.expr, Pushed(s), f); !c.ok && Quiet(Pushed(s), c.st)
    ensures var r := EvalKind(env, e, s, f); !r.ok && Quiet(s, r.st)
  {
    var c := Scoped(env, e.expr, s, f);
    assert !c.ok && Quiet(s, c.st);
    assert EvalKind(env, e, s, f) == EvalLabeled(env, e, s, f) == c;
  }

  lemma BlockedPlus(env: Env, e: Expr, s: St, f: nat)
    requires e.OneOrMoreExpr? && f > 0 && Inv(env, s) && |s.vstack| > 0 && s.halt == Running
    requires var c := Eval(env, e.expr, Pushed(s), f); !c.ok && Quiet(Pushed(s), c.st)
    ensures var r := EvalKind(env, e, s, f); !r.ok && Quiet(s, r.st)
  {
    var c := Scoped(env, e.expr, s, f);
    assert !c.ok && Quiet(s, c.st);
    Laws.StarUnfold(env, e.expr, s, f, f);
    assert EvalKind(env, e, s, f) == EvalOneOrMore(env, e, s, f) == Res(Nil, false, c.st);
  }

  lemma BlockedSeq(env: Env, e: Expr, s: St, f: nat)
    requires e.SeqExpr? && |e.exprs| > 0 && Inv(env, s) && |s.vstack| > 0 && s.halt == Running
    requires var c := Eval(env, e.exprs[0], s, f); !c.ok && Quiet(s, c.st)
    ensures var r := EvalKind(env, e, s, f); !r.ok && Quiet(s, r.st)
  {
    var c := Eval(env, e.exprs[0], s, f);
    assert EvalItems(env, e.exprs, 0, s, f, []) == Items([], false, c.st);
    assert RestoredTo(c.st, s.pt) == c.st;
    assert EvalKind(env, e, s, f) == EvalSeq(env, e, s, f) == Res(Nil, false, c.st);
  }

  lemma BlockedChoice(env: Env, e: Expr, s: St, f: nat)
    requires e.ChoiceExpr? && Inv(env, s) && |s.vstack| > 0 && s.halt == Running
    requires var c := EvalAlts(env, e.alternatives, 0, s, f); !c.ok && Quiet(s, c.st)
    ensures var r := EvalKind(env, e, s, f); !r.ok && Quiet(s, r.st)
  {
    assert EvalKind(env, e, s, f) == EvalChoice(env, e, s, f) == EvalAlts(env, e.alternatives, 0, s, f);
  }

  lemma BlockedRef(env: Env, e: Expr, s: St, f: nat)
    requires e.RuleRefExpr? && e.name != "" && e.name in s.rules
    requires Inv(env, s) && |s.vstack| > 0 && s.halt == Running && !env.memoize
    requires var inner := Pushed(s.(rstack := s.rstack + [s.rules[e.name]]));
      var c := Eval(env, s.rules[e.name].expr, inner, f); !c.ok && Quiet(inner, c.st)
    ensures var r := EvalKind(env, e, s, f); !r.ok && Quiet(s, r.st)
  {
    var rule := s.rules[e.name];
    var inner := Pushed(s.(rstack := s.rstack + [rule]));
    assert inner.vstack[..|s.vstack|] == s.vstack && inner.rstack[..|s.rstack|] == s.rstack;
    assert EvalRule(env, rule, s, f) == EvalRuleBody(env, rule, s, f);
    assert EvalKind(env, e, s, f) == EvalRuleRef(env, e, s, f) == EvalRule(env, rule, s, f);
  }

  /** At the end of the input a choice of blocked alternatives fails. */
  lemma {:induction false} BlockedAlts(env: Env, alts: seq<Expr>, i: nat, s: St, fuel: nat)
    requires Inv(env, s) && |s.vstack| > 0 && s.halt == Running && !env.memoize && i <= |alts|
    requires Cursor.AtEnd(env.data, s.pt)
    requires forall k | 0 <= k < |alts| :: Blocked(alts[k], s.rules, fuel)
    ensures var r := EvalAlts(env, alts, i, s, fuel); !r.ok && Quiet(s, r.st)
    decreases fuel + 1, 0, |alts| - i
  {
    if i < |alts| {
      BlockedFails(env, alts[i], Pushed(s), fuel);
      var c := Scoped(env, alts[i], s, fuel);
      BlockedAlts(env, alts, i + 1, c.st, fuel);
    }
  }

  /** At the end of the input a repetition of a blocked expression succeeds
      with no values, changing nothing but the fail record. */
  lemma ZeroOrMoreAtEnd(env: Env, e: Expr, s: St, fuel: nat)
    requires Inv(env, s) && |s.vstack| > 0 && s.halt == Running && !env.memoize
    requires Cursor.AtEnd(env.data, s.pt) && e.ZeroOrMoreExpr? && Blocked(e.expr, s.rules, fuel)
    ensures var r := EvalZeroOrMore(env, e, s, fuel); r.v == List([]) && r.ok && Quiet(s, r.st)
  {
    BlockedFails(env, e.expr, Pushed(s), fuel);
    Laws.StarUnfold(env, e.expr, s, fuel, fuel);
  }

  /** More fuel never unblocks an expression. */
  lemma {:induction false} BlockedMono(e: Expr, rules: map<string, Rule>, n: nat, m: nat)
    requires n <= m && Blocked(e, rules, n)
    ensures Blocked(e, rules, m)
    decreases n
  {
    if e.ActionExpr? || e.LabeledExpr? || e.OneOrMoreExpr? {
      BlockedMono(e.expr, rules, n - 1, m - 1);
    } else if e.SeqExpr? {
      BlockedMono(e.exprs[0], rules, n - 1, m - 1);
    } else if e.ChoiceExpr? {
      forall k | 0 <= k < |e.alternatives| ensures Blocked(e.alternatives[k], rules, m - 1) {
        BlockedMono(e.alternatives[k], rules, n - 1, m - 1);
      }
    } else if e.RuleRefExpr? {
      BlockedMono(rules[e.name].expr, rules, n - 1, m - 1);
    }
  }

  /** The table `parse` builds for the sample grammar. */
  lemma SampleTable()
    ensures RulesTable(G.rules, |G.rules|) == SampleRules
  {
    assert RulesTable(G.rules, 6) == RulesTable(G.rules, 5)["_" := WhitespaceRule];
    assert RulesTable(G.rules, 5) == RulesTable(G.rules, 4)["Space" := SpaceRule];
    assert RulesTable(G.rules, 4) == RulesTable(G.rules, 3)["Spacing" := SpacingRule];
    assert RulesTable(G.rules, 3) == RulesTable(G.rules, 2)["Identifier" := IdentifierRule];
    assert RulesTable(G.rules, 2) == RulesTable(G.rules, 1)["Keyword" := KeywordRule];
    assert RulesTable(G.rules, 1) == map["Sample" := SampleRule];
  }

  /** A keyword alternative begins with "{". */
  lemma BracedBlocked(rules: map<string, Rule>, id: nat, pos: Position, run: nat, inner: seq<Expr>, closer: Position)
    ensures Blocked(Braced(id, pos, run, inner, closer), rules, 3)
  {
    var x := Braced(id, pos, run, inner, closer).expr;
    assert Blocked(x.exprs[0], rules, 1);
    assert Blocked(x, rules, 2);
  }

  /** The rule table of the sample grammar. */
  const SampleRules: map<string, Rule> := map["Sample" := SampleRule, "Keyword" := KeywordRule,
    "Identifier" := IdentifierRule, "Spacing" := SpacingRule, "Space" := SpaceRule, "_" := WhitespaceRule]

  /** `Identifier` opens with a class. */
  lemma IdentifierBlocked()
    ensures Blocked(RuleRefExpr(5, Position(33, 7, 715), "Identifier"), SampleRules, 5)
  {
    assert Blocked(IdentifierClass, SampleRules, 1);
    assert Blocked(IdentifierRule.expr.expr, SampleRules, 2);
    assert Blocked(IdentifierRule.expr, SampleRules, 3);
    assert Blocked(RuleRefExpr(5, Position(33, 7, 715), "Identifier"), SampleRules, 4);
    BlockedMono(RuleRefExpr(5, Position(33, 7, 715), "Identifier"), SampleRules, 4, 5);
  }

  /** Each alternative of `Keyword` opens with a literal. */
  lemma KeywordBlocked()
    ensures Blocked(RuleRefExpr(6, Position(33, 20, 728), "Keyword"), SampleRules, 5)
  {
    BracedBlocked(SampleRules, 40, Position(49, 3, 1078), RunKeyword2, Keyword2Items, Position(49, 29, 1104));
    BracedBlocked(SampleRules, 50, Position(52, 3, 1166), RunKeyword10, Keyword10Items, Position(52, 29, 1192));
    BracedBlocked(SampleRules, 60, Position(55, 3, 1254), RunKeyword18, Keyword18Items, Position(55, 38, 1289));
    BracedBlocked(SampleRules, 70, Position(58, 3, 1351), RunKeyword28, Keyword28Items, Position(58, 20, 1368));
    var alts := KeywordRule.expr.alternatives;
    assert alts == [Keyword2, Keyword10, Keyword18, Keyword28];
    assert forall k | 0 <= k < |alts| :: Blocked(alts[k], SampleRules, 3);
    assert Blocked(KeywordRule.expr, SampleRules, 4);
  }

  /** `Spacing` repeats `Space` (a literal) or `_` (a class). */
  lemma SpacingBlocked()
    ensures Blocked(SpacingRef(7, Position(33, 30, 738)), SampleRules, 5)
  {
    assert Blocked(SpaceRule.expr, SampleRules, 1) && Blocked(WhitespaceRule.expr, SampleRules, 1);
    var alts := SpacingRule.expr.alternatives;
    assert Blocked(alts[0].expr, SampleRules, 2) && Blocked(alts[1].expr, SampleRules, 2);
    assert Blocked(alts[0], SampleRules, 3) && Blocked(alts[1], SampleRules, 3);
    assert Blocked(SpacingRule.expr, SampleRules, 4);
  }

  /** Every alternative of `Sample`'s repetition fails at the end of the input. */
  lemma SampleChoiceBlocked()
    ensures Blocked(SampleRule.expr.expr.expr.expr, SampleRules, 6)
  {
    IdentifierBlocked();
    KeywordBlocked();
    SpacingBlocked();
    var alts := SampleRule.expr.expr.expr.expr.alternatives;
    assert forall k | 0 <= k < |alts| :: Blocked(alts[k], SampleRules, 5);
  }

  /** The state `parse` starts the empty input in: the rule table built and
      the cursor at line 1, column 1, on the end-of-input rune. */
  lemma EmptyBegin(env: Env)
    requires env.data == []
    ensures Begin(env, G) == NewState.(rules := SampleRules, pt := Savepoint(1, 1, 0, RuneError, 0))
  {
    SampleTable();
    assert Utf8.DecodeRune([], 0) == (RuneError, 0);
  }

  /** The same in a frame of its own, as a label evaluates it. */
  lemma ScopedZeroOrMoreAtEnd(env: Env, e: Expr, s: St, fuel: nat)
    requires Inv(env, s) && |s.vstack| > 0 && s.halt == Running && !env.memoize && fuel > 0
    requires Cursor.AtEnd(env.data, s.pt) && e.ZeroOrMoreExpr? && Blocked(e.expr, s.rules, fuel - 1)
    ensures var sc := Scoped(env, e, s, fuel); sc.ok && sc.v == List([]) && Quiet(s, sc.st)
  {
    Fresh(env, e, Pushed(s), fuel);
    ZeroOrMoreAtEnd(env, e, Pushed(s), fuel - 1);
    var z := Eval(env, e, Pushed(s), fuel);
    assert z == EvalZeroOrMore(env, e, Pushed(s), fuel - 1);
    assert Popped(z.st).vstack == s.vstack;
  }

  /** ... and with any more fuel. */
  lemma SampleChoiceBlockedFrom(n: nat)
    requires n >= 6
    ensures Blocked(SampleRule.expr.expr.expr.expr, SampleRules, n)
  {
    SampleChoiceBlocked();
    BlockedMono(SampleRule.expr.expr.expr.expr, SampleRules, 6, n);
  }

  /** `( Identifier / Keyword / Spacing )*` in its own frame at the end of
      the input yields the empty list, changing nothing but the fail record. */
  lemma EmptyRepetition(env: Env, s: St, fuel: nat)
    requires Inv(env, s) && |s.vstack| > 0 && s.halt == Running && !env.memoize
    requires Cursor.AtEnd(env.data, s.pt) && s.rules == SampleRules && fuel >= 7
    ensures var sc := Scoped(env, SampleRule.expr.expr.expr, s, fuel);
      sc.ok && sc.v == List([]) && Quiet(s, sc.st)
  {
    SampleChoiceBlockedFrom(fuel - 1);
    ScopedZeroOrMoreAtEnd(env, SampleRule.expr.expr.expr, s, fuel);
  }

  /** `vs:( Identifier / Keyword / Spacing )*` at the end of the input
      binds `vs` to the empty list, changing nothing else but the fail record. */
  lemma EmptyLabel(env: Env, s: St, fuel: nat)
    requires Inv(env, s) && |s.vstack| > 0 && s.halt == Running && !env.memoize
    requires Cursor.AtEnd(env.data, s.pt) && s.rules == SampleRules && fuel >= 8
    ensures var l := Eval(env, SampleRule.expr.expr, s, fuel);
      var top := s.vstack[|s.vstack| - 1];
      && l.ok && l.v == List([])
      && l.st.vstack == s.vstack[|s.vstack| - 1 := top["vs" := List([])]]
      && Quiet(s.(vstack := l.st.vstack), l.st)
  {
    var lab := SampleRule.expr.expr;
    Fresh(env, lab, s, fuel);
    EmptyRepetition(env, s, fuel - 1);
    assert Eval(env, lab, s, fuel) == EvalLabeled(env, lab, s, fuel - 1);
  }

  /** `Sample`'s action at the end of the input: the callback sees an empty
      list and reports "empty sample" at the start of the match. */
  lemma EmptyAction(env: Env, s: St, fuel: nat)
    requires Inv(env, s) && |s.vstack| > 0 && s.halt == Running && !env.memoize && env.actions == Actions
    requires Cursor.AtEnd(env.data, s.pt) && s.rules == SampleRules && fuel >= 9
    ensures var a := Eval(env, SampleRule.expr, s, fuel);
      && a.ok && a.v == Nil && a.st.halt == Running && a.st.rstack == s.rstack
      && a.st.errs == s.errs + [ErrorAt(env, s.rstack, "empty sample", s.pt.Pos(), [])]
  {
    var act := SampleRule.expr;
    Fresh(env, act, s, fuel);
    EmptyLabel(env, s, fuel - 1);
    var l := Eval(env, act.expr, s, fuel - 1);
    var frame := s.vstack[|s.vstack| - 1]["vs" := List([])];
    assert l.st.vstack[|l.st.vstack| - 1] == frame;
    Cursor.CursorOkCanAdvance(env.data, l.st.pt);
    var cur := Current(s.pt.Pos(), Cursor.Span(env.data, s.pt.offset, l.st.pt.offset));
    assert Actions(RunSample1, cur, frame) == Returned(Nil, Some("empty sample"));
    assert Eval(env, act, s, fuel) == EvalAction(env, act, s, fuel - 1);
  }

  /** The empty input is the "empty sample" error, reported at line 1,
      column 1 inside `Sample`, with the nil value. */
  lemma EmptySample(filename: string, recover: bool, fuel: nat, r: Outcome)
    requires fuel >= 9 && ParseOutcome(SampleEnv(filename, [], false, recover), G, fuel, r)
    ensures r == Outcome(Nil, [ParserError("empty sample", Position(1, 1, 0), filename, Some("\"sample\""), [])])
  {
    var env := SampleEnv(filename, [], false, recover);
    var b := Begin(env, G);
    EmptyBegin(env);
    var inner := Pushed(b.(rstack := [SampleRule]));
    EmptyAction(env, inner, fuel);
    var err := ParserError("empty sample", Position(1, 1, 0), filename, Some("\"sample\""), []);
    assert ErrorAt(env, [SampleRule], "empty sample", inner.pt.Pos(), []) == err;
    var res := Run(env, G, fuel);
    assert res == EvalRuleBody(env, SampleRule, b, fuel);
    assert res.ok && res.v == Nil && res.st.errs == [err] && res.st.halt == Running;
    DedupeSingleton(err);
  }
}
