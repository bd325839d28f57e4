/** Whole parses of the sample grammar over non-empty inputs, derived from
    the reference semantics without memoization. The building blocks are
    rule-level facts over ASCII input: where an `Identifier`, a `Keyword` or
    a `Spacing` matches, what it yields and where it leaves the cursor. */
module SampleScenarios {
  import opened Values
  import opened Utf8
  import opened Matchers
  import opened Grammar
  import opened Errors
  import opened Semantics
  import opened TokenGrammar
  import Cursor
  import Laws
  import SampleRuns

  /** Every byte of the input is ASCII, so every byte is one rune. */
  ghost predicate Ascii(data: seq<byte>)
  {
    forall i | 0 <= i < |data| :: data[i] < 0x80
  }

  /** The setting of the facts below: a running parse of the sample grammar
      over ASCII input, without memoization, with a scope frame open. */
  ghost predicate Ready(env: Env, s: St)
  {
    && Inv(env, s) && |s.vstack| > 0 && s.halt == Running && !env.memoize
    && env.actions == Actions && s.rules == SampleRuns.SampleRules && Ascii(env.data)
  }

  /** `t` is `s` with at most the cursor, the current match, the scope
      stack and the fail record changed: no error, no fault. */
  ghost predicate Calm(s: St, t: St)
  {
    && t.errs == s.errs && t.memo == s.memo && t.rules == s.rules && t.rstack == s.rstack
    && t.invert == s.invert && t.halt == s.halt
  }

  /** `data[o..k]` may be an identifier's text, and it cannot go on past `k`. */
  ghost predicate IdentTo(data: seq<byte>, o: nat, k: nat)
  {
    && o <= k <= |data|
    && (forall i | o <= i < k :: !StopByte(data[i]))
    && (k < |data| ==> StopByte(data[k]))
  }

  /** The bytes an identifier stops at: braces, space, tab, carriage return
      and newline. */
  predicate StopByte(b: byte)
  {
    b == 123 || b == 125 || b == 32 || b == 9 || b == 13 || b == 10
  }

  /** They are the runes the identifier class excludes. */
  lemma StopBytes(b: byte)
    ensures StopByte(b) <==> b as int in IdentifierStops
  {
  }

  /** `data[o..k]` are spaces, and the byte at `k`, if any, is not. */
  ghost predicate SpacesTo(data: seq<byte>, o: nat, k: nat)
  {
    && o <= k <= |data|
    && (forall i | o <= i < k :: data[i] == 32)
    && (k < |data| ==> data[k] != 32)
  }

  /** At `o` the input ends or holds neither a space nor a tab, carriage return or newline. */
  ghost predicate NotSpace(data: seq<byte>, o: nat)
  {
    o <= |data| && (o < |data| ==> data[o] != 32 && data[o] != 9 && data[o] != 13 && data[o] != 10)
  }

  // Steps: one evaluation in a running parse without memoization, by kind.

  lemma StepAction(env: Env, e: Expr, s: St, fuel: nat)
    requires e.ActionExpr? && Inv(env, s) && |s.vstack| > 0 && s.halt == Running && !env.memoize && fuel > 0
    ensures Eval(env, e, s, fuel) == EvalAction(env, e, s, fuel - 1)
  {
    SampleRuns.Fresh(env, e, s, fuel);
  }

  /** An action whose child matches in a running parse hands the child's
      state to the callback. */
  lemma ActionRuns(env: Env, e: Expr, s: St, fuel: nat)
    requires e.ActionExpr? && Inv(env, s) && |s.vstack| > 0 && s.halt == Running && !env.memoize && fuel > 0
    requires var c := Eval(env, e.expr, s, fuel - 1); c.ok && c.st.halt == Running
    ensures var c := Eval(env, e.expr, s, fuel - 1);
      && s.pt.offset <= c.st.pt.offset <= |env.data|
      && Eval(env, e, s, fuel) == Acted(env, e.run, s.pt, c.st)
  {
    StepAction(env, e, s, fuel);
    Cursor.CursorOkCanAdvance(env.data, Eval(env, e.expr, s, fuel - 1).st.pt);
  }

  lemma StepChoice(env: Env, e: Expr, s: St, fuel: nat)
    requires e.ChoiceExpr? && Inv(env, s) && |s.vstack| > 0 && s.halt == Running && !env.memoize && fuel > 0
    ensures Eval(env, e, s, fuel) == EvalChoice(env, e, s, fuel - 1)
  {
    SampleRuns.Fresh(env, e, s, fuel);
  }

  lemma StepClass(env: Env, e: Expr, s: St, fuel: nat)
    requires e.CharClassMatcher? && Inv(env, s) && |s.vstack| > 0 && s.halt == Running && !env.memoize && fuel > 0
    ensures Eval(env, e, s, fuel) == EvalClass(env, e, s)
  {
    SampleRuns.Fresh(env, e, s, fuel);
  }

  lemma StepLabeled(env: Env, e: Expr, s: St, fuel: nat)
    requires e.LabeledExpr? && Inv(env, s) && |s.vstack| > 0 && s.halt == Running && !env.memoize && fuel > 0
    ensures Eval(env, e, s, fuel) == EvalLabeled(env, e, s, fuel - 1)
  {
    SampleRuns.Fresh(env, e, s, fuel);
  }

  lemma StepLit(env: Env, e: Expr, s: St, fuel: nat)
    requires e.LitMatcher? && Inv(env, s) && |s.vstack| > 0 && s.halt == Running && !env.memoize && fuel > 0
    ensures Eval(env, e, s, fuel) == EvalLit(env, e, s)
  {
    SampleRuns.Fresh(env, e, s, fuel);
  }

  lemma StepOneOrMore(env: Env, e: Expr, s: St, fuel: nat)
    requires e.OneOrMoreExpr? && Inv(env, s) && |s.vstack| > 0 && s.halt == Running && !env.memoize && fuel > 0
    ensures Eval(env, e, s, fuel) == EvalOneOrMore(env, e, s, fuel - 1)
  {
    SampleRuns.Fresh(env, e, s, fuel);
  }

  lemma StepRef(env: Env, e: Expr, s: St, fuel: nat)
    requires e.RuleRefExpr? && Inv(env, s) && |s.vstack| > 0 && s.halt == Running && !env.memoize && fuel > 0
    ensures Eval(env, e, s, fuel) == EvalRuleRef(env, e, s, fuel - 1)
  {
    SampleRuns.Fresh(env, e, s, fuel);
  }

  lemma StepSeq(env: Env, e: Expr, s: St, fuel: nat)
    requires e.SeqExpr? && Inv(env, s) && |s.vstack| > 0 && s.halt == Running && !env.memoize && fuel > 0
    ensures Eval(env, e, s, fuel) == EvalSeq(env, e, s, fuel - 1)
  {
    SampleRuns.Fresh(env, e, s, fuel);
  }

  lemma StepZeroOrMore(env: Env, e: Expr, s: St, fuel: nat)
    requires e.ZeroOrMoreExpr? && Inv(env, s) && |s.vstack| > 0 && s.halt == Running && !env.memoize && fuel > 0
    ensures Eval(env, e, s, fuel) == EvalZeroOrMore(env, e, s, fuel - 1)
  {
    SampleRuns.Fresh(env, e, s, fuel);
  }

  /** A fresh frame keeps the facts above. */
  lemma PushedReady(env: Env, s: St)
    requires Ready(env, s)
    ensures Ready(env, Pushed(s)) && Pushed(s).pt == s.pt
  {
  }

  /** A failed alternative hands over to the next one. */
  lemma AltsNext(env: Env, alts: seq<Expr>, i: nat, s: St, f: nat)
    requires i < |alts| && Inv(env, s) && |s.vstack| > 0 && !Scoped(env, alts[i], s, f).ok
    ensures EvalAlts(env, alts, i, s, f) == EvalAlts(env, alts, i + 1, Scoped(env, alts[i], s, f).st, f)
  {
  }

  /** A matching alternative is the choice's result. */
  lemma AltsHere(env: Env, alts: seq<Expr>, i: nat, s: St, f: nat)
    requires i < |alts| && Inv(env, s) && |s.vstack| > 0 && Scoped(env, alts[i], s, f).ok
    ensures EvalAlts(env, alts, i, s, f) == Scoped(env, alts[i], s, f)
  {
  }

  // One rune.

  /** On ASCII input the cursor stands on the byte at its offset, one byte wide. */
  lemma AsciiCursor(data: seq<byte>, sp: Savepoint)
    requires Cursor.CursorOk(data, sp) && Ascii(data)
    ensures sp.offset < |data| ==> sp.rn == data[sp.offset] as int && sp.w == 1
    ensures sp.offset == |data| ==> sp.rn == RuneError && sp.w == 0
  {
  }

  /** On ASCII input `read` steps one byte and records no error. */
  lemma AsciiRead(env: Env, s: St)
    requires Cursor.CursorOk(env.data, s.pt) && Ascii(env.data) && s.pt.offset < |env.data|
    ensures s.pt.offset + s.pt.w <= |env.data|
    ensures Advanced(env, s) == s.(pt := Cursor.Advance(env.data, s.pt))
    ensures Advanced(env, s).pt.offset == s.pt.offset + 1
  {
    AsciiCursor(env.data, s.pt);
    AsciiCursor(env.data, Cursor.Advance(env.data, s.pt));
  }

  /** A character class (case-sensitive) matches the byte at the cursor or
      fails, calmly either way. */
  lemma ClassAt(env: Env, e: Expr, s: St, fuel: nat)
    requires Ready(env, s) && e.CharClassMatcher? && !e.ignoreCase && fuel > 0
    ensures var r := Eval(env, e, s, fuel); var o := s.pt.offset;
      && r.ok == (o < |env.data| && ClassMatches(e.chars, e.ranges, e.classes, false, e.inverted, env.data[o] as int))
      && (r.ok ==> r.st.pt.offset == o + 1)
      && Calm(s, r.st) && r.st.vstack == s.vstack
  {
    StepClass(env, e, s, fuel);
    AsciiCursor(env.data, s.pt);
    if s.pt.offset < |env.data| {
      AsciiRead(env, s);
    }
  }

  /** A one-character literal (case-sensitive) matches exactly that byte at
      the cursor, calmly either way. */
  lemma LitAt(env: Env, e: Expr, s: St, fuel: nat)
    requires Ready(env, s) && e.LitMatcher? && |e.val| == 1 && !e.ignoreCase && fuel > 0
    ensures var r := Eval(env, e, s, fuel); var o := s.pt.offset;
      && r.ok == (o < |env.data| && env.data[o] as int == e.val[0] as int)
      && (r.ok ==> r.st.pt.offset == o + 1)
      && Calm(s, r.st) && r.st.vstack == s.vstack
  {
    StepLit(env, e, s, fuel);
    AsciiCursor(env.data, s.pt);
    var o := s.pt.offset;
    if o < |env.data| && env.data[o] as int == e.val[0] as int {
      AsciiRead(env, s);
      assert LitRun(env, s, e.val, false, 0) == LitRun(env, Advanced(env, s), e.val, false, 1);
    }
  }

  // Frames and rules.

  /** A child run in its own frame: the frame is dropped, calmness kept. */
  lemma ScopedRun(env: Env, x: Expr, s: St, fuel: nat)
    requires Inv(env, s) && |s.vstack| > 0 && Calm(Pushed(s), Eval(env, x, Pushed(s), fuel).st)
    ensures var c := Eval(env, x, Pushed(s), fuel); var r := Scoped(env, x, s, fuel);
      r.v == c.v && r.ok == c.ok && r.st.pt == c.st.pt && Calm(s, r.st) && r.st.vstack == s.vstack
  {
  }

  /** A rule runs its body in its own frame with itself on the rule stack;
      both are dropped, calmness kept. */
  lemma RuleRun(env: Env, rule: Rule, s: St, fuel: nat)
    requires Inv(env, s) && !env.memoize
    requires var inner := Pushed(s.(rstack := s.rstack + [rule]));
      Calm(inner, Eval(env, rule.expr, inner, fuel).st)
    ensures var c := Eval(env, rule.expr, Pushed(s.(rstack := s.rstack + [rule])), fuel);
      var r := EvalRule(env, rule, s, fuel);
      r.v == c.v && r.ok == c.ok && r.st.pt == c.st.pt && Calm(s, r.st) && r.st.vstack == s.vstack
  {
  }

  /** A reference to a rule of the table evaluates that rule. */
  lemma RefAt(env: Env, e: Expr, s: St, fuel: nat)
    requires Ready(env, s) && fuel > 0 && e.RuleRefExpr? && e.name in SampleRuns.SampleRules
    ensures Eval(env, e, s, fuel) == EvalRule(env, SampleRuns.SampleRules[e.name], s, fuel - 1)
  {
    StepRef(env, e, s, fuel);
  }

  /** A reference, in its own frame, to a rule that fails calmly fails calmly. */
  lemma RefFails(env: Env, x: Expr, s: St, fuel: nat)
    requires Ready(env, s) && fuel >= 1 && x.RuleRefExpr? && x.name in SampleRuns.SampleRules
    requires var q := EvalRule(env, SampleRuns.SampleRules[x.name], Pushed(s), fuel - 1);
      !q.ok && Calm(Pushed(s), q.st)
    ensures var c := Scoped(env, x, s, fuel); !c.ok && Calm(s, c.st)
  {
    RefAt(env, x, Pushed(s), fuel);
    ScopedRun(env, x, s, fuel);
  }

  /** A repetition whose first round fails ends at once with no value. */
  lemma StarStop(env: Env, x: Expr, s: St, f: nat, b: nat)
    requires Inv(env, s) && |s.vstack| > 0 && b > 0 && !Scoped(env, x, s, f).ok
    ensures var it := EvalStar(env, x, s, f, b, []); it.vals == [] && it.st == Scoped(env, x, s, f).st
  {
    Laws.StarUnfold(env, x, s, f, b);
  }

  /** A one-or-more over a rule whose first round fails fails calmly. */
  lemma PlusFails(env: Env, e: Expr, s: St, fuel: nat)
    requires Ready(env, s) && fuel >= 2 && e.OneOrMoreExpr? && e.expr.RuleRefExpr?
    requires e.expr.name in SampleRuns.SampleRules
    requires var q := EvalRule(env, SampleRuns.SampleRules[e.expr.name], Pushed(s), fuel - 2);
      !q.ok && Calm(Pushed(s), q.st)
    ensures var r := Eval(env, e, s, fuel); !r.ok && Calm(s, r.st) && r.st.vstack == s.vstack
  {
    StepOneOrMore(env, e, s, fuel);
    RefFails(env, e.expr, s, fuel - 1);
    StarStop(env, e.expr, s, fuel - 1, fuel - 1);
  }

  // Identifier.

  /** The class repetition of `Identifier` reads exactly up to `k`. */
  lemma {:induction false} IdentStar(env: Env, s: St, fuel: nat, budget: nat, k: nat)
    requires Ready(env, s) && fuel > 0 && IdentTo(env.data, s.pt.offset, k) && budget > k - s.pt.offset
    ensures var r := EvalStar(env, IdentifierClass, s, fuel, budget, []);
      |r.vals| == k - s.pt.offset && r.st.pt.offset == k && Calm(s, r.st) && r.st.vstack == s.vstack
    decreases k - s.pt.offset
  {
    var o := s.pt.offset;
    Laws.StarUnfold(env, IdentifierClass, s, fuel, budget);
    ClassAt(env, IdentifierClass, Pushed(s), fuel);
    ScopedRun(env, IdentifierClass, s, fuel);
    if o < |env.data| {
      IdentifierRunes(env.data[o] as int);
      StopBytes(env.data[o]);
    }
    if o < k {
      IdentStar(env, Scoped(env, IdentifierClass, s, fuel).st, fuel, budget - 1, k);
    }
  }

  /** The repetition inside `Identifier` reads exactly up to `k`, and
      matches when it reads something. */
  lemma IdentPlus(env: Env, s: St, fuel: nat, k: nat)
    requires Ready(env, s) && IdentTo(env.data, s.pt.offset, k) && fuel >= k - s.pt.offset + 2
    ensures var c := Eval(env, IdentifierRule.expr.expr, s, fuel);
      c.ok == (s.pt.offset < k) && c.st.pt.offset == k && Calm(s, c.st) && c.st.vstack == s.vstack
  {
    var e := IdentifierRule.expr.expr;
    assert e.expr == IdentifierClass;
    StepOneOrMore(env, e, s, fuel);
    IdentStar(env, s, fuel - 1, fuel - 1, k);
  }

  /** A callback that returns a value and no error keeps the match and the
      state as they are. */
  lemma ActedQuiet(env: Env, run: nat, start: Savepoint, t: St, v: Value)
    requires start.offset <= t.pt.offset <= |env.data| && |t.vstack| > 0 && t.halt == Running
    requires var cur := Current(start.Pos(), Cursor.Span(env.data, start.offset, t.pt.offset));
      env.actions(run, cur, t.vstack[|t.vstack| - 1]) == Returned(v, None)
    ensures var a := Acted(env, run, start, t); a.v == v && a.st.pt == t.pt && Calm(t, a.st) && a.st.vstack == t.vstack
  {
  }

  /** The callback of `Identifier` yields the matched bytes as a plain token. */
  lemma ActedIdentifier(env: Env, start: Savepoint, t: St)
    requires env.actions == Actions && start.offset <= t.pt.offset <= |env.data| && |t.vstack| > 0
    requires t.halt == Running
    ensures var a := Acted(env, RunIdentifier1, start, t);
      a.v == Tok(Token(false, env.data[start.offset..t.pt.offset])) && a.st.pt == t.pt && Calm(t, a.st)
      && a.st.vstack == t.vstack
  {
    Cursor.SpanIsSlice(env.data, start.offset, t.pt.offset);
    ActedQuiet(env, RunIdentifier1, start, t, Tok(Token(false, env.data[start.offset..t.pt.offset])));
  }

  /** `Identifier`'s body, in the rule's frame. */
  lemma IdentifierBody(env: Env, s: St, fuel: nat, k: nat)
    requires Ready(env, s) && IdentTo(env.data, s.pt.offset, k) && fuel >= k - s.pt.offset + 3
    ensures var r := Eval(env, IdentifierRule.expr, s, fuel); var o := s.pt.offset;
      && r.ok == (o < k)
      && (r.ok ==> r.v == Tok(Token(false, env.data[o..k])) && r.st.pt.offset == k)
      && Calm(s, r.st) && r.st.vstack == s.vstack
  {
    var act := IdentifierRule.expr;
    IdentPlus(env, s, fuel - 1, k);
    var c := Eval(env, act.expr, s, fuel - 1);
    if c.ok {
      ActionRuns(env, act, s, fuel);
      ActedIdentifier(env, s.pt, c.st);
    } else {
      StepAction(env, act, s, fuel);
    }
  }

  /** `Identifier` matches exactly the run of identifier bytes at the
      cursor, when there is one, and yields it as a plain token. */
  lemma IdentifierAt(env: Env, s: St, fuel: nat, k: nat)
    requires Ready(env, s) && IdentTo(env.data, s.pt.offset, k) && fuel >= k - s.pt.offset + 3
    ensures var r := EvalRule(env, IdentifierRule, s, fuel); var o := s.pt.offset;
      && r.ok == (o < k)
      && (r.ok ==> r.v == Tok(Token(false, env.data[o..k])) && r.st.pt.offset == k)
      && Calm(s, r.st) && r.st.vstack == s.vstack
  {
    IdentifierBody(env, Pushed(s.(rstack := s.rstack + [IdentifierRule])), fuel, k);
    RuleRun(env, IdentifierRule, s, fuel);
  }

  /** A reference to `Identifier`, in its own frame. */
  lemma ScopedIdent(env: Env, x: Expr, s: St, fuel: nat, k: nat)
    requires Ready(env, s) && x.RuleRefExpr? && x.name == "Identifier"
    requires IdentTo(env.data, s.pt.offset, k) && fuel >= k - s.pt.offset + 4
    ensures var c := Scoped(env, x, s, fuel); var o := s.pt.offset;
      && c.ok == (o < k) && Calm(s, c.st) && c.st.vstack == s.vstack
      && (c.ok ==> c.v == Tok(Token(false, env.data[o..k])) && c.st.pt.offset == k)
  {
    RefAt(env, x, Pushed(s), fuel);
    IdentifierAt(env, Pushed(s), fuel - 1, k);
    ScopedRun(env, x, s, fuel);
  }

  /** `v:Identifier` binds the token in the enclosing frame. */
  lemma LabeledIdent(env: Env, e: Expr, s: St, fuel: nat, k: nat)
    requires Ready(env, s) && e.LabeledExpr? && e.labelName == "v"
    requires e.expr.RuleRefExpr? && e.expr.name == "Identifier"
    requires IdentTo(env.data, s.pt.offset, k) && fuel >= k - s.pt.offset + 5
    ensures var r := Eval(env, e, s, fuel); var o := s.pt.offset; var top := s.vstack[|s.vstack| - 1];
      && r.ok == (o < k) && Calm(s, r.st)
      && (r.ok ==> && r.v == Tok(Token(false, env.data[o..k])) && r.st.pt.offset == k
                   && r.st.vstack == s.vstack[|s.vstack| - 1 := top["v" := r.v]])
      && (!r.ok ==> r.st.vstack == s.vstack)
  {
    StepLabeled(env, e, s, fuel);
    ScopedIdent(env, e.expr, s, fuel - 1, k);
  }

  // Spacing.

  /** `Space` matches exactly a space. */
  lemma SpaceAt(env: Env, s: St, fuel: nat)
    requires Ready(env, s) && fuel > 0
    ensures var r := EvalRule(env, SpaceRule, s, fuel); var o := s.pt.offset;
      && r.ok == (o < |env.data| && env.data[o] == 32)
      && (r.ok ==> r.st.pt.offset == o + 1)
      && Calm(s, r.st) && r.st.vstack == s.vstack
  {
    LitAt(env, SpaceRule.expr, Pushed(s.(rstack := s.rstack + [SpaceRule])), fuel);
    RuleRun(env, SpaceRule, s, fuel);
  }

  /** `_` matches exactly a tab, a carriage return or a newline. */
  lemma WhitespaceAt(env: Env, s: St, fuel: nat)
    requires Ready(env, s) && fuel > 0
    ensures var r := EvalRule(env, WhitespaceRule, s, fuel); var o := s.pt.offset;
      && r.ok == (o < |env.data| && (env.data[o] == 9 || env.data[o] == 13 || env.data[o] == 10))
      && Calm(s, r.st) && r.st.vstack == s.vstack
  {
    ClassAt(env, WhitespaceRule.expr, Pushed(s.(rstack := s.rstack + [WhitespaceRule])), fuel);
    if s.pt.offset < |env.data| {
      WhitespaceRunes(env.data[s.pt.offset] as int);
    }
    RuleRun(env, WhitespaceRule, s, fuel);
  }

  /** The reference to `Space` that `Spacing` repeats. */
  const SpaceRef: Expr := RuleRefExpr(23, Position(69, 3, 1538), "Space")

  /** A reference to `Space`, in its own frame, matches exactly a space. */
  lemma SpaceRound(env: Env, s: St, fuel: nat)
    requires Ready(env, s) && fuel >= 2
    ensures var c := Scoped(env, SpaceRef, s, fuel); var o := s.pt.offset;
      && c.ok == (o < |env.data| && env.data[o] == 32)
      && (c.ok ==> c.st.pt.offset == o + 1)
      && Calm(s, c.st) && c.st.vstack == s.vstack
  {
    RefAt(env, SpaceRef, Pushed(s), fuel);
    SpaceAt(env, Pushed(s), fuel - 1);
    ScopedRun(env, SpaceRef, s, fuel);
  }

  /** `Space+` reads exactly the run of spaces up to `k`. */
  lemma {:induction false} SpaceStar(env: Env, s: St, fuel: nat, budget: nat, k: nat)
    requires Ready(env, s) && fuel >= 2 && SpacesTo(env.data, s.pt.offset, k) && budget > k - s.pt.offset
    ensures var r := EvalStar(env, SpaceRef, s, fuel, budget, []);
      |r.vals| == k - s.pt.offset && r.st.pt.offset == k && Calm(s, r.st) && r.st.vstack == s.vstack
    decreases k - s.pt.offset
  {
    Laws.StarUnfold(env, SpaceRef, s, fuel, budget);
    SpaceRound(env, s, fuel);
    if s.pt.offset < k {
      SpaceStar(env, Scoped(env, SpaceRef, s, fuel).st, fuel, budget - 1, k);
    }
  }

  /** `Spacing`'s two alternatives. */
  const SpacePlus: Expr := OneOrMoreExpr(22, Position(69, 3, 1538), SpaceRef)
  const WhitespacePlus: Expr := OneOrMoreExpr(24, Position(69, 12, 1547), RuleRefExpr(25, Position(69, 12, 1547), "_"))

  /** `Space+` over a run of spaces yields a list of one value per space. */
  lemma SpacePlusAt(env: Env, s: St, fuel: nat, k: nat)
    requires Ready(env, s) && SpacesTo(env.data, s.pt.offset, k) && s.pt.offset < k
    requires fuel >= k - s.pt.offset + 3
    ensures var r := Eval(env, SpacePlus, s, fuel);
      r.ok && r.v.List? && r.st.pt.offset == k && Calm(s, r.st) && r.st.vstack == s.vstack
  {
    StepOneOrMore(env, SpacePlus, s, fuel);
    SpaceStar(env, s, fuel - 1, fuel - 1, k);
  }

  /** `Spacing` evaluates its choice in the rule's frame. */
  lemma SpacingChoice(env: Env, s: St, fuel: nat)
    requires Ready(env, s) && fuel > 0
    ensures Eval(env, SpacingRule.expr, s, fuel) == EvalAlts(env, [SpacePlus, WhitespacePlus], 0, s, fuel - 1)
  {
    StepChoice(env, SpacingRule.expr, s, fuel);
  }

  /** `Spacing` matches a run of spaces through its first alternative and
      yields a list (never a token). */
  lemma SpacingSpaces(env: Env, s: St, fuel: nat, k: nat)
    requires Ready(env, s) && SpacesTo(env.data, s.pt.offset, k) && s.pt.offset < k
    requires fuel >= k - s.pt.offset + 4
    ensures var r := EvalRule(env, SpacingRule, s, fuel);
      r.ok && r.v.List? && r.st.pt.offset == k && Calm(s, r.st) && r.st.vstack == s.vstack
  {
    var inner := Pushed(s.(rstack := s.rstack + [SpacingRule]));
    var f := fuel - 1;
    SpacingChoice(env, inner, fuel);
    SpacePlusAt(env, Pushed(inner), f, k);
    ScopedRun(env, SpacePlus, inner, f);
    RuleRun(env, SpacingRule, s, fuel);
  }

  /** `Space+`, in its own frame, fails calmly where there is no space. */
  lemma SpacePlusFails(env: Env, s: St, f: nat)
    requires Ready(env, s) && f >= 3 && NotSpace(env.data, s.pt.offset)
    ensures var c := Scoped(env, SpacePlus, s, f); !c.ok && Calm(s, c.st)
  {
    SpaceAt(env, Pushed(Pushed(s)), f - 2);
    PlusFails(env, SpacePlus, Pushed(s), f);
    ScopedRun(env, SpacePlus, s, f);
  }

  /** `_+`, in its own frame, fails calmly where there is no tab, carriage
      return or newline. */
  lemma WhitespacePlusFails(env: Env, s: St, f: nat)
    requires Ready(env, s) && f >= 3 && NotSpace(env.data, s.pt.offset)
    ensures var c := Scoped(env, WhitespacePlus, s, f); !c.ok && Calm(s, c.st)
  {
    WhitespaceAt(env, Pushed(Pushed(s)), f - 2);
    PlusFails(env, WhitespacePlus, Pushed(s), f);
    ScopedRun(env, WhitespacePlus, s, f);
  }

  /** Neither alternative of `Spacing` matches where there is no space, tab,
      carriage return or newline. */
  lemma SpacingAltsFail(env: Env, s: St, f: nat)
    requires Ready(env, s) && f >= 3 && NotSpace(env.data, s.pt.offset)
    ensures var r := EvalAlts(env, [SpacePlus, WhitespacePlus], 0, s, f); !r.ok && Calm(s, r.st)
  {
    SpacePlusFails(env, s, f);
    var a0 := Scoped(env, SpacePlus, s, f);
    WhitespacePlusFails(env, a0.st, f);
    var alts := [SpacePlus, WhitespacePlus];
    var a1 := Scoped(env, WhitespacePlus, a0.st, f);
    assert EvalAlts(env, alts, 0, s, f) == EvalAlts(env, alts, 1, a0.st, f);
    assert EvalAlts(env, alts, 1, a0.st, f) == EvalAlts(env, alts, 2, a1.st, f);
  }

  /** `Spacing` fails calmly where there is no space, tab, carriage return or newline. */
  lemma SpacingFails(env: Env, s: St, fuel: nat)
    requires Ready(env, s) && fuel >= 4 && NotSpace(env.data, s.pt.offset)
    ensures var r := EvalRule(env, SpacingRule, s, fuel); !r.ok && Calm(s, r.st) && r.st.vstack == s.vstack
  {
    var inner := Pushed(s.(rstack := s.rstack + [SpacingRule]));
    SpacingChoice(env, inner, fuel);
    SpacingAltsFail(env, inner, fuel - 1);
    RuleRun(env, SpacingRule, s, fuel);
  }

  /** `Spacing+` fails calmly where `Spacing` does. */
  lemma SpacingPlusFails(env: Env, e: Expr, s: St, fuel: nat)
    requires Ready(env, s) && fuel >= 6 && e.OneOrMoreExpr? && e.expr.RuleRefExpr? && e.expr.name == "Spacing"
    requires NotSpace(env.data, s.pt.offset)
    ensures var r := Eval(env, e, s, fuel); !r.ok && Calm(s, r.st) && r.st.vstack == s.vstack
  {
    SpacingFails(env, Pushed(s), fuel - 2);
    PlusFails(env, e, s, fuel);
  }

  // Keyword.

  /** At `o` stand "{", an identifier ending at `k`, and "}". */
  ghost predicate BracedAt(data: seq<byte>, o: nat, k: nat)
  {
    o + 1 < k < |data| && data[o] == 123 && IdentTo(data, o + 1, k) && data[k] == 125
  }

  /** A keyword alternative whose sequence fails fails calmly. */
  lemma BracedItemsFail(env: Env, x: Expr, s: St, fuel: nat)
    requires Ready(env, s) && fuel >= 2 && x.ActionExpr? && x.expr.SeqExpr?
    requires var it := EvalItems(env, x.expr.exprs, 0, s, fuel - 2, []); !it.ok && Calm(s, it.st)
    ensures var r := Eval(env, x, s, fuel); !r.ok && Calm(s, r.st)
  {
    StepAction(env, x, s, fuel);
    StepSeq(env, x.expr, s, fuel - 1);
  }

  /** A keyword alternative fails calmly where there is no "{". */
  lemma BracedNotOpen(env: Env, id: nat, pos: Position, run: nat, inner: seq<Expr>, closer: Position, s: St,
                      fuel: nat)
    requires Ready(env, s) && fuel >= 3
    requires s.pt.offset == |env.data| || env.data[s.pt.offset] != 123
    ensures var r := Eval(env, Braced(id, pos, run, inner, closer), s, fuel); !r.ok && Calm(s, r.st)
  {
    var x := Braced(id, pos, run, inner, closer);
    var xs := x.expr.exprs;
    LitAt(env, xs[0], s, fuel - 2);
    var c := Eval(env, xs[0], s, fuel - 2);
    assert EvalItems(env, xs, 0, s, fuel - 2, []) == Items([], false, c.st);
    BracedItemsFail(env, x, s, fuel);
  }

  /** A keyword alternative that requires spacing right after "{" fails
      calmly where "{" is followed by something else. */
  lemma BracedSpacingFirst(env: Env, id: nat, pos: Position, run: nat, inner: seq<Expr>, closer: Position, s: St,
                           fuel: nat)
    requires Ready(env, s) && fuel >= 8
    requires |inner| > 0 && inner[0].OneOrMoreExpr? && inner[0].expr.RuleRefExpr? && inner[0].expr.name == "Spacing"
    requires s.pt.offset < |env.data| && env.data[s.pt.offset] == 123 && NotSpace(env.data, s.pt.offset + 1)
    ensures var r := Eval(env, Braced(id, pos, run, inner, closer), s, fuel); !r.ok && Calm(s, r.st)
  {
    var x := Braced(id, pos, run, inner, closer);
    var xs := x.expr.exprs;
    var g := fuel - 2;
    assert xs[1] == inner[0];
    LitAt(env, xs[0], s, g);
    var c0 := Eval(env, xs[0], s, g);
    SpacingPlusFails(env, xs[1], c0.st, g);
    var c1 := Eval(env, xs[1], c0.st, g);
    assert EvalItems(env, xs, 1, c0.st, g, [c0.v]) == Items([c0.v], false, c1.st);
    assert EvalItems(env, xs, 0, s, g, []) == EvalItems(env, xs, 1, c0.st, g, [c0.v]);
    BracedItemsFail(env, x, s, fuel);
  }

  /** The children of "{" v:Identifier Spacing+ "}". */
  const Keyword10Seq: seq<Expr> :=
    [LitMatcher(52, Position(52, 3, 1166), "{", false)] + Keyword10Items + [LitMatcher(53, Position(52, 29, 1192), "}", false)]

  /** The children of "{" v:Identifier "}". */
  const Keyword28Seq: seq<Expr> :=
    [LitMatcher(72, Position(58, 3, 1351), "{", false)] + Keyword28Items + [LitMatcher(73, Position(58, 20, 1368), "}", false)]

  /** "{" v:Identifier Spacing+ "}" fails calmly on "{" identifier "}". */
  lemma Keyword10Fails(env: Env, s: St, fuel: nat, k: nat)
    requires Ready(env, s) && BracedAt(env.data, s.pt.offset, k) && fuel >= k - s.pt.offset + 6
    ensures var r := Eval(env, Keyword10, s, fuel); !r.ok && Calm(s, r.st)
  {
    var xs := Keyword10Seq;
    assert Keyword10.expr.exprs == xs;
    var g := fuel - 2;
    LitAt(env, xs[0], s, g);
    var c0 := Eval(env, xs[0], s, g);
    assert xs[0].val == "{";
    assert c0.ok;
    assert [] + [c0.v] == [c0.v];
    LabeledIdent(env, xs[1], c0.st, g, k);
    var c1 := Eval(env, xs[1], c0.st, g);
    SpacingPlusFails(env, xs[2], c1.st, g);
    var c2 := Eval(env, xs[2], c1.st, g);
    assert EvalItems(env, xs, 2, c1.st, g, [c0.v, c1.v]) == Items([c0.v, c1.v], false, c2.st);
    assert EvalItems(env, xs, 1, c0.st, g, [c0.v]) == EvalItems(env, xs, 2, c1.st, g, [c0.v, c1.v]);
    assert EvalItems(env, xs, 0, s, g, []) == EvalItems(env, xs, 1, c0.st, g, [c0.v]);
    BracedItemsFail(env, Keyword10, s, fuel);
  }

  /** The sequence of "{" v:Identifier "}" matches "{" identifier "}",
      leaving the identifier's token bound to `v`. */
  lemma Keyword28Run(env: Env, s: St, g: nat, k: nat)
    requires Ready(env, s) && BracedAt(env.data, s.pt.offset, k) && g >= k - s.pt.offset + 4
    ensures var it := EvalItems(env, Keyword28Seq, 0, s, g, []); var top := s.vstack[|s.vstack| - 1];
      && it.ok && |it.vals| == 3 && it.st.pt.offset == k + 1 && Calm(s, it.st)
      && it.st.vstack == s.vstack[|s.vstack| - 1 := top["v" := Tok(Token(false, env.data[s.pt.offset + 1..k]))]]
  {
    var xs := Keyword28Seq;
    LitAt(env, xs[0], s, g);
    var c0 := Eval(env, xs[0], s, g);
    assert xs[0].val == "{";
    assert c0.ok;
    assert [] + [c0.v] == [c0.v];
    LabeledIdent(env, xs[1], c0.st, g, k);
    var c1 := Eval(env, xs[1], c0.st, g);
    assert c1.ok;
    assert [c0.v] + [c1.v] == [c0.v, c1.v];
    LitAt(env, xs[2], c1.st, g);
    var c2 := Eval(env, xs[2], c1.st, g);
    assert EvalItems(env, xs, 2, c1.st, g, [c0.v, c1.v]) == Items([c0.v, c1.v, c2.v], true, c2.st);
    assert EvalItems(env, xs, 1, c0.st, g, [c0.v]) == EvalItems(env, xs, 2, c1.st, g, [c0.v, c1.v]);
    assert EvalItems(env, xs, 0, s, g, []) == EvalItems(env, xs, 1, c0.st, g, [c0.v]);
  }

  /** The callback of a keyword alternative turns the token bound to `v`
      into a keyword token, calmly. */
  lemma ActedKeyword(env: Env, run: nat, start: Savepoint, t: St, tok: Token)
    requires run == RunKeyword18 || run == RunKeyword28
    requires env.actions == Actions && start.offset <= t.pt.offset <= |env.data| && |t.vstack| > 0
    requires t.halt == Running && "v" in t.vstack[|t.vstack| - 1] && t.vstack[|t.vstack| - 1]["v"] == Tok(tok)
    ensures var a := Acted(env, run, start, t); a.v == Tok(Token(true, tok.val)) && Calm(t, a.st)
  {
  }

  /** The sequence node of "{" v:Identifier "}" matches "{" identifier "}",
      leaving the identifier's token bound to `v`. */
  lemma Keyword28Seqd(env: Env, s: St, fuel: nat, k: nat)
    requires Ready(env, s) && BracedAt(env.data, s.pt.offset, k) && fuel >= k - s.pt.offset + 5
    ensures var r := Eval(env, Keyword28.expr, s, fuel); var top := s.vstack[|s.vstack| - 1];
      && r.ok && r.st.pt.offset == k + 1 && Calm(s, r.st)
      && r.st.vstack == s.vstack[|s.vstack| - 1 := top["v" := Tok(Token(false, env.data[s.pt.offset + 1..k]))]]
  {
    assert Keyword28.expr.exprs == Keyword28Seq;
    StepSeq(env, Keyword28.expr, s, fuel);
    Keyword28Run(env, s, fuel - 1, k);
  }

  /** "{" v:Identifier "}" matches "{" identifier "}" and yields the
      identifier's text as a keyword token. */
  lemma Keyword28At(env: Env, s: St, fuel: nat, k: nat)
    requires Ready(env, s) && BracedAt(env.data, s.pt.offset, k) && fuel >= k - s.pt.offset + 6
    ensures var r := Eval(env, Keyword28, s, fuel);
      r.ok && r.v == Tok(Token(true, env.data[s.pt.offset + 1..k])) && r.st.pt.offset == k + 1 && Calm(s, r.st)
  {
    Keyword28Seqd(env, s, fuel - 1, k);
    var c := Eval(env, Keyword28.expr, s, fuel - 1);
    ActionRuns(env, Keyword28, s, fuel);
    ActedKeyword(env, RunKeyword28, s.pt, c.st, Token(false, env.data[s.pt.offset + 1..k]));
  }

  /** `Keyword`'s alternatives. */
  const KeywordAlts: seq<Expr> := [Keyword2, Keyword10, Keyword18, Keyword28]

  /** `Keyword` evaluates its choice in the rule's frame. */
  lemma KeywordChoice(env: Env, s: St, fuel: nat)
    requires Ready(env, s) && fuel > 0
    ensures Eval(env, KeywordRule.expr, s, fuel) == EvalAlts(env, KeywordAlts, 0, s, fuel - 1)
  {
    StepChoice(env, KeywordRule.expr, s, fuel);
  }

  /** On "{" identifier "}" the first three alternatives of `Keyword` fail. */
  lemma KeywordAltMissesAt(env: Env, j: nat, s: St, f: nat, k: nat)
    requires j < 3 && Ready(env, s) && BracedAt(env.data, s.pt.offset, k) && f >= k - s.pt.offset + 6
    ensures var c := Scoped(env, KeywordAlts[j], s, f); !c.ok && Calm(s, c.st) && c.st.pt == s.pt
  {
    if j == 0 {
      BracedSpacingFirst(env, 40, Position(49, 3, 1078), RunKeyword2, Keyword2Items, Position(49, 29, 1104), Pushed(s), f);
    } else if j == 1 {
      Keyword10Fails(env, Pushed(s), f, k);
    } else {
      BracedSpacingFirst(env, 60, Position(55, 3, 1254), RunKeyword18, Keyword18Items, Position(55, 38, 1289), Pushed(s), f);
    }
    ScopedRun(env, KeywordAlts[j], s, f);
  }

  /** On "{" identifier "}" only the last alternative of `Keyword` matches. */
  lemma {:induction false} KeywordAltsAt(env: Env, j: nat, s: St, f: nat, k: nat)
    requires j <= 3 && Ready(env, s) && BracedAt(env.data, s.pt.offset, k) && f >= k - s.pt.offset + 6
    ensures var r := EvalAlts(env, KeywordAlts, j, s, f);
      r.ok && r.v == Tok(Token(true, env.data[s.pt.offset + 1..k])) && r.st.pt.offset == k + 1 && Calm(s, r.st)
    decreases 3 - j
  {
    if j < 3 {
      KeywordAltMissesAt(env, j, s, f, k);
      AltsNext(env, KeywordAlts, j, s, f);
      KeywordAltsAt(env, j + 1, Scoped(env, KeywordAlts[j], s, f).st, f, k);
    } else {
      Keyword28At(env, Pushed(s), f, k);
      ScopedRun(env, Keyword28, s, f);
      AltsHere(env, KeywordAlts, 3, s, f);
    }
  }

  /** `Keyword` matches "{" identifier "}" and yields the identifier's text
      as a keyword token. */
  lemma KeywordAt(env: Env, s: St, fuel: nat, k: nat)
    requires Ready(env, s) && BracedAt(env.data, s.pt.offset, k) && fuel >= k - s.pt.offset + 7
    ensures var r := EvalRule(env, KeywordRule, s, fuel);
      && r.ok && r.v == Tok(Token(true, env.data[s.pt.offset + 1..k])) && r.st.pt.offset == k + 1
      && Calm(s, r.st) && r.st.vstack == s.vstack
  {
    var inner := Pushed(s.(rstack := s.rstack + [KeywordRule]));
    KeywordChoice(env, inner, fuel);
    KeywordAltsAt(env, 0, inner, fuel - 1, k);
    RuleRun(env, KeywordRule, s, fuel);
  }

  /** Where there is no "{" each alternative of `Keyword` fails. */
  lemma KeywordAltMissesNotOpen(env: Env, j: nat, s: St, f: nat)
    requires j < 4 && Ready(env, s) && f >= 3 && (s.pt.offset == |env.data| || env.data[s.pt.offset] != 123)
    ensures var c := Scoped(env, KeywordAlts[j], s, f); !c.ok && Calm(s, c.st) && c.st.pt == s.pt
  {
    if j == 0 {
      BracedNotOpen(env, 40, Position(49, 3, 1078), RunKeyword2, Keyword2Items, Position(49, 29, 1104), Pushed(s), f);
    } else if j == 1 {
      BracedNotOpen(env, 50, Position(52, 3, 1166), RunKeyword10, Keyword10Items, Position(52, 29, 1192), Pushed(s), f);
    } else if j == 2 {
      BracedNotOpen(env, 60, Position(55, 3, 1254), RunKeyword18, Keyword18Items, Position(55, 38, 1289), Pushed(s), f);
    } else {
      BracedNotOpen(env, 70, Position(58, 3, 1351), RunKeyword28, Keyword28Items, Position(58, 20, 1368), Pushed(s), f);
    }
    ScopedRun(env, KeywordAlts[j], s, f);
  }

  /** No alternative of `Keyword` matches where there is no "{". */
  lemma {:induction false} KeywordAltsNotOpen(env: Env, j: nat, s: St, f: nat)
    requires j <= 4 && Ready(env, s) && f >= 3 && (s.pt.offset == |env.data| || env.data[s.pt.offset] != 123)
    ensures var r := EvalAlts(env, KeywordAlts, j, s, f); !r.ok && Calm(s, r.st)
    decreases 4 - j
  {
    if j < 4 {
      KeywordAltMissesNotOpen(env, j, s, f);
      AltsNext(env, KeywordAlts, j, s, f);
      KeywordAltsNotOpen(env, j + 1, Scoped(env, KeywordAlts[j], s, f).st, f);
    }
  }

  /** `Keyword` fails calmly where there is no "{". */
  lemma KeywordNotOpen(env: Env, s: St, fuel: nat)
    requires Ready(env, s) && fuel >= 4 && (s.pt.offset == |env.data| || env.data[s.pt.offset] != 123)
    ensures var r := EvalRule(env, KeywordRule, s, fuel); !r.ok && Calm(s, r.st) && r.st.vstack == s.vstack
  {
    var inner := Pushed(s.(rstack := s.rstack + [KeywordRule]));
    KeywordChoice(env, inner, fuel);
    KeywordAltsNotOpen(env, 0, inner, fuel - 1);
    RuleRun(env, KeywordRule, s, fuel);
  }

  // Keyword, on a padded or a bare "{".

  /** At `o` stand "{", spaces up to `a`, an identifier up to `b`, spaces up
      to `k` and "}". */
  ghost predicate PaddedAt(data: seq<byte>, o: nat, a: nat, b: nat, k: nat)
  {
    && o + 1 < a < b < k < |data| && data[o] == 123
    && SpacesTo(data, o + 1, a) && NotSpace(data, a) && IdentTo(data, a, b)
    && SpacesTo(data, b, k) && data[k] == 125
  }

  /** At `o` stands a "{" followed by neither spacing nor an identifier. */
  ghost predicate BareOpenAt(data: seq<byte>, o: nat)
  {
    o < |data| && data[o] == 123 && NotSpace(data, o + 1) && IdentTo(data, o + 1, o + 1)
  }

  /** The rounds of `Spacing+` stop, calmly and with no value, where there
      is no spacing. */
  lemma SpacingStarStops(env: Env, x: Expr, s: St, f: nat, budget: nat)
    requires Ready(env, s) && x.RuleRefExpr? && x.name == "Spacing" && f >= 5 && budget > 0
    requires NotSpace(env.data, s.pt.offset)
    ensures var it := EvalStar(env, x, s, f, budget, []); it.vals == [] && Calm(s, it.st)
  {
    RefAt(env, x, Pushed(s), f);
    SpacingFails(env, Pushed(s), f - 1);
    ScopedRun(env, x, s, f);
    StarStop(env, x, s, f, budget);
  }

  /** The rounds of `Spacing+` over a run of spaces that no other spacing
      follows: one round takes the whole run. */
  lemma SpacingStarAt(env: Env, x: Expr, s: St, f: nat, budget: nat, k: nat)
    requires Ready(env, s) && x.RuleRefExpr? && x.name == "Spacing" && budget > 1
    requires SpacesTo(env.data, s.pt.offset, k) && s.pt.offset < k && NotSpace(env.data, k)
    requires f >= k - s.pt.offset + 5
    ensures var it := EvalStar(env, x, s, f, budget, []); |it.vals| == 1 && it.st.pt.offset == k && Calm(s, it.st)
  {
    Laws.StarUnfold(env, x, s, f, budget);
    RefAt(env, x, Pushed(s), f);
    SpacingSpaces(env, Pushed(s), f - 1, k);
    ScopedRun(env, x, s, f);
    SpacingStarStops(env, x, Scoped(env, x, s, f).st, f, budget - 1);
  }

  /** `Spacing+` over a run of spaces that no other spacing follows matches
      the run. */
  lemma SpacingPlusAt(env: Env, e: Expr, s: St, fuel: nat, k: nat)
    requires Ready(env, s) && e.OneOrMoreExpr? && e.expr.RuleRefExpr? && e.expr.name == "Spacing"
    requires SpacesTo(env.data, s.pt.offset, k) && s.pt.offset < k && NotSpace(env.data, k)
    requires fuel >= k - s.pt.offset + 6
    ensures var r := Eval(env, e, s, fuel); r.ok && r.st.pt.offset == k && Calm(s, r.st) && r.st.vstack == s.vstack
  {
    StepOneOrMore(env, e, s, fuel);
    SpacingStarAt(env, e.expr, s, fuel - 1, fuel - 1, k);
  }

  /** A keyword alternative that requires an identifier right after "{"
      fails calmly where "{" is followed by none. */
  lemma BracedIdentFirst(env: Env, id: nat, pos: Position, run: nat, inner: seq<Expr>, closer: Position, s: St,
                         fuel: nat)
    requires Ready(env, s) && fuel >= 7
    requires |inner| > 0 && inner[0].LabeledExpr? && inner[0].labelName == "v"
    requires inner[0].expr.RuleRefExpr? && inner[0].expr.name == "Identifier"
    requires s.pt.offset < |env.data| && env.data[s.pt.offset] == 123 && IdentTo(env.data, s.pt.offset + 1, s.pt.offset + 1)
    ensures var r := Eval(env, Braced(id, pos, run, inner, closer), s, fuel); !r.ok && Calm(s, r.st)
  {
    var x := Braced(id, pos, run, inner, closer);
    var xs := x.expr.exprs;
    var g := fuel - 2;
    assert xs[1] == inner[0];
    LitAt(env, xs[0], s, g);
    var c0 := Eval(env, xs[0], s, g);
    LabeledIdent(env, xs[1], c0.st, g, s.pt.offset + 1);
    var c1 := Eval(env, xs[1], c0.st, g);
    assert EvalItems(env, xs, 1, c0.st, g, [c0.v]) == Items([c0.v], false, c1.st);
    assert EvalItems(env, xs, 0, s, g, []) == EvalItems(env, xs, 1, c0.st, g, [c0.v]);
    BracedItemsFail(env, x, s, fuel);
  }

  /** The children of "{" Spacing+ v:Identifier "}". */
  const Keyword2Seq: seq<Expr> :=
    [LitMatcher(42, Position(49, 3, 1078), "{", false)] + Keyword2Items + [LitMatcher(43, Position(49, 29, 1104), "}", false)]

  /** The children of "{" Spacing+ v:Identifier Spacing+ "}". */
  const Keyword18Seq: seq<Expr> :=
    [LitMatcher(62, Position(55, 3, 1254), "{", false)] + Keyword18Items + [LitMatcher(63, Position(55, 38, 1289), "}", false)]

  /** "{" Spacing+ v:Identifier "}" fails calmly on a padded keyword: the
      spacing after the identifier is not "}". */
  lemma Keyword2Padded(env: Env, s: St, fuel: nat, a: nat, b: nat, k: nat)
    requires Ready(env, s) && PaddedAt(env.data, s.pt.offset, a, b, k) && fuel >= k - s.pt.offset + 7
    ensures var r := Eval(env, Keyword2, s, fuel); !r.ok && Calm(s, r.st)
  {
    var xs := Keyword2Seq;
    assert Keyword2.expr.exprs == xs;
    var g := fuel - 2;
    LitAt(env, xs[0], s, g);
    var c0 := Eval(env, xs[0], s, g);
    assert xs[0].val == "{";
    assert c0.ok;
    assert [] + [c0.v] == [c0.v];
    SpacingPlusAt(env, xs[1], c0.st, g, a);
    var c1 := Eval(env, xs[1], c0.st, g);
    assert [c0.v] + [c1.v] == [c0.v, c1.v];
    LabeledIdent(env, xs[2], c1.st, g, b);
    var c2 := Eval(env, xs[2], c1.st, g);
    assert c2.ok;
    assert [c0.v, c1.v] + [c2.v] == [c0.v, c1.v, c2.v];
    LitAt(env, xs[3], c2.st, g);
    var c3 := Eval(env, xs[3], c2.st, g);
    assert xs[3].val == "}";
    assert !c3.ok;
    assert EvalItems(env, xs, 3, c2.st, g, [c0.v, c1.v, c2.v]) == Items([c0.v, c1.v, c2.v], false, c3.st);
    assert EvalItems(env, xs, 2, c1.st, g, [c0.v, c1.v]) == EvalItems(env, xs, 3, c2.st, g, [c0.v, c1.v, c2.v]);
    assert EvalItems(env, xs, 1, c0.st, g, [c0.v]) == EvalItems(env, xs, 2, c1.st, g, [c0.v, c1.v]);
    assert EvalItems(env, xs, 0, s, g, []) == EvalItems(env, xs, 1, c0.st, g, [c0.v]);
    BracedItemsFail(env, Keyword2, s, fuel);
  }

  /** The last two children of "{" Spacing+ v:Identifier Spacing+ "}"
      match the spaces before "}" and the "}". */
  lemma Keyword18Tail(env: Env, t: St, g: nat, vals: seq<Value>, k: nat)
    requires Ready(env, t) && SpacesTo(env.data, t.pt.offset, k) && t.pt.offset < k < |env.data| && env.data[k] == 125
    requires |vals| == 3 && g >= k - t.pt.offset + 6
    ensures var it := EvalItems(env, Keyword18Seq, 3, t, g, vals);
      it.ok && it.st.pt.offset == k + 1 && Calm(t, it.st) && it.st.vstack == t.vstack
  {
    var xs := Keyword18Seq;
    SpacingPlusAt(env, xs[3], t, g, k);
    var c3 := Eval(env, xs[3], t, g);
    LitAt(env, xs[4], c3.st, g);
    var c4 := Eval(env, xs[4], c3.st, g);
    assert xs[4].val == "}";
    assert c4.ok;
    assert EvalItems(env, xs, 4, c3.st, g, vals + [c3.v]) == Items(vals + [c3.v] + [c4.v], true, c4.st);
  }

  /** The sequence of "{" Spacing+ v:Identifier Spacing+ "}" matches a
      padded keyword, leaving the identifier's token bound to `v`. */
  lemma Keyword18Run(env: Env, s: St, g: nat, a: nat, b: nat, k: nat)
    requires Ready(env, s) && PaddedAt(env.data, s.pt.offset, a, b, k) && g >= k - s.pt.offset + 5
    ensures var it := EvalItems(env, Keyword18Seq, 0, s, g, []); var top := s.vstack[|s.vstack| - 1];
      && it.ok && it.st.pt.offset == k + 1 && Calm(s, it.st)
      && it.st.vstack == s.vstack[|s.vstack| - 1 := top["v" := Tok(Token(false, env.data[a..b]))]]
  {
    var xs := Keyword18Seq;
    LitAt(env, xs[0], s, g);
    var c0 := Eval(env, xs[0], s, g);
    assert xs[0].val == "{";
    assert c0.ok;
    assert [] + [c0.v] == [c0.v];
    SpacingPlusAt(env, xs[1], c0.st, g, a);
    var c1 := Eval(env, xs[1], c0.st, g);
    assert [c0.v] + [c1.v] == [c0.v, c1.v];
    LabeledIdent(env, xs[2], c1.st, g, b);
    var c2 := Eval(env, xs[2], c1.st, g);
    assert c2.ok;
    assert [c0.v, c1.v] + [c2.v] == [c0.v, c1.v, c2.v];
    Keyword18Tail(env, c2.st, g, [c0.v, c1.v, c2.v], k);
    assert EvalItems(env, xs, 2, c1.st, g, [c0.v, c1.v]) == EvalItems(env, xs, 3, c2.st, g, [c0.v, c1.v, c2.v]);
    assert EvalItems(env, xs, 1, c0.st, g, [c0.v]) == EvalItems(env, xs, 2, c1.st, g, [c0.v, c1.v]);
    assert EvalItems(env, xs, 0, s, g, []) == EvalItems(env, xs, 1, c0.st, g, [c0.v]);
  }

  /** The sequence node of "{" Spacing+ v:Identifier Spacing+ "}" matches a
      padded keyword, leaving the identifier's token bound to `v`. */
  lemma Keyword18Seqd(env: Env, s: St, fuel: nat, a: nat, b: nat, k: nat)
    requires Ready(env, s) && PaddedAt(env.data, s.pt.offset, a, b, k) && fuel >= k - s.pt.offset + 6
    ensures var r := Eval(env, Keyword18.expr, s, fuel); var top := s.vstack[|s.vstack| - 1];
      && r.ok && r.st.pt.offset == k + 1 && Calm(s, r.st)
      && r.st.vstack == s.vstack[|s.vstack| - 1 := top["v" := Tok(Token(false, env.data[a..b]))]]
  {
    assert Keyword18.expr.exprs == Keyword18Seq;
    StepSeq(env, Keyword18.expr, s, fuel);
    Keyword18Run(env, s, fuel - 1, a, b, k);
  }

  /** "{" Spacing+ v:Identifier Spacing+ "}" matches a padded keyword and
      yields the identifier's text as a keyword token. */
  lemma Keyword18At(env: Env, s: St, fuel: nat, a: nat, b: nat, k: nat)
    requires Ready(env, s) && PaddedAt(env.data, s.pt.offset, a, b, k) && fuel >= k - s.pt.offset + 7
    ensures var r := Eval(env, Keyword18, s, fuel);
      r.ok && r.v == Tok(Token(true, env.data[a..b])) && r.st.pt.offset == k + 1 && Calm(s, r.st)
  {
    Keyword18Seqd(env, s, fuel - 1, a, b, k);
    var c := Eval(env, Keyword18.expr, s, fuel - 1);
    ActionRuns(env, Keyword18, s, fuel);
    ActedKeyword(env, RunKeyword18, s.pt, c.st, Token(false, env.data[a..b]));
  }

  /** On a padded keyword the first two alternatives of `Keyword` fail. */
  lemma KeywordAltMissesPadded(env: Env, j: nat, s: St, f: nat, a: nat, b: nat, k: nat)
    requires j < 2 && Ready(env, s) && PaddedAt(env.data, s.pt.offset, a, b, k) && f >= k - s.pt.offset + 7
    ensures var c := Scoped(env, KeywordAlts[j], s, f); !c.ok && Calm(s, c.st) && c.st.pt == s.pt
  {
    if j == 0 {
      Keyword2Padded(env, Pushed(s), f, a, b, k);
    } else {
      BracedIdentFirst(env, 50, Position(52, 3, 1166), RunKeyword10, Keyword10Items, Position(52, 29, 1192), Pushed(s), f);
    }
    ScopedRun(env, KeywordAlts[j], s, f);
  }

  /** On a padded keyword only the third alternative of `Keyword` matches. */
  lemma {:induction false} KeywordAltsPadded(env: Env, j: nat, s: St, f: nat, a: nat, b: nat, k: nat)
    requires j <= 2 && Ready(env, s) && PaddedAt(env.data, s.pt.offset, a, b, k) && f >= k - s.pt.offset + 7
    ensures var r := EvalAlts(env, KeywordAlts, j, s, f);
      r.ok && r.v == Tok(Token(true, env.data[a..b])) && r.st.pt.offset == k + 1 && Calm(s, r.st)
    decreases 2 - j
  {
    if j < 2 {
      KeywordAltMissesPadded(env, j, s, f, a, b, k);
      AltsNext(env, KeywordAlts, j, s, f);
      KeywordAltsPadded(env, j + 1, Scoped(env, KeywordAlts[j], s, f).st, f, a, b, k);
    } else {
      Keyword18At(env, Pushed(s), f, a, b, k);
      ScopedRun(env, Keyword18, s, f);
      AltsHere(env, KeywordAlts, 2, s, f);
    }
  }

  /** `Keyword` matches a padded keyword and yields the identifier's text as
      a keyword token. */
  lemma KeywordPadded(env: Env, s: St, fuel: nat, a: nat, b: nat, k: nat)
    requires Ready(env, s) && PaddedAt(env.data, s.pt.offset, a, b, k) && fuel >= k - s.pt.offset + 8
    ensures var r := EvalRule(env, KeywordRule, s, fuel);
      && r.ok && r.v == Tok(Token(true, env.data[a..b])) && r.st.pt.offset == k + 1
      && Calm(s, r.st) && r.st.vstack == s.vstack
  {
    var inner := Pushed(s.(rstack := s.rstack + [KeywordRule]));
    KeywordChoice(env, inner, fuel);
    KeywordAltsPadded(env, 0, inner, fuel - 1, a, b, k);
    RuleRun(env, KeywordRule, s, fuel);
  }

  /** On a bare "{" each alternative of `Keyword` fails. */
  lemma KeywordAltMissesBare(env: Env, j: nat, s: St, f: nat)
    requires j < 4 && Ready(env, s) && BareOpenAt(env.data, s.pt.offset) && f >= 8
    ensures var c := Scoped(env, KeywordAlts[j], s, f); !c.ok && Calm(s, c.st) && c.st.pt == s.pt
  {
    if j == 0 {
      BracedSpacingFirst(env, 40, Position(49, 3, 1078), RunKeyword2, Keyword2Items, Position(49, 29, 1104), Pushed(s), f);
    } else if j == 1 {
      BracedIdentFirst(env, 50, Position(52, 3, 1166), RunKeyword10, Keyword10Items, Position(52, 29, 1192), Pushed(s), f);
    } else if j == 2 {
      BracedSpacingFirst(env, 60, Position(55, 3, 1254), RunKeyword18, Keyword18Items, Position(55, 38, 1289), Pushed(s), f);
    } else {
      BracedIdentFirst(env, 70, Position(58, 3, 1351), RunKeyword28, Keyword28Items, Position(58, 20, 1368), Pushed(s), f);
    }
    ScopedRun(env, KeywordAlts[j], s, f);
  }

  /** No alternative of `Keyword` matches a bare "{". */
  lemma {:induction false} KeywordAltsBare(env: Env, j: nat, s: St, f: nat)
    requires j <= 4 && Ready(env, s) && BareOpenAt(env.data, s.pt.offset) && f >= 8
    ensures var r := EvalAlts(env, KeywordAlts, j, s, f); !r.ok && Calm(s, r.st)
    decreases 4 - j
  {
    if j < 4 {
      KeywordAltMissesBare(env, j, s, f);
      AltsNext(env, KeywordAlts, j, s, f);
      KeywordAltsBare(env, j + 1, Scoped(env, KeywordAlts[j], s, f).st, f);
    }
  }

  /** `Keyword` fails calmly on a bare "{". */
  lemma KeywordBare(env: Env, s: St, fuel: nat)
    requires Ready(env, s) && BareOpenAt(env.data, s.pt.offset) && fuel >= 9
    ensures var r := EvalRule(env, KeywordRule, s, fuel); !r.ok && Calm(s, r.st) && r.st.vstack == s.vstack
  {
    var inner := Pushed(s.(rstack := s.rstack + [KeywordRule]));
    KeywordChoice(env, inner, fuel);
    KeywordAltsBare(env, 0, inner, fuel - 1);
    RuleRun(env, KeywordRule, s, fuel);
  }

  // The rounds of `Sample`'s repetition.

  /** `Identifier / Keyword / Spacing`, the choice `Sample` repeats. */
  const SampleAlts: seq<Expr> := [RuleRefExpr(5, Position(33, 7, 715), "Identifier"),
    RuleRefExpr(6, Position(33, 20, 728), "Keyword"), SpacingRef(7, Position(33, 30, 738))]
  const SampleChoice: Expr := ChoiceExpr(4, Position(33, 7, 715), SampleAlts)

  lemma SampleChoiceAlts(env: Env, s: St, fuel: nat)
    requires Ready(env, s) && fuel > 0
    ensures Eval(env, SampleChoice, s, fuel) == EvalAlts(env, SampleAlts, 0, s, fuel - 1)
  {
    StepChoice(env, SampleChoice, s, fuel);
  }


  /** The `Identifier` alternative, in its own frame. */
  lemma AltIdentifier(env: Env, s: St, f: nat, k: nat)
    requires Ready(env, s) && IdentTo(env.data, s.pt.offset, k) && f >= k - s.pt.offset + 4
    ensures var c := Scoped(env, SampleAlts[0], s, f);
      && c.ok == (s.pt.offset < k) && Calm(s, c.st)
      && (c.ok ==> c.v == Tok(Token(false, env.data[s.pt.offset..k])) && c.st.pt.offset == k)
  {
    RefAt(env, SampleAlts[0], Pushed(s), f);
    IdentifierAt(env, Pushed(s), f - 1, k);
    ScopedRun(env, SampleAlts[0], s, f);
  }

  /** The `Keyword` alternative, in its own frame, on "{" identifier "}". */
  lemma AltKeyword(env: Env, s: St, f: nat, k: nat)
    requires Ready(env, s) && BracedAt(env.data, s.pt.offset, k) && f >= k - s.pt.offset + 8
    ensures var c := Scoped(env, SampleAlts[1], s, f);
      c.ok && c.v == Tok(Token(true, env.data[s.pt.offset + 1..k])) && c.st.pt.offset == k + 1 && Calm(s, c.st)
  {
    RefAt(env, SampleAlts[1], Pushed(s), f);
    KeywordAt(env, Pushed(s), f - 1, k);
    ScopedRun(env, SampleAlts[1], s, f);
  }

  /** The `Keyword` alternative, in its own frame, where there is no "{". */
  lemma AltKeywordNotOpen(env: Env, s: St, f: nat)
    requires Ready(env, s) && f >= 5 && (s.pt.offset == |env.data| || env.data[s.pt.offset] != 123)
    ensures var c := Scoped(env, SampleAlts[1], s, f); !c.ok && Calm(s, c.st)
  {
    RefAt(env, SampleAlts[1], Pushed(s), f);
    KeywordNotOpen(env, Pushed(s), f - 1);
    ScopedRun(env, SampleAlts[1], s, f);
  }

  /** The `Spacing` alternative, in its own frame, on a run of spaces. */
  lemma AltSpacing(env: Env, s: St, f: nat, k: nat)
    requires Ready(env, s) && SpacesTo(env.data, s.pt.offset, k) && s.pt.offset < k && f >= k - s.pt.offset + 5
    ensures var c := Scoped(env, SampleAlts[2], s, f); c.ok && c.v.List? && c.st.pt.offset == k && Calm(s, c.st)
  {
    RefAt(env, SampleAlts[2], Pushed(s), f);
    SpacingSpaces(env, Pushed(s), f - 1, k);
    ScopedRun(env, SampleAlts[2], s, f);
  }

  /** A round on an identifier yields its plain token. */
  lemma RoundIdent(env: Env, s: St, fuel: nat, k: nat)
    requires Ready(env, s) && IdentTo(env.data, s.pt.offset, k) && s.pt.offset < k && fuel >= k - s.pt.offset + 5
    ensures var c := Scoped(env, SampleChoice, s, fuel);
      c.ok && c.v == Tok(Token(false, env.data[s.pt.offset..k])) && c.st.pt.offset == k && Calm(s, c.st)
  {
    SampleChoiceAlts(env, Pushed(s), fuel);
    AltIdentifier(env, Pushed(s), fuel - 1, k);
    AltsHere(env, SampleAlts, 0, Pushed(s), fuel - 1);
    ScopedRun(env, SampleChoice, s, fuel);
  }

  /** A round on "{" identifier "}": `Identifier` fails on the brace and
      `Keyword` yields the keyword token. */
  lemma AltsKeyword(env: Env, s: St, f: nat, k: nat)
    requires Ready(env, s) && BracedAt(env.data, s.pt.offset, k) && f >= k - s.pt.offset + 8
    ensures var c := EvalAlts(env, SampleAlts, 0, s, f);
      c.ok && c.v == Tok(Token(true, env.data[s.pt.offset + 1..k])) && c.st.pt.offset == k + 1 && Calm(s, c.st)
  {
    AltIdentifierBrace(env, s, f);
    AltsNext(env, SampleAlts, 0, s, f);
    var a0 := Scoped(env, SampleAlts[0], s, f);
    AltKeyword(env, a0.st, f, k);
    AltsHere(env, SampleAlts, 1, a0.st, f);
  }

  /** The same round in the choice's own frame. */
  lemma RoundKeyword(env: Env, s: St, fuel: nat, k: nat)
    requires Ready(env, s) && BracedAt(env.data, s.pt.offset, k) && fuel >= k - s.pt.offset + 9
    ensures var c := Scoped(env, SampleChoice, s, fuel);
      c.ok && c.v == Tok(Token(true, env.data[s.pt.offset + 1..k])) && c.st.pt.offset == k + 1 && Calm(s, c.st)
  {
    SampleChoiceAlts(env, Pushed(s), fuel);
    AltsKeyword(env, Pushed(s), fuel - 1, k);
    ScopedRun(env, SampleChoice, s, fuel);
  }

  /** A round on spaces: `Identifier` and `Keyword` fail, `Spacing` yields a list. */
  lemma AltsSpace(env: Env, s: St, f: nat, k: nat)
    requires Ready(env, s) && SpacesTo(env.data, s.pt.offset, k) && s.pt.offset < k && f >= k - s.pt.offset + 5
    ensures var c := EvalAlts(env, SampleAlts, 0, s, f); c.ok && c.v.List? && c.st.pt.offset == k && Calm(s, c.st)
  {
    AltIdentifier(env, s, f, s.pt.offset);
    AltsNext(env, SampleAlts, 0, s, f);
    var a0 := Scoped(env, SampleAlts[0], s, f);
    AltKeywordNotOpen(env, a0.st, f);
    AltsNext(env, SampleAlts, 1, a0.st, f);
    var a1 := Scoped(env, SampleAlts[1], a0.st, f);
    AltSpacing(env, a1.st, f, k);
    AltsHere(env, SampleAlts, 2, a1.st, f);
  }

  /** The same round in the choice's own frame. */
  lemma RoundSpace(env: Env, s: St, fuel: nat, k: nat)
    requires Ready(env, s) && SpacesTo(env.data, s.pt.offset, k) && s.pt.offset < k && fuel >= k - s.pt.offset + 6
    ensures var c := Scoped(env, SampleChoice, s, fuel); c.ok && c.v.List? && c.st.pt.offset == k && Calm(s, c.st)
  {
    SampleChoiceAlts(env, Pushed(s), fuel);
    AltsSpace(env, Pushed(s), fuel - 1, k);
    ScopedRun(env, SampleChoice, s, fuel);
  }

  /** At the end of the input a round fails, calmly. */
  lemma RoundEnd(env: Env, s: St, fuel: nat)
    requires Ready(env, s) && s.pt.offset == |env.data| && fuel >= 6
    ensures var c := Scoped(env, SampleChoice, s, fuel); !c.ok && Calm(s, c.st)
  {
    SampleRuns.SampleChoiceBlockedFrom(fuel);
    assert SampleRule.expr.expr.expr.expr == SampleChoice;
    SampleRuns.BlockedFails(env, SampleChoice, Pushed(s), fuel);
  }

  /** The `Keyword` alternative, in its own frame, on a padded keyword. */
  lemma AltKeywordPadded(env: Env, s: St, f: nat, a: nat, b: nat, k: nat)
    requires Ready(env, s) && PaddedAt(env.data, s.pt.offset, a, b, k) && f >= k - s.pt.offset + 9
    ensures var c := Scoped(env, SampleAlts[1], s, f);
      c.ok && c.v == Tok(Token(true, env.data[a..b])) && c.st.pt.offset == k + 1 && Calm(s, c.st)
  {
    RefAt(env, SampleAlts[1], Pushed(s), f);
    KeywordPadded(env, Pushed(s), f - 1, a, b, k);
    ScopedRun(env, SampleAlts[1], s, f);
  }

  /** The `Keyword` alternative, in its own frame, on a bare "{". */
  lemma AltKeywordBare(env: Env, s: St, f: nat)
    requires Ready(env, s) && BareOpenAt(env.data, s.pt.offset) && f >= 10
    ensures var c := Scoped(env, SampleAlts[1], s, f); !c.ok && Calm(s, c.st)
  {
    RefAt(env, SampleAlts[1], Pushed(s), f);
    KeywordBare(env, Pushed(s), f - 1);
    ScopedRun(env, SampleAlts[1], s, f);
  }

  /** The `Spacing` alternative, in its own frame, where there is no spacing. */
  lemma AltSpacingFails(env: Env, s: St, f: nat)
    requires Ready(env, s) && NotSpace(env.data, s.pt.offset) && f >= 5
    ensures var c := Scoped(env, SampleAlts[2], s, f); !c.ok && Calm(s, c.st)
  {
    RefAt(env, SampleAlts[2], Pushed(s), f);
    SpacingFails(env, Pushed(s), f - 1);
    ScopedRun(env, SampleAlts[2], s, f);
  }

  /** The `Identifier` alternative fails calmly on "{". */
  lemma AltIdentifierBrace(env: Env, s: St, f: nat)
    requires Ready(env, s) && s.pt.offset < |env.data| && env.data[s.pt.offset] == 123 && f >= 4
    ensures var c := Scoped(env, SampleAlts[0], s, f); !c.ok && Calm(s, c.st)
  {
    AltIdentifier(env, s, f, s.pt.offset);
  }

  /** A round on a padded keyword: `Identifier` fails on the brace and
      `Keyword` yields the keyword token. */
  lemma AltsPadded(env: Env, s: St, f: nat, a: nat, b: nat, k: nat)
    requires Ready(env, s) && PaddedAt(env.data, s.pt.offset, a, b, k) && f >= k - s.pt.offset + 9
    ensures var c := EvalAlts(env, SampleAlts, 0, s, f);
      c.ok && c.v == Tok(Token(true, env.data[a..b])) && c.st.pt.offset == k + 1 && Calm(s, c.st)
  {
    AltIdentifierBrace(env, s, f);
    AltsNext(env, SampleAlts, 0, s, f);
    var a0 := Scoped(env, SampleAlts[0], s, f);
    AltKeywordPadded(env, a0.st, f, a, b, k);
    AltsHere(env, SampleAlts, 1, a0.st, f);
  }

  /** The same round in the choice's own frame. */
  lemma RoundPadded(env: Env, s: St, fuel: nat, a: nat, b: nat, k: nat)
    requires Ready(env, s) && PaddedAt(env.data, s.pt.offset, a, b, k) && fuel >= k - s.pt.offset + 10
    ensures var c := Scoped(env, SampleChoice, s, fuel);
      c.ok && c.v == Tok(Token(true, env.data[a..b])) && c.st.pt.offset == k + 1 && Calm(s, c.st)
  {
    SampleChoiceAlts(env, Pushed(s), fuel);
    AltsPadded(env, Pushed(s), fuel - 1, a, b, k);
    ScopedRun(env, SampleChoice, s, fuel);
  }

  /** A round on a bare "{" fails: no alternative reads the brace. */
  lemma AltsBare(env: Env, s: St, f: nat)
    requires Ready(env, s) && BareOpenAt(env.data, s.pt.offset) && f >= 10
    ensures var c := EvalAlts(env, SampleAlts, 0, s, f); !c.ok && Calm(s, c.st)
  {
    AltIdentifierBrace(env, s, f);
    AltsNext(env, SampleAlts, 0, s, f);
    var a0 := Scoped(env, SampleAlts[0], s, f);
    AltKeywordBare(env, a0.st, f);
    AltsNext(env, SampleAlts, 1, a0.st, f);
    var a1 := Scoped(env, SampleAlts[1], a0.st, f);
    AltSpacingFails(env, a1.st, f);
    AltsNext(env, SampleAlts, 2, a1.st, f);
  }

  /** The same round in the choice's own frame. */
  lemma RoundBare(env: Env, s: St, fuel: nat)
    requires Ready(env, s) && BareOpenAt(env.data, s.pt.offset) && fuel >= 11
    ensures var c := Scoped(env, SampleChoice, s, fuel); !c.ok && Calm(s, c.st)
  {
    SampleChoiceAlts(env, Pushed(s), fuel);
    AltsBare(env, Pushed(s), fuel - 1);
    ScopedRun(env, SampleChoice, s, fuel);
  }

  // `Sample`.

  /** `( Identifier / Keyword / Spacing )*`. */
  const SampleStar: Expr := ZeroOrMoreExpr(3, Position(33, 6, 714), SampleChoice)

  /** `vs:( Identifier / Keyword / Spacing )*` binds the repetition's values
      in the rule's frame. */
  lemma SampleLabel(env: Env, s: St, fuel: nat)
    requires Ready(env, s) && fuel >= 2
    requires Calm(Pushed(s), EvalStar(env, SampleChoice, Pushed(s), fuel - 2, fuel - 2, []).st)
    ensures var it := EvalStar(env, SampleChoice, Pushed(s), fuel - 2, fuel - 2, []);
      var l := Eval(env, SampleRule.expr.expr, s, fuel); var top := s.vstack[|s.vstack| - 1];
      l.ok && Calm(s, l.st) && l.st.vstack == s.vstack[|s.vstack| - 1 := top["vs" := List(it.vals)]]
  {
    var lab := SampleRule.expr.expr;
    assert lab.expr == SampleStar;
    StepLabeled(env, lab, s, fuel);
    StepZeroOrMore(env, SampleStar, Pushed(s), fuel - 1);
    ScopedRun(env, SampleStar, s, fuel - 1);
  }

  /** The callback of `Sample` on the values bound to `vs`. */
  lemma ActedSample(env: Env, start: Savepoint, t: St, items: seq<Value>)
    requires env.actions == Actions && start.offset <= t.pt.offset <= |env.data| && |t.vstack| > 0
    requires t.halt == Running && "vs" in t.vstack[|t.vstack| - 1] && t.vstack[|t.vstack| - 1]["vs"] == List(items)
    ensures var a := Acted(env, RunSample1, start, t);
      && a.ok && a.st.halt == Running && a.st.rstack == t.rstack
      && (items == [] ==> a.v == Nil && a.st.errs == t.errs + [ErrorAt(env, t.rstack, "empty sample", start.Pos(), [])])
      && (items != [] ==> a.v == Tokens(TokensOf(items)) && a.st.errs == t.errs)
  {
    var cur := Current(start.Pos(), Cursor.Span(env.data, start.offset, t.pt.offset));
    SampleAction(cur, t.vstack[|t.vstack| - 1], items);
  }

  /** `Sample`'s body hands the repetition's values to the callback: the
      tokens among them when there are any values, "empty sample" otherwise. */
  lemma SampleBody(env: Env, s: St, fuel: nat)
    requires Ready(env, s) && fuel >= 3
    requires Calm(Pushed(s), EvalStar(env, SampleChoice, Pushed(s), fuel - 3, fuel - 3, []).st)
    ensures var it := EvalStar(env, SampleChoice, Pushed(s), fuel - 3, fuel - 3, []);
      var a := Eval(env, SampleRule.expr, s, fuel);
      && a.ok && a.st.halt == Running && a.st.rstack == s.rstack
      && (it.vals == [] ==> a.v == Nil && a.st.errs == s.errs + [ErrorAt(env, s.rstack, "empty sample", s.pt.Pos(), [])])
      && (it.vals != [] ==> a.v == Tokens(TokensOf(it.vals)) && a.st.errs == s.errs)
  {
    var act := SampleRule.expr;
    var it := EvalStar(env, SampleChoice, Pushed(s), fuel - 3, fuel - 3, []);
    SampleLabel(env, s, fuel - 1);
    var l := Eval(env, act.expr, s, fuel - 1);
    ActionRuns(env, act, s, fuel);
    ActedSample(env, s.pt, l.st, it.vals);
  }

  /** When the repetition matched something, `Sample`'s body yields its
      tokens and records no error. */
  lemma SampleTokens(env: Env, s: St, fuel: nat, toks: seq<Token>)
    requires Ready(env, s) && fuel >= 3
    requires var it := EvalStar(env, SampleChoice, Pushed(s), fuel - 3, fuel - 3, []);
      it.vals != [] && TokensOf(it.vals) == toks && Calm(Pushed(s), it.st)
    ensures var a := Eval(env, SampleRule.expr, s, fuel);
      a.ok && a.st.errs == s.errs && a.st.halt == Running && a.v == Tokens(toks)
  {
    SampleBody(env, s, fuel);
  }

  /** The state `parse` evaluates the start rule in, on input starting with
      an ASCII byte other than a newline: the table built, the cursor on the
      first byte at line 1, column 1, no error. */
  lemma AsciiBegin(env: Env)
    requires 0 < |env.data| && env.data[0] < 0x80 && env.data[0] != 10
    ensures Begin(env, G) == NewState.(rules := SampleRuns.SampleRules, pt := Savepoint(1, 1, 0, env.data[0] as int, 1))
  {
    SampleRuns.SampleTable();
  }

  /** The tokens of a single value. */
  lemma TokensOfOne(v: Value)
    ensures TokensOf([v]) == if v.Tok? then [v.token] else []
  {
    assert [v][..0] == [];
  }

  /** A round of the repetition that matches puts its value first: one more
      value, and its token, if any, ahead of the rest. */
  lemma StarRound(env: Env, s: St, f: nat, b: nat)
    requires Inv(env, s) && |s.vstack| > 0 && b > 0 && Scoped(env, SampleChoice, s, f).ok
    ensures var c := Scoped(env, SampleChoice, s, f);
      var q := EvalStar(env, SampleChoice, c.st, f, b - 1, []);
      var it := EvalStar(env, SampleChoice, s, f, b, []);
      && it.vals != [] && it.st == q.st
      && (c.v.Tok? ==> TokensOf(it.vals) == [c.v.token] + TokensOf(q.vals))
      && (!c.v.Tok? ==> TokensOf(it.vals) == TokensOf(q.vals))
  {
    var c := Scoped(env, SampleChoice, s, f);
    var q := EvalStar(env, SampleChoice, c.st, f, b - 1, []);
    Laws.StarUnfold(env, SampleChoice, s, f, b);
    TokensOfAppend([c.v], q.vals);
    TokensOfOne(c.v);
    if !c.v.Tok? {
      assert [] + TokensOf(q.vals) == TokensOf(q.vals);
    }
  }

  /** A calm round with no token, then calm rounds reading `rest`. */
  lemma StarSilent(env: Env, s: St, f: nat, b: nat, rest: seq<Token>)
    requires Inv(env, s) && |s.vstack| > 0 && b > 0
    requires var c := Scoped(env, SampleChoice, s, f); c.ok && !c.v.Tok? && Calm(s, c.st)
    requires var c := Scoped(env, SampleChoice, s, f); var q := EvalStar(env, SampleChoice, c.st, f, b - 1, []);
      TokensOf(q.vals) == rest && Calm(c.st, q.st)
    ensures var it := EvalStar(env, SampleChoice, s, f, b, []); it.vals != [] && TokensOf(it.vals) == rest && Calm(s, it.st)
  {
    StarRound(env, s, f, b);
  }

  /** A calm round yielding `tok`, then calm rounds reading `rest`. */
  lemma StarToken(env: Env, s: St, f: nat, b: nat, tok: Token, rest: seq<Token>)
    requires Inv(env, s) && |s.vstack| > 0 && b > 0
    requires var c := Scoped(env, SampleChoice, s, f); c.ok && c.v == Tok(tok) && Calm(s, c.st)
    requires var c := Scoped(env, SampleChoice, s, f); var q := EvalStar(env, SampleChoice, c.st, f, b - 1, []);
      TokensOf(q.vals) == rest && Calm(c.st, q.st)
    ensures var it := EvalStar(env, SampleChoice, s, f, b, []);
      it.vals != [] && TokensOf(it.vals) == [tok] + rest && Calm(s, it.st)
  {
    StarRound(env, s, f, b);
  }

  // "foo {bar} baz".

  /** The input "foo {bar} baz". */
  const FooBarBaz: seq<byte> := [102, 111, 111, 32, 123, 98, 97, 114, 125, 32, 98, 97, 122]

  /** The pieces of "foo {bar} baz" from `o` to the end: "foo", a space,
      "{bar}", a space, "baz". */
  ghost predicate FooBarBazLaid(data: seq<byte>, o: nat)
  {
    && |data| == o + 13 && IdentTo(data, o, o + 3) && SpacesTo(data, o + 3, o + 4)
    && BracedAt(data, o + 4, o + 8) && SpacesTo(data, o + 9, o + 10) && IdentTo(data, o + 10, o + 13)
  }

  /** Where its pieces lie. */
  lemma FooBarBazPieces()
    ensures Ascii(FooBarBaz) && FooBarBazLaid(FooBarBaz, 0)
    ensures Cursor.Span(FooBarBaz, 0, 3) == [102, 111, 111] && Cursor.Span(FooBarBaz, 5, 8) == [98, 97, 114]
    ensures Cursor.Span(FooBarBaz, 10, 13) == [98, 97, 122]
  {
    Cursor.SpanIsSlice(FooBarBaz, 0, 3);
    Cursor.SpanIsSlice(FooBarBaz, 5, 8);
    Cursor.SpanIsSlice(FooBarBaz, 10, 13);
    forall i | 0 <= i < |FooBarBaz| ensures FooBarBaz[i] < 0x80 {
      assert FooBarBaz[i] in FooBarBaz;
    }
    forall i | 0 <= i < 3 ensures !StopByte(FooBarBaz[i]) {
      assert i == 0 || i == 1 || i == 2;
    }
    forall i | 5 <= i < 8 ensures !StopByte(FooBarBaz[i]) {
      assert i == 5 || i == 6 || i == 7;
    }
    forall i | 10 <= i < 13 ensures !StopByte(FooBarBaz[i]) {
      assert i == 10 || i == 11 || i == 12;
    }
  }

  /** The repetition over "foo {bar} baz" from each piece on: "foo", a
      space, "{bar}", a space, "baz", then the end of the input. */
  lemma FooBarBazEnd(env: Env, s: St, f: nat, b: nat)
    requires Ready(env, s) && s.pt.offset == |env.data| && f >= 6 && b >= 1
    ensures var it := EvalStar(env, SampleChoice, s, f, b, []); it.vals == [] && Calm(s, it.st)
  {
    RoundEnd(env, s, f);
    StarStop(env, SampleChoice, s, f, b);
  }

  lemma FooBarBazFromBaz(env: Env, o: nat, s: St, f: nat, b: nat)
    requires Ready(env, s) && IdentTo(env.data, o + 10, o + 13) && |env.data| == o + 13 && s.pt.offset == o + 10
    requires f >= 8 && b >= 2
    ensures var it := EvalStar(env, SampleChoice, s, f, b, []);
      it.vals != [] && TokensOf(it.vals) == [Token(false, env.data[o + 10..o + 13])] && Calm(s, it.st)
  {
    RoundIdent(env, s, f, o + 13);
    var c := Scoped(env, SampleChoice, s, f);
    FooBarBazEnd(env, c.st, f, b - 1);
    StarToken(env, s, f, b, Token(false, env.data[o + 10..o + 13]), []);
    assert [Token(false, env.data[o + 10..o + 13])] + [] == [Token(false, env.data[o + 10..o + 13])];
  }

  lemma FooBarBazFromSecondSpace(env: Env, o: nat, s: St, f: nat, b: nat)
    requires Ready(env, s) && SpacesTo(env.data, o + 9, o + 10) && IdentTo(env.data, o + 10, o + 13) && |env.data| == o + 13 && s.pt.offset == o + 9
    requires f >= 8 && b >= 3
    ensures var it := EvalStar(env, SampleChoice, s, f, b, []);
      it.vals != [] && TokensOf(it.vals) == [Token(false, env.data[o + 10..o + 13])] && Calm(s, it.st)
  {
    RoundSpace(env, s, f, o + 10);
    var c := Scoped(env, SampleChoice, s, f);
    FooBarBazFromBaz(env, o, c.st, f, b - 1);
    StarSilent(env, s, f, b, [Token(false, env.data[o + 10..o + 13])]);
  }

  lemma FooBarBazFromBar(env: Env, o: nat, s: St, f: nat, b: nat)
    requires Ready(env, s) && BracedAt(env.data, o + 4, o + 8) && SpacesTo(env.data, o + 9, o + 10) && IdentTo(env.data, o + 10, o + 13) && |env.data| == o + 13
    requires s.pt.offset == o + 4 && f >= 13 && b >= 4
    ensures var it := EvalStar(env, SampleChoice, s, f, b, []);
      && it.vals != [] && TokensOf(it.vals) == [Token(true, env.data[o + 5..o + 8]), Token(false, env.data[o + 10..o + 13])]
      && Calm(s, it.st)
  {
    RoundKeyword(env, s, f, o + 8);
    var c := Scoped(env, SampleChoice, s, f);
    FooBarBazFromSecondSpace(env, o, c.st, f, b - 1);
    StarToken(env, s, f, b, Token(true, env.data[o + 5..o + 8]), [Token(false, env.data[o + 10..o + 13])]);
  }

  lemma FooBarBazFromFirstSpace(env: Env, o: nat, s: St, f: nat, b: nat)
    requires Ready(env, s) && SpacesTo(env.data, o + 3, o + 4) && BracedAt(env.data, o + 4, o + 8)
    requires SpacesTo(env.data, o + 9, o + 10) && IdentTo(env.data, o + 10, o + 13) && |env.data| == o + 13 && s.pt.offset == o + 3 && f >= 13 && b >= 5
    ensures var it := EvalStar(env, SampleChoice, s, f, b, []);
      && it.vals != [] && TokensOf(it.vals) == [Token(true, env.data[o + 5..o + 8]), Token(false, env.data[o + 10..o + 13])]
      && Calm(s, it.st)
  {
    RoundSpace(env, s, f, o + 4);
    var c := Scoped(env, SampleChoice, s, f);
    FooBarBazFromBar(env, o, c.st, f, b - 1);
    StarSilent(env, s, f, b, [Token(true, env.data[o + 5..o + 8]), Token(false, env.data[o + 10..o + 13])]);
  }

  lemma FooBarBazRounds(env: Env, o: nat, s: St, f: nat, b: nat)
    requires Ready(env, s) && FooBarBazLaid(env.data, o) && s.pt.offset == o && f >= 13 && b >= 6
    ensures var it := EvalStar(env, SampleChoice, s, f, b, []);
      && it.vals != [] && Calm(s, it.st)
      && TokensOf(it.vals) == [Token(false, env.data[o..o + 3]), Token(true, env.data[o + 5..o + 8]), Token(false, env.data[o + 10..o + 13])]
  {
    RoundIdent(env, s, f, o + 3);
    var c := Scoped(env, SampleChoice, s, f);
    FooBarBazFromFirstSpace(env, o, c.st, f, b - 1);
    StarToken(env, s, f, b, Token(false, env.data[o..o + 3]), [Token(true, env.data[o + 5..o + 8]), Token(false, env.data[o + 10..o + 13])]);
  }

  /** Where `parse` evaluates `Sample`'s body: in the rule's own frame,
      from the state `Begin` gives. */
  function StartFrame(env: Env): St
  {
    Pushed(Begin(env, G).(rstack := [SampleRule]))
  }

  /** On ASCII input starting with a byte other than a newline the start
      frame is a setting of the facts above. */
  lemma StartReady(env: Env)
    requires env.actions == Actions && !env.memoize && Ascii(env.data)
    requires 0 < |env.data| && env.data[0] != 10
    ensures Ready(env, StartFrame(env)) && StartFrame(env).pt.offset == 0 && StartFrame(env).errs == []
  {
    AsciiBegin(env);
    assert Utf8.DecodeRune(env.data, 0) == (env.data[0] as int, 1);
  }

  /** `parse`'s result is `Sample`'s body evaluated in the start frame. */
  lemma StartRule(env: Env, fuel: nat)
    requires !env.memoize
    ensures var a := Eval(env, SampleRule.expr, StartFrame(env), fuel); var res := Run(env, G, fuel);
      res.ok == a.ok && res.v == a.v && res.st.errs == a.st.errs && res.st.halt == a.st.halt
  {
    assert Run(env, G, fuel) == EvalRuleBody(env, SampleRule, Begin(env, G), fuel);
  }

  /** The repetition of `Sample`'s body over "foo {bar} baz", in the rule's frame. */
  lemma FooBarBazStar(env: Env, p: St, f: nat)
    requires Ready(env, p) && FooBarBazLaid(env.data, p.pt.offset) && f >= 13
    ensures var it := EvalStar(env, SampleChoice, p, f, f, []); var o := p.pt.offset;
      && it.vals != [] && Calm(p, it.st)
      && TokensOf(it.vals) == [Token(false, env.data[o..o + 3]), Token(true, env.data[o + 5..o + 8]), Token(false, env.data[o + 10..o + 13])]
  {
    FooBarBazRounds(env, p.pt.offset, p, f, f);
  }

  /** The three token texts, read off the input. */
  lemma FooBarBazTexts(data: seq<byte>, o: nat)
    requires o + 13 <= |data|
    ensures [Token(false, data[o..o + 3]), Token(true, data[o + 5..o + 8]), Token(false, data[o + 10..o + 13])]
         == [Token(false, Cursor.Span(data, o, o + 3)), Token(true, Cursor.Span(data, o + 5, o + 8)),
             Token(false, Cursor.Span(data, o + 10, o + 13))]
  {
    Cursor.SpanIsSlice(data, o, o + 3);
    Cursor.SpanIsSlice(data, o + 5, o + 8);
    Cursor.SpanIsSlice(data, o + 10, o + 13);
  }

  /** `Sample`'s body over "foo {bar} baz" yields the three tokens, in
      order, and records no error. */
  lemma FooBarBazSample(env: Env, s: St, fuel: nat)
    requires Ready(env, s) && FooBarBazLaid(env.data, s.pt.offset) && fuel >= 16
    ensures var a := Eval(env, SampleRule.expr, s, fuel); var o := s.pt.offset;
      && a.ok && a.st.errs == s.errs && a.st.halt == Running
      && a.v == Tokens([Token(false, Cursor.Span(env.data, o, o + 3)), Token(true, Cursor.Span(env.data, o + 5, o + 8)),
                        Token(false, Cursor.Span(env.data, o + 10, o + 13))])
  {
    var o := s.pt.offset;
    PushedReady(env, s);
    FooBarBazStar(env, Pushed(s), fuel - 3);
    FooBarBazTexts(env.data, o);
    SampleTokens(env, s, fuel, [Token(false, Cursor.Span(env.data, o, o + 3)), Token(true, Cursor.Span(env.data, o + 5, o + 8)),
                                Token(false, Cursor.Span(env.data, o + 10, o + 13))]);
  }

  /** The start rule over "foo {bar} baz" yields the three tokens, in order,
      and records no error. */
  lemma FooBarBazRun(env: Env, fuel: nat)
    requires env.data == FooBarBaz && !env.memoize && env.actions == Actions && fuel >= 16
    ensures var res := Run(env, G, fuel);
      && res.ok && res.st.errs == [] && res.st.halt == Running
      && res.v == Tokens([Token(false, [102, 111, 111]), Token(true, [98, 97, 114]), Token(false, [98, 97, 122])])
  {
    FooBarBazPieces();
    StartReady(env);
    FooBarBazSample(env, StartFrame(env), fuel);
    StartRule(env, fuel);
  }

  /** "foo {bar} baz" parses to the plain token "foo", the keyword token
      "bar" and the plain token "baz", in order, with no error. */
  lemma FooBarBazTokens(filename: string, recover: bool, fuel: nat, r: Outcome)
    requires fuel >= 16 && ParseOutcome(SampleEnv(filename, FooBarBaz, false, recover), G, fuel, r)
    ensures r == Outcome(Tokens([Token(false, [102, 111, 111]), Token(true, [98, 97, 114]),
                                 Token(false, [98, 97, 122])]), [])
  {
    FooBarBazRun(SampleEnv(filename, FooBarBaz, false, recover), fuel);
    assert Deduped([]) == [];
  }

  // "   ".

  /** The input "   ": spacing only. */
  const ThreeSpaces: seq<byte> := [32, 32, 32]

  /** The repetition over "   ": one round of spacing, then the end. */
  lemma ThreeSpacesRounds(env: Env, s: St, f: nat, b: nat)
    requires Ready(env, s) && SpacesTo(env.data, s.pt.offset, s.pt.offset + 3) && |env.data| == s.pt.offset + 3
    requires f >= 9 && b >= 2
    ensures var it := EvalStar(env, SampleChoice, s, f, b, []); it.vals != [] && TokensOf(it.vals) == [] && Calm(s, it.st)
  {
    RoundSpace(env, s, f, s.pt.offset + 3);
    var c := Scoped(env, SampleChoice, s, f);
    RoundEnd(env, c.st, f);
    StarStop(env, SampleChoice, c.st, f, b - 1);
    StarSilent(env, s, f, b, []);
  }

  /** `Sample`'s body over "   " matched one value, a list: no token, and
      no "empty sample" error. */
  lemma ThreeSpacesSample(env: Env, s: St, fuel: nat)
    requires Ready(env, s) && SpacesTo(env.data, s.pt.offset, s.pt.offset + 3) && |env.data| == s.pt.offset + 3
    requires fuel >= 12
    ensures var a := Eval(env, SampleRule.expr, s, fuel);
      a.ok && a.st.errs == s.errs && a.st.halt == Running && a.v == Tokens([])
  {
    PushedReady(env, s);
    ThreeSpacesRounds(env, Pushed(s), fuel - 3, fuel - 3);
    SampleTokens(env, s, fuel, []);
  }

  /** "   " parses to an empty list of tokens with no error: the repetition
      matched the spacing, so the callback does not see an empty sample. */
  lemma ThreeSpacesTokens(filename: string, recover: bool, fuel: nat, r: Outcome)
    requires fuel >= 12 && ParseOutcome(SampleEnv(filename, ThreeSpaces, false, recover), G, fuel, r)
    ensures r == Outcome(Tokens([]), [])
  {
    var env := SampleEnv(filename, ThreeSpaces, false, recover);
    forall i | 0 <= i < |ThreeSpaces| ensures ThreeSpaces[i] < 0x80 {
      assert ThreeSpaces[i] in ThreeSpaces;
    }
    assert SpacesTo(ThreeSpaces, 0, 3);
    StartReady(env);
    ThreeSpacesSample(env, StartFrame(env), fuel);
    StartRule(env, fuel);
    assert Deduped([]) == [];
  }

  // "{".

  /** The input "{": an unterminated brace. */
  const OpenBrace: seq<byte> := [123]

  /** The repetition over "{" stops at once, with no value. */
  lemma OpenBraceRounds(env: Env, s: St, f: nat, b: nat)
    requires Ready(env, s) && BareOpenAt(env.data, s.pt.offset) && |env.data| == s.pt.offset + 1 && f >= 11 && b >= 1
    ensures var it := EvalStar(env, SampleChoice, s, f, b, []); it.vals == [] && Calm(s, it.st)
  {
    RoundBare(env, s, f);
    StarStop(env, SampleChoice, s, f, b);
  }

  /** `Sample`'s body over "{" matched nothing: the callback reports "empty
      sample" at the start. */
  lemma OpenBraceSample(env: Env, s: St, fuel: nat)
    requires Ready(env, s) && BareOpenAt(env.data, s.pt.offset) && |env.data| == s.pt.offset + 1 && fuel >= 14
    ensures var a := Eval(env, SampleRule.expr, s, fuel);
      && a.ok && a.st.halt == Running && a.v == Nil
      && a.st.errs == s.errs + [ErrorAt(env, s.rstack, "empty sample", s.pt.Pos(), [])]
  {
    OpenBraceRounds(env, Pushed(s), fuel - 3, fuel - 3);
    SampleBody(env, s, fuel);
  }

  /** "{" parses to no value and the single "empty sample" error at line 1,
      column 1, in rule "sample": no alternative reads the brace, neither as
      a keyword nor as identifier text. */
  lemma OpenBraceTokens(filename: string, recover: bool, fuel: nat, r: Outcome)
    requires fuel >= 14 && ParseOutcome(SampleEnv(filename, OpenBrace, false, recover), G, fuel, r)
    ensures r == Outcome(Nil, [ParserError("empty sample", Position(1, 1, 0), filename, Some("\"sample\""), [])])
  {
    var env := SampleEnv(filename, OpenBrace, false, recover);
    assert BareOpenAt(OpenBrace, 0);
    StartReady(env);
    AsciiBegin(env);
    OpenBraceSample(env, StartFrame(env), fuel);
    StartRule(env, fuel);
    var e := ParserError("empty sample", Position(1, 1, 0), filename, Some("\"sample\""), []);
    assert StartFrame(env).rstack == [SampleRule] && StartFrame(env).pt.Pos() == Position(1, 1, 0);
    assert ErrorAt(env, [SampleRule], "empty sample", Position(1, 1, 0), []) == e;
    assert [] + [e] == [e];
    assert Run(env, G, fuel).st.errs == [e];
    Errors.DedupeSingleton(e);
  }

  // "{ bar }".

  /** The input "{ bar }": a keyword padded with spaces. */
  const PaddedBar: seq<byte> := [123, 32, 98, 97, 114, 32, 125]

  /** Where its pieces lie. */
  lemma PaddedBarPieces()
    ensures Ascii(PaddedBar) && PaddedAt(PaddedBar, 0, 2, 5, 6) && Cursor.Span(PaddedBar, 2, 5) == [98, 97, 114]
  {
    Cursor.SpanIsSlice(PaddedBar, 2, 5);
    forall i | 0 <= i < |PaddedBar| ensures PaddedBar[i] < 0x80 {
      assert PaddedBar[i] in PaddedBar;
    }
    forall i | 2 <= i < 5 ensures !StopByte(PaddedBar[i]) {
      assert i == 2 || i == 3 || i == 4;
    }
  }

  /** The repetition over "{ bar }": one keyword round, then the end. */
  lemma PaddedBarRounds(env: Env, o: nat, s: St, f: nat, b: nat)
    requires Ready(env, s) && s.pt.offset == o && PaddedAt(env.data, o, o + 2, o + 5, o + 6) && |env.data| == o + 7
    requires f >= 16 && b >= 2
    ensures var it := EvalStar(env, SampleChoice, s, f, b, []);
      it.vals != [] && TokensOf(it.vals) == [Token(true, env.data[o + 2..o + 5])] && Calm(s, it.st)
  {
    RoundPadded(env, s, f, o + 2, o + 5, o + 6);
    var c := Scoped(env, SampleChoice, s, f);
    RoundEnd(env, c.st, f);
    StarStop(env, SampleChoice, c.st, f, b - 1);
    StarToken(env, s, f, b, Token(true, env.data[o + 2..o + 5]), []);
    assert [Token(true, env.data[o + 2..o + 5])] + [] == [Token(true, env.data[o + 2..o + 5])];
  }

  /** `Sample`'s body over "{ bar }" yields the one keyword token. */
  lemma PaddedBarSample(env: Env, o: nat, s: St, fuel: nat)
    requires Ready(env, s) && PaddedAt(env.data, o, o + 2, o + 5, o + 6) && |env.data| == o + 7 && s.pt.offset == o
    requires fuel >= 19
    ensures var a := Eval(env, SampleRule.expr, s, fuel);
      a.ok && a.st.errs == s.errs && a.st.halt == Running && a.v == Tokens([Token(true, Cursor.Span(env.data, o + 2, o + 5))])
  {
    PushedReady(env, s);
    PaddedBarRounds(env, o, Pushed(s), fuel - 3, fuel - 3);
    Cursor.SpanIsSlice(env.data, o + 2, o + 5);
    SampleTokens(env, s, fuel, [Token(true, env.data[o + 2..o + 5])]);
  }

  /** "{ bar }" parses to the single keyword token "bar", with no error. */
  lemma PaddedBarTokens(filename: string, recover: bool, fuel: nat, r: Outcome)
    requires fuel >= 19 && ParseOutcome(SampleEnv(filename, PaddedBar, false, recover), G, fuel, r)
    ensures r == Outcome(Tokens([Token(true, [98, 97, 114])]), [])
  {
    var env := SampleEnv(filename, PaddedBar, false, recover);
    PaddedBarPieces();
    StartReady(env);
    PaddedBarSample(env, 0, StartFrame(env), fuel);
    StartRule(env, fuel);
    assert Deduped([]) == [];
  }
}
