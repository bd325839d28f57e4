/** Laws of PEG evaluation, proved about the reference semantics: how ordered
    choice, sequences, repetitions, options, lookaheads, actions and the memo
    table combine the results of their children. Because every evaluation
    method of `Engine.Parser` computes its `Semantics` function exactly, each
    law holds of the parser as well. */
module Laws {
  import opened Values
  import opened Grammar
  import opened Memo
  import opened Semantics
  import Cursor

  // Ordered choice.

  /** One alternative of the choice loop: a success is the result, a failure
      moves on to the next alternative from the state it left. */
  lemma AltsStep(env: Env, alts: seq<Expr>, i: nat, s: St, fuel: nat)
    requires i < |alts| && Inv(env, s) && |s.vstack| > 0
    ensures var c := Scoped(env, alts[i], s, fuel);
      EvalAlts(env, alts, i, s, fuel) == if c.ok then c else EvalAlts(env, alts, i + 1, c.st, fuel)
  {
  }

  /** Alternatives past the end of `alts` are those of `more`. */
  lemma {:induction false} AltsShift(env: Env, alts: seq<Expr>, more: seq<Expr>, j: nat, s: St, fuel: nat)
    requires j <= |more| && Inv(env, s) && |s.vstack| > 0
    ensures EvalAlts(env, alts + more, |alts| + j, s, fuel) == EvalAlts(env, more, j, s, fuel)
    decreases |more| - j
  {
    if j < |more| {
      assert (alts + more)[|alts| + j] == more[j];
      var c := Scoped(env, more[j], s, fuel);
      if !c.ok {
        AltsShift(env, alts, more, j + 1, c.st, fuel);
      }
    }
  }

  /** A choice over `alts + more` is the choice over `alts` and, only if that
      failed, the choice over `more` from the state it left: the first success
      is the result and no later alternative is evaluated. */
  lemma {:induction false} AltsAppend(env: Env, alts: seq<Expr>, more: seq<Expr>, i: nat, s: St, fuel: nat)
    requires i <= |alts| && Inv(env, s) && |s.vstack| > 0
    ensures var r := EvalAlts(env, alts, i, s, fuel);
      EvalAlts(env, alts + more, i, s, fuel) == if r.ok then r else EvalAlts(env, more, 0, r.st, fuel)
    decreases |alts| - i
  {
    if i == |alts| {
      AltsShift(env, alts, more, 0, s, fuel);
    } else {
      assert (alts + more)[i] == alts[i];
      var c := Scoped(env, alts[i], s, fuel);
      AltsStep(env, alts + more, i, s, fuel);
      AltsStep(env, alts, i, s, fuel);
      if !c.ok {
        AltsAppend(env, alts, more, i + 1, c.st, fuel);
      }
    }
  }

  /** A choice of one alternative is that alternative in its own frame. */
  lemma ChoiceSingle(env: Env, x: Expr, s: St, fuel: nat)
    requires Inv(env, s) && |s.vstack| > 0
    ensures EvalAlts(env, [x], 0, s, fuel) == Scoped(env, x, s, fuel)
  {
  }

  /** If the alternatives before `x` all fail and `x` then succeeds, the choice
      is `x`'s result; the alternatives after it are never evaluated. */
  lemma ChoiceFirstSuccess(env: Env, e: Expr, pre: seq<Expr>, x: Expr, post: seq<Expr>, s: St, fuel: nat)
    requires e.ChoiceExpr? && e.alternatives == pre + [x] + post && Inv(env, s) && |s.vstack| > 0
    requires !EvalAlts(env, pre, 0, s, fuel).ok
    requires Scoped(env, x, EvalAlts(env, pre, 0, s, fuel).st, fuel).ok
    ensures EvalChoice(env, e, s, fuel) == Scoped(env, x, EvalAlts(env, pre, 0, s, fuel).st, fuel)
  {
    var t := EvalAlts(env, pre, 0, s, fuel).st;
    AltsAppend(env, pre + [x], post, 0, s, fuel);
    AltsAppend(env, pre, [x], 0, s, fuel);
    ChoiceSingle(env, x, t, fuel);
  }

  /** A choice fails exactly when every alternative fails, each evaluated from
      the state the previous one left. */
  lemma {:induction false} AltsFail(env: Env, alts: seq<Expr>, i: nat, s: St, fuel: nat)
    requires i <= |alts| && Inv(env, s) && |s.vstack| > 0
    ensures var r := EvalAlts(env, alts, i, s, fuel);
      !r.ok <==> (i == |alts| || (!Scoped(env, alts[i], s, fuel).ok && !EvalAlts(env, alts, i + 1, Scoped(env, alts[i], s, fuel).st, fuel).ok))
  {
  }

  // Sequences.

  /** The values a sequence collects before child `i` only prefix the rest. */
  lemma {:induction false} ItemsAcc(env: Env, xs: seq<Expr>, i: nat, s: St, fuel: nat, vals: seq<Value>)
    requires i <= |xs| && Inv(env, s) && |s.vstack| > 0
    ensures var r := EvalItems(env, xs, i, s, fuel, []);
      EvalItems(env, xs, i, s, fuel, vals) == Items(vals + r.vals, r.ok, r.st)
    decreases |xs| - i
  {
    assert vals + [] == vals;
    if i < |xs| {
      var c := Eval(env, xs[i], s, fuel);
      if c.ok {
        var q := EvalItems(env, xs, i + 1, c.st, fuel, []);
        assert [] + [c.v] == [c.v];
        assert EvalItems(env, xs, i, s, fuel, vals) == EvalItems(env, xs, i + 1, c.st, fuel, vals + [c.v]);
        assert EvalItems(env, xs, i, s, fuel, []) == EvalItems(env, xs, i + 1, c.st, fuel, [c.v]);
        ItemsAcc(env, xs, i + 1, c.st, fuel, vals + [c.v]);
        ItemsAcc(env, xs, i + 1, c.st, fuel, [c.v]);
        assert vals + [c.v] + q.vals == vals + ([c.v] + q.vals);
      }
    }
  }

  /** Children past the end of `xs` are those of `ys`. */
  lemma {:induction false} ItemsShift(env: Env, xs: seq<Expr>, ys: seq<Expr>, j: nat, s: St, fuel: nat, vals: seq<Value>)
    requires j <= |ys| && Inv(env, s) && |s.vstack| > 0
    ensures EvalItems(env, xs + ys, |xs| + j, s, fuel, vals) == EvalItems(env, ys, j, s, fuel, vals)
    decreases |ys| - j
  {
    if j < |ys| {
      assert (xs + ys)[|xs| + j] == ys[j];
      var c := Eval(env, ys[j], s, fuel);
      if c.ok {
        ItemsShift(env, xs, ys, j + 1, c.st, fuel, vals + [c.v]);
      }
    }
  }

  /** A sequence starting with `x`: it succeeds exactly when `x` succeeds and
      then the rest succeeds from where `x` left the cursor, and its values are
      `x`'s value followed by the rest's, in order. A failure of either goes
      back to the start. */
  lemma SeqCons(env: Env, e: Expr, x: Expr, rest: seq<Expr>, s: St, fuel: nat)
    requires e.SeqExpr? && e.exprs == [x] + rest && Inv(env, s) && |s.vstack| > 0
    ensures var c := Eval(env, x, s, fuel);
      var r := EvalSeq(env, e, s, fuel);
      && (!c.ok ==> r == Res(Nil, false, c.st))
      && (c.ok ==>
            var q := EvalItems(env, rest, 0, c.st, fuel, []);
            && r.ok == q.ok
            && (q.ok ==> r == Res(List([c.v] + q.vals), true, q.st))
            && (!q.ok ==> r == Res(Nil, false, RestoredTo(q.st, s.pt))))
  {
    var c := Eval(env, x, s, fuel);
    if c.ok {
      assert [] + [c.v] == [c.v];
      ItemsShift(env, [x], rest, 0, c.st, fuel, [c.v]);
      ItemsAcc(env, rest, 0, c.st, fuel, [c.v]);
    }
  }

  /** An empty sequence succeeds with no values and changes nothing. */
  lemma SeqEmpty(env: Env, e: Expr, s: St, fuel: nat)
    requires e.SeqExpr? && e.exprs == [] && Inv(env, s) && |s.vstack| > 0
    ensures EvalSeq(env, e, s, fuel) == Res(List([]), true, s)
  {
  }

  // Repetitions.

  /** The values a repetition collected so far only prefix the later ones. */
  lemma {:induction false} StarAcc(env: Env, x: Expr, s: St, fuel: nat, budget: nat, vals: seq<Value>)
    requires Inv(env, s) && |s.vstack| > 0
    ensures var r := EvalStar(env, x, s, fuel, budget, []);
      EvalStar(env, x, s, fuel, budget, vals) == Items(vals + r.vals, r.ok, r.st)
    decreases budget
  {
    assert vals + [] == vals;
    if budget > 0 {
      var c := Scoped(env, x, s, fuel);
      if c.ok {
        StarAcc(env, x, c.st, fuel, budget - 1, vals + [c.v]);
        StarAcc(env, x, c.st, fuel, budget - 1, [c.v]);
        StarAccRound(env, x, s, fuel, budget, vals);
      }
    }
  }

  /** The successful round of `StarAcc`, given its claim for the rest. */
  lemma StarAccRound(env: Env, x: Expr, s: St, fuel: nat, budget: nat, vals: seq<Value>)
    requires Inv(env, s) && |s.vstack| > 0 && budget > 0 && Scoped(env, x, s, fuel).ok
    requires var c := Scoped(env, x, s, fuel);
      var q := EvalStar(env, x, c.st, fuel, budget - 1, []);
      && EvalStar(env, x, c.st, fuel, budget - 1, vals + [c.v]) == Items(vals + [c.v] + q.vals, q.ok, q.st)
      && EvalStar(env, x, c.st, fuel, budget - 1, [c.v]) == Items([c.v] + q.vals, q.ok, q.st)
    ensures var r := EvalStar(env, x, s, fuel, budget, []);
      EvalStar(env, x, s, fuel, budget, vals) == Items(vals + r.vals, r.ok, r.st)
  {
    var c := Scoped(env, x, s, fuel);
    var q := EvalStar(env, x, c.st, fuel, budget - 1, []);
    assert [] + [c.v] == [c.v];
    assert vals + [c.v] + q.vals == vals + ([c.v] + q.vals);
  }

  /** One round of a repetition: if the child fails the loop ends with what it
      has; otherwise the child's value comes first and the repetition goes on
      from where the child left the cursor. */
  lemma StarUnfold(env: Env, x: Expr, s: St, fuel: nat, budget: nat)
    requires Inv(env, s) && |s.vstack| > 0 && budget > 0
    ensures var c := Scoped(env, x, s, fuel);
      var r := EvalStar(env, x, s, fuel, budget, []);
      && (!c.ok ==> r == Items([], true, c.st))
      && (c.ok ==>
            var q := EvalStar(env, x, c.st, fuel, budget - 1, []);
            r == Items([c.v] + q.vals, true, q.st))
  {
    var c := Scoped(env, x, s, fuel);
    if c.ok {
      assert [] + [c.v] == [c.v];
      StarAcc(env, x, c.st, fuel, budget - 1, [c.v]);
    }
  }

  /** `e*` is `e e*` or nothing: a zero-or-more whose child fails at once
      succeeds with no values; otherwise its values are the child's value
      followed by those of the repetition from there. */
  lemma ZeroOrMoreUnfold(env: Env, e: Expr, s: St, fuel: nat)
    requires e.ZeroOrMoreExpr? && Inv(env, s) && |s.vstack| > 0 && fuel > 0
    ensures var c := Scoped(env, e.expr, s, fuel);
      var r := EvalZeroOrMore(env, e, s, fuel);
      && (!c.ok ==> r == Res(List([]), true, c.st))
      && (c.ok ==>
            var q := EvalStar(env, e.expr, c.st, fuel, fuel - 1, []);
            r == Res(List([c.v] + q.vals), true, q.st))
  {
    StarUnfold(env, e.expr, s, fuel, fuel);
  }

  /** One-or-more is zero-or-more that must match once: the same child leaves
      the same state; one-or-more fails exactly when zero-or-more collects no
      value, and otherwise both yield the same values. With fuel, one-or-more
      fails exactly when its first round fails. */
  lemma OneOrMoreIsZeroOrMore(env: Env, plus: Expr, star: Expr, s: St, fuel: nat)
    requires plus.OneOrMoreExpr? && star.ZeroOrMoreExpr? && plus.expr == star.expr
    requires Inv(env, s) && |s.vstack| > 0
    ensures var p := EvalOneOrMore(env, plus, s, fuel);
      var z := EvalZeroOrMore(env, star, s, fuel);
      && p.st == z.st
      && (p.ok <==> z.v != List([]))
      && (p.ok ==> p.v == z.v)
    ensures fuel > 0 ==> (EvalOneOrMore(env, plus, s, fuel).ok <==> Scoped(env, plus.expr, s, fuel).ok)
  {
    if fuel > 0 {
      StarUnfold(env, plus.expr, s, fuel, fuel);
    }
  }

  /** Every round of a repetition succeeded: the values are exactly the
      successes, one per round, and the round after the last one failed or the
      budget ran out. */
  lemma {:induction false} StarRounds(env: Env, x: Expr, s: St, fuel: nat, budget: nat)
    requires Inv(env, s) && |s.vstack| > 0
    ensures var r := EvalStar(env, x, s, fuel, budget, []);
      |r.vals| <= budget
      && (|r.vals| == budget ==> budget == 0 || Scoped(env, x, s, fuel).ok)
      && (|r.vals| < budget ==> (r.vals == [] <==> !Scoped(env, x, s, fuel).ok))
    decreases budget
  {
    if budget > 0 {
      StarUnfold(env, x, s, fuel, budget);
      var c := Scoped(env, x, s, fuel);
      if c.ok {
        StarRounds(env, x, c.st, fuel, budget - 1);
      }
    }
  }

  // Option and lookahead.

  /** `e?` always succeeds, with the child's value, and on the child's failure
      with nil and the cursor where it was. */
  lemma ZeroOrOneValue(env: Env, e: Expr, s: St, fuel: nat)
    requires e.ZeroOrOneExpr? && Inv(env, s) && |s.vstack| > 0
    ensures var c := Scoped(env, e.expr, s, fuel);
      var r := EvalZeroOrOne(env, e, s, fuel);
      r.ok && r.v == c.v && r.st == c.st && (!c.ok ==> r.v == Nil && r.st.pt == s.pt)
  {
  }

  /** `&e` has the child's verdict, `!e` the opposite of it (the child run with
      the fail record inverted); neither yields a value nor moves the cursor,
      and both leave the scope stack as it was. */
  lemma LookaheadVerdicts(env: Env, and: Expr, not: Expr, s: St, fuel: nat)
    requires and.AndExpr? && not.NotExpr? && Inv(env, s) && |s.vstack| > 0
    ensures var r := EvalAnd(env, and, s, fuel);
      r.ok == Eval(env, and.expr, Pushed(s), fuel).ok && r.v == Nil && r.st.pt == s.pt && r.st.vstack == s.vstack
    ensures var r := EvalNot(env, not, s, fuel);
      r.ok == !Eval(env, not.expr, Pushed(s).(invert := !s.invert), fuel).ok
      && r.v == Nil && r.st.pt == s.pt && r.st.vstack == s.vstack && r.st.invert == s.invert
  {
  }

  // Actions and rule references.

  /** An action whose callback returns an error still matches: the result is
      the callback's value, the error is recorded at the start of the match,
      and the cursor stays after the match. */
  lemma ActionErrorKeepsMatch(env: Env, e: Expr, s: St, fuel: nat)
    requires e.ActionExpr? && Inv(env, s) && |s.vstack| > 0
    requires var c := Eval(env, e.expr, s, fuel);
      c.ok && c.st.halt == Running && c.st.pt.offset <= |env.data|
      && env.actions(e.run, Current(s.pt.Pos(), Cursor.Span(env.data, s.pt.offset, c.st.pt.offset)),
                     c.st.vstack[|c.st.vstack| - 1]).Returned?
    ensures var c := Eval(env, e.expr, s, fuel);
      var cur := Current(s.pt.Pos(), Cursor.Span(env.data, s.pt.offset, c.st.pt.offset));
      var a := env.actions(e.run, cur, c.st.vstack[|c.st.vstack| - 1]);
      var r := EvalAction(env, e, s, fuel);
      && r.ok && r.v == a.value && r.st.pt == c.st.pt && r.st.halt == Running
      && (a.err.Some? ==> r.st.errs == c.st.errs + [ErrorAt(env, s.rstack, a.err.value, s.pt.Pos(), [])])
      && (a.err.None? ==> r.st.errs == c.st.errs)
  {
  }

  /** A callback that panics stops the parse with the fault recorded at the
      end of the match, but the action itself still counts as matched. */
  lemma ActionPanicStops(env: Env, e: Expr, s: St, fuel: nat)
    requires e.ActionExpr? && Inv(env, s) && |s.vstack| > 0
    requires var c := Eval(env, e.expr, s, fuel);
      c.ok && c.st.halt == Running && c.st.pt.offset <= |env.data|
      && env.actions(e.run, Current(s.pt.Pos(), Cursor.Span(env.data, s.pt.offset, c.st.pt.offset)),
                     c.st.vstack[|c.st.vstack| - 1]).ActionPanic?
    ensures var c := Eval(env, e.expr, s, fuel);
      var cur := Current(s.pt.Pos(), Cursor.Span(env.data, s.pt.offset, c.st.pt.offset));
      var a := env.actions(e.run, cur, c.st.vstack[|c.st.vstack| - 1]);
      var r := EvalAction(env, e, s, fuel);
      r.ok && r.v == Nil && r.st.halt == Panicked(ErrorAt(env, s.rstack, a.message, c.st.pt.Pos(), []))
      && r.st.errs == c.st.errs
  {
  }

  /** A stopped parse evaluates nothing: every expression fails and the state
      is left exactly as it was. */
  lemma StoppedEvaluatesNothing(env: Env, e: Expr, s: St, fuel: nat)
    requires Inv(env, s) && |s.vstack| > 0 && s.halt != Running
    ensures Eval(env, e, s, fuel) == Res(Nil, false, s)
  {
  }

  // Memoization.

  /** With memoization, a fresh evaluation stores its result, keyed by the
      offset it started at and the expression's id. */
  lemma MemoStores(env: Env, e: Expr, s: St, fuel: nat)
    requires Inv(env, s) && |s.vstack| > 0 && s.halt == Running && env.memoize && fuel > 0
    requires MemoGet(s.memo, s.pt.offset, e.id).None?
    ensures var r := Eval(env, e, s, fuel);
      MemoGet(r.st.memo, s.pt.offset, e.id) == Some(ResultTuple(r.v, r.ok, r.st.pt))
  {
  }

  /** Evaluating an expression again at the offset of a stored result
      replays that result: same value and verdict, the cursor at its end,
      nothing else changed. Together with `MemoStores`, an expression is
      evaluated at most once per offset. */
  lemma MemoReplays(env: Env, e: Expr, s: St, t: St, fuel: nat, fuel2: nat)
    requires Inv(env, s) && |s.vstack| > 0 && s.halt == Running && env.memoize && fuel > 0
    requires MemoGet(s.memo, s.pt.offset, e.id).None?
    requires Inv(env, t) && |t.vstack| > 0 && t.halt == Running && t.pt.offset == s.pt.offset
    requires MemoGet(t.memo, t.pt.offset, e.id) == MemoGet(Eval(env, e, s, fuel).st.memo, s.pt.offset, e.id)
    ensures var r := Eval(env, e, s, fuel);
      Eval(env, e, t, fuel2) == Res(r.v, r.ok, RestoredTo(t, r.st.pt))
  {
    MemoStores(env, e, s, fuel);
  }

  /** A replay binds no label. A labeled expression whose fresh evaluation
      succeeds binds its label in the enclosing frame; evaluated again at the
      same offset it is replayed from the memo with the same value and
      verdict, and the enclosing frame is left as it was. So with
      memoization an action can see a label unbound that it would see bound
      without it. */
  lemma MemoSkipsLabel(env: Env, e: Expr, s: St, t: St, fuel: nat, fuel2: nat)
    requires e.LabeledExpr? && e.labelName != ""
    requires Inv(env, s) && |s.vstack| > 0 && s.halt == Running && env.memoize && fuel > 0
    requires MemoGet(s.memo, s.pt.offset, e.id).None? && Eval(env, e, s, fuel).ok
    requires Inv(env, t) && |t.vstack| > 0 && t.halt == Running && t.pt.offset == s.pt.offset
    requires MemoGet(t.memo, t.pt.offset, e.id) == MemoGet(Eval(env, e, s, fuel).st.memo, s.pt.offset, e.id)
    ensures var r := Eval(env, e, s, fuel);
      var top := s.vstack[|s.vstack| - 1];
      && r.st.vstack == s.vstack[|s.vstack| - 1 := top[e.labelName := r.v]]
      && var q := Eval(env, e, t, fuel2);
         q.ok && q.v == r.v && q.st.vstack == t.vstack
  {
    MemoReplays(env, e, s, t, fuel, fuel2);
    var k := EvalKind(env, e, s, fuel - 1);
    assert k == EvalLabeled(env, e, s, fuel - 1);
    assert Eval(env, e, s, fuel).st.vstack == k.st.vstack;
  }
}
