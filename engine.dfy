/** The PEG evaluator: a parser object holding the cursor, the scope stack,
    the rule stack, the memo table, the farthest-failure record and the error
    list, and one method per expression variant. Every method is proved to
    compute exactly what its function in `Semantics` says: the same value,
    the same verdict and the same new state. Evaluation need not terminate
    (an empty-matching repetition, left recursion), so every evaluation
    method takes a `fuel` bound; running out of it stops the parse. */
module Engine {
  import opened Values
  import opened Utf8
  import Cursor
  import opened Matchers
  import opened Grammar
  import opened Failure
  import opened Memo
  import opened Errors
  import opened Semantics

  class Parser {
    const filename: string
    const data: seq<byte>
    const memoize: bool
    const recover: bool
    const actions: ActionTable
    const predicates: PredicateTable

    var pt: Savepoint
    var cur: Current
    var errs: seq<ParserError>
    var memo: MemoTable
    var rules: map<string, Rule>
    var vstack: seq<Frame>
    var rstack: seq<Rule>
    var maxFailPos: Position
    var maxFailExpected: set<string>
    var maxFailInvertExpected: bool
    var halt: Halt
    /** Every report made to `failAt`, in order. */
    ghost var attempts: seq<Attempt>

    /** The configuration the parser was created with. */
    ghost function Environment(): Env
    {
      Env(filename, data, memoize, recover, actions, predicates)
    }

    /** The mutable fields as one value. */
    ghost function State(): St
      reads this
    {
      St(pt, cur, errs, memo, rules, vstack, rstack, maxFailPos, maxFailExpected,
         maxFailInvertExpected, halt, attempts)
    }

    /** The parser invariant of `Semantics.Inv`. */
    ghost predicate Valid()
      reads this
    {
      Inv(Environment(), State())
    }

    constructor (filename: string, data: seq<byte>, memoize: bool, recover: bool,
                 actions: ActionTable, predicates: PredicateTable)
      ensures Environment() == Env(filename, data, memoize, recover, actions, predicates)
      ensures State() == NewState
    {
      this.filename := filename;
      this.data := data;
      this.memoize := memoize;
      this.recover := recover;
      this.actions := actions;
      this.predicates := predicates;
      pt := StartSavepoint;
      cur := Current(Position(0, 0, 0), []);
      errs := [];
      memo := map[];
      rules := map[];
      vstack := [];
      rstack := [];
      maxFailPos := Initial.maxPos;
      maxFailExpected := {};
      maxFailInvertExpected := false;
      halt := Running;
      attempts := [];
    }

    /** `addErrAt`: record an error at `pos`, prefixed by the running rule. */
    method AddErrAt(inner: string, pos: Position, expected: seq<string>)
      modifies this`errs
      ensures State() == WithError(Environment(), old(State()), inner, pos, expected)
    {
      errs := errs + [ParserError(inner, pos, filename, RuleName(rstack), expected)];
    }

    /** `addErr`: an error at the current position. */
    method AddErr(inner: string)
      modifies this`errs
      ensures State() == WithError(Environment(), old(State()), inner, old(pt).Pos(), [])
    {
      AddErrAt(inner, pt.Pos(), []);
    }

    /** A runtime fault: stop the parse, recording the fault at the cursor. */
    method Panic(message: string)
      modifies this`halt
      ensures State() == Halted(Environment(), old(State()), message)
    {
      halt := Panicked(ParserError(message, pt.Pos(), filename, RuleName(rstack), []));
    }

    /** `failAt`: report an atomic match at `pos`. `fail` is true when the match
        succeeded; only reports whose `fail` equals the inversion flag count. */
    method FailAt(fail: bool, pos: Position, want: string)
      modifies this`maxFailPos, this`maxFailExpected, this`attempts
      ensures State() == Reported(old(State()), fail, pos, want)
    {
      attempts := attempts + [Attempt(maxFailInvertExpected, fail, pos, want)];
      if fail == maxFailInvertExpected {
        if pos.offset < maxFailPos.offset {
          return;
        }
        if pos.offset > maxFailPos.offset {
          maxFailPos := pos;
          maxFailExpected := {};
        }
        var w := want;
        if maxFailInvertExpected {
          w := "!" + want;
        }
        maxFailExpected := maxFailExpected + {w};
      }
    }

    /** `read`: advance to the next rune, reporting a malformed byte. */
    method Read()
      requires pt.offset + pt.w <= |data|
      modifies this`pt, this`errs
      ensures State() == Advanced(Environment(), old(State()))
    {
      pt := Cursor.Advance(data, pt);
      if pt.rn == RuneError {
        if pt.w == 1 {
          AddErr(InvalidEncodingMessage);
        }
      }
    }

    /** `restore`: go back to the savepoint unless it is at the current offset. */
    method Restore(sp: Savepoint)
      modifies this`pt
      ensures State() == RestoredTo(old(State()), sp)
    {
      if sp.offset == pt.offset {
        return;
      }
      pt := sp;
    }

    /** `sliceFrom`: the bytes from the savepoint to the cursor. */
    function SliceFrom(start: Savepoint): (s: seq<byte>)
      reads this`pt
      requires start.offset <= pt.offset <= |data|
      ensures |s| == pt.offset - start.offset
      ensures forall i | 0 <= i < |s| :: s[i] == data[start.offset + i]
    {
      Cursor.Span(data, start.offset, pt.offset)
    }

    /** `setMemoized`: store a result for (savepoint offset, node). */
    method SetMemoized(sp: Savepoint, node: nat, t: ResultTuple)
      modifies this`memo
      ensures State() == Stored(old(State()), sp.offset, node, t)
    {
      memo := MemoPut(memo, sp.offset, node, t);
    }

    /** `pushV`: open a fresh, empty scope frame. */
    method PushV()
      modifies this`vstack
      ensures State() == Pushed(old(State()))
    {
      vstack := vstack + [map[]];
    }

    /** `popV`: drop the innermost scope frame. */
    method PopV()
      requires |vstack| > 0
      modifies this`vstack
      ensures State() == Popped(old(State()))
    {
      vstack := vstack[..|vstack| - 1];
    }

    /** `buildRulesTable`: rules by name; a later rule of the same name wins. */
    method BuildRulesTable(g: Grammar)
      modifies this`rules
      ensures State() == old(State()).(rules := RulesTable(g.rules, |g.rules|))
      ensures forall name :: name in rules <==> exists i | 0 <= i < |g.rules| :: g.rules[i].name == name
      ensures forall i | 0 <= i < |g.rules| && (forall j | i < j < |g.rules| :: g.rules[j].name != g.rules[i].name) ::
        g.rules[i].name in rules && rules[g.rules[i].name] == g.rules[i]
    {
      rules := map[];
      for k := 0 to |g.rules|
        invariant rules == RulesTable(g.rules, k)
      {
        rules := rules[g.rules[k].name := g.rules[k]];
      }
      RulesTableKeys(g.rules, |g.rules|);
      forall i | 0 <= i < |g.rules| && (forall j | i < j < |g.rules| :: g.rules[j].name != g.rules[i].name)
        ensures g.rules[i].name in rules && rules[g.rules[i].name] == g.rules[i] {
        RulesTableLast(g.rules, |g.rules|, i);
      }
    }

    /** Consume the current rune for a successful single-rune matcher: read,
        then report the success at the start. */
    method Accept(want: string) returns (v: Value)
      requires Valid() && pt.rn != RuneError && halt == Running
      modifies this`pt, this`errs, this`maxFailPos, this`maxFailExpected, this`attempts
      ensures Res(v, true, State()) == Accepted(Environment(), old(State()), want)
    {
      Cursor.CursorOkCanAdvance(data, pt);
      var start := pt;
      Read();
      FailAt(true, start.Pos(), want);
      v := Bytes(SliceFrom(start));
    }

    /** `getMemoized` followed, on a hit, by `restore` to the stored end:
        a stored result is replayed as if evaluated again. */
    method Replay(node: nat) returns (hit: bool, v: Value, ok: bool)
      requires Valid()
      modifies this`pt
      ensures hit <==> MemoGet(old(memo), old(pt).offset, node).Some?
      ensures hit ==> Res(v, ok, State()) == Replayed(Environment(), old(State()), node)
      ensures !hit ==> State() == old(State())
    {
      var res := MemoGet(memo, pt.offset, node);
      hit, v, ok := res.Some?, Nil, false;
      if hit {
        Restore(res.value.end);
        v, ok := res.value.v, res.value.b;
      }
    }

    /** A rule's body, run inside its own rule-stack entry and scope frame. */
    method RunRule(rule: Rule, fuel: nat) returns (v: Value, ok: bool)
      requires Valid()
      modifies this
      decreases fuel, 2
      ensures Res(v, ok, State()) == EvalRuleBody(Environment(), rule, old(State()), fuel)
    {
      rstack := rstack + [rule];
      PushV();
      v, ok := ParseExpr(rule.expr, fuel);
      PopV();
      rstack := rstack[..|rstack| - 1];
    }

    /** `parseRule`: with memoization, a stored result for this rule at this
        offset is replayed; otherwise the body runs and the result is stored. */
    method ParseRule(rule: Rule, fuel: nat) returns (v: Value, ok: bool)
      requires Valid()
      modifies this
      decreases fuel, 3
      ensures Res(v, ok, State()) == EvalRule(Environment(), rule, old(State()), fuel)
    {
      if memoize {
        var hit;
        hit, v, ok := Replay(rule.id);
        if hit {
          return;
        }
      }
      var start := pt;
      v, ok := RunRule(rule, fuel);
      if memoize {
        SetMemoized(start, rule.id, ResultTuple(v, ok, pt));
      }
    }

    /** `parseExpr`: replay a memoized result, or evaluate the expression.
        A stopped parse evaluates nothing. */
    method ParseExpr(e: Expr, fuel: nat) returns (v: Value, ok: bool)
      requires Valid() && |vstack| > 0
      modifies this
      decreases fuel, 1
      ensures Res(v, ok, State()) == Eval(Environment(), e, old(State()), fuel)
    {
      if halt != Running {
        return Nil, false;
      }
      if memoize {
        var hit;
        hit, v, ok := Replay(e.id);
        if hit {
          return;
        }
      }
      v, ok := EvalExpr(e, fuel);
    }

    /** The evaluating part of `parseExpr`: dispatch on the variant and, with
        memoization, store the result at the starting offset. Running out of
        fuel stops the parse. */
    method EvalExpr(e: Expr, fuel: nat) returns (v: Value, ok: bool)
      requires Valid() && |vstack| > 0 && halt == Running
      modifies this
      decreases fuel, 0
      ensures Res(v, ok, State()) == EvalFresh(Environment(), e, old(State()), fuel)
    {
      if fuel == 0 {
        halt := OutOfFuel;
        return Nil, false;
      }
      var start := pt;
      v, ok := Dispatch(e, fuel - 1);
      if memoize {
        SetMemoized(start, e.id, ResultTuple(v, ok, pt));
      }
    }

    /** The `switch` of `parseExpr`: evaluate by variant. */
    method Dispatch(e: Expr, fuel: nat) returns (v: Value, ok: bool)
      requires Valid() && |vstack| > 0 && halt == Running
      modifies this
      decreases fuel, 6
      ensures Res(v, ok, State()) == EvalKind(Environment(), e, old(State()), fuel)
    {
      if Atomic(e) {
        v, ok := DispatchAtomic(e);
      } else if Compound(e) {
        v, ok := DispatchCompound(e, fuel);
      } else {
        match e {
          case ActionExpr(_, _, _, _) => v, ok := ParseActionExpr(e, fuel);
          case AndExpr(_, _, _) => v, ok := ParseAndExpr(e, fuel);
          case LabeledExpr(_, _, _, _) => v, ok := ParseLabeledExpr(e, fuel);
          case NotExpr(_, _, _) => v, ok := ParseNotExpr(e, fuel);
          case RuleRefExpr(_, _, _) => v, ok := ParseRuleRefExpr(e, fuel);
        }
      }
    }

    /** The cases of the `switch` that sequence, choose or repeat. */
    method DispatchCompound(e: Expr, fuel: nat) returns (v: Value, ok: bool)
      requires Compound(e) && Valid() && |vstack| > 0 && halt == Running
      modifies this
      decreases fuel, 5
      ensures Res(v, ok, State()) == EvalKind(Environment(), e, old(State()), fuel)
    {
      match e {
        case ChoiceExpr(_, _, _) =>
          EvalKindChoice(Environment(), e, State(), fuel);
          v, ok := ParseChoiceExpr(e, fuel);
        case OneOrMoreExpr(_, _, _) =>
          EvalKindOneOrMore(Environment(), e, State(), fuel);
          v, ok := ParseOneOrMoreExpr(e, fuel);
        case SeqExpr(_, _, _) =>
          EvalKindSeq(Environment(), e, State(), fuel);
          v, ok := ParseSeqExpr(e, fuel);
        case ZeroOrMoreExpr(_, _, _) =>
          EvalKindZeroOrMore(Environment(), e, State(), fuel);
          v, ok := ParseZeroOrMoreExpr(e, fuel);
        case ZeroOrOneExpr(_, _, _) =>
          EvalKindZeroOrOne(Environment(), e, State(), fuel);
          v, ok := ParseZeroOrOneExpr(e, fuel);
      }
    }

    /** The cases of the `switch` that evaluate no sub-expression: the atomic
        matchers and the code predicates. */
    method DispatchAtomic(e: Expr) returns (v: Value, ok: bool)
      requires Atomic(e) && Valid() && |vstack| > 0 && halt == Running
      modifies this
      ensures forall fuel: nat :: Res(v, ok, State()) == EvalKind(Environment(), e, old(State()), fuel)
    {
      match e {
        case AndCodeExpr(_, _, _) =>
          EvalKindAndCode(Environment(), e, State());
          v, ok := ParseAndCodeExpr(e);
        case AnyMatcher(_, _) =>
          EvalKindAny(Environment(), e, State());
          v, ok := ParseAnyMatcher(e);
        case CharClassMatcher(_, _, _, _, _, _, _, _) =>
          EvalKindClass(Environment(), e, State());
          v, ok := ParseCharClassMatcher(e);
        case LitMatcher(_, _, _, _) =>
          EvalKindLit(Environment(), e, State());
          v, ok := ParseLitMatcher(e);
        case NotCodeExpr(_, _, _) =>
          EvalKindNotCode(Environment(), e, State());
          v, ok := ParseNotCodeExpr(e);
      }
    }

    /** Run an action's callback on a successful match from `start`: the
        callback sees the match's start and text and the innermost frame; an
        error it returns is recorded at the start, and its value is the result. */
    method RunAction(run: nat, start: Savepoint) returns (v: Value)
      requires |vstack| > 0 && start.offset <= pt.offset <= |data| && halt == Running
      modifies this`cur, this`errs, this`halt
      ensures Res(v, true, State()) == Acted(Environment(), run, start, old(State()))
    {
      cur := Current(start.Pos(), SliceFrom(start));
      var r := actions(run, cur, vstack[|vstack| - 1]);
      match r {
        case Returned(value, err) =>
          if err.Some? {
            AddErrAt(err.value, start.Pos(), []);
          }
          v := value;
        case ActionPanic(message) =>
          Panic(message);
          v := Nil;
      }
    }

    /** `parseActionExpr`: match the child; on success run the callback, whose
        value replaces the child's. A callback error does not undo the match. */
    method ParseActionExpr(e: Expr, fuel: nat) returns (v: Value, ok: bool)
      requires e.ActionExpr? && Valid() && |vstack| > 0
      modifies this
      decreases fuel, 4
      ensures Res(v, ok, State()) == EvalAction(Environment(), e, old(State()), fuel)
    {
      var start := pt;
      v, ok := ParseExpr(e.expr, fuel);
      if ok && halt == Running {
        Cursor.CursorOkCanAdvance(data, pt);
        v := RunAction(e.run, start);
      }
    }

    /** Ask a code predicate, recording an error it returns at the cursor. */
    method RunPredicate(run: nat) returns (verdict: bool)
      requires |vstack| > 0 && halt == Running
      modifies this`errs, this`halt
      ensures Res(Nil, verdict, State()) == Asked(Environment(), run, old(State()))
    {
      var r := predicates(run, cur, vstack[|vstack| - 1]);
      match r {
        case Decided(b, err) =>
          if err.Some? {
            AddErr(err.value);
          }
          verdict := b;
        case PredicatePanic(message) =>
          Panic(message);
          verdict := false;
      }
    }

    /** `parseAndCodeExpr`: succeed iff the predicate says so; consumes nothing. */
    method ParseAndCodeExpr(e: Expr) returns (v: Value, ok: bool)
      requires e.AndCodeExpr? && Valid() && |vstack| > 0 && halt == Running
      modifies this
      ensures Res(v, ok, State()) == EvalAndCode(Environment(), e, old(State()))
    {
      var verdict := RunPredicate(e.run);
      if halt != Running {
        return Nil, false;
      }
      return Nil, verdict;
    }

    /** `parseNotCodeExpr`: succeed iff the predicate says no; consumes nothing. */
    method ParseNotCodeExpr(e: Expr) returns (v: Value, ok: bool)
      requires e.NotCodeExpr? && Valid() && |vstack| > 0 && halt == Running
      modifies this
      ensures Res(v, ok, State()) == EvalNotCode(Environment(), e, old(State()))
    {
      var verdict := RunPredicate(e.run);
      if halt != Running {
        return Nil, false;
      }
      return Nil, !verdict;
    }

    /** `parseAndExpr`: positive lookahead. The child runs in its own frame and
        the cursor always returns to where it was. */
    method ParseAndExpr(e: Expr, fuel: nat) returns (v: Value, ok: bool)
      requires e.AndExpr? && Valid() && |vstack| > 0
      modifies this
      decreases fuel, 4
      ensures Res(v, ok, State()) == EvalAnd(Environment(), e, old(State()), fuel)
    {
      var start := pt;
      PushV();
      var _, matched := ParseExpr(e.expr, fuel);
      PopV();
      Restore(start);
      return Nil, matched;
    }

    /** `parseNotExpr`: negative lookahead. As positive lookahead, with the
        result negated and the fail record inverted while the child runs. */
    method ParseNotExpr(e: Expr, fuel: nat) returns (v: Value, ok: bool)
      requires e.NotExpr? && Valid() && |vstack| > 0
      modifies this
      decreases fuel, 4
      ensures Res(v, ok, State()) == EvalNot(Environment(), e, old(State()), fuel)
    {
      var start := pt;
      PushV();
      maxFailInvertExpected := !maxFailInvertExpected;
      var _, matched := ParseExpr(e.expr, fuel);
      maxFailInvertExpected := !maxFailInvertExpected;
      PopV();
      Restore(start);
      return Nil, !matched;
    }

    /** `parseAnyMatcher`: `.` consumes one rune unless the current rune is
        U+FFFD (end of input, a malformed byte, or an encoded U+FFFD). */
    method ParseAnyMatcher(e: Expr) returns (v: Value, ok: bool)
      requires e.AnyMatcher? && Valid() && halt == Running
      modifies this`pt, this`errs, this`maxFailPos, this`maxFailExpected, this`attempts
      ensures Res(v, ok, State()) == EvalAny(Environment(), e, old(State()))
    {
      if pt.rn != RuneError {
        v := Accept(".");
        ok := true;
      } else {
        FailAt(false, pt.Pos(), ".");
        v, ok := Nil, false;
      }
    }

    /** `parseCharClassMatcher`: test the chars, then the ranges, then the
        categories; inversion flips the verdict; U+FFFD never matches. */
    method ParseCharClassMatcher(e: Expr) returns (v: Value, ok: bool)
      requires e.CharClassMatcher? && Valid() && halt == Running
      modifies this`pt, this`errs, this`maxFailPos, this`maxFailExpected, this`attempts
      ensures Res(v, ok, State()) == EvalClass(Environment(), e, old(State()))
    {
      var c := pt.rn;
      var start := pt;
      if c == RuneError {
        FailAt(false, start.Pos(), e.val);
        v, ok := Nil, false;
      } else {
        if e.ignoreCase {
          c := ToLower(c);
        }
        var listed := ListedIn(e.chars, e.ranges, e.classes, c);
        if listed != e.inverted {
          v := Accept(e.val);
          ok := true;
        } else {
          FailAt(false, start.Pos(), e.val);
          v, ok := Nil, false;
        }
      }
    }

    /** `pushV`, `parseExpr`, `popV`: the child in a scope frame of its own. */
    method ParseScoped(x: Expr, fuel: nat) returns (v: Value, ok: bool)
      requires Valid() && |vstack| > 0
      modifies this
      decreases fuel, 3
      ensures Res(v, ok, State()) == Scoped(Environment(), x, old(State()), fuel)
    {
      PushV();
      v, ok := ParseExpr(x, fuel);
      PopV();
    }

    /** `parseChoiceExpr`: try the alternatives in order, each in its own frame,
        and return the first success as it is. */
    method ParseChoiceExpr(e: Expr, fuel: nat) returns (v: Value, ok: bool)
      requires e.ChoiceExpr? && Valid() && |vstack| > 0
      modifies this
      decreases fuel, 4
      ensures Res(v, ok, State()) == EvalChoice(Environment(), e, old(State()), fuel)
    {
      ghost var env := Environment();
      for i := 0 to |e.alternatives|
        invariant Valid() && |vstack| > 0
        invariant EvalAlts(env, e.alternatives, 0, old(State()), fuel) == EvalAlts(env, e.alternatives, i, State(), fuel)
      {
        var val, matched := ParseScoped(e.alternatives[i], fuel);
        if matched {
          return val, matched;
        }
      }
      return Nil, false;
    }

    /** `parseLabeledExpr`: match the child in its own frame; on success bind a
        non-empty label to the child's value in the enclosing frame. */
    method ParseLabeledExpr(e: Expr, fuel: nat) returns (v: Value, ok: bool)
      requires e.LabeledExpr? && Valid() && |vstack| > 0
      modifies this
      decreases fuel, 4
      ensures Res(v, ok, State()) == EvalLabeled(Environment(), e, old(State()), fuel)
    {
      v, ok := ParseScoped(e.expr, fuel);
      if ok && e.labelName != "" {
        var top := vstack[|vstack| - 1];
        vstack := vstack[|vstack| - 1 := top[e.labelName := v]];
      }
    }

    /** The rune loop of `parseLitMatcher`: read while each rune matches the
        literal's next one; stop at the first that does not. */
    method MatchRunes(val: string, ignoreCase: bool) returns (matched: bool)
      requires Cursor.CursorOk(data, pt)
      modifies this`pt, this`errs
      ensures Res(Nil, matched, State()) == LitRun(Environment(), old(State()), val, ignoreCase, 0)
    {
      ghost var env := Environment();
      for i := 0 to |val|
        invariant Cursor.CursorOk(data, pt)
        invariant LitRun(env, old(State()), val, ignoreCase, 0) == LitRun(env, State(), val, ignoreCase, i)
      {
        if !LitRuneMatches(pt, val[i], ignoreCase) {
          return false;
        }
        LitRuneMatchesConsumes(data, pt, val[i], ignoreCase);
        Read();
      }
      return true;
    }

    /** `parseLitMatcher`: match the literal's runes one by one from the start;
        on a mismatch report at the start and go back there. A rune step needs
        input under the cursor (see README, Findings). */
    method ParseLitMatcher(e: Expr) returns (v: Value, ok: bool)
      requires e.LitMatcher? && Valid() && halt == Running
      modifies this`pt, this`errs, this`maxFailPos, this`maxFailExpected, this`attempts
      ensures Res(v, ok, State()) == EvalLit(Environment(), e, old(State()))
    {
      var desc := LitDescriptor(e.val, e.ignoreCase);
      var start := pt;
      ok := MatchRunes(e.val, e.ignoreCase);
      if !ok {
        FailAt(false, start.Pos(), desc);
        Restore(start);
        v := Nil;
      } else {
        FailAt(true, start.Pos(), desc);
        v := Bytes(SliceFrom(start));
      }
    }

    /** A repetition out of rounds: a running parse stops for lack of fuel. */
    method Exhaust()
      modifies this`halt
      ensures State() == if old(halt) == Running then old(State()).(halt := OutOfFuel) else old(State())
    {
      if halt == Running {
        halt := OutOfFuel;
      }
    }

    /** `parseOneOrMoreExpr`: repeat the child, each time in its own frame,
        until it fails; fail only if the first attempt fails. */
    method ParseOneOrMoreExpr(e: Expr, fuel: nat) returns (v: Value, ok: bool)
      requires e.OneOrMoreExpr? && Valid() && |vstack| > 0
      modifies this
      decreases fuel, 4
      ensures Res(v, ok, State()) == EvalOneOrMore(Environment(), e, old(State()), fuel)
    {
      ghost var env := Environment();
      var vals: seq<Value> := [];
      var budget := fuel;
      while true
        invariant Valid() && |vstack| > 0
        invariant EvalStar(env, e.expr, old(State()), fuel, fuel, []) == EvalStar(env, e.expr, State(), fuel, budget, vals)
        decreases budget
      {
        if budget == 0 {
          Exhaust();
          if |vals| == 0 {
            return Nil, false;
          }
          return List(vals), true;
        }
        budget := budget - 1;
        var val, matched := ParseScoped(e.expr, fuel);
        if !matched {
          if |vals| == 0 {
            return Nil, false;
          }
          return List(vals), true;
        }
        vals := vals + [val];
      }
    }

    /** `parseZeroOrMoreExpr`: repeat the child, each time in its own frame,
        until it fails; always succeeds with the values of the successes. */
    method ParseZeroOrMoreExpr(e: Expr, fuel: nat) returns (v: Value, ok: bool)
      requires e.ZeroOrMoreExpr? && Valid() && |vstack| > 0
      modifies this
      decreases fuel, 4
      ensures Res(v, ok, State()) == EvalZeroOrMore(Environment(), e, old(State()), fuel)
    {
      ghost var env := Environment();
      var vals: seq<Value> := [];
      var budget := fuel;
      while true
        invariant Valid() && |vstack| > 0
        invariant EvalStar(env, e.expr, old(State()), fuel, fuel, []) == EvalStar(env, e.expr, State(), fuel, budget, vals)
        decreases budget
      {
        if budget == 0 {
          Exhaust();
          return List(vals), true;
        }
        budget := budget - 1;
        var val, matched := ParseScoped(e.expr, fuel);
        if !matched {
          return List(vals), true;
        }
        vals := vals + [val];
      }
    }

    /** `parseZeroOrOneExpr`: try the child once in its own frame; succeed either way. */
    method ParseZeroOrOneExpr(e: Expr, fuel: nat) returns (v: Value, ok: bool)
      requires e.ZeroOrOneExpr? && Valid() && |vstack| > 0
      modifies this
      decreases fuel, 4
      ensures Res(v, ok, State()) == EvalZeroOrOne(Environment(), e, old(State()), fuel)
    {
      var matched;
      v, matched := ParseScoped(e.expr, fuel);
      return v, true;
    }

    /** `parseRuleRefExpr`: an empty name is a fault; an unknown name records an
        error and fails; otherwise evaluate the rule. */
    method ParseRuleRefExpr(e: Expr, fuel: nat) returns (v: Value, ok: bool)
      requires e.RuleRefExpr? && Valid() && |vstack| > 0 && halt == Running
      modifies this
      decreases fuel, 4
      ensures Res(v, ok, State()) == EvalRuleRef(Environment(), e, old(State()), fuel)
    {
      if e.name == "" {
        Panic(MissingNameMessage(e));
        return Nil, false;
      }
      if e.name !in rules {
        AddErr(UndefinedRuleMessage(e.name));
        return Nil, false;
      }
      v, ok := ParseRule(rules[e.name], fuel);
    }

    /** `parseSeqExpr`: match the children in order; if one fails, go back to
        the start of the sequence and fail; else yield one value per child. */
    method ParseSeqExpr(e: Expr, fuel: nat) returns (v: Value, ok: bool)
      requires e.SeqExpr? && Valid() && |vstack| > 0
      modifies this
      decreases fuel, 4
      ensures Res(v, ok, State()) == EvalSeq(Environment(), e, old(State()), fuel)
    {
      var start := pt;
      var vals, matched := MatchItems(e.exprs, fuel);
      if !matched {
        Restore(start);
        return Nil, false;
      }
      return List(vals), true;
    }

    /** The loop of `parseSeqExpr`: match the children in order and collect
        their values, stopping at the first failure. */
    method MatchItems(xs: seq<Expr>, fuel: nat) returns (vals: seq<Value>, matched: bool)
      requires Valid() && |vstack| > 0
      modifies this
      decreases fuel, 3
      ensures Items(vals, matched, State()) == EvalItems(Environment(), xs, 0, old(State()), fuel, [])
    {
      ghost var env := Environment();
      vals := [];
      for i := 0 to |xs|
        invariant Valid() && |vstack| > 0
        invariant EvalItems(env, xs, 0, old(State()), fuel, []) == EvalItems(env, xs, i, State(), fuel, vals)
      {
        ghost var before := State();
        var val, ok := ParseExpr(xs[i], fuel);
        ItemsStep(env, xs, i, before, fuel, vals);
        if !ok {
          return vals, false;
        }
        vals := vals + [val];
      }
      return vals, true;
    }

    /** The diagnostic `parse` adds when the start rule failed without
        recording an error: "no match found" at the farthest failure, with the
        sorted descriptors recorded there (end of input last, as "EOF"). */
    method ReportNoMatch()
      requires Valid() && rstack == []
      modifies this`errs
      ensures |errs| == |old(errs)| + 1 && errs[..|old(errs)|] == old(errs)
      ensures var e := errs[|errs| - 1];
        && e == ParserError(NoMatchMessage(e.expected), maxFailPos, filename, None, e.expected)
        && ExpectedList(maxFailExpected, e.expected)
      ensures maxFailPos.offset == FarthestOffset(0, attempts)
      ensures maxFailExpected == DescriptorsAt(attempts, maxFailPos.offset)
    {
      FarthestFailure(Initial, attempts);
      var expected := ExpectedFor(maxFailExpected);
      AddErrAt(NoMatchMessage(expected), maxFailPos, expected);
    }

    /** The part of `parse` after the start rule returned `val, matched`:
        a stopped parse gives its outcome (a recovered fault is one more
        error); a failure that recorded no error gets the diagnostic at the
        farthest failure; the errors are returned deduplicated. */
    method Conclude(val: Value, matched: bool) returns (r: Outcome)
      requires Valid() && rstack == []
      modifies this`errs
      ensures Concludes(Environment(), Res(val, matched, old(State())), r)
    {
      match halt {
        case OutOfFuel =>
          return Exhausted;
        case Panicked(err) =>
          if !recover {
            return Crashed(err.inner);
          }
          errs := errs + [err];
          var cleaned := Dedupe(errs);
          errs := cleaned;
          return Outcome(Nil, cleaned);
        case Running =>
      }
      if !matched {
        if |errs| == 0 {
          ReportNoMatch();
          DedupeSingleton(errs[0]);
          assert errs == [errs[0]];
        }
        var cleaned := Dedupe(errs);
        errs := cleaned;
        return Outcome(Nil, cleaned);
      }
      var cleaned := Dedupe(errs);
      errs := cleaned;
      return Outcome(val, cleaned);
    }

    /** `parse`: with no rules, report that; otherwise build the rule table,
        read the first rune, evaluate the first rule and conclude. */
    method Parse(g: Grammar, fuel: nat) returns (r: Outcome)
      requires State() == NewState
      modifies this
      ensures ParseOutcome(Environment(), g, fuel, r)
    {
      if |g.rules| == 0 {
        AddErr(NoRuleMessage);
        DedupeSingleton(errs[0]);
        assert errs == [errs[0]];
        var cleaned := Dedupe(errs);
        errs := cleaned;
        return Outcome(Nil, cleaned);
      }
      BuildRulesTable(g);
      Read();
      assert State() == Begin(Environment(), g);
      var val, matched := ParseRule(g.rules[0], fuel);
      r := Conclude(val, matched);
    }
  }

  /** `Parse`: a new parser over the input, running the grammar. */
  method ParseInput(filename: string, b: seq<byte>, g: Grammar, memoize: bool, recover: bool,
                    actions: ActionTable, predicates: PredicateTable, fuel: nat) returns (r: Outcome)
    ensures ParseOutcome(Env(filename, b, memoize, recover, actions, predicates), g, fuel, r)
  {
    var p := new Parser(filename, b, memoize, recover, actions, predicates);
    r := p.Parse(g, fuel);
  }
}
