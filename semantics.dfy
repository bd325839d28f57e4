/** The reference semantics of the evaluator. The parser's fixed
    configuration and its mutable fields are values here, and there is one
    function per evaluation method of `Engine.Parser`, computing the value,
    the verdict and the state the method leaves. Each method is proved to do
    exactly what its function says, and the laws of PEG evaluation are proved
    about the functions (see `Laws`). */
module Semantics {
  import opened Values
  import opened Utf8
  import Cursor
  import opened Matchers
  import opened Grammar
  import opened Failure
  import opened Memo
  import opened Errors

  /** Whether evaluation is still running, or has stopped because of a runtime
      fault (recorded as the error `parse` reports for it) or for lack of fuel. */
  datatype Halt = Running | Panicked(err: ParserError) | OutOfFuel

  /** What a parse returns: the value and the (deduplicated) errors, empty
      when there were none; a crash when a fault is not recovered; or nothing
      when the fuel bound was reached. */
  datatype Outcome = Outcome(val: Value, errs: seq<ParserError>) | Crashed(message: string) | Exhausted

  /** Semantic actions and code predicates, addressed by the number a node carries. */
  type ActionTable = (nat, Current, Frame) -> ActionResult
  type PredicateTable = (nat, Current, Frame) -> PredicateResult

  /** The cursor of a new parser: line 1, before the first rune. */
  const StartSavepoint: Savepoint := Savepoint(1, 0, 0, 0, 0)

  /** What a parser is created with and never changes. */
  datatype Env = Env(filename: string, data: seq<byte>, memoize: bool, recover: bool,
                     actions: ActionTable, predicates: PredicateTable)

  /** The parser's mutable fields, including the ghost log of fail reports. */
  datatype St = St(pt: Savepoint, cur: Current, errs: seq<ParserError>, memo: MemoTable,
                   rules: map<string, Rule>, vstack: seq<Frame>, rstack: seq<Rule>,
                   failPos: Position, failExp: set<string>, invert: bool, halt: Halt,
                   attempts: seq<Attempt>)

  /** An evaluation's value, verdict and final state. */
  datatype Res = Res(v: Value, ok: bool, st: St)

  /** A loop's collected values, verdict and final state. */
  datatype Items = Items(vals: seq<Value>, ok: bool, st: St)

  /** The state `newParser` creates. */
  const NewState: St := St(StartSavepoint, Current(Position(0, 0, 0), []), [], map[], map[], [], [],
                           Initial.maxPos, {}, false, Running, [])

  /** A memo entry is one an evaluation can produce: its end cursor agrees
      with the input, is not before its start, and a failure consumed nothing. */
  ghost predicate EntryOk(data: seq<byte>, offset: nat, t: ResultTuple)
  {
    Cursor.CursorOk(data, t.end) && offset <= t.end.offset && (!t.b ==> t.end.offset == offset && t.v == Nil)
  }

  ghost predicate MemoOk(data: seq<byte>, m: MemoTable)
  {
    forall o, n | MemoGet(m, o, n).Some? :: EntryOk(data, o, MemoGet(m, o, n).value)
  }

  /** The parser invariant: the cursor agrees with the input, the memo holds
      only possible results, and the fail record is what the reports made it. */
  ghost predicate Inv(env: Env, s: St)
  {
    && Cursor.CursorOk(env.data, s.pt)
    && MemoOk(env.data, s.memo)
    && FailState(s.failPos, s.failExp) == FailAll(Initial, s.attempts)
  }

  /** How the state `t` after an evaluation relates to the state `s` it started
      in: errors were only appended; the rules, the rule stack and the
      inversion flag are back; the scope stack has its depth and its outer
      frames; the cursor never moves back, and if it ends at the same offset it
      is the same cursor; a stopped parse stays stopped with its errors frozen. */
  ghost predicate Moved(s: St, t: St)
  {
    && s.errs <= t.errs
    && t.rules == s.rules
    && t.rstack == s.rstack
    && t.invert == s.invert
    && |t.vstack| == |s.vstack|
    && (|s.vstack| > 0 ==> t.vstack[..|t.vstack| - 1] == s.vstack[..|s.vstack| - 1])
    && s.pt.offset <= t.pt.offset
    && (t.pt.offset == s.pt.offset ==> t.pt == s.pt)
    && (s.halt != Running ==> t.halt == s.halt && t.errs == s.errs)
  }

  /** `Moved`, and a failure yields nil and leaves the cursor exactly where it started. */
  ghost predicate Follows(s: St, t: St, v: Value, ok: bool)
  {
    Moved(s, t) && (!ok ==> v == Nil && t.pt == s.pt)
  }

  lemma MovedTrans(s: St, t: St, u: St)
    requires Moved(s, t) && Moved(t, u)
    ensures Moved(s, u)
  {
  }

  // The primitive state changes, one per helper method of the parser.

  /** `pushV`. */
  function Pushed(s: St): St
  {
    s.(vstack := s.vstack + [map[]])
  }

  /** `popV`. */
  function Popped(s: St): St
    requires |s.vstack| > 0
  {
    s.(vstack := s.vstack[..|s.vstack| - 1])
  }

  /** `restore`. */
  function RestoredTo(s: St, sp: Savepoint): St
  {
    s.(pt := Cursor.Restore(s.pt, sp))
  }

  /** The running rule's name for error prefixes, if a rule is running. */
  function RuleName(rstack: seq<Rule>): Option<string>
  {
    if |rstack| > 0 then Some(RuleLabel(rstack[|rstack| - 1])) else None
  }

  /** The error `addErrAt` records. */
  function ErrorAt(env: Env, rstack: seq<Rule>, inner: string, pos: Position, expected: seq<string>): ParserError
  {
    ParserError(inner, pos, env.filename, RuleName(rstack), expected)
  }

  /** `addErrAt`. */
  function WithError(env: Env, s: St, inner: string, pos: Position, expected: seq<string>): St
  {
    s.(errs := s.errs + [ErrorAt(env, s.rstack, inner, pos, expected)])
  }

  /** A panic: evaluation stops, with the fault recorded at the cursor. */
  function Halted(env: Env, s: St, message: string): St
  {
    s.(halt := Panicked(ErrorAt(env, s.rstack, message, s.pt.Pos(), [])))
  }

  /** `read`. */
  function Advanced(env: Env, s: St): St
    requires s.pt.offset + s.pt.w <= |env.data|
  {
    var pt := Cursor.Advance(env.data, s.pt);
    var t := s.(pt := pt);
    if Cursor.InvalidEncoding(pt) then WithError(env, t, InvalidEncodingMessage, pt.Pos(), []) else t
  }

  /** `failAt`, with the report logged. The record stays the fold over the log. */
  function Reported(s: St, fail: bool, pos: Position, want: string): (t: St)
    ensures FailState(s.failPos, s.failExp) == FailAll(Initial, s.attempts) ==>
            FailState(t.failPos, t.failExp) == FailAll(Initial, t.attempts)
  {
    var a := Attempt(s.invert, fail, pos, want);
    var fs := Failure.FailAt(FailState(s.failPos, s.failExp), a);
    FailAllSnoc(Initial, s.attempts, a);
    s.(failPos := fs.maxPos, failExp := fs.expected, attempts := s.attempts + [a])
  }

  /** `setMemoized`. */
  function Stored(s: St, offset: nat, node: nat, t: ResultTuple): St
  {
    s.(memo := MemoPut(s.memo, offset, node, t))
  }

  /** Storing a possible result keeps the invariant. */
  lemma StoredInv(env: Env, s: St, offset: nat, node: nat, t: ResultTuple)
    requires Inv(env, s) && EntryOk(env.data, offset, t)
    ensures Inv(env, Stored(s, offset, node, t))
  {
  }

  // The evaluator. `fuel` bounds the depth of nested evaluations; the
  // repetitions also bound their number of rounds by it.

  /** A memo hit: restore the stored end and return the stored result. */
  ghost function Replayed(env: Env, s: St, node: nat): (r: Res)
    requires Inv(env, s) && MemoGet(s.memo, s.pt.offset, node).Some?
    ensures Inv(env, r.st) && Follows(s, r.st, r.v, r.ok)
  {
    var t := MemoGet(s.memo, s.pt.offset, node).value;
    Res(t.v, t.b, RestoredTo(s, t.end))
  }

  /** `parseExpr`: a stopped parse evaluates nothing; with memoization a
      stored result is replayed; otherwise the expression is evaluated. */
  ghost function Eval(env: Env, e: Expr, s: St, fuel: nat): (r: Res)
    requires Inv(env, s) && |s.vstack| > 0
    ensures Inv(env, r.st) && Follows(s, r.st, r.v, r.ok)
    decreases fuel, 1, 0
  {
    if s.halt != Running then Res(Nil, false, s)
    else if env.memoize && MemoGet(s.memo, s.pt.offset, e.id).Some? then Replayed(env, s, e.id)
    else EvalFresh(env, e, s, fuel)
  }

  /** The evaluating part of `parseExpr`: out of fuel the parse stops;
      otherwise evaluate by kind and, with memoization, store the result at
      the starting offset. */
  ghost function EvalFresh(env: Env, e: Expr, s: St, fuel: nat): (r: Res)
    requires Inv(env, s) && |s.vstack| > 0 && s.halt == Running
    ensures Inv(env, r.st) && Follows(s, r.st, r.v, r.ok)
    decreases fuel, 0, 0
  {
    if fuel == 0 then Res(Nil, false, s.(halt := OutOfFuel))
    else
      var r := EvalKind(env, e, s, fuel - 1);
      if env.memoize then
        StoredInv(env, r.st, s.pt.offset, e.id, ResultTuple(r.v, r.ok, r.st.pt));
        Res(r.v, r.ok, Stored(r.st, s.pt.offset, e.id, ResultTuple(r.v, r.ok, r.st.pt)))
      else r
  }

  /** The `switch` of `parseExpr`. */
  ghost function EvalKind(env: Env, e: Expr, s: St, fuel: nat): (r: Res)
    requires Inv(env, s) && |s.vstack| > 0 && s.halt == Running
    ensures Inv(env, r.st) && Follows(s, r.st, r.v, r.ok)
    decreases fuel, 6, 0
  {
    match e
    case ActionExpr(_, _, _, _) => EvalAction(env, e, s, fuel)
    case AndCodeExpr(_, _, _) => EvalAndCode(env, e, s)
    case AndExpr(_, _, _) => EvalAnd(env, e, s, fuel)
    case AnyMatcher(_, _) => EvalAny(env, e, s)
    case CharClassMatcher(_, _, _, _, _, _, _, _) => EvalClass(env, e, s)
    case ChoiceExpr(_, _, _) => EvalChoice(env, e, s, fuel)
    case LabeledExpr(_, _, _, _) => EvalLabeled(env, e, s, fuel)
    case LitMatcher(_, _, _, _) => EvalLit(env, e, s)
    case NotCodeExpr(_, _, _) => EvalNotCode(env, e, s)
    case NotExpr(_, _, _) => EvalNot(env, e, s, fuel)
    case OneOrMoreExpr(_, _, _) => EvalOneOrMore(env, e, s, fuel)
    case RuleRefExpr(_, _, _) => EvalRuleRef(env, e, s, fuel)
    case SeqExpr(_, _, _) => EvalSeq(env, e, s, fuel)
    case ZeroOrMoreExpr(_, _, _) => EvalZeroOrMore(env, e, s, fuel)
    case ZeroOrOneExpr(_, _, _) => EvalZeroOrOne(env, e, s, fuel)
  }

  // `EvalKind` on the atomic variants, whatever the fuel, one case each.

  lemma EvalKindAndCode(env: Env, e: Expr, s: St)
    requires e.AndCodeExpr? && Inv(env, s) && |s.vstack| > 0 && s.halt == Running
    ensures forall fuel: nat :: EvalKind(env, e, s, fuel) == EvalAndCode(env, e, s)
  {
  }

  lemma EvalKindAny(env: Env, e: Expr, s: St)
    requires e.AnyMatcher? && Inv(env, s) && |s.vstack| > 0 && s.halt == Running
    ensures forall fuel: nat :: EvalKind(env, e, s, fuel) == EvalAny(env, e, s)
  {
  }

  lemma EvalKindClass(env: Env, e: Expr, s: St)
    requires e.CharClassMatcher? && Inv(env, s) && |s.vstack| > 0 && s.halt == Running
    ensures forall fuel: nat :: EvalKind(env, e, s, fuel) == EvalClass(env, e, s)
  {
  }

  lemma EvalKindLit(env: Env, e: Expr, s: St)
    requires e.LitMatcher? && Inv(env, s) && |s.vstack| > 0 && s.halt == Running
    ensures forall fuel: nat :: EvalKind(env, e, s, fuel) == EvalLit(env, e, s)
  {
  }

  lemma EvalKindNotCode(env: Env, e: Expr, s: St)
    requires e.NotCodeExpr? && Inv(env, s) && |s.vstack| > 0 && s.halt == Running
    ensures forall fuel: nat :: EvalKind(env, e, s, fuel) == EvalNotCode(env, e, s)
  {
  }

  // `EvalKind` on the compound variants, one case each.

  lemma EvalKindChoice(env: Env, e: Expr, s: St, fuel: nat)
    requires e.ChoiceExpr? && Inv(env, s) && |s.vstack| > 0 && s.halt == Running
    ensures EvalKind(env, e, s, fuel) == EvalChoice(env, e, s, fuel)
  {
  }

  lemma EvalKindOneOrMore(env: Env, e: Expr, s: St, fuel: nat)
    requires e.OneOrMoreExpr? && Inv(env, s) && |s.vstack| > 0 && s.halt == Running
    ensures EvalKind(env, e, s, fuel) == EvalOneOrMore(env, e, s, fuel)
  {
  }

  lemma EvalKindSeq(env: Env, e: Expr, s: St, fuel: nat)
    requires e.SeqExpr? && Inv(env, s) && |s.vstack| > 0 && s.halt == Running
    ensures EvalKind(env, e, s, fuel) == EvalSeq(env, e, s, fuel)
  {
  }

  lemma EvalKindZeroOrMore(env: Env, e: Expr, s: St, fuel: nat)
    requires e.ZeroOrMoreExpr? && Inv(env, s) && |s.vstack| > 0 && s.halt == Running
    ensures EvalKind(env, e, s, fuel) == EvalZeroOrMore(env, e, s, fuel)
  {
  }

  lemma EvalKindZeroOrOne(env: Env, e: Expr, s: St, fuel: nat)
    requires e.ZeroOrOneExpr? && Inv(env, s) && |s.vstack| > 0 && s.halt == Running
    ensures EvalKind(env, e, s, fuel) == EvalZeroOrOne(env, e, s, fuel)
  {
  }


  /** An action's callback run on a match from `start`: it sees the match's
      start and text and the innermost frame; an error it returns is recorded
      at the start; a panic stops the parse. The match stands either way. */
  ghost function Acted(env: Env, run: nat, start: Savepoint, s: St): (r: Res)
    requires start.offset <= s.pt.offset <= |env.data| && |s.vstack| > 0 && s.halt == Running
    ensures r.ok && Moved(s, r.st) && r.st.pt == s.pt && r.st.vstack == s.vstack
    ensures r.st.memo == s.memo && r.st.failPos == s.failPos && r.st.failExp == s.failExp && r.st.attempts == s.attempts
  {
    var cur := Current(start.Pos(), Cursor.Span(env.data, start.offset, s.pt.offset));
    var t := s.(cur := cur);
    match env.actions(run, cur, s.vstack[|s.vstack| - 1])
    case Returned(value, err) =>
      Res(value, true, if err.Some? then WithError(env, t, err.value, start.Pos(), []) else t)
    case ActionPanic(message) => Res(Nil, true, Halted(env, t, message))
  }

  /** `parseActionExpr`: match the child; on a success of a running parse
      the callback's value replaces the child's. */
  ghost function EvalAction(env: Env, e: Expr, s: St, fuel: nat): (r: Res)
    requires e.ActionExpr? && Inv(env, s) && |s.vstack| > 0
    ensures Inv(env, r.st) && Follows(s, r.st, r.v, r.ok)
    decreases fuel, 5, 0
  {
    var c := Eval(env, e.expr, s, fuel);
    if c.ok && c.st.halt == Running then
      Cursor.CursorOkCanAdvance(env.data, c.st.pt);
      var a := Acted(env, e.run, s.pt, c.st);
      MovedTrans(s, c.st, a.st);
      a
    else c
  }

  /** A code predicate asked at the cursor: its verdict, with an error it
      returns recorded at the cursor; a panic stops the parse and fails. */
  ghost function Asked(env: Env, run: nat, s: St): (r: Res)
    requires |s.vstack| > 0 && s.halt == Running
    ensures r.v == Nil && Moved(s, r.st) && r.st.pt == s.pt && r.st.vstack == s.vstack
    ensures r.st.memo == s.memo && r.st.failPos == s.failPos && r.st.failExp == s.failExp && r.st.attempts == s.attempts
  {
    match env.predicates(run, s.cur, s.vstack[|s.vstack| - 1])
    case Decided(b, err) => Res(Nil, b, if err.Some? then WithError(env, s, err.value, s.pt.Pos(), []) else s)
    case PredicatePanic(message) => Res(Nil, false, Halted(env, s, message))
  }

  /** `parseAndCodeExpr`. */
  ghost function EvalAndCode(env: Env, e: Expr, s: St): (r: Res)
    requires e.AndCodeExpr? && Inv(env, s) && |s.vstack| > 0 && s.halt == Running
    ensures Inv(env, r.st) && Follows(s, r.st, r.v, r.ok)
  {
    var q := Asked(env, e.run, s);
    if q.st.halt != Running then Res(Nil, false, q.st) else q
  }

  /** `parseNotCodeExpr`. */
  ghost function EvalNotCode(env: Env, e: Expr, s: St): (r: Res)
    requires e.NotCodeExpr? && Inv(env, s) && |s.vstack| > 0 && s.halt == Running
    ensures Inv(env, r.st) && Follows(s, r.st, r.v, r.ok)
  {
    var q := Asked(env, e.run, s);
    if q.st.halt != Running then Res(Nil, false, q.st) else Res(Nil, !q.ok, q.st)
  }

  /** `parseAndExpr`: the child runs in its own frame, then the frame is
      dropped and the cursor restored. */
  ghost function EvalAnd(env: Env, e: Expr, s: St, fuel: nat): (r: Res)
    requires e.AndExpr? && Inv(env, s) && |s.vstack| > 0
    ensures Inv(env, r.st) && Follows(s, r.st, r.v, r.ok)
    ensures r.v == Nil && r.st.pt == s.pt && r.st.vstack == s.vstack
    decreases fuel, 5, 0
  {
    var c := Eval(env, e.expr, Pushed(s), fuel);
    Res(Nil, c.ok, RestoredTo(Popped(c.st), s.pt))
  }

  /** `parseNotExpr`: as `parseAndExpr`, with the inversion flag flipped
      while the child runs and the verdict negated. */
  ghost function EvalNot(env: Env, e: Expr, s: St, fuel: nat): (r: Res)
    requires e.NotExpr? && Inv(env, s) && |s.vstack| > 0
    ensures Inv(env, r.st) && Follows(s, r.st, r.v, r.ok)
    ensures r.v == Nil && r.st.pt == s.pt && r.st.vstack == s.vstack
    decreases fuel, 5, 0
  {
    var c := Eval(env, e.expr, Pushed(s).(invert := !s.invert), fuel);
    Res(Nil, !c.ok, RestoredTo(Popped(c.st.(invert := !c.st.invert)), s.pt))
  }

  /** A single-rune success: read, report at the start, yield the bytes read. */
  ghost function Accepted(env: Env, s: St, want: string): (r: Res)
    requires Inv(env, s) && s.pt.rn != RuneError && s.halt == Running
    ensures Inv(env, r.st) && Follows(s, r.st, r.v, r.ok) && r.ok
    ensures r.st.pt == Cursor.Advance(env.data, s.pt) && r.st.pt.offset > s.pt.offset
    ensures r.v == Bytes(Cursor.Span(env.data, s.pt.offset, r.st.pt.offset))
  {
    Cursor.CursorOkCanAdvance(env.data, s.pt);
    var t := Reported(Advanced(env, s), true, s.pt.Pos(), want);
    Res(Bytes(Cursor.Span(env.data, s.pt.offset, t.pt.offset)), true, t)
  }

  /** `parseAnyMatcher`. */
  ghost function EvalAny(env: Env, e: Expr, s: St): (r: Res)
    requires e.AnyMatcher? && Inv(env, s) && s.halt == Running
    ensures Inv(env, r.st) && Follows(s, r.st, r.v, r.ok)
  {
    if s.pt.rn != RuneError then Accepted(env, s, ".")
    else Res(Nil, false, Reported(s, false, s.pt.Pos(), "."))
  }

  /** `parseCharClassMatcher`. */
  ghost function EvalClass(env: Env, e: Expr, s: St): (r: Res)
    requires e.CharClassMatcher? && Inv(env, s) && s.halt == Running
    ensures Inv(env, r.st) && Follows(s, r.st, r.v, r.ok)
  {
    if ClassMatches(e.chars, e.ranges, e.classes, e.ignoreCase, e.inverted, s.pt.rn) then Accepted(env, s, e.val)
    else Res(Nil, false, Reported(s, false, s.pt.Pos(), e.val))
  }

  /** The rune loop of `parseLitMatcher` from the literal's index `i`: read
      while each rune matches; only the cursor and the errors change. */
  ghost function LitRun(env: Env, s: St, val: string, ignoreCase: bool, i: nat): (r: Res)
    requires Cursor.CursorOk(env.data, s.pt) && i <= |val|
    ensures Cursor.CursorOk(env.data, r.st.pt) && r.v == Nil
    ensures r.st == s.(pt := r.st.pt, errs := r.st.errs) && s.errs <= r.st.errs
    ensures s.pt.offset <= r.st.pt.offset && (r.st.pt.offset == s.pt.offset ==> r.st.pt == s.pt)
    ensures r.ok == LitFrom(env.data, s.pt, val, ignoreCase, i).Some?
    ensures r.ok ==> r.st.pt == LitFrom(env.data, s.pt, val, ignoreCase, i).value
    decreases |val| - i
  {
    if i == |val| then Res(Nil, true, s)
    else if !LitRuneMatches(s.pt, val[i], ignoreCase) then Res(Nil, false, s)
    else
      LitRuneMatchesConsumes(env.data, s.pt, val[i], ignoreCase);
      LitRun(env, Advanced(env, s), val, ignoreCase, i + 1)
  }

  /** `parseLitMatcher`: on a mismatch report at the start and go back there;
      otherwise report the success and yield the bytes read. */
  ghost function EvalLit(env: Env, e: Expr, s: St): (r: Res)
    requires e.LitMatcher? && Inv(env, s) && s.halt == Running
    ensures Inv(env, r.st) && Follows(s, r.st, r.v, r.ok)
  {
    var desc := LitDescriptor(e.val, e.ignoreCase);
    var m := LitRun(env, s, e.val, e.ignoreCase, 0);
    if !m.ok then Res(Nil, false, RestoredTo(Reported(m.st, false, s.pt.Pos(), desc), s.pt))
    else
      var t := Reported(m.st, true, s.pt.Pos(), desc);
      Res(Bytes(Cursor.Span(env.data, s.pt.offset, t.pt.offset)), true, t)
  }

  /** The child evaluated in a scope frame of its own, dropped afterwards. */
  ghost function Scoped(env: Env, x: Expr, s: St, fuel: nat): (r: Res)
    requires Inv(env, s) && |s.vstack| > 0
    ensures Inv(env, r.st) && Follows(s, r.st, r.v, r.ok) && r.st.vstack == s.vstack
    decreases fuel, 3, 0
  {
    var c := Eval(env, x, Pushed(s), fuel);
    Res(c.v, c.ok, Popped(c.st))
  }

  /** The loop of `parseChoiceExpr` from alternative `i`: each alternative
      in its own frame; the first success is the result. */
  ghost function EvalAlts(env: Env, alts: seq<Expr>, i: nat, s: St, fuel: nat): (r: Res)
    requires i <= |alts| && Inv(env, s) && |s.vstack| > 0
    ensures Inv(env, r.st) && Follows(s, r.st, r.v, r.ok) && r.st.vstack == s.vstack
    decreases fuel, 4, |alts| - i
  {
    if i == |alts| then Res(Nil, false, s)
    else
      var c := Scoped(env, alts[i], s, fuel);
      if c.ok then c
      else
        var r := EvalAlts(env, alts, i + 1, c.st, fuel);
        MovedTrans(s, c.st, r.st);
        r
  }

  /** `parseChoiceExpr`. */
  ghost function EvalChoice(env: Env, e: Expr, s: St, fuel: nat): (r: Res)
    requires e.ChoiceExpr? && Inv(env, s) && |s.vstack| > 0
    ensures Inv(env, r.st) && Follows(s, r.st, r.v, r.ok)
    decreases fuel, 5, 0
  {
    EvalAlts(env, e.alternatives, 0, s, fuel)
  }

  /** `parseLabeledExpr`: the child runs in its own frame; a success with a
      non-empty label binds the value in the enclosing frame. */
  ghost function EvalLabeled(env: Env, e: Expr, s: St, fuel: nat): (r: Res)
    requires e.LabeledExpr? && Inv(env, s) && |s.vstack| > 0
    ensures Inv(env, r.st) && Follows(s, r.st, r.v, r.ok)
    decreases fuel, 5, 0
  {
    var c := Scoped(env, e.expr, s, fuel);
    var t := c.st;
    if c.ok && e.labelName != "" then
      var top := t.vstack[|t.vstack| - 1];
      Res(c.v, true, t.(vstack := t.vstack[|t.vstack| - 1 := top[e.labelName := c.v]]))
    else Res(c.v, c.ok, t)
  }

  /** The loop shared by `parseZeroOrMoreExpr` and `parseOneOrMoreExpr`:
      `vals` holds the values of the rounds so far; each round runs the child
      in its own frame, and the first failure ends the loop. `budget` bounds
      the rounds; exhausting it stops the parse. */
  ghost function EvalStar(env: Env, x: Expr, s: St, fuel: nat, budget: nat, vals: seq<Value>): (r: Items)
    requires Inv(env, s) && |s.vstack| > 0
    ensures Inv(env, r.st) && Moved(s, r.st) && r.st.vstack == s.vstack && r.ok
    ensures |vals| <= |r.vals| && r.vals[..|vals|] == vals
    ensures |r.vals| == |vals| ==> r.st.pt == s.pt
    decreases fuel, 4, budget
  {
    if budget == 0 then Items(vals, true, if s.halt == Running then s.(halt := OutOfFuel) else s)
    else
      var c := Scoped(env, x, s, fuel);
      if !c.ok then Items(vals, true, c.st)
      else
        var r := EvalStar(env, x, c.st, fuel, budget - 1, vals + [c.v]);
        MovedTrans(s, c.st, r.st);
        assert r.vals[..|vals|] == (vals + [c.v])[..|vals|];
        r
  }

  /** `parseZeroOrMoreExpr`. */
  ghost function EvalZeroOrMore(env: Env, e: Expr, s: St, fuel: nat): (r: Res)
    requires e.ZeroOrMoreExpr? && Inv(env, s) && |s.vstack| > 0
    ensures Inv(env, r.st) && Follows(s, r.st, r.v, r.ok)
    decreases fuel, 5, 0
  {
    var it := EvalStar(env, e.expr, s, fuel, fuel, []);
    Res(List(it.vals), true, it.st)
  }

  /** `parseOneOrMoreExpr`: as zero-or-more, but no round matching is a failure. */
  ghost function EvalOneOrMore(env: Env, e: Expr, s: St, fuel: nat): (r: Res)
    requires e.OneOrMoreExpr? && Inv(env, s) && |s.vstack| > 0
    ensures Inv(env, r.st) && Follows(s, r.st, r.v, r.ok)
    decreases fuel, 5, 0
  {
    var it := EvalStar(env, e.expr, s, fuel, fuel, []);
    if |it.vals| == 0 then Res(Nil, false, it.st) else Res(List(it.vals), true, it.st)
  }

  /** `parseZeroOrOneExpr`: the child in its own frame, a success either way. */
  ghost function EvalZeroOrOne(env: Env, e: Expr, s: St, fuel: nat): (r: Res)
    requires e.ZeroOrOneExpr? && Inv(env, s) && |s.vstack| > 0
    ensures Inv(env, r.st) && Follows(s, r.st, r.v, r.ok)
    decreases fuel, 5, 0
  {
    var c := Scoped(env, e.expr, s, fuel);
    Res(c.v, true, c.st)
  }

  /** The loop of `parseSeqExpr` from child `i`: `vals` holds the values of
      the children before it; the first child that fails ends the loop. */
  ghost function EvalItems(env: Env, xs: seq<Expr>, i: nat, s: St, fuel: nat, vals: seq<Value>): (r: Items)
    requires i <= |xs| && Inv(env, s) && |s.vstack| > 0
    ensures Inv(env, r.st) && Moved(s, r.st)
    ensures |vals| <= |r.vals| && r.vals[..|vals|] == vals
    ensures r.ok ==> |r.vals| == |vals| + |xs| - i
    decreases fuel, 4, |xs| - i
  {
    if i == |xs| then Items(vals, true, s)
    else
      var c := Eval(env, xs[i], s, fuel);
      if !c.ok then Items(vals, false, c.st)
      else
        var r := EvalItems(env, xs, i + 1, c.st, fuel, vals + [c.v]);
        MovedTrans(s, c.st, r.st);
        assert r.vals[..|vals|] == (vals + [c.v])[..|vals|];
        r
  }

  /** One item of the sequence loop: a match moves on with its value
      collected, a failure ends the loop there. */
  lemma ItemsStep(env: Env, xs: seq<Expr>, i: nat, s: St, fuel: nat, vals: seq<Value>)
    requires i < |xs| && Inv(env, s) && |s.vstack| > 0
    ensures var c := Eval(env, xs[i], s, fuel);
      && (c.ok ==> EvalItems(env, xs, i, s, fuel, vals) == EvalItems(env, xs, i + 1, c.st, fuel, vals + [c.v]))
      && (!c.ok ==> EvalItems(env, xs, i, s, fuel, vals) == Items(vals, false, c.st))
  {
  }

  /** `parseSeqExpr`: a failure goes back to the start of the sequence. */
  ghost function EvalSeq(env: Env, e: Expr, s: St, fuel: nat): (r: Res)
    requires e.SeqExpr? && Inv(env, s) && |s.vstack| > 0
    ensures Inv(env, r.st) && Follows(s, r.st, r.v, r.ok)
    decreases fuel, 5, 0
  {
    var it := EvalItems(env, e.exprs, 0, s, fuel, []);
    if it.ok then Res(List(it.vals), true, it.st) else Res(Nil, false, RestoredTo(it.st, s.pt))
  }

  /** The message of the missing-name fault of a rule reference. */
  function MissingNameMessage(e: Expr): string
  {
    PositionString(e.pos) + ": invalid rule: missing name"
  }

  /** `parseRuleRefExpr`: an empty name is a fault; an unknown name records an
      error and fails; otherwise the named rule is evaluated. */
  ghost function EvalRuleRef(env: Env, e: Expr, s: St, fuel: nat): (r: Res)
    requires e.RuleRefExpr? && Inv(env, s) && |s.vstack| > 0 && s.halt == Running
    ensures Inv(env, r.st) && Follows(s, r.st, r.v, r.ok)
    decreases fuel, 5, 0
  {
    if e.name == "" then Res(Nil, false, Halted(env, s, MissingNameMessage(e)))
    else if e.name !in s.rules then Res(Nil, false, WithError(env, s, UndefinedRuleMessage(e.name), s.pt.Pos(), []))
    else EvalRule(env, s.rules[e.name], s, fuel)
  }

  /** `parseRule`: with memoization a stored result is replayed; otherwise
      the body runs and, with memoization, its result is stored. */
  ghost function EvalRule(env: Env, rule: Rule, s: St, fuel: nat): (r: Res)
    requires Inv(env, s)
    ensures Inv(env, r.st) && Follows(s, r.st, r.v, r.ok) && r.st.vstack == s.vstack
    decreases fuel, 3, 0
  {
    if env.memoize && MemoGet(s.memo, s.pt.offset, rule.id).Some? then Replayed(env, s, rule.id)
    else
      var r := EvalRuleBody(env, rule, s, fuel);
      if env.memoize then
        StoredInv(env, r.st, s.pt.offset, rule.id, ResultTuple(r.v, r.ok, r.st.pt));
        Res(r.v, r.ok, Stored(r.st, s.pt.offset, rule.id, ResultTuple(r.v, r.ok, r.st.pt)))
      else r
  }

  /** A rule's body, run with the rule pushed on the rule stack and inside a
      fresh scope frame; both are popped afterwards. */
  ghost function EvalRuleBody(env: Env, rule: Rule, s: St, fuel: nat): (r: Res)
    requires Inv(env, s)
    ensures Inv(env, r.st) && Follows(s, r.st, r.v, r.ok) && r.st.vstack == s.vstack
    decreases fuel, 2, 0
  {
    var inner := Pushed(s.(rstack := s.rstack + [rule]));
    var c := Eval(env, rule.expr, inner, fuel);
    assert inner.vstack[..|inner.vstack| - 1] == s.vstack;
    Res(c.v, c.ok, Popped(c.st).(rstack := c.st.rstack[..|c.st.rstack| - 1]))
  }

  // The driver.

  /** The state in which `parse` evaluates the start rule: the rule table
      built and the first rune read. */
  function Begin(env: Env, g: Grammar): St
  {
    Advanced(env, NewState.(rules := RulesTable(g.rules, |g.rules|)))
  }

  /** The start rule evaluated from `Begin`. */
  ghost function Run(env: Env, g: Grammar, fuel: nat): (r: Res)
    requires |g.rules| > 0
    ensures Inv(env, r.st) && r.st.rstack == []
  {
    assert Inv(env, Begin(env, g));
    EvalRule(env, g.rules[0], Begin(env, g), fuel)
  }

  /** The no-match diagnostic: one error at the farthest failure offset,
      whose expected list is built from the descriptors recorded there. */
  ghost predicate NoMatchOutcome(env: Env, st: St, r: Outcome)
  {
    && r.Outcome? && r.val == Nil && |r.errs| == 1
    && var e := r.errs[0];
       && e == ParserError(NoMatchMessage(e.expected), st.failPos, env.filename, None, e.expected)
       && ExpectedList(st.failExp, e.expected)
       && st.failPos.offset == FarthestOffset(0, st.attempts)
       && st.failExp == DescriptorsAt(st.attempts, st.failPos.offset)
  }

  /** What `parse` returns once the start rule has given `res`: a stopped
      parse gives its outcome (a recovered fault is one more error); a
      success gives the value; a failure that recorded no error gets the
      no-match diagnostic; the errors are deduplicated. */
  ghost predicate Concludes(env: Env, res: Res, r: Outcome)
  {
    var st := res.st;
    && (r.Outcome? ==> DistinctKeys(r.errs, Message))
    && (st.halt == OutOfFuel ==> r == Exhausted)
    && (st.halt.Panicked? ==>
          r == (if env.recover then Outcome(Nil, Deduped(st.errs + [st.halt.err])) else Crashed(st.halt.err.inner)))
    && (st.halt == Running && res.ok ==> r == Outcome(res.v, Deduped(st.errs)))
    && (st.halt == Running && !res.ok && st.errs != [] ==> r == Outcome(Nil, Deduped(st.errs)))
    && (st.halt == Running && !res.ok && st.errs == [] ==> NoMatchOutcome(env, st, r))
  }

  /** What `Parse` returns for grammar `g`: with no rules the single "grammar
      has no rule" error; otherwise the conclusion of `Run`. */
  ghost predicate ParseOutcome(env: Env, g: Grammar, fuel: nat, r: Outcome)
  {
    if |g.rules| == 0 then r == Outcome(Nil, [ParserError(NoRuleMessage, StartSavepoint.Pos(), env.filename, None, [])])
    else Concludes(env, Run(env, g, fuel), r)
  }
}
