/** The grammar the engine interprets: rules and the closed set of
    expression variants. Every node carries a stable integer id, which the
    memo table uses as the node's identity. */
module Grammar {
  import opened Values
  import opened Matchers

  datatype Expr =
    | ActionExpr(id: nat, pos: Position, expr: Expr, run: nat)
    | AndCodeExpr(id: nat, pos: Position, run: nat)
    | AndExpr(id: nat, pos: Position, expr: Expr)
    | AnyMatcher(id: nat, pos: Position)
    | CharClassMatcher(id: nat, pos: Position, val: string, chars: seq<int>, ranges: seq<CharRange>,
                       classes: seq<RangeTable>, ignoreCase: bool, inverted: bool)
    | ChoiceExpr(id: nat, pos: Position, alternatives: seq<Expr>)
    | LabeledExpr(id: nat, pos: Position, labelName: string, expr: Expr)
    | LitMatcher(id: nat, pos: Position, val: string, ignoreCase: bool)
    | NotCodeExpr(id: nat, pos: Position, run: nat)
    | NotExpr(id: nat, pos: Position, expr: Expr)
    | OneOrMoreExpr(id: nat, pos: Position, expr: Expr)
    | RuleRefExpr(id: nat, pos: Position, name: string)
    | SeqExpr(id: nat, pos: Position, exprs: seq<Expr>)
    | ZeroOrMoreExpr(id: nat, pos: Position, expr: Expr)
    | ZeroOrOneExpr(id: nat, pos: Position, expr: Expr)

  /** The variants that evaluate no sub-expression. */
  predicate Atomic(e: Expr)
  {
    e.AndCodeExpr? || e.AnyMatcher? || e.CharClassMatcher? || e.LitMatcher? || e.NotCodeExpr?
  }

  /** The variants that sequence, choose or repeat sub-expressions. */
  predicate Compound(e: Expr)
  {
    e.ChoiceExpr? || e.OneOrMoreExpr? || e.SeqExpr? || e.ZeroOrMoreExpr? || e.ZeroOrOneExpr?
  }

  datatype Rule = Rule(id: nat, pos: Position, name: string, displayName: string, expr: Expr)

  /** The start rule is rules[0]. */
  datatype Grammar = Grammar(pos: Position, rules: seq<Rule>)

  /** What an action callback gives back: a value and maybe an error, or a panic. */
  datatype ActionResult = Returned(value: Value, err: Option<string>) | ActionPanic(message: string)

  /** What a code predicate gives back: a verdict and maybe an error, or a panic. */
  datatype PredicateResult = Decided(ok: bool, err: Option<string>) | PredicatePanic(message: string)

  /** The rule names an expression refers to. */
  function Refs(e: Expr): set<string>
    decreases e
  {
    match e
    case RuleRefExpr(_, _, name) => {name}
    case ActionExpr(_, _, x, _) => Refs(x)
    case AndExpr(_, _, x) => Refs(x)
    case LabeledExpr(_, _, _, x) => Refs(x)
    case NotExpr(_, _, x) => Refs(x)
    case OneOrMoreExpr(_, _, x) => Refs(x)
    case ZeroOrMoreExpr(_, _, x) => Refs(x)
    case ZeroOrOneExpr(_, _, x) => Refs(x)
    case ChoiceExpr(_, _, xs) => RefsAll(xs)
    case SeqExpr(_, _, xs) => RefsAll(xs)
    case _ => {}
  }

  function RefsAll(xs: seq<Expr>): set<string>
    decreases xs
  {
    if |xs| == 0 then {} else Refs(xs[0]) + RefsAll(xs[1..])
  }

  /** The references of a concatenation are those of its parts. */
  lemma {:induction false} RefsAllAppend(a: seq<Expr>, b: seq<Expr>)
    ensures RefsAll(a + b) == RefsAll(a) + RefsAll(b)
    decreases |a|
  {
    if |a| == 0 {
      assert a + b == b;
    } else {
      assert (a + b)[0] == a[0] && (a + b)[1..] == a[1..] + b;
      RefsAllAppend(a[1..], b);
    }
  }

  /** The rule table `buildRulesTable` fills from the first `n` rules: each
      name maps to the last rule carrying it. */
  function RulesTable(rs: seq<Rule>, n: nat): map<string, Rule>
    requires n <= |rs|
  {
    if n == 0 then map[] else RulesTable(rs, n - 1)[rs[n - 1].name := rs[n - 1]]
  }

  /** The table has exactly the names of the rules it was built from. */
  lemma {:induction false} RulesTableKeys(rs: seq<Rule>, n: nat)
    requires n <= |rs|
    ensures forall name :: name in RulesTable(rs, n) <==> exists i | 0 <= i < n :: rs[i].name == name
  {
    if n > 0 {
      RulesTableKeys(rs, n - 1);
    }
  }

  /** A rule no later rule shares its name with is the one the table holds. */
  lemma {:induction false} RulesTableLast(rs: seq<Rule>, n: nat, i: nat)
    requires i < n <= |rs|
    requires forall j | i < j < n :: rs[j].name != rs[i].name
    ensures rs[i].name in RulesTable(rs, n) && RulesTable(rs, n)[rs[i].name] == rs[i]
  {
    if i < n - 1 {
      RulesTableLast(rs, n - 1, i);
    }
  }

  /** The name an error message uses for a rule: its display name if it has one. */
  function RuleLabel(r: Rule): (s: string)
    ensures r.displayName != "" ==> s == r.displayName
    ensures r.displayName == "" ==> s == r.name
  {
    if r.displayName != "" then r.displayName else r.name
  }
}
