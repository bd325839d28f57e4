/** The example grammar this package is generated from: a sample is a run of
    identifiers, keywords (an identifier in braces, with optional spacing
    inside) and spacing, and parses to the list of its tokens. */
module TokenGrammar {
  import opened Values
  import opened Utf8
  import opened Matchers
  import opened Grammar
  import Cursor
  import Semantics
  import Engine
  import Errors

  /** The action callbacks, numbered. */
  const RunSample1: nat := 0
  const RunKeyword2: nat := 1
  const RunKeyword10: nat := 2
  const RunKeyword18: nat := 3
  const RunKeyword28: nat := 4
  const RunIdentifier1: nat := 5

  /** `stack[label]`: a missing label reads as nil. */
  function Lookup(frame: Frame, name: string): (v: Value)
    ensures name !in frame ==> v == Nil
    ensures name in frame ==> v == frame[name]
  {
    if name in frame then frame[name] else Nil
  }

  /** The tokens among a list of values, in order. */
  function TokensOf(items: seq<Value>): seq<Token>
  {
    if |items| == 0 then []
    else if items[|items| - 1].Tok? then TokensOf(items[..|items| - 1]) + [items[|items| - 1].token]
    else TokensOf(items[..|items| - 1])
  }

  /** `TokensOf` keeps exactly the token items. */
  lemma {:induction false} TokensOfMembers(items: seq<Value>)
    ensures forall t :: t in TokensOf(items) <==> Tok(t) in items
    ensures |TokensOf(items)| <= |items|
  {
    if |items| > 0 {
      var init := items[..|items| - 1];
      TokensOfMembers(init);
      assert items == init + [items[|items| - 1]];
    }
  }

  /** `TokensOf` distributes over concatenation, so it keeps the order. */
  lemma {:induction false} TokensOfAppend(a: seq<Value>, b: seq<Value>)
    ensures TokensOf(a + b) == TokensOf(a) + TokensOf(b)
  {
    if |b| > 0 {
      var init := b[..|b| - 1];
      TokensOfAppend(a, init);
      assert (a + b)[..|a + b| - 1] == a + init;
    } else {
      assert a + b == a;
    }
  }

  /** The name Go's runtime gives the dynamic type of a value, as it appears
      in the message of a failed type assertion. */
  function GoTypeName(v: Value): string
  {
    match v
    case Nil => "nil"
    case Bytes(_) => "[]uint8"
    case List(_) => "[]interface {}"
    case Tok(_) => "parser.Token"
    case Tokens(_) => "[]parser.Token"
  }

  /** The panic of a failed assertion of `v` to the type named `want`. */
  function ConversionPanic(v: Value, want: string): ActionResult
  {
    ActionPanic("interface conversion: interface {} is " + GoTypeName(v) + ", not " + want)
  }

  /** `onSample1`: an empty sample is an error; otherwise the tokens among the
      matched values. A label value that is not a list is a conversion fault. */
  function OnSample1(vs: Value): (r: ActionResult)
    ensures !vs.List? ==> r.ActionPanic?
    ensures vs == List([]) ==> r == Returned(Nil, Some("empty sample"))
    ensures vs.List? && vs.items != [] ==> r == Returned(Tokens(TokensOf(vs.items)), None)
  {
    match vs
    case List(items) =>
      if |items| == 0 then Returned(Nil, Some("empty sample"))
      else Returned(Tokens(TokensOf(items)), None)
    case _ => ConversionPanic(vs, "[]interface {}")
  }

  /** `onKeyword2`, `onKeyword10`, `onKeyword18`, `onKeyword28`: the bound
      identifier's text as a keyword token. */
  function OnKeyword(v: Value): ActionResult
  {
    if v.Tok? then Returned(Tok(Token(true, v.token.val)), None)
    else ConversionPanic(v, "parser.Token")
  }

  /** `onIdentifier1`: the matched text as a plain token. */
  function OnIdentifier1(c: Current): ActionResult
  {
    Returned(Tok(Token(false, c.text)), None)
  }

  /** The `callon…` thunks: each reads its labels from the innermost frame. */
  function Actions(run: nat, c: Current, frame: Frame): ActionResult
  {
    if run == RunSample1 then OnSample1(Lookup(frame, "vs"))
    else if run == RunKeyword2 || run == RunKeyword10 || run == RunKeyword18 || run == RunKeyword28 then
      OnKeyword(Lookup(frame, "v"))
    else if run == RunIdentifier1 then OnIdentifier1(c)
    else ActionPanic("no such action")
  }

  /** The grammar has no code predicates. */
  function Predicates(run: nat, c: Current, frame: Frame): PredicateResult
  {
    PredicatePanic("no such predicate")
  }

  /** The runes an identifier may not contain. */
  const IdentifierStops: seq<int> := ['{' as int, '}' as int, ' ' as int, '\t' as int, '\r' as int, '\n' as int]
  const WhitespaceChars: seq<int> := ['\t' as int, '\r' as int, '\n' as int]

  const IdentifierClass: Expr :=
    CharClassMatcher(18, Position(64, 3, 1456), "[^{} \\t\\r\\n]", IdentifierStops, [], [], false, true)
  const WhitespaceClass: Expr :=
    CharClassMatcher(29, Position(75, 3, 1589), "[\\t\\r\\n]", WhitespaceChars, [], [], false, false)

  function SpacingRef(id: nat, pos: Position): Expr { RuleRefExpr(id, pos, "Spacing") }

  /** "{" Spacing+ v:Identifier "}" and its three siblings. */
  function Braced(id: nat, pos: Position, run: nat, inner: seq<Expr>, closer: Position): Expr
  {
    ActionExpr(id, pos, SeqExpr(id + 1, pos, [LitMatcher(id + 2, pos, "{", false)] + inner
                                            + [LitMatcher(id + 3, closer, "}", false)]), run)
  }

  const SampleRule: Rule :=
    Rule(0, Position(32, 1, 693), "Sample", "\"sample\"",
      ActionExpr(1, Position(33, 3, 711),
        LabeledExpr(2, Position(33, 3, 711), "vs",
          ZeroOrMoreExpr(3, Position(33, 6, 714),
            ChoiceExpr(4, Position(33, 7, 715), [
              RuleRefExpr(5, Position(33, 7, 715), "Identifier"),
              RuleRefExpr(6, Position(33, 20, 728), "Keyword"),
              SpacingRef(7, Position(33, 30, 738))]))),
        RunSample1))

  const Keyword2Items: seq<Expr> := [
    OneOrMoreExpr(44, Position(49, 7, 1082), SpacingRef(45, Position(49, 7, 1082))),
    LabeledExpr(46, Position(49, 16, 1091), "v", RuleRefExpr(47, Position(49, 18, 1093), "Identifier"))]
  const Keyword10Items: seq<Expr> := [
    LabeledExpr(54, Position(52, 7, 1170), "v", RuleRefExpr(55, Position(52, 9, 1172), "Identifier")),
    OneOrMoreExpr(56, Position(52, 20, 1183), SpacingRef(57, Position(52, 20, 1183)))]
  const Keyword18Items: seq<Expr> := [
    OneOrMoreExpr(64, Position(55, 7, 1258), SpacingRef(65, Position(55, 7, 1258))),
    LabeledExpr(66, Position(55, 16, 1267), "v", RuleRefExpr(67, Position(55, 18, 1269), "Identifier")),
    OneOrMoreExpr(68, Position(55, 29, 1280), SpacingRef(69, Position(55, 29, 1280)))]
  const Keyword28Items: seq<Expr> := [
    LabeledExpr(74, Position(58, 7, 1355), "v", RuleRefExpr(75, Position(58, 9, 1357), "Identifier"))]

  const Keyword2: Expr := Braced(40, Position(49, 3, 1078), RunKeyword2, Keyword2Items, Position(49, 29, 1104))
  const Keyword10: Expr := Braced(50, Position(52, 3, 1166), RunKeyword10, Keyword10Items, Position(52, 29, 1192))
  const Keyword18: Expr := Braced(60, Position(55, 3, 1254), RunKeyword18, Keyword18Items, Position(55, 38, 1289))
  const Keyword28: Expr := Braced(70, Position(58, 3, 1351), RunKeyword28, Keyword28Items, Position(58, 20, 1368))

  const KeywordRule: Rule :=
    Rule(8, Position(48, 1, 1058), "Keyword", "\"keyword\"",
      ChoiceExpr(9, Position(49, 3, 1078), [Keyword2, Keyword10, Keyword18, Keyword28]))

  const IdentifierRule: Rule :=
    Rule(10, Position(63, 1, 1430), "Identifier", "\"identifier\"",
      ActionExpr(11, Position(64, 3, 1456), OneOrMoreExpr(12, Position(64, 3, 1456), IdentifierClass),
                 RunIdentifier1))

  const SpacingRule: Rule :=
    Rule(20, Position(68, 1, 1518), "Spacing", "\"spacing\"",
      ChoiceExpr(21, Position(69, 3, 1538), [
        OneOrMoreExpr(22, Position(69, 3, 1538), RuleRefExpr(23, Position(69, 3, 1538), "Space")),
        OneOrMoreExpr(24, Position(69, 12, 1547), RuleRefExpr(25, Position(69, 12, 1547), "_"))]))

  const SpaceRule: Rule :=
    Rule(26, Position(71, 1, 1551), "Space", "\"Space\"", LitMatcher(27, Position(72, 3, 1567), " ", false))

  const WhitespaceRule: Rule :=
    Rule(28, Position(74, 1, 1572), "_", "\"whitespace\"", WhitespaceClass)

  /** The grammar; `Sample` is the start rule. */
  const G: Grammar :=
    Grammar(Position(0, 0, 0), [SampleRule, KeywordRule, IdentifierRule, SpacingRule, SpaceRule, WhitespaceRule])

  /** An identifier rune is any decoded rune other than braces, space, tab,
      carriage return and newline. */
  lemma IdentifierRunes(rn: int)
    ensures ClassMatches(IdentifierStops, [], [], false, true, rn) <==>
      rn != RuneError && rn !in IdentifierStops
  {
    assert !InRanges([], rn) && !InClasses([], rn);
  }

  /** `_` matches exactly tab, carriage return and newline. */
  lemma WhitespaceRunes(rn: int)
    ensures ClassMatches(WhitespaceChars, [], [], false, false, rn) <==>
      rn == '\t' as int || rn == '\r' as int || rn == '\n' as int
  {
    assert !InRanges([], rn) && !InClasses([], rn);
  }

  /** Every keyword alternative builds a keyword token from the identifier
      bound to `v`, ignoring the spacing. */
  lemma KeywordActions(c: Current, frame: Frame, t: Token)
    requires "v" in frame && frame["v"] == Tok(t)
    ensures forall run | run in {RunKeyword2, RunKeyword10, RunKeyword18, RunKeyword28} ::
      Actions(run, c, frame) == Returned(Tok(Token(true, t.val)), None)
  {
  }

  /** A sample that matched something yields its tokens in order; one that
      matched nothing is the "empty sample" error. */
  lemma SampleAction(c: Current, frame: Frame, items: seq<Value>)
    requires "vs" in frame && frame["vs"] == List(items)
    ensures items == [] ==> Actions(RunSample1, c, frame) == Returned(Nil, Some("empty sample"))
    ensures items != [] ==> Actions(RunSample1, c, frame) == Returned(Tokens(TokensOf(items)), None)
    ensures items != [] ==> forall t :: t in Actions(RunSample1, c, frame).value.tokens <==> Tok(t) in items
  {
    TokensOfMembers(items);
  }

  /** The rule names the grammar defines. */
  function RuleNames(rules: seq<Rule>): set<string>
  {
    set i | 0 <= i < |rules| :: rules[i].name
  }

  /** The grammar is closed: `Sample` comes first, and every rule reference
      names one of its six rules, so no parse reports an undefined rule. */
  lemma GrammarClosed()
    ensures |G.rules| == 6 && G.rules[0].name == "Sample"
    ensures RuleNames(G.rules) == {"Sample", "Keyword", "Identifier", "Spacing", "Space", "_"}
    ensures forall i | 0 <= i < |G.rules| :: Refs(G.rules[i].expr) <= RuleNames(G.rules)
  {
    var names := RuleNames(G.rules);
    assert names == {"Sample", "Keyword", "Identifier", "Spacing", "Space", "_"} by {
      assert G.rules[0].name == "Sample" && G.rules[1].name == "Keyword" && G.rules[2].name == "Identifier";
      assert G.rules[3].name == "Spacing" && G.rules[4].name == "Space" && G.rules[5].name == "_";
    }
    SampleRefs();
    KeywordRefs();
    SpacingRefs();
    LeafRefs();
    forall i | 0 <= i < |G.rules| ensures Refs(G.rules[i].expr) <= names {
      assert G.rules[i] in [SampleRule, KeywordRule, IdentifierRule, SpacingRule, SpaceRule, WhitespaceRule];
    }
  }

  lemma LeafRefs()
    ensures Refs(IdentifierRule.expr) == {} && Refs(SpaceRule.expr) == {} && Refs(WhitespaceRule.expr) == {}
  {
    assert IdentifierRule.expr == ActionExpr(11, Position(64, 3, 1456), OneOrMoreExpr(12, Position(64, 3, 1456), IdentifierClass),
                 RunIdentifier1);
    assert Refs(IdentifierClass) == {};
    assert Refs(WhitespaceClass) == {};
  }

  lemma SampleRefs()
    ensures Refs(SampleRule.expr) == {"Identifier", "Keyword", "Spacing"}
  {
    var alts := SampleRule.expr.expr.expr.expr.alternatives;
    assert RefsAll(alts[2..]) == {"Spacing"};
    assert RefsAll(alts[1..]) == {"Keyword", "Spacing"};
  }

  lemma SpacingRefs()
    ensures Refs(SpacingRule.expr) == {"Space", "_"}
  {
    assert RefsAll(SpacingRule.expr.alternatives[1..]) == {"_"};
  }

  /** A braced action refers to what its inner items refer to. */
  lemma BracedRefs(id: nat, pos: Position, run: nat, inner: seq<Expr>, closer: Position)
    ensures Refs(Braced(id, pos, run, inner, closer)) == RefsAll(inner)
  {
    var open := [LitMatcher(id + 2, pos, "{", false)];
    var close := [LitMatcher(id + 3, closer, "}", false)];
    RefsAllAppend(open + inner, close);
    RefsAllAppend(open, inner);
    assert RefsAll(open) == {} by { assert open[1..] == []; }
    assert RefsAll(close) == {} by { assert close[1..] == []; }
  }

  lemma KeywordRefs()
    ensures Refs(KeywordRule.expr) == {"Identifier", "Spacing"}
  {
    Keyword2Refs();
    Keyword10Refs();
    Keyword18Refs();
    Keyword28Refs();
    var alts := KeywordRule.expr.alternatives;
    assert alts == [Keyword2, Keyword10, Keyword18, Keyword28];
    assert RefsAll(alts[3..]) == {"Identifier"} by { assert alts[3..][1..] == []; }
    assert RefsAll(alts[2..]) == {"Identifier", "Spacing"} by { assert alts[2..][1..] == alts[3..]; }
    assert RefsAll(alts[1..]) == {"Identifier", "Spacing"} by { assert alts[1..][1..] == alts[2..]; }
  }

  lemma Keyword2Refs()
    ensures Refs(Keyword2) == {"Identifier", "Spacing"}
  {
    BracedRefs(40, Position(49, 3, 1078), RunKeyword2, Keyword2Items, Position(49, 29, 1104));
    assert RefsAll(Keyword2Items[1..]) == {"Identifier"};
  }

  lemma Keyword10Refs()
    ensures Refs(Keyword10) == {"Identifier", "Spacing"}
  {
    BracedRefs(50, Position(52, 3, 1166), RunKeyword10, Keyword10Items, Position(52, 29, 1192));
    assert RefsAll(Keyword10Items[1..]) == {"Spacing"};
  }

  lemma Keyword18Refs()
    ensures Refs(Keyword18) == {"Identifier", "Spacing"}
  {
    BracedRefs(60, Position(55, 3, 1254), RunKeyword18, Keyword18Items, Position(55, 38, 1289));
    assert RefsAll(Keyword18Items[2..]) == {"Spacing"};
    assert RefsAll(Keyword18Items[1..]) == {"Identifier", "Spacing"};
  }

  lemma Keyword28Refs()
    ensures Refs(Keyword28) == {"Identifier"}
  {
    BracedRefs(70, Position(58, 3, 1351), RunKeyword28, Keyword28Items, Position(58, 20, 1368));
    assert RefsAll(Keyword28Items[1..]) == {};
  }

  /** `Parse`: the grammar above over `b`, with the default options unless
      given (no memoization, faults recovered). */
  method ParseSample(filename: string, b: seq<byte>, memoize: bool, recover: bool, fuel: nat)
    returns (r: Semantics.Outcome)
    ensures Semantics.ParseOutcome(SampleEnv(filename, b, memoize, recover), G, fuel, r)
  {
    r := Engine.ParseInput(filename, b, G, memoize, recover, Actions, Predicates, fuel);
  }

  /** The parser configuration `ParseSample` creates. */
  function SampleEnv(filename: string, b: seq<byte>, memoize: bool, recover: bool): Semantics.Env
  {
    Semantics.Env(filename, b, memoize, recover, Actions, Predicates)
  }
}
