/** The error side of a parse: errors carrying a positional prefix, the
    error list with its duplicate suppression and newline-joined text, and
    the "no match found" diagnostic built from the farthest failure. */
module Errors {
  import opened Values
  import opened Text

  /** `parserError`: the inner message, where it happened, the file name and
      the rule running when it was raised (from which its prefix is built),
      and the expected descriptors. */
  datatype ParserError = ParserError(inner: string, pos: Position, file: string, rule: Option<string>,
                                     expected: seq<string>)

  /** The error's `prefix` string. */
  function PrefixText(e: ParserError): string
  {
    Prefix(e.file, e.pos, e.rule)
  }

  /** `parserError.Error`. */
  function Message(e: ParserError): string
  {
    PrefixText(e) + ": " + e.inner
  }

  /** `position.String`: "line:col [offset]". */
  function PositionString(p: Position): (s: string)
  {
    NatToString(p.line) + ":" + NatToString(p.col) + " [" + NatToString(p.offset) + "]"
  }

  function PositionOf(line: nat, col: nat, offset: nat): string
  {
    NatToString(line) + ":" + NatToString(col) + " (" + NatToString(offset) + ")"
  }

  /** The prefix `addErrAt` builds: "file:" when there is a file name, then
      "line:col (offset)", then ": rule <name>" when a rule is running. */
  function Prefix(filename: string, pos: Position, rule: Option<string>): string
  {
    var head := if filename != "" then filename + ":" else "";
    var at := head + PositionOf(pos.line, pos.col, pos.offset);
    if rule.Some? then at + ": rule " + rule.value else at
  }

  /** The prefix starts with the file name and a colon, or with the position
      when there is no file name, and ends with the rule or the position. */
  lemma PrefixShape(filename: string, pos: Position, rule: Option<string>)
    ensures var r := Prefix(filename, pos, rule);
      && (filename != "" ==> |filename| + 1 <= |r| && r[..|filename| + 1] == filename + ":")
      && (filename == "" ==> var at := PositionOf(pos.line, pos.col, pos.offset); |at| <= |r| && r[..|at|] == at)
      && (rule.Some? ==> |rule.value| + 7 <= |r| && r[|r| - |rule.value| - 7..] == ": rule " + rule.value)
      && (rule.None? ==> |r| > 0 && r[|r| - 1] == ')')
  {
    var head := if filename != "" then filename + ":" else "";
    var p := PositionOf(pos.line, pos.col, pos.offset);
    var at := head + p;
    var r := Prefix(filename, pos, rule);
    var tail := if rule.Some? then ": rule " + rule.value else "";
    assert r == at + tail;
    assert r[..|head|] == head by {
      assert at[..|head|] == head;
      PrefixOfAppend(at, tail, |head|);
    }
    if filename == "" {
      assert r[..|p|] == p by { PrefixOfAppend(at, tail, |p|); }
    }
    if rule.Some? {
      assert r[|r| - |tail|..] == tail by { SuffixOfAppend(at, tail); }
    } else {
      assert r[|r| - 1] == p[|p| - 1] == ')';
    }
  }

  /** Decimal digits hold no colon. */
  lemma DigitsNoColon(n: nat)
    ensures ':' !in NatToString(n)
  {
    var d := NatToString(n);
    forall i | 0 <= i < |d| ensures d[i] != ':' {
      assert '0' <= d[i] <= '9';
    }
  }

  /** The parts of the prefix between its colons. */
  function PrefixParts(filename: string, pos: Position, rule: Option<string>): seq<string>
  {
    Parts(filename, NatToString(pos.line), NatToString(pos.col) + " (" + NatToString(pos.offset) + ")", rule)
  }

  /** The file name when there is one, the two position parts, the rule when there is one. */
  function Parts(filename: string, line: string, rest: string, rule: Option<string>): seq<string>
  {
    (if filename != "" then [filename] else [])
    + [line, rest]
    + (if rule.Some? then [" rule " + rule.value] else [])
  }

  lemma JoinTwo(a: string, b: string)
    ensures Join([a, b], ":") == a + ":" + b
  {
    assert [a, b][..1] == [a];
  }

  lemma JoinThree(a: string, b: string, c: string)
    ensures Join([a, b, c], ":") == a + ":" + b + ":" + c
  {
    assert [a, b, c][..2] == [a, b];
    JoinTwo(a, b);
  }

  lemma JoinFour(a: string, b: string, c: string, d: string)
    ensures Join([a, b, c, d], ":") == a + ":" + b + ":" + c + ":" + d
  {
    assert [a, b, c, d][..3] == [a, b, c];
    JoinThree(a, b, c);
  }

  /** The parts joined by colons are the prefix's layout. */
  lemma PartsJoin(filename: string, line: string, rest: string, rule: Option<string>)
    ensures Join(Parts(filename, line, rest, rule), ":") ==
      (if filename != "" then filename + ":" else "") + (line + ":" + rest)
      + (if rule.Some? then ": rule " + rule.value else "")
  {
    if filename != "" && rule.Some? {
      assert Parts(filename, line, rest, rule) == [filename, line, rest, " rule " + rule.value];
      JoinFileRule(filename, line, rest, rule.value);
    } else if filename != "" {
      assert Parts(filename, line, rest, rule) == [filename, line, rest];
      JoinFile(filename, line, rest);
    } else if rule.Some? {
      assert Parts(filename, line, rest, rule) == [line, rest, " rule " + rule.value];
      JoinRule(line, rest, rule.value);
    } else {
      assert Parts(filename, line, rest, rule) == [line, rest];
      JoinTwo(line, rest);
    }
  }

  lemma JoinFileRule(filename: string, line: string, rest: string, name: string)
    ensures Join([filename, line, rest, " rule " + name], ":") ==
      (filename + ":") + (line + ":" + rest) + (": rule " + name)
  {
    JoinFour(filename, line, rest, " rule " + name);
  }

  lemma JoinFile(filename: string, line: string, rest: string)
    ensures Join([filename, line, rest], ":") == (filename + ":") + (line + ":" + rest) + ""
  {
    JoinThree(filename, line, rest);
  }

  lemma JoinRule(line: string, rest: string, name: string)
    ensures Join([line, rest, " rule " + name], ":") == "" + (line + ":" + rest) + (": rule " + name)
  {
    JoinThree(line, rest, " rule " + name);
  }

  /** The prefix is its parts joined by colons. */
  lemma PrefixIsJoin(filename: string, pos: Position, rule: Option<string>)
    ensures Prefix(filename, pos, rule) == Join(PrefixParts(filename, pos, rule), ":")
  {
    var line := NatToString(pos.line);
    var rest := NatToString(pos.col) + " (" + NatToString(pos.offset) + ")";
    PartsJoin(filename, line, rest, rule);
    assert PositionOf(pos.line, pos.col, pos.offset) == line + ":" + rest;
  }

  /** Splitting the prefix at colons gives back its parts: the file name
      (when there is one), the line, the column with the offset, and the
      rule (when one is running), provided neither name holds a colon. */
  lemma PrefixSplits(filename: string, pos: Position, rule: Option<string>)
    requires ':' !in filename && (rule.Some? ==> ':' !in rule.value)
    ensures Split(Prefix(filename, pos, rule), ':') == PrefixParts(filename, pos, rule)
  {
    var parts := PrefixParts(filename, pos, rule);
    DigitsNoColon(pos.line);
    DigitsNoColon(pos.col);
    DigitsNoColon(pos.offset);
    forall k | 0 <= k < |parts| ensures ':' !in parts[k] {
    }
    PrefixIsJoin(filename, pos, rule);
    SplitJoin(parts, ':');
  }

  /** `errList.Error`: nothing, the single message, or the messages one per line. */
  function ErrorText(es: seq<ParserError>): string
  {
    if |es| == 0 then ""
    else if |es| == 1 then Message(es[0])
    else ErrorText(es[..|es| - 1]) + "\n" + Message(es[|es| - 1])
  }

  function Messages(es: seq<ParserError>): seq<string>
    ensures |Messages(es)| == |es|
    ensures forall i | 0 <= i < |es| :: Messages(es)[i] == Message(es[i])
  {
    if |es| == 0 then [] else Messages(es[..|es| - 1]) + [Message(es[|es| - 1])]
  }

  /** The error text is the messages joined by newlines, so when no message
      contains a newline, splitting the text recovers the messages. */
  lemma {:induction false} ErrorTextSplits(es: seq<ParserError>)
    requires |es| >= 1
    requires forall i | 0 <= i < |es| :: '\n' !in Message(es[i])
    ensures ErrorText(es) == Join(Messages(es), "\n")
    ensures Split(ErrorText(es), '\n') == Messages(es)
  {
    ErrorTextIsJoin(es);
    SplitJoin(Messages(es), '\n');
  }

  lemma {:induction false} ErrorTextIsJoin(es: seq<ParserError>)
    ensures ErrorText(es) == Join(Messages(es), "\n")
  {
    if |es| > 1 {
      ErrorTextIsJoin(es[..|es| - 1]);
      assert Messages(es)[..|es| - 1] == Messages(es[..|es| - 1]);
    }
  }

  /** The keys carried by the elements of `xs`. The duplicate suppression
      below is stated for any key; `errList` uses the error message. */
  function KeySet<T, K(==)>(xs: seq<T>, key: T -> K): set<K>
  {
    set i | 0 <= i < |xs| :: key(xs[i])
  }

  /** `dedupe`: scanning left to right, keep an element only if no earlier kept
      element (nor a key in `seen`) had the same key. */
  function DedupeFrom<T, K(==)>(xs: seq<T>, key: T -> K, seen: set<K>): seq<T>
  {
    if |xs| == 0 then []
    else if key(xs[0]) in seen then DedupeFrom(xs[1..], key, seen)
    else [xs[0]] + DedupeFrom(xs[1..], key, seen + {key(xs[0])})
  }

  /** The errors `errList.dedupe` keeps, keyed by their message. */
  function Deduped(es: seq<ParserError>): seq<ParserError>
  {
    DedupeFrom(es, Message, {})
  }

  /** A single error is kept as it is. */
  lemma DedupeSingleton(e: ParserError)
    ensures Deduped([e]) == [e]
  {
    assert [e][1..] == [];
    assert DedupeFrom([e], Message, {}) == [e] + DedupeFrom([], Message, {} + {Message(e)});
  }

  /** The index of the first element carrying key `m`. */
  function FirstIndex<T, K(==)>(xs: seq<T>, key: T -> K, m: K): (i: nat)
    requires m in KeySet(xs, key)
    ensures i < |xs| && key(xs[i]) == m
    ensures forall j | 0 <= j < i :: key(xs[j]) != m
  {
    if key(xs[0]) == m then 0
    else
      assert m in KeySet(xs[1..], key) by {
        var k :| 0 <= k < |xs| && key(xs[k]) == m;
        assert xs[1..][k - 1] == xs[k];
      }
      1 + FirstIndex(xs[1..], key, m)
  }

  predicate DistinctKeys<T, K(==)>(r: seq<T>, key: T -> K)
  {
    forall i, j | 0 <= i < j < |r| :: key(r[i]) != key(r[j])
  }

  lemma KeySetCons<T, K>(xs: seq<T>, key: T -> K)
    requires |xs| > 0
    ensures KeySet(xs, key) == {key(xs[0])} + KeySet(xs[1..], key)
  {
    forall m | m in KeySet(xs, key) ensures m in {key(xs[0])} + KeySet(xs[1..], key) {
      var k :| 0 <= k < |xs| && key(xs[k]) == m;
      if k > 0 { assert xs[1..][k - 1] == xs[k]; }
    }
    forall m | m in KeySet(xs[1..], key) ensures m in KeySet(xs, key) {
      var k :| 0 <= k < |xs[1..]| && key(xs[1..][k]) == m;
      assert xs[k + 1] == xs[1..][k];
    }
  }

  /** The keys `dedupe` keeps: every key not already seen, each once. */
  lemma {:induction false} DedupeKeys<T, K>(xs: seq<T>, key: T -> K, seen: set<K>)
    ensures KeySet(DedupeFrom(xs, key, seen), key) == KeySet(xs, key) - seen
    ensures DistinctKeys(DedupeFrom(xs, key, seen), key)
  {
    var r := DedupeFrom(xs, key, seen);
    if |xs| == 0 {
      assert KeySet(xs, key) == {} && KeySet(r, key) == {};
    } else {
      var e := xs[0];
      KeySetCons(xs, key);
      if key(e) in seen {
        DedupeKeys(xs[1..], key, seen);
      } else {
        var t := DedupeFrom(xs[1..], key, seen + {key(e)});
        DedupeKeys(xs[1..], key, seen + {key(e)});
        assert r == [e] + t && r[1..] == t;
        KeySetCons(r, key);
        forall i, j | 0 <= i < j < |r| ensures key(r[i]) != key(r[j]) {
          assert r[j] == t[j - 1] && key(t[j - 1]) in KeySet(t, key);
          if i > 0 { assert r[i] == t[i - 1]; }
        }
      }
    }
  }

  /** Each element `dedupe` keeps is the first one carrying its key. */
  lemma {:induction false} DedupeFirst<T, K>(xs: seq<T>, key: T -> K, seen: set<K>)
    ensures var r := DedupeFrom(xs, key, seen);
      forall k | 0 <= k < |r| :: key(r[k]) in KeySet(xs, key) && r[k] == xs[FirstIndex(xs, key, key(r[k]))]
  {
    var r := DedupeFrom(xs, key, seen);
    if |xs| > 0 {
      var e := xs[0];
      KeySetCons(xs, key);
      var seen' := if key(e) in seen then seen else seen + {key(e)};
      var t := DedupeFrom(xs[1..], key, seen');
      DedupeFirst(xs[1..], key, seen');
      DedupeKeys(xs[1..], key, seen');
      forall k | 0 <= k < |t| ensures key(t[k]) in KeySet(xs, key) && t[k] == xs[FirstIndex(xs, key, key(t[k]))] {
        assert key(t[k]) in KeySet(t, key);
        FirstIndexTail(xs, key, key(t[k]));
      }
      if key(e) !in seen {
        assert r == [e] + t;
        assert forall k | 0 < k < |r| :: r[k] == t[k - 1];
      }
    }
  }

  /** `dedupe` keeps the first occurrences in their original order. */
  lemma DedupeOrder<T, K>(xs: seq<T>, key: T -> K, seen: set<K>)
    ensures var r := DedupeFrom(xs, key, seen);
      forall k1, k2 | 0 <= k1 < k2 < |r| && key(r[k1]) in KeySet(xs, key) && key(r[k2]) in KeySet(xs, key) ::
        FirstIndex(xs, key, key(r[k1])) < FirstIndex(xs, key, key(r[k2]))
  {
    var r := DedupeFrom(xs, key, seen);
    forall k1, k2 | 0 <= k1 < k2 < |r| && key(r[k1]) in KeySet(xs, key) && key(r[k2]) in KeySet(xs, key)
      ensures FirstIndex(xs, key, key(r[k1])) < FirstIndex(xs, key, key(r[k2])) {
      DedupePairOrder(xs, key, seen, k1, k2);
    }
  }

  /** Two kept elements appear in the order of their keys' first occurrences. */
  lemma {:induction false} DedupePairOrder<T, K>(xs: seq<T>, key: T -> K, seen: set<K>, k1: nat, k2: nat)
    requires k1 < k2 < |DedupeFrom(xs, key, seen)|
    ensures var r := DedupeFrom(xs, key, seen);
      key(r[k1]) in KeySet(xs, key) && key(r[k2]) in KeySet(xs, key)
      && FirstIndex(xs, key, key(r[k1])) < FirstIndex(xs, key, key(r[k2]))
    decreases |xs|
  {
    var r := DedupeFrom(xs, key, seen);
    var e := xs[0];
    var seen' := if key(e) in seen then seen else seen + {key(e)};
    var t := DedupeFrom(xs[1..], key, seen');
    if key(e) in seen {
      assert r == t;
      DedupePairOrder(xs[1..], key, seen', k1, k2);
      DedupeTailIndex(xs, key, seen', k1);
      DedupeTailIndex(xs, key, seen', k2);
    } else {
      assert r == [e] + t;
      assert r[k2] == t[k2 - 1];
      DedupeTailIndex(xs, key, seen', k2 - 1);
      if k1 == 0 {
        assert r[0] == xs[0];
        assert key(xs[0]) in KeySet(xs, key);
      } else {
        assert r[k1] == t[k1 - 1];
        DedupePairOrder(xs[1..], key, seen', k1 - 1, k2 - 1);
        DedupeTailIndex(xs, key, seen', k1 - 1);
      }
    }
  }

  /** An element kept from the tail, when the head's key was already seen,
      has its first occurrence one later in the whole sequence than in the tail. */
  lemma DedupeTailIndex<T, K>(xs: seq<T>, key: T -> K, seen: set<K>, k: nat)
    requires |xs| > 0 && key(xs[0]) in seen && k < |DedupeFrom(xs[1..], key, seen)|
    ensures var m := key(DedupeFrom(xs[1..], key, seen)[k]);
      m in KeySet(xs[1..], key) && m in KeySet(xs, key) && FirstIndex(xs, key, m) == 1 + FirstIndex(xs[1..], key, m)
  {
    var t := DedupeFrom(xs[1..], key, seen);
    DedupeKeys(xs[1..], key, seen);
    assert key(t[k]) in KeySet(t, key);
    FirstIndexTail(xs, key, key(t[k]));
  }

  lemma FirstIndexTail<T, K>(xs: seq<T>, key: T -> K, m: K)
    requires |xs| > 0 && m in KeySet(xs[1..], key) && key(xs[0]) != m
    ensures m in KeySet(xs, key) && FirstIndex(xs, key, m) == 1 + FirstIndex(xs[1..], key, m)
  {
    KeySetCons(xs, key);
  }

  /** What `errList.dedupe` keeps: every message appears exactly once, carried
      by its first occurrence, in the order of first occurrences. */
  lemma DedupeKeepsFirst(es: seq<ParserError>)
    ensures var r := Deduped(es);
      && KeySet(r, Message) == KeySet(es, Message)
      && DistinctKeys(r, Message)
      && (forall k | 0 <= k < |r| :: Message(r[k]) in KeySet(es, Message)
            && r[k] == es[FirstIndex(es, Message, Message(r[k]))])
      && (forall k1, k2 | 0 <= k1 < k2 < |r| && Message(r[k1]) in KeySet(es, Message)
            && Message(r[k2]) in KeySet(es, Message) ::
            FirstIndex(es, Message, Message(r[k1])) < FirstIndex(es, Message, Message(r[k2])))
  {
    DedupeKeys(es, Message, {});
    DedupeFirst(es, Message, {});
    DedupeOrder(es, Message, {});
  }

  /** No two errors `errList.dedupe` keeps share a message. */
  lemma DedupedDistinct(es: seq<ParserError>)
    ensures DistinctKeys(Deduped(es), Message)
  {
    DedupeKeys(es, Message, {});
  }

  /** `errList.dedupe`, rebuilding the list with a set of messages seen. */
  method Dedupe(es: seq<ParserError>) returns (cleaned: seq<ParserError>)
    ensures cleaned == Deduped(es)
    ensures DistinctKeys(cleaned, Message)
  {
    cleaned := [];
    var seen: set<string> := {};
    for i := 0 to |es|
      invariant cleaned + DedupeFrom(es[i..], Message, seen) == Deduped(es)
    {
      assert es[i..][1..] == es[i + 1..];
      var msg := Message(es[i]);
      if msg !in seen {
        seen := seen + {msg};
        cleaned := cleaned + [es[i]];
      }
    }
    DedupedDistinct(es);
  }

  /** The descriptor a negated `.` leaves: "end of input was expected". */
  const NotAny: string := "!."

  /** The expected list `parse` reports: the descriptors other than "!.",
      sorted and each once, followed by "EOF" when "!." was among them. */
  ghost predicate ExpectedList(descriptors: set<string>, list: seq<string>)
  {
    var eof := NotAny in descriptors;
    var n := if eof then |list| - 1 else |list|;
    && 0 <= n
    && StrictlySorted(list[..n])
    && (forall x :: x in list[..n] <==> x in descriptors - {NotAny})
    && (eof ==> list[n] == "EOF")
  }

  /** Builds the expected list from the farthest-failure descriptors. */
  method ExpectedFor(descriptors: set<string>) returns (list: seq<string>)
    ensures ExpectedList(descriptors, list)
    ensures |list| == |descriptors|
  {
    var eof := NotAny in descriptors;
    var rest := descriptors - {NotAny};
    list := SortStrings(rest);
    if eof {
      assert |rest| == |descriptors| - 1;
      list := list + ["EOF"];
    } else {
      assert rest == descriptors;
    }
  }

  /** The message of the synthesized diagnostic. */
  function NoMatchMessage(expected: seq<string>): string
  {
    "no match found, expected: " + ListJoin(expected, ", ", "or")
  }

  const NoRuleMessage: string := "grammar has no rule"
  const InvalidEncodingMessage: string := "invalid encoding"

  function UndefinedRuleMessage(name: string): string { "undefined rule: " + name }
}
