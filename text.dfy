/** String helpers the diagnostics are built from: decimal rendering,
    `strings.Join`, splitting, the "a, b or c" list, and byte-wise ordering. */
module Text {

  function DigitChar(d: nat): (c: char)
    requires d < 10
    ensures '0' <= c <= '9' && c as int - '0' as int == d
  {
    "0123456789"[d]
  }

  predicate IsDigits(s: string) { forall i | 0 <= i < |s| :: '0' <= s[i] <= '9' }

  /** Decimal rendering of a natural number, as `%d` prints it. */
  function NatToString(n: nat): (s: string)
    ensures |s| >= 1 && IsDigits(s)
  {
    if n < 10 then [DigitChar(n)] else NatToString(n / 10) + [DigitChar(n % 10)]
  }

  /** Reading decimal digits back (reference for NatToString). */
  function ParseNat(s: string): nat
    requires IsDigits(s)
  {
    if |s| == 0 then 0 else ParseNat(s[..|s| - 1]) * 10 + (s[|s| - 1] as int - '0' as int)
  }

  lemma {:induction false} ParseNatToString(n: nat)
    ensures ParseNat(NatToString(n)) == n
  {
    if n >= 10 {
      var s := NatToString(n);
      assert s[..|s| - 1] == NatToString(n / 10);
      ParseNatToString(n / 10);
    }
  }

  /** `strings.Join`. */
  function Join(xs: seq<string>, sep: string): string
  {
    if |xs| == 0 then "" else if |xs| == 1 then xs[0] else Join(xs[..|xs| - 1], sep) + sep + xs[|xs| - 1]
  }

  function SumLengths(xs: seq<string>): nat
  {
    if |xs| == 0 then 0 else SumLengths(xs[..|xs| - 1]) + |xs[|xs| - 1]|
  }

  lemma PrefixOfAppend(a: string, b: string, n: nat)
    requires n <= |a|
    ensures (a + b)[..n] == a[..n]
  {
  }

  lemma SuffixOfAppend(a: string, b: string)
    ensures (a + b)[|a|..] == b
  {
  }

  /** A joined list is as long as its items plus one separator between each pair. */
  lemma {:induction false} JoinLength(xs: seq<string>, sep: string)
    requires |xs| >= 1
    ensures |Join(xs, sep)| == SumLengths(xs) + (|xs| - 1) * |sep|
  {
    if |xs| > 1 {
      var p := xs[..|xs| - 1];
      JoinLength(p, sep);
      assert (|xs| - 1) * |sep| == (|p| - 1) * |sep| + |sep|;
    } else {
      assert SumLengths(xs) == SumLengths(xs[..0]) + |xs[0]|;
    }
  }

  /** A joined list starts with its first item. */
  lemma {:induction false} JoinPrefix(xs: seq<string>, sep: string)
    requires |xs| >= 1
    ensures |xs[0]| <= |Join(xs, sep)| && Join(xs, sep)[..|xs[0]|] == xs[0]
  {
    if |xs| > 1 {
      var p := xs[..|xs| - 1];
      JoinPrefix(p, sep);
      assert p[0] == xs[0];
      PrefixOfAppend(Join(p, sep), sep + xs[|xs| - 1], |xs[0]|);
      assert Join(xs, sep) == Join(p, sep) + (sep + xs[|xs| - 1]);
    }
  }

  /** `listJoin`: items separated by `sep`, with `lastSep` (surrounded by
      spaces) before the final item. */
  function ListJoin(list: seq<string>, sep: string, lastSep: string): string
  {
    if |list| == 0 then ""
    else if |list| == 1 then list[0]
    else Join(list[..|list| - 1], sep) + " " + lastSep + " " + list[|list| - 1]
  }

  /** The rendered list starts with the first item, ends with the last, and is
      exactly as long as the items plus the separators. */
  lemma ListJoinShape(list: seq<string>, sep: string, lastSep: string)
    requires |list| >= 2
    ensures var r := ListJoin(list, sep, lastSep);
      && |r| == SumLengths(list) + (|list| - 2) * |sep| + |lastSep| + 2
      && |list[0]| <= |r| && r[..|list[0]|] == list[0]
      && |list[|list| - 1]| <= |r| && r[|r| - |list[|list| - 1]|..] == list[|list| - 1]
  {
    var p := list[..|list| - 1];
    var last := list[|list| - 1];
    var j := Join(p, sep);
    var mid := " " + lastSep + " ";
    var r := ListJoin(list, sep, lastSep);
    assert r == (j + mid) + last;
    assert |r| == SumLengths(list) + (|list| - 2) * |sep| + |lastSep| + 2 by {
      JoinLength(p, sep);
      assert |p| - 1 == |list| - 2;
      assert SumLengths(list) == SumLengths(p) + |last|;
    }
    assert r[..|list[0]|] == list[0] by {
      JoinPrefix(p, sep);
      assert p[0] == list[0];
      PrefixOfAppend(j, mid + last, |list[0]|);
      assert j + (mid + last) == r;
    }
    assert r[|r| - |last|..] == last by {
      SuffixOfAppend(j + mid, last);
    }
  }

  /** `listJoin` on two and three items, as the diagnostics print them. */
  lemma ListJoinExamples(a: string, b: string, c: string)
    ensures ListJoin([], ", ", "or") == ""
    ensures ListJoin([a], ", ", "or") == a
    ensures ListJoin([a, b], ", ", "or") == a + " or " + b
    ensures ListJoin([a, b, c], ", ", "or") == a + ", " + b + " or " + c
  {
    assert [a, b][..1] == [a];
    assert [a, b, c][..2] == [a, b];
    assert [a, b][..1] == [a];
  }

  function FirstIndexOf(s: string, c: char): (i: nat)
    requires c in s
    ensures i < |s| && s[i] == c && c !in s[..i]
  {
    if s[0] == c then 0 else 1 + FirstIndexOf(s[1..], c)
  }

  /** Splits `s` at every occurrence of `c`. */
  function Split(s: string, c: char): seq<string>
    decreases |s|
  {
    if c !in s then [s]
    else
      var i := FirstIndexOf(s, c);
      [s[..i]] + Split(s[i + 1..], c)
  }

  lemma DropOfAppend(a: string, b: string, n: nat)
    requires n <= |a|
    ensures (a + b)[n..] == a[n..] + b
  {
  }

  /** When the first separator lies in `a`, the first piece of `a + t`
      is the first piece of `a`. */
  lemma SplitHead(a: string, t: string, c: char)
    requires c in a
    ensures var i := FirstIndexOf(a, c); Split(a + t, c) == [a[..i]] + Split(a[i + 1..] + t, c)
  {
    var i := FirstIndexOf(a, c);
    FirstIndexPrefix(a, t, c);
    PrefixOfAppend(a, t, i);
    DropOfAppend(a, t, i + 1);
  }

  /** Splitting after appending a separator and a separator-free tail adds
      the tail as one more piece. */
  lemma {:induction false} SplitAppend(a: string, c: char, y: string)
    requires c !in y
    ensures Split(a + [c] + y, c) == Split(a, c) + [y]
    decreases |a|
  {
    var t := [c] + y;
    var s := a + t;
    assert a + [c] + y == s;
    assert t[0] == c;
    if c in a {
      var i := FirstIndexOf(a, c);
      SplitHead(a, t, c);
      assert a[i + 1..] + t == a[i + 1..] + [c] + y;
      SplitAppend(a[i + 1..], c, y);
      var rest := Split(a[i + 1..], c);
      assert [a[..i]] + (rest + [y]) == ([a[..i]] + rest) + [y];
    } else {
      FirstIndexAfter(a, t, c);
      PrefixOfAppend(a, t, |a|);
      assert a[..|a|] == a;
      assert s == (a + [c]) + y;
      SuffixOfAppend(a + [c], y);
      assert Split(s, c) == [a] + Split(y, c);
    }
  }

  lemma {:induction false} FirstIndexPrefix(a: string, b: string, c: char)
    requires c in a
    ensures FirstIndexOf(a + b, c) == FirstIndexOf(a, c)
  {
    if a[0] != c {
      assert (a + b)[1..] == a[1..] + b;
      FirstIndexPrefix(a[1..], b, c);
    }
  }

  lemma {:induction false} FirstIndexAfter(a: string, b: string, c: char)
    requires c !in a && c in b
    ensures c in a + b && FirstIndexOf(a + b, c) == |a| + FirstIndexOf(b, c)
  {
    assert (a + b)[|a|..] == b;
    if |a| > 0 {
      assert (a + b)[1..] == a[1..] + b;
      FirstIndexAfter(a[1..], b, c);
    }
  }

  /** Splitting a joined list at the separator character gives the items back
      when no item contains it. */
  lemma {:induction false} SplitJoin(xs: seq<string>, c: char)
    requires |xs| >= 1
    requires forall i | 0 <= i < |xs| :: c !in xs[i]
    ensures Split(Join(xs, [c]), c) == xs
  {
    if |xs| > 1 {
      var p, last := xs[..|xs| - 1], xs[|xs| - 1];
      forall i | 0 <= i < |p| ensures c !in p[i] {
        assert p[i] == xs[i];
      }
      SplitJoin(p, c);
      assert Join(xs, [c]) == Join(p, [c]) + [c] + last;
      SplitAppend(Join(p, [c]), c, last);
      assert p + [last] == xs;
    }
  }

  /** Each string of `xs` with `t` in front. */
  function Prefixed(t: string, xs: seq<string>): (r: seq<string>)
    ensures |r| == |xs| && forall k | 0 <= k < |xs| :: r[k] == t + xs[k]
  {
    seq(|xs|, k requires 0 <= k < |xs| => t + xs[k])
  }

  function LastIndexOf(s: string, c: char): (i: nat)
    requires c in s
    ensures i < |s| && s[i] == c && c !in s[i + 1..]
  {
    if s[|s| - 1] == c then |s| - 1
    else
      assert s[..|s| - 1] + [s[|s| - 1]] == s;
      LastIndexOf(s[..|s| - 1], c)
  }

  /** Appending a separator-free tail lengthens the last piece. */
  lemma SplitExtend(a: string, y: string, c: char)
    requires c !in y
    ensures var p := Split(a, c); |p| >= 1 && Split(a + y, c) == p[..|p| - 1] + [p[|p| - 1] + y]
  {
    if c in a {
      var k := LastIndexOf(a, c);
      var head, tail := a[..k], a[k + 1..];
      assert a == head + [c] + tail;
      assert a + y == head + [c] + (tail + y);
      assert c !in tail + y;
      SplitAppend(head, c, tail);
      SplitAppend(head, c, tail + y);
      var p := Split(a, c);
      assert p == Split(head, c) + [tail];
      assert p[..|p| - 1] == Split(head, c);
    } else {
      assert c !in a + y;
    }
  }

  /** One more item joined on adds one piece: the rest of the separator and the item. */
  lemma JoinSepStep(xs: seq<string>, c: char, t: string)
    requires |xs| >= 2 && c !in t + xs[|xs| - 1]
    ensures Split(Join(xs, [c] + t), c) == Split(Join(xs[..|xs| - 1], [c] + t), c) + [t + xs[|xs| - 1]]
  {
    var j := Join(xs[..|xs| - 1], [c] + t);
    assert Join(xs, [c] + t) == j + [c] + (t + xs[|xs| - 1]);
    SplitAppend(j, c, t + xs[|xs| - 1]);
  }

  /** Prefixing the items after the first of `xs` is prefixing those of all
      but its last item, then the last one. */
  lemma PrefixedSnoc(t: string, xs: seq<string>)
    requires |xs| > 1
    ensures Prefixed(t, xs[1..]) == Prefixed(t, xs[..|xs| - 1][1..]) + [t + xs[|xs| - 1]]
  {
    var p := xs[..|xs| - 1];
    var a := Prefixed(t, xs[1..]);
    var b := Prefixed(t, p[1..]) + [t + xs[|xs| - 1]];
    forall k | 0 <= k < |a| ensures a[k] == b[k] {
      if k < |a| - 1 { assert xs[1..][k] == p[1..][k]; }
    }
  }

  /** Splitting a list joined with a separator that starts with `c` (and
      holds no other `c`) at `c` gives the first item and then every other
      item behind the rest of the separator. */
  lemma {:induction false} SplitJoinSep(xs: seq<string>, c: char, t: string)
    requires |xs| >= 1 && c !in t
    requires forall i | 0 <= i < |xs| :: c !in xs[i]
    ensures Split(Join(xs, [c] + t), c) == [xs[0]] + Prefixed(t, xs[1..])
  {
    if |xs| > 1 {
      var p := xs[..|xs| - 1];
      var last := xs[|xs| - 1];
      assert forall i | 0 <= i < |p| :: c !in p[i] by {
        forall i | 0 <= i < |p| ensures c !in p[i] { assert p[i] == xs[i]; }
      }
      SplitJoinSep(p, c, t);
      assert c !in t + last by { assert c !in last; }
      JoinSepStep(xs, c, t);
      PrefixedSnoc(t, xs);
      assert [xs[0]] + Prefixed(t, xs[1..]) == ([p[0]] + Prefixed(t, p[1..])) + [t + last];
    } else {
      assert xs[1..] == [];
    }
  }

  /** `pieces` are the items of `list` as splitting "a, b or c" at the
      separator's first character gives them back: the first as it is, each
      middle one behind the rest `t` of the separator, and the last two
      joined by `tail`. */
  ghost predicate ListPieces(list: seq<string>, t: string, tail: string, pieces: seq<string>)
    requires |list| >= 2
  {
    var n := |list|;
    && |pieces| == n - 1
    && (n > 2 ==> pieces[0] == list[0])
    && (forall k | 0 < k < n - 2 :: pieces[k] == t + list[k])
    && pieces[n - 2] == (if n == 2 then list[0] else t + list[n - 2]) + tail
  }

  /** Splitting "a, b or c" at the separator's first character gives the
      items back (as `ListPieces` says), when neither the items nor the
      rest of the separator nor the last separator contain that character. */
  lemma ListJoinSplit(list: seq<string>, c: char, t: string, lastSep: string)
    requires |list| >= 2 && c != ' ' && c !in t && c !in lastSep
    requires forall i | 0 <= i < |list| :: c !in list[i]
    ensures ListPieces(list, t, " " + lastSep + " " + list[|list| - 1], Split(ListJoin(list, [c] + t, lastSep), c))
  {
    var n := |list|;
    var p := list[..n - 1];
    var j := Join(p, [c] + t);
    var tail := " " + lastSep + " " + list[n - 1];
    assert ListJoin(list, [c] + t, lastSep) == j + tail;
    assert forall i | 0 <= i < |p| :: c !in p[i] by {
      forall i | 0 <= i < |p| ensures c !in p[i] { assert p[i] == list[i]; }
    }
    SplitJoinSep(p, c, t);
    assert c !in tail by { assert c !in list[n - 1]; }
    SplitExtend(j, tail, c);
    var sj := Split(j, c);
    var pieces := Split(ListJoin(list, [c] + t, lastSep), c);
    assert pieces == Split(j + tail, c) == sj[..|sj| - 1] + [sj[|sj| - 1] + tail];
    assert sj == [list[0]] + Prefixed(t, list[..n - 1][1..]);
    PiecesShape(list, t, tail, pieces);
  }

  /** The pieces of the list, the last one extended by `tail`. */
  lemma PiecesShape(list: seq<string>, t: string, tail: string, pieces: seq<string>)
    requires |list| >= 2
    requires var q := [list[0]] + Prefixed(t, list[..|list| - 1][1..]);
      pieces == q[..|q| - 1] + [q[|q| - 1] + tail]
    ensures ListPieces(list, t, tail, pieces)
  {
    var n := |list|;
    var p := list[..n - 1];
    var q := [p[0]] + Prefixed(t, p[1..]);
    assert |q| == n - 1;
    forall k | 0 < k < n - 2 ensures pieces[k] == t + list[k] {
      assert pieces[k] == q[k] == t + p[1..][k - 1];
    }
    assert q[n - 2] == (if n == 2 then list[0] else t + list[n - 2]) by {
      if n > 2 { assert q[n - 2] == t + p[1..][n - 3]; }
    }
  }

  /** Byte-wise (code point) order on strings, as `sort.Strings` uses. */
  predicate StrLess(a: string, b: string)
    decreases |a|
  {
    if |a| == 0 then |b| > 0
    else if |b| == 0 then false
    else if a[0] != b[0] then a[0] < b[0]
    else StrLess(a[1..], b[1..])
  }

  lemma {:induction false} StrLessIrreflexive(a: string)
    ensures !StrLess(a, a)
    decreases |a|
  {
    if |a| > 0 { StrLessIrreflexive(a[1..]); }
  }

  lemma {:induction false} StrLessTransitive(a: string, b: string, c: string)
    requires StrLess(a, b) && StrLess(b, c)
    ensures StrLess(a, c)
    decreases |a|
  {
    if |a| > 0 && |b| > 0 && |c| > 0 && a[0] == b[0] && b[0] == c[0] {
      StrLessTransitive(a[1..], b[1..], c[1..]);
    }
  }

  lemma {:induction false} StrLessTotal(a: string, b: string)
    ensures a == b || StrLess(a, b) || StrLess(b, a)
    decreases |a|
  {
    if |a| > 0 && |b| > 0 && a[0] == b[0] {
      StrLessTotal(a[1..], b[1..]);
      if a[1..] == b[1..] {
        assert a == [a[0]] + a[1..] && b == [b[0]] + b[1..];
      }
    }
  }

  predicate StrictlySorted(s: seq<string>)
  {
    forall i, j | 0 <= i < j < |s| :: StrLess(s[i], s[j])
  }

  /** Inserting a new string into a sorted list keeps it sorted. */
  function Insert(s: seq<string>, x: string): (r: seq<string>)
    requires StrictlySorted(s) && x !in s
    ensures StrictlySorted(r) && |r| == |s| + 1
    ensures forall y :: y in r <==> y == x || y in s
  {
    if |s| == 0 then [x]
    else if StrLess(x, s[0]) then
      assert forall j | 0 < j < |s| :: StrLess(x, s[j]) by {
        forall j | 0 < j < |s| ensures StrLess(x, s[j]) { StrLessTransitive(x, s[0], s[j]); }
      }
      [x] + s
    else
      var t := Insert(s[1..], x);
      assert StrLess(s[0], x) by { StrLessTotal(x, s[0]); }
      assert forall y | y in t :: StrLess(s[0], y) by {
        forall y | y in t ensures StrLess(s[0], y) {
          if y != x { var j :| 0 <= j < |s[1..]| && s[1..][j] == y; assert s[j + 1] == y; }
        }
      }
      var r := [s[0]] + t;
      assert forall i, j | 0 <= i < j < |r| :: StrLess(r[i], r[j]) by {
        forall i, j | 0 <= i < j < |r| ensures StrLess(r[i], r[j]) {
          if i == 0 { assert r[j] in t; } else { assert r[i] == t[i - 1] && r[j] == t[j - 1]; }
        }
      }
      r
  }

  /** `sort.Strings` over the keys of a set: the keys, each once, in order. */
  method SortStrings(keys: set<string>) returns (r: seq<string>)
    ensures StrictlySorted(r)
    ensures forall x :: x in r <==> x in keys
    ensures |r| == |keys|
  {
    r := [];
    var rest := keys;
    while rest != {}
      invariant StrictlySorted(r)
      invariant forall x :: x in keys <==> x in r || x in rest
      invariant forall x :: x in r ==> x !in rest
      invariant |r| + |rest| == |keys|
      decreases |rest|
    {
      var x :| x in rest;
      r := Insert(r, x);
      rest := rest - {x};
    }
  }
}
