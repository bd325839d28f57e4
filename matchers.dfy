/** The per-rune tests of the three atomic matchers: literals, character
    classes and `.`, and the descriptors they report on failure. */
module Matchers {
  import opened Values
  import opened Utf8
  import opened Cursor

  /** The rune as compared: lower-cased when the matcher ignores case. */
  function Fold(rn: int, ignoreCase: bool): int
  {
    if ignoreCase then ToLower(rn) else rn
  }

  /** One step of the literal matcher AS WRITTEN: the (folded) current rune
      equals the wanted one. The end-of-input sentinel is not excluded. */
  predicate LitRuneMatchesAsWritten(sp: Savepoint, want: char, ignoreCase: bool)
  {
    Fold(sp.rn, ignoreCase) == want as int
  }

  /** One step of the literal matcher as the engine uses it: the cursor must
      stand on input (width > 0) and the (folded) rune must equal the wanted one. */
  predicate LitRuneMatches(sp: Savepoint, want: char, ignoreCase: bool)
  {
    sp.w > 0 && LitRuneMatchesAsWritten(sp, want, ignoreCase)
  }

  /** As written, a literal holding U+FFFD matches the end-of-input sentinel; the
      read that follows moves the column but not the offset, so a later
      `restore` to the literal's start (same offset) does not undo it. */
  lemma ReplacementLiteralMatchesAtEnd(data: seq<byte>, sp: Savepoint)
    requires CursorOk(data, sp) && AtEnd(data, sp)
    ensures LitRuneMatchesAsWritten(sp, '�', false)
    ensures Advance(data, sp).offset == sp.offset
    ensures Restore(Advance(data, sp), sp) != sp
  {
    AdvanceAtEnd(data, sp);
  }

  /** Corrected: a literal step never matches at the end of input, and every
      step it does match consumes at least one byte. */
  lemma LitRuneMatchesConsumes(data: seq<byte>, sp: Savepoint, want: char, ignoreCase: bool)
    requires CursorOk(data, sp) && LitRuneMatches(sp, want, ignoreCase)
    ensures !AtEnd(data, sp)
    ensures Advance(data, sp).offset > sp.offset
  {
    CursorOkCanAdvance(data, sp);
  }

  /** Step `j` of a literal match from `start`: the rune reached after `j`
      reads matches `val[j]`. */
  ghost predicate Step(data: seq<byte>, start: Savepoint, val: string, ignoreCase: bool, j: nat)
    requires CursorOk(data, start) && j < |val|
  {
    LitRuneMatches(ReadN(data, start, j), val[j], ignoreCase)
  }

  /** The first `n` runes of the literal `val` match the input read from `start`. */
  ghost predicate StepsMatch(data: seq<byte>, start: Savepoint, val: string, ignoreCase: bool, n: nat)
    requires CursorOk(data, start) && n <= |val|
    decreases n
  {
    n == 0 || (StepsMatch(data, start, val, ignoreCase, n - 1) && Step(data, start, val, ignoreCase, n - 1))
  }

  /** `StepsMatch` says that every one of the first `n` steps matches. */
  lemma {:induction false} StepsMatchAll(data: seq<byte>, start: Savepoint, val: string, ignoreCase: bool, n: nat)
    requires CursorOk(data, start) && n <= |val|
    ensures StepsMatch(data, start, val, ignoreCase, n) <==>
      forall j | 0 <= j < n :: Step(data, start, val, ignoreCase, j)
  {
    if n > 0 {
      StepsMatchAll(data, start, val, ignoreCase, n - 1);
      if StepsMatch(data, start, val, ignoreCase, n) {
        forall j | 0 <= j < n ensures Step(data, start, val, ignoreCase, j) {
          if j < n - 1 {
            assert StepsMatch(data, start, val, ignoreCase, n - 1);
          }
        }
      }
    }
  }

  /** After `n` matched steps the cursor has moved past `n` runes, so at least `n` bytes. */
  lemma {:induction false} StepsMatchAdvance(data: seq<byte>, start: Savepoint, val: string, ignoreCase: bool, n: nat)
    requires CursorOk(data, start) && n <= |val| && StepsMatch(data, start, val, ignoreCase, n)
    ensures ReadN(data, start, n).offset >= start.offset + n
  {
    if n > 0 {
      StepsMatchAdvance(data, start, val, ignoreCase, n - 1);
      assert Step(data, start, val, ignoreCase, n - 1);
      LitRuneMatchesConsumes(data, ReadN(data, start, n - 1), val[n - 1], ignoreCase);
    }
  }

  /** Where matching the rest of the literal, `val[i..]`, from cursor `sp`
      leaves the cursor, or None when a rune differs on the way. */
  ghost function LitFrom(data: seq<byte>, sp: Savepoint, val: string, ignoreCase: bool, i: nat): Option<Savepoint>
    requires CursorOk(data, sp) && i <= |val|
    decreases |val| - i
  {
    if i == |val| then Some(sp)
    else if !LitRuneMatches(sp, val[i], ignoreCase) then None
    else
      CursorOkCanAdvance(data, sp);
      LitFrom(data, Advance(data, sp), val, ignoreCase, i + 1)
  }

  /** The rune loop of the literal matcher AS WRITTEN, from cursor `sp` on
      `val[i..]`: the as-written step, with no test for the end of input. */
  ghost function LitFromAsWritten(data: seq<byte>, sp: Savepoint, val: string, ignoreCase: bool, i: nat): Option<Savepoint>
    requires CursorOk(data, sp) && i <= |val|
    decreases |val| - i
  {
    if i == |val| then Some(sp)
    else if !LitRuneMatchesAsWritten(sp, val[i], ignoreCase) then None
    else
      CursorOkCanAdvance(data, sp);
      LitFromAsWritten(data, Advance(data, sp), val, ignoreCase, i + 1)
  }

  /** On its way through `val[i..]` the as-written loop accepts the
      end-of-input sentinel for some rune of the literal. */
  ghost predicate WantsSentinel(data: seq<byte>, sp: Savepoint, val: string, ignoreCase: bool, i: nat)
    requires CursorOk(data, sp) && i <= |val|
    decreases |val| - i
  {
    && i < |val|
    && LitRuneMatchesAsWritten(sp, val[i], ignoreCase)
    && (sp.w == 0 || (CursorOkCanAdvance(data, sp); WantsSentinel(data, Advance(data, sp), val, ignoreCase, i + 1)))
  }

  /** The loop as written and the corrected one agree unless the written one
      accepts the sentinel; then the corrected one fails, and the rune it
      accepted the sentinel for is U+FFFD. */
  lemma {:induction false} LitFromAgreement(data: seq<byte>, sp: Savepoint, val: string, ignoreCase: bool, i: nat)
    requires CursorOk(data, sp) && i <= |val|
    ensures !WantsSentinel(data, sp, val, ignoreCase, i) ==>
      LitFromAsWritten(data, sp, val, ignoreCase, i) == LitFrom(data, sp, val, ignoreCase, i)
    ensures WantsSentinel(data, sp, val, ignoreCase, i) ==>
      LitFrom(data, sp, val, ignoreCase, i).None? && exists j | i <= j < |val| :: val[j] == '\U{FFFD}'
    decreases |val| - i
  {
    if i < |val| && LitRuneMatchesAsWritten(sp, val[i], ignoreCase) {
      CursorOkCanAdvance(data, sp);
      if sp.w == 0 {
        assert sp.rn == RuneError && val[i] as int == RuneError;
      } else {
        LitFromAgreement(data, Advance(data, sp), val, ignoreCase, i + 1);
      }
    }
  }

  /** The whole discrepancy on one example: at the end of the input the
      literal "\uFFFD" matches as written, and fails as corrected. */
  lemma ReplacementLiteralAtEnd(data: seq<byte>, sp: Savepoint)
    requires CursorOk(data, sp) && AtEnd(data, sp)
    ensures LitFromAsWritten(data, sp, "\U{FFFD}", false, 0) == Some(Advance(data, sp))
    ensures LitFrom(data, sp, "\U{FFFD}", false, 0) == None
  {
    CursorOkCanAdvance(data, sp);
    AdvanceAtEnd(data, sp);
  }

  /** Matching the rest of the literal after `i` matched steps succeeds exactly
      when every step matches, and then ends where `|val|` reads end. */
  lemma {:induction false} LitFromSteps(data: seq<byte>, start: Savepoint, val: string, ignoreCase: bool, i: nat)
    requires CursorOk(data, start) && i <= |val| && StepsMatch(data, start, val, ignoreCase, i)
    ensures LitFrom(data, ReadN(data, start, i), val, ignoreCase, i) ==
      if StepsMatch(data, start, val, ignoreCase, |val|) then Some(ReadN(data, start, |val|)) else None
    decreases |val| - i
  {
    if i < |val| {
      var sp := ReadN(data, start, i);
      if LitRuneMatches(sp, val[i], ignoreCase) {
        assert Step(data, start, val, ignoreCase, i);
        assert StepsMatch(data, start, val, ignoreCase, i + 1);
        ReadNNext(data, start, i);
        LitFromSteps(data, start, val, ignoreCase, i + 1);
      } else {
        assert !Step(data, start, val, ignoreCase, i);
        StepsMatchAll(data, start, val, ignoreCase, |val|);
      }
    }
  }

  /** A literal that does not match has a first step that fails. */
  lemma {:induction false} FirstMismatch(data: seq<byte>, start: Savepoint, val: string, ignoreCase: bool, n: nat)
    requires CursorOk(data, start) && n <= |val| && !StepsMatch(data, start, val, ignoreCase, n)
    ensures exists i | 0 <= i < n :: StepsMatch(data, start, val, ignoreCase, i) && !Step(data, start, val, ignoreCase, i)
  {
    if StepsMatch(data, start, val, ignoreCase, n - 1) {
      assert !Step(data, start, val, ignoreCase, n - 1);
    } else {
      FirstMismatch(data, start, val, ignoreCase, n - 1);
    }
  }

  /** A literal matches from `start` exactly when each of its runes matches in
      turn; it then ends where `|val|` reads end, at least one byte per rune
      further on, and otherwise some step is the first to fail. */
  lemma LitMatchSteps(data: seq<byte>, start: Savepoint, val: string, ignoreCase: bool)
    requires CursorOk(data, start)
    ensures var r := LitFrom(data, start, val, ignoreCase, 0);
      && (r.Some? <==> StepsMatch(data, start, val, ignoreCase, |val|))
      && (r.Some? ==> r.value == ReadN(data, start, |val|) && r.value.offset >= start.offset + |val|)
      && (r.None? ==> exists i | 0 <= i < |val| ::
            StepsMatch(data, start, val, ignoreCase, i) && !Step(data, start, val, ignoreCase, i))
  {
    LitFromSteps(data, start, val, ignoreCase, 0);
    if StepsMatch(data, start, val, ignoreCase, |val|) {
      StepsMatchAdvance(data, start, val, ignoreCase, |val|);
    } else {
      FirstMismatch(data, start, val, ignoreCase, |val|);
    }
  }

  /** An inclusive range of runes listed in a character class. */
  datatype CharRange = CharRange(lo: int, hi: int)

  /** One entry of a Unicode range table: lo..hi stepping by stride. */
  datatype TableRange = TableRange(lo: int, hi: int, stride: nat)

  /** A named Unicode category, given by its range table. */
  datatype RangeTable = RangeTable(ranges: seq<TableRange>)

  predicate InTableRange(t: TableRange, r: int)
  {
    t.lo <= r <= t.hi && t.stride > 0 && (r - t.lo) % t.stride == 0
  }

  /** `unicode.Is`: the rune lies in one of the table's ranges. */
  predicate InTable(t: RangeTable, r: int)
  {
    exists i | 0 <= i < |t.ranges| :: InTableRange(t.ranges[i], r)
  }

  predicate InChars(chars: seq<int>, r: int) { r in chars }

  predicate InRanges(ranges: seq<CharRange>, r: int)
  {
    exists i | 0 <= i < |ranges| :: ranges[i].lo <= r <= ranges[i].hi
  }

  predicate InClasses(classes: seq<RangeTable>, r: int)
  {
    exists i | 0 <= i < |classes| :: InTable(classes[i], r)
  }

  /** The rune is listed by the class, in its chars, its ranges or its categories. */
  predicate Listed(chars: seq<int>, ranges: seq<CharRange>, classes: seq<RangeTable>, r: int)
  {
    InChars(chars, r) || InRanges(ranges, r) || InClasses(classes, r)
  }

  /** The three searches of `parseCharClassMatcher`: the chars, then the
      ranges, then the categories, stopping at the first that lists `c`. */
  method ListedIn(chars: seq<int>, ranges: seq<CharRange>, classes: seq<RangeTable>, c: int) returns (found: bool)
    ensures found == Listed(chars, ranges, classes, c)
  {
    for i := 0 to |chars|
      invariant forall j | 0 <= j < i :: chars[j] != c
    {
      if chars[i] == c {
        return true;
      }
    }
    for i := 0 to |ranges|
      invariant forall j | 0 <= j < i :: !(ranges[j].lo <= c <= ranges[j].hi)
    {
      if ranges[i].lo <= c <= ranges[i].hi {
        return true;
      }
    }
    for i := 0 to |classes|
      invariant forall j | 0 <= j < i :: !InTable(classes[j], c)
    {
      if InTable(classes[i], c) {
        return true;
      }
    }
    return false;
  }

  /** A character class matches the current rune: never the sentinel, and
      otherwise exactly when being listed differs from being inverted. */
  predicate ClassMatches(chars: seq<int>, ranges: seq<CharRange>, classes: seq<RangeTable>,
                         ignoreCase: bool, inverted: bool, rn: int)
  {
    rn != RuneError && (Listed(chars, ranges, classes, Fold(rn, ignoreCase)) != inverted)
  }

  /** An inverted class matches a real rune iff the rune is listed nowhere; no
      class, inverted or not, matches the sentinel. */
  lemma InvertedClassMatches(chars: seq<int>, ranges: seq<CharRange>, classes: seq<RangeTable>,
                             ignoreCase: bool, rn: int)
    ensures !ClassMatches(chars, ranges, classes, ignoreCase, true, RuneError)
    ensures !ClassMatches(chars, ranges, classes, ignoreCase, false, RuneError)
    ensures rn != RuneError ==>
      (ClassMatches(chars, ranges, classes, ignoreCase, true, rn) <==>
       (Fold(rn, ignoreCase) !in chars
        && (forall i | 0 <= i < |ranges| :: !(ranges[i].lo <= Fold(rn, ignoreCase) <= ranges[i].hi))
        && (forall i | 0 <= i < |classes| :: !InTable(classes[i], Fold(rn, ignoreCase)))))
  {
  }

  /** The `%q` rendering of a literal's text (without escaping). */
  function Quote(s: string): (q: string)
    ensures |q| == |s| + 2 && q[0] == '"' && q[|q| - 1] == '"' && q[1..|q| - 1] == s
  {
    "\"" + s + "\""
  }

  /** The descriptor a literal reports: its quoted text, suffixed "i" when case-insensitive. */
  function LitDescriptor(val: string, ignoreCase: bool): (d: string)
    ensures |val| + 2 <= |d| && d[..|val| + 2] == Quote(val)
    ensures ignoreCase <==> |d| == |val| + 3
  {
    Quote(val) + (if ignoreCase then "i" else "")
  }
}
