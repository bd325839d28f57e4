/** The cursor over the input: advancing by one decoded code point (`read`),
    restoring a savepoint (`restore`) and the invariant tying the current rune
    and width to the bytes at the offset. */
module Cursor {
  import opened Values
  import opened Utf8

  /** The savepoint's rune and width are what decoding the rest of the input gives. */
  ghost predicate CursorOk(data: seq<byte>, sp: Savepoint)
  {
    sp.offset <= |data| && DecodeRune(data, sp.offset) == (sp.rn, sp.w)
  }

  /** The cursor stands at the end of the input. */
  predicate AtEnd(data: seq<byte>, sp: Savepoint) { sp.offset == |data| }

  /** The decoded rune was a malformed one-byte unit (the "invalid encoding" case). */
  predicate InvalidEncoding(sp: Savepoint) { sp.rn == RuneError && sp.w == 1 }

  /** How `read` moves the cursor: skip the current rune's bytes, decode the
      next one, and count lines and columns. */
  function Advance(data: seq<byte>, sp: Savepoint): (r: Savepoint)
    requires sp.offset + sp.w <= |data|
    ensures r.offset == sp.offset + sp.w
    ensures CursorOk(data, r)
    ensures r.rn == '\n' as int ==> r.line == sp.line + 1 && r.col == 0
    ensures r.rn != '\n' as int ==> r.line == sp.line && r.col == sp.col + 1
    ensures r.w == 0 <==> AtEnd(data, r)
  {
    var off := sp.offset + sp.w;
    var (rn, n) := DecodeRune(data, off);
    if rn == '\n' as int then Savepoint(sp.line + 1, 0, off, rn, n)
    else Savepoint(sp.line, sp.col + 1, off, rn, n)
  }

  /** A cursor that is consistent with the input can always be advanced. */
  lemma CursorOkCanAdvance(data: seq<byte>, sp: Savepoint)
    requires CursorOk(data, sp)
    ensures sp.offset + sp.w <= |data|
    ensures sp.w == 0 <==> AtEnd(data, sp)
    ensures sp.rn != RuneError ==> sp.w > 0
  {
  }

  /** `restore`: jump back to a savepoint, except that a savepoint at the
      current offset leaves the cursor as it is. */
  function Restore(current: Savepoint, sp: Savepoint): (r: Savepoint)
    ensures r.offset == sp.offset
    ensures sp.offset != current.offset ==> r == sp
    ensures sp.offset == current.offset ==> r == current
  {
    if sp.offset == current.offset then current else sp
  }

  /** The input bytes from offset `from` up to offset `to`, element by element. */
  function Span(data: seq<byte>, from: nat, to: nat): (r: seq<byte>)
    requires from <= to <= |data|
    ensures |r| == to - from
    ensures forall i | 0 <= i < |r| :: r[i] == data[from + i]
  {
    if from == to then [] else Span(data, from, to - 1) + [data[to - 1]]
  }

  /** `Span` is the slice `data[from..to]`. */
  lemma SpanIsSlice(data: seq<byte>, from: nat, to: nat)
    requires from <= to <= |data|
    ensures Span(data, from, to) == data[from..to]
  {
  }

  /** The cursor after `n` reads from `sp`. */
  function ReadN(data: seq<byte>, sp: Savepoint, n: nat): (r: Savepoint)
    requires CursorOk(data, sp)
    ensures CursorOk(data, r)
    ensures sp.offset <= r.offset
  {
    if n == 0 then sp
    else
      var prev := ReadN(data, sp, n - 1);
      CursorOkCanAdvance(data, prev);
      Advance(data, prev)
  }

  /** One more read from where `n` reads left the cursor. */
  lemma ReadNNext(data: seq<byte>, sp: Savepoint, n: nat)
    requires CursorOk(data, sp)
    ensures ReadN(data, sp, n).offset + ReadN(data, sp, n).w <= |data|
    ensures ReadN(data, sp, n + 1) == Advance(data, ReadN(data, sp, n))
  {
    CursorOkCanAdvance(data, ReadN(data, sp, n));
  }

  /** A read that starts on a decoded rune strictly advances the offset and
      adds one column or one line. */
  lemma {:induction false} AdvanceProgress(data: seq<byte>, sp: Savepoint)
    requires CursorOk(data, sp) && !AtEnd(data, sp)
    ensures Advance(data, sp).offset > sp.offset
    ensures Advance(data, sp).line == sp.line + 1 || Advance(data, sp).col == sp.col + 1
  {
    CursorOkCanAdvance(data, sp);
  }

  /** Reading at the end of the input moves the column but not the offset. */
  lemma {:induction false} AdvanceAtEnd(data: seq<byte>, sp: Savepoint)
    requires CursorOk(data, sp) && AtEnd(data, sp)
    ensures Advance(data, sp).offset == sp.offset
    ensures Advance(data, sp).rn == RuneError && Advance(data, sp).w == 0
    ensures Advance(data, sp).col == sp.col + 1 && Advance(data, sp) != sp
    ensures !InvalidEncoding(Advance(data, sp))
  {
    CursorOkCanAdvance(data, sp);
  }
}
