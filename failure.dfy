/** The farthest-failure tracker: the largest offset at which an atomic
    matcher reported, and the set of descriptors reported there. */
module Failure {
  import opened Values

  /** `maxFailPos` and `maxFailExpected` together. */
  datatype FailState = FailState(maxPos: Position, expected: set<string>)

  /** The tracker as a new parser starts it. */
  const Initial: FailState := FailState(Position(1, 1, 0), {})

  /** One report of an atomic matcher. `fail` is the matcher's outcome as the
      source passes it (true when the match succeeded); `invert` is the
      inversion flag at the time of the report. */
  datatype Attempt = Attempt(invert: bool, fail: bool, pos: Position, want: string)

  /** A report counts when the match failed outside negative lookahead,
      or succeeded inside it. */
  predicate Recorded(a: Attempt) { a.fail == a.invert }

  /** Under inversion the descriptor reads as a negated expectation. */
  function Descriptor(a: Attempt): (d: string)
    ensures a.invert ==> d == "!" + a.want
    ensures !a.invert ==> d == a.want
  {
    if a.invert then "!" + a.want else a.want
  }

  /** `failAt`: a farther report replaces the record, an equal one joins it,
      a nearer one is ignored. */
  function FailAt(fs: FailState, a: Attempt): FailState
  {
    if !Recorded(a) || a.pos.offset < fs.maxPos.offset then fs
    else if a.pos.offset > fs.maxPos.offset then FailState(a.pos, {Descriptor(a)})
    else FailState(fs.maxPos, fs.expected + {Descriptor(a)})
  }

  /** The tracker after the first `n` reports of a series. */
  function FailUpTo(fs: FailState, attempts: seq<Attempt>, n: nat): FailState
    requires n <= |attempts|
  {
    if n == 0 then fs else FailAt(FailUpTo(fs, attempts, n - 1), attempts[n - 1])
  }

  /** The tracker after a whole series of reports. */
  function FailAll(fs: FailState, attempts: seq<Attempt>): FailState
  {
    FailUpTo(fs, attempts, |attempts|)
  }

  /** The first `n` reports alone decide the tracker after them. */
  lemma {:induction false} FailUpToPrefix(fs: FailState, a: seq<Attempt>, b: seq<Attempt>, n: nat)
    requires n <= |a| && n <= |b|
    requires forall i | 0 <= i < n :: a[i] == b[i]
    ensures FailUpTo(fs, a, n) == FailUpTo(fs, b, n)
  {
    if n > 0 {
      FailUpToPrefix(fs, a, b, n - 1);
    }
  }

  /** One more report is one more `failAt` step. */
  lemma FailAllSnoc(fs: FailState, p: seq<Attempt>, a: Attempt)
    ensures FailAll(fs, p + [a]) == FailAt(FailAll(fs, p), a)
  {
    FailUpToPrefix(fs, p + [a], p, |p|);
  }

  /** The largest offset among `start` and the offsets of recorded reports. */
  function FarthestOffset(start: nat, attempts: seq<Attempt>): (m: nat)
    ensures start <= m
    ensures forall i | 0 <= i < |attempts| && Recorded(attempts[i]) :: attempts[i].pos.offset <= m
    ensures m == start || exists i | 0 <= i < |attempts| :: Recorded(attempts[i]) && attempts[i].pos.offset == m
  {
    if |attempts| == 0 then start
    else
      var m := FarthestOffset(start, attempts[..|attempts| - 1]);
      var a := attempts[|attempts| - 1];
      if Recorded(a) && a.pos.offset > m then a.pos.offset else m
  }

  /** The descriptors of the recorded reports made at offset `o`. */
  function DescriptorsAt(attempts: seq<Attempt>, o: nat): set<string>
  {
    set i | 0 <= i < |attempts| && Recorded(attempts[i]) && attempts[i].pos.offset == o :: Descriptor(attempts[i])
  }

  lemma DescriptorsAtSnoc(p: seq<Attempt>, a: Attempt, o: nat)
    ensures DescriptorsAt(p + [a], o) ==
            DescriptorsAt(p, o) + (if Recorded(a) && a.pos.offset == o then {Descriptor(a)} else {})
  {
    var q := p + [a];
    assert forall i | 0 <= i < |p| :: q[i] == p[i];
    assert q[|p|] == a;
  }

  /** Farthest-failure correctness: after any series of reports the record
      holds the largest recorded offset, and exactly the descriptors reported
      at that offset (plus the initial ones if nothing went farther). */
  lemma {:induction false} FarthestFailure(fs: FailState, attempts: seq<Attempt>)
    ensures FailAll(fs, attempts).maxPos.offset == FarthestOffset(fs.maxPos.offset, attempts)
    ensures FailAll(fs, attempts).expected ==
      (var m := FarthestOffset(fs.maxPos.offset, attempts);
       if m == fs.maxPos.offset then fs.expected + DescriptorsAt(attempts, m)
       else DescriptorsAt(attempts, m))
  {
    var start := fs.maxPos.offset;
    if |attempts| == 0 {
      assert DescriptorsAt(attempts, start) == {};
    } else {
      var p := attempts[..|attempts| - 1];
      var a := attempts[|attempts| - 1];
      assert attempts == p + [a];
      FailAllSnoc(fs, p, a);
      FarthestFailure(fs, p);
      var f := FarthestOffset(start, p);
      var m := FarthestOffset(start, attempts);
      DescriptorsAtSnoc(p, a, m);
      if Recorded(a) && a.pos.offset > f {
        assert m == a.pos.offset && m != start;
        assert DescriptorsAt(p, m) == {} by {
          forall i | 0 <= i < |p| && Recorded(p[i]) ensures p[i].pos.offset != m {
          }
        }
        assert FailAll(fs, attempts) == FailState(a.pos, {Descriptor(a)});
      } else {
        assert m == f;
        assert FailAll(fs, attempts) == FailAt(FailAll(fs, p), a);
      }
    }
  }
}
