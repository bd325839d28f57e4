/** The packrat memo table: offset -> node id -> stored result. */
module Memo {
  import opened Values

  type MemoTable = map<nat, map<nat, ResultTuple>>

  /** `getMemoized` at a given offset. */
  function MemoGet(m: MemoTable, offset: nat, node: nat): (r: Option<ResultTuple>)
    ensures r.Some? <==> offset in m && node in m[offset]
  {
    if offset in m && node in m[offset] then Some(m[offset][node]) else None
  }

  /** `setMemoized`: the entry for (offset, node) becomes `t`, every other entry stays. */
  function MemoPut(m: MemoTable, offset: nat, node: nat, t: ResultTuple): (r: MemoTable)
    ensures MemoGet(r, offset, node) == Some(t)
    ensures forall o, n | o != offset || n != node :: MemoGet(r, o, n) == MemoGet(m, o, n)
  {
    var row := if offset in m then m[offset] else map[];
    m[offset := row[node := t]]
  }
}
