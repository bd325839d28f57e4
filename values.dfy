/** Values shared by every part of the engine: bytes, the values semantic
    actions produce, positions and savepoints of the cursor, and the memo
    table's result tuples. */
module Values {

  /** One byte of the input buffer. */
  type byte = b: int | 0 <= b < 256

  datatype Option<+T> = None | Some(value: T)

  /** The example grammar's token: a keyword flag and the raw bytes. */
  datatype Token = Token(kw: bool, val: seq<byte>)

  /** The dynamically typed values the evaluator passes around: `nil`,
      a matched byte slice, a list of child values, or what an action built. */
  datatype Value =
    | Nil
    | Bytes(bytes: seq<byte>)
    | List(items: seq<Value>)
    | Tok(token: Token)
    | Tokens(tokens: seq<Token>)

  /** A scope frame: label -> bound value. */
  type Frame = map<string, Value>

  /** A position in the text: 1-based line, column, and byte offset. */
  datatype Position = Position(line: nat, col: nat, offset: nat)

  /** The cursor: a position plus the current rune and its byte width. */
  datatype Savepoint = Savepoint(line: nat, col: nat, offset: nat, rn: int, w: nat)
  {
    function Pos(): Position { Position(line, col, offset) }
  }

  /** What an action sees of the match: its start and its raw text. */
  datatype Current = Current(pos: Position, text: seq<byte>)

  /** A memoized evaluation result: value, success and the end cursor. */
  datatype ResultTuple = ResultTuple(v: Value, b: bool, end: Savepoint)
}
