/** Bytes, optional values and parsed tokens, shared by every backend. */
module Basics {
  type byte = b: int | 0 <= b < 256

  /** `isspace` on one byte. */
  predicate IsSpace(b: byte) {
    9 <= b <= 13 || b == 32
  }

  datatype Option<+T> = None | Some(value: T)

  /** The payload of an `HParsedToken`.  `TtMark` is the regex backend's private
      marker; elements of a sequence are optional because the context-free
      backends store NULL for a token that a reshape function dropped. */
  datatype Kind =
    | TtMark
    | TtNone
    | TtBytes(bytes: seq<byte>)
    | TtSint(sint: int)
    | TtUint(uint: nat)
    | TtSequence(elems: seq<Option<Token>>)

  datatype Token = Token(kind: Kind, index: nat)

  /** The token as a list: the empty list stands for a NULL `ast`. */
  function Toks(t: Option<Token>): seq<Token> {
    if t.Some? then [t.value] else []
  }

  function Somes(ts: seq<Token>): (r: seq<Option<Token>>)
    ensures |r| == |ts| && forall k :: 0 <= k < |ts| ==> r[k] == Some(ts[k])
  {
    seq(|ts|, k requires 0 <= k < |ts| => Some(ts[k]))
  }
}
