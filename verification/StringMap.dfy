/** Maps from lookahead strings to values, stored as tries. */
module StringMap {
  import opened Basics
  import opened ByteStream

  /** `epsilon` is the value of the empty string, `end` that of the end of the input. */
  datatype StringMap<V> = StringMap(epsilon: Option<V>, end: Option<V>, branches: map<byte, StringMap<V>>)

  /** The entry for `str`, followed by the end of the input if `end` is set. */
  function At<V>(m: StringMap<V>, str: seq<byte>, end: bool): Option<V>
    decreases |str|
  {
    if str == [] then if end then m.end else m.epsilon
    else if str[0] in m.branches then At(m.branches[str[0]], str[1..], end)
    else None
  }

  /** The lookahead is too short to tell, or the entry found. */
  datatype Lookup<V> = NeedInput | Found(value: Option<V>)

  /** What a lookup finds in the bytes `ahead`; `last` tells that nothing follows them. */
  function Lookahead<V>(m: StringMap<V>, ahead: seq<byte>, last: bool): Lookup<V>
    decreases |ahead|
  {
    if m.epsilon.Some? then Found(m.epsilon)
    else if ahead == [] then if last then Found(m.end) else NeedInput
    else if ahead[0] in m.branches then Lookahead(m.branches[ahead[0]], ahead[1..], last)
    else Found(None)
  }

  /** A lookup finds the entry of the shortest beginning of the lookahead that has one; else that of all of it
      followed by the end. */
  lemma {:induction false} LookaheadFinds<V>(m: StringMap<V>, ahead: seq<byte>, last: bool) returns (k: nat)
    ensures var r := Lookahead(m, ahead, last);
      && k <= |ahead| && (forall j :: 0 <= j < k ==> At(m, ahead[..j], false) == None)
      && (r.NeedInput? ==> k == |ahead| && !last)
      && (r.Found? && r.value.Some? ==> r.value == At(m, ahead[..k], false) || (k == |ahead| && last && r.value == At(m, ahead, true)))
      && (At(m, ahead[..k], false).Some? ==> r == Found(At(m, ahead[..k], false)))
    ensures Lookahead(m, ahead, last) == Found(None) ==>
      (forall j :: 0 <= j <= |ahead| ==> At(m, ahead[..j], false) == None) && (last ==> At(m, ahead, true) == None)
    decreases |ahead|
  {
    if m.epsilon.Some? || ahead == [] || ahead[0] !in m.branches {
      k := 0;
      assert ahead[..0] == [];
      if ahead != [] && ahead[0] !in m.branches {
        forall j | 0 < j <= |ahead| ensures At(m, ahead[..j], false) == None {
          assert ahead[..j][0] == ahead[0];
        }
      }
    } else {
      var m', rest := m.branches[ahead[0]], ahead[1..];
      var k' := LookaheadFinds(m', rest, last);
      k := k' + 1;
      forall j | 0 < j <= |ahead| ensures At(m, ahead[..j], false) == At(m', rest[..j - 1], false) {
        assert ahead[..j][1..] == rest[..j - 1];
      }
    }
  }

  /** `h_stringmap_get_lookahead`: the stream is a copy, so looking ahead consumes nothing. */
  method GetLookahead<V>(map0: StringMap<V>, stream: Stream) returns (r: Lookup<V>)
    requires ValidStream(stream)
    ensures r == Lookahead(map0, stream.input[stream.index..], stream.lastChunk)
  {
    var m, lookahead := Some(map0), stream;
    while m.Some?
      invariant ValidStream(lookahead) && lookahead.input == stream.input && lookahead.lastChunk == stream.lastChunk
      invariant Lookahead(map0, stream.input[stream.index..], stream.lastChunk) ==
        if m.Some? then Lookahead(m.value, lookahead.input[lookahead.index..], lookahead.lastChunk) else Found(None)
      decreases m.Some?, |lookahead.input| - lookahead.index
    {
      if m.value.epsilon.Some? {
        return Found(m.value.epsilon);
      }
      ghost var rest := lookahead.input[lookahead.index..];
      var c, after := ReadByte(lookahead).0, ReadByte(lookahead).1;
      lookahead := after;
      if lookahead.overrun {
        if lookahead.lastChunk {
          return Found(m.value.end);
        } else {
          return NeedInput;
        }
      }
      assert rest[1..] == lookahead.input[lookahead.index..];
      m := if c in m.value.branches then Some(m.value.branches[c]) else None;
    }
    r := Found(None);
  }
}
