/** The input stream as the context-free backends use it: whole bytes, with the position of the
    current chunk in the whole input. */
module ByteStream {
  import opened Basics

  datatype Stream = Stream(input: seq<byte>, pos: nat, index: nat, overrun: bool, lastChunk: bool)

  ghost predicate ValidStream(s: Stream) {
    s.index <= |s.input| && (s.overrun ==> s.index == |s.input|)
  }

  /** The position in the whole input. */
  function Position(s: Stream): nat {
    s.pos + s.index
  }

  /** Reading eight bits; past the end nothing is consumed and `overrun` is set. */
  function ReadByte(s: Stream): (r: (byte, Stream))
    ensures ValidStream(s) ==> ValidStream(r.1)
  {
    if s.index < |s.input| then (s.input[s.index], s.(index := s.index + 1))
    else (0, s.(overrun := true))
  }

  /** `text` is all that has been read, and `ends` end markers were found behind it. */
  ghost predicate Reading(input: Stream, text: seq<byte>, ends: nat) {
    && ValidStream(input) && Position(input) == |text| && text[input.pos..] == input.input[..input.index]
    && (ends > 0 ==> input.overrun && input.lastChunk)
  }

  lemma ReadingOn(input: Stream, text: seq<byte>, ends: nat)
    requires Reading(input, text, ends)
    ensures var (b, after) := ReadByte(input);
      if after.overrun then after.lastChunk ==> Reading(after, text, ends + 1)
      else ends == 0 && Reading(after, text + [b], 0)
  {
    var (b, after) := ReadByte(input);
    if !after.overrun {
      assert (text + [b])[input.pos..] == text[input.pos..] + [b];
      assert after.input[..after.index] == input.input[..input.index] + [b];
    }
  }

  /** The outcome of a parse: the value of the start symbol and the bits consumed. */
  datatype Result = Result(ast: Option<Token>, bitLength: nat)
}
