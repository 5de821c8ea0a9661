/** The combinators that have a regular backend, and what they denote: which
    stretches `input[i..j]` a combinator matches and the token each match yields. */
module RegularLanguage {
  import opened Basics

  datatype Parser =
    | Ch(c: byte)
    | Charset(chars: set<byte>)
    | Literal(str: seq<byte>)
    | Sequence(ps: seq<Parser>)
    | Choice(ps: seq<Parser>)
    | Many(p: Parser, sep: Option<Parser>, atLeastOne: bool)
    | RepeatN(p: Parser, n: nat)
    | Optional(p: Parser)
    | Whitespace(p: Parser)
    | Epsilon
    | End
    | Nothing

  ghost predicate AllSpace(input: seq<byte>, i: nat, j: nat) {
    i <= j <= |input| && forall k :: i <= k < j ==> IsSpace(input[k])
  }

  /** `h_many`, `h_sepBy` (and their `1` forms) and `h_repeat_n` share one environment. */
  function Separator(m: Parser): Option<Parser>
    requires m.Many? || m.RepeatN?
  {
    if m.Many? then m.sep else None
  }

  function SequenceAt(toks: seq<Token>, i: nat): Token {
    Token(TtSequence(Somes(toks)), i)
  }

  /** Matching `p` at `i` can end at `j` and yield the token `t`. */
  ghost predicate Denotes(p: Parser, input: seq<byte>, i: nat, j: nat, t: Option<Token>)
    decreases p, 1, 0
  {
    match p
    case Ch(c) =>
      i < |input| && input[i] == c && j == i + 1 && t == Some(Token(TtUint(c), i))
    case Charset(chars) =>
      i < |input| && input[i] in chars && j == i + 1 && t == Some(Token(TtUint(input[i]), i))
    case Literal(str) =>
      j == i + |str| && j <= |input| && input[i..j] == str && t == Some(Token(TtBytes(str), i))
    case Sequence(ps) =>
      exists toks :: DenotesSeq(ps, |ps|, input, i, j, toks) && t == Some(SequenceAt(toks, i))
    case Choice(ps) =>
      exists k :: 0 <= k < |ps| && Denotes(ps[k], input, i, j, t)
    case Many(_, _, atLeastOne) =>
      exists n: nat, toks ::
        && DenotesTimes(p, n, input, i, j, toks)
        && (atLeastOne ==> n >= 1)
        && t == Some(SequenceAt(toks, i))
    case RepeatN(_, n) =>
      exists toks :: DenotesTimes(p, n, input, i, j, toks) && t == Some(SequenceAt(toks, i))
    case Optional(q) =>
      || (i == j && t == Some(Token(TtNone, i)))
      || (exists u :: Denotes(q, input, i, j, u) && t == if u.Some? then u else Some(Token(TtNone, i)))
    case Whitespace(q) =>
      exists k: nat :: AllSpace(input, i, k) && Denotes(q, input, k, j, t)
    case Epsilon => i == j && t == None
    case End => i == j == |input| && t == None
    case Nothing => false
  }

  /** The first `k` parsers of `ps` match one after the other. */
  ghost predicate DenotesSeq(ps: seq<Parser>, k: nat, input: seq<byte>, i: nat, j: nat, toks: seq<Token>)
    requires k <= |ps|
    decreases ps, 0, k
  {
    if k == 0 then i == j && toks == []
    else
      var prev := k - 1;
      exists m: nat, ts, t ::
        && DenotesSeq(ps, prev, input, i, m, ts)
        && Denotes(ps[prev], input, m, j, t)
        && toks == ts + Toks(t)
  }

  /** `n` elements, separated where the combinator has a separator; tokens of separators are dropped. */
  ghost predicate DenotesTimes(m: Parser, n: nat, input: seq<byte>, i: nat, j: nat, toks: seq<Token>)
    requires m.Many? || m.RepeatN?
    decreases m, 0, n
  {
    if n == 0 then i == j && toks == []
    else
      var prev := n - 1;
      exists k: nat, l: nat, ts, t ::
        && DenotesTimes(m, prev, input, i, k, ts)
        && DenotesGap(m, n, input, k, l)
        && Denotes(m.p, input, l, j, t)
        && toks == ts + Toks(t)
  }

  /** What may stand before the `n`-th element. */
  ghost predicate DenotesGap(m: Parser, n: nat, input: seq<byte>, k: nat, l: nat)
    requires m.Many? || m.RepeatN?
    decreases m, 0, 0
  {
    if n > 1 && Separator(m).Some? then exists u :: Denotes(m.sep.value, input, k, l, u)
    else k == l
  }

  lemma SeqSnoc(ps: seq<Parser>, k: nat, input: seq<byte>, i: nat, m: nat, ts: seq<Token>, j: nat, t: Option<Token>)
    requires k < |ps| && DenotesSeq(ps, k, input, i, m, ts) && Denotes(ps[k], input, m, j, t)
    ensures DenotesSeq(ps, k + 1, input, i, j, ts + Toks(t))
  {
    hide Denotes;
  }

  lemma TimesSnoc(m: Parser, n: nat, input: seq<byte>, i: nat, k: nat, ts: seq<Token>, l: nat, j: nat, t: Option<Token>)
    requires m.Many? || m.RepeatN?
    requires DenotesTimes(m, n, input, i, k, ts) && DenotesGap(m, n + 1, input, k, l) && Denotes(m.p, input, l, j, t)
    ensures DenotesTimes(m, n + 1, input, i, j, ts + Toks(t))
  {
    hide Denotes, DenotesGap;
  }

  lemma SeqLast(ps: seq<Parser>, k: nat, input: seq<byte>, i: nat, j: nat, toks: seq<Token>)
    returns (m: nat, ts: seq<Token>, t: Option<Token>)
    requires 0 < k <= |ps| && DenotesSeq(ps, k, input, i, j, toks)
    ensures DenotesSeq(ps, k - 1, input, i, m, ts) && Denotes(ps[k - 1], input, m, j, t) && toks == ts + Toks(t)
  {
    hide Denotes;
    var prev := k - 1;
    m, ts, t :| DenotesSeq(ps, prev, input, i, m, ts) && Denotes(ps[prev], input, m, j, t) && toks == ts + Toks(t);
  }

  lemma TimesLast(p: Parser, n: nat, input: seq<byte>, i: nat, j: nat, toks: seq<Token>)
    returns (k: nat, l: nat, ts: seq<Token>, t: Option<Token>)
    requires (p.Many? || p.RepeatN?) && n > 0 && DenotesTimes(p, n, input, i, j, toks)
    ensures DenotesTimes(p, n - 1, input, i, k, ts) && DenotesGap(p, n, input, k, l)
    ensures Denotes(p.p, input, l, j, t) && toks == ts + Toks(t)
    ensures n == 1 || p.RepeatN? ==> k == l
  {
    hide Denotes;
    var prev := n - 1;
    k, l, ts, t :| DenotesTimes(p, prev, input, i, k, ts) && DenotesGap(p, n, input, k, l)
      && Denotes(p.p, input, l, j, t) && toks == ts + Toks(t);
  }
}
