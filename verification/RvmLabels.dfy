/** Pieces of a regex program with one entry and one exit, seen for one byte to come: which STEP instructions a
    thread can get to before it consumes that byte, and whether it can leave the piece before. */
module RvmLabels {
  import opened Basics
  import opened RvmCode

  /** `(k, s)` is in `may` if instruction `k` may lead to the STEP at `s`; `k` is in `out` if it may lead to the exit. */
  datatype Label = Label(may: iset<(nat, nat)>, out: iset<nat>)

  /** What a piece can do in front of the byte: consume it from the entry, pass without consuming it, or consume it
      where it could as well be left. */
  datatype Role = Role(begins: bool, skips: bool, goesOn: bool)

  /** Where instruction `k` leads without consuming, with `b` as the next byte. */
  function Next(code: Code, b: byte, k: nat): seq<nat>
    requires k < |code.insns|
  {
    var arg := code.insns[k].arg;
    match code.insns[k].op
    case GOTO => [arg]
    case FORK => [k + 1, arg]
    case PUSH => [k + 1]
    case ACTION => [k + 1]
    case CAPTURE => [k + 1]
    case MATCH => if RangeLow(arg) <= b <= RangeHigh(arg) then [k + 1] else []
    case _ => []
  }

  /** The label of `k` accounts for everything `j` leads to. */
  ghost predicate Takes(l: Label, k: nat, j: nat) {
    (forall s: nat :: (j, s) in l.may ==> (k, s) in l.may) && (j in l.out ==> k in l.out)
  }

  ghost predicate Local(code: Code, b: byte, l: Label, lo: nat, hi: nat, k: nat) {
    && k < |code.insns|
    && (code.insns[k].op == STEP ==> (k, k) in l.may)
    && forall i :: 0 <= i < |Next(code, b, k)| ==> lo <= Next(code, b, k)[i] <= hi && Takes(l, k, Next(code, b, k)[i])
  }

  ghost predicate Bounded(l: Label, lo: nat, hi: nat) {
    && (forall k: nat, s: nat :: (k, s) in l.may ==> lo <= k < hi && lo <= s < hi)
    && (forall k: nat :: k in l.out ==> lo <= k <= hi)
  }

  /** A thread enters a piece at its front, or behind one of its STEPs. */
  ghost predicate Entry(code: Code, lo: nat, hi: nat, h: nat) {
    h == lo || (lo < h <= hi && h <= |code.insns| && code.insns[h - 1].op == STEP)
  }

  /** From an entry at most one STEP can be reached, and `role` says when there is one. */
  ghost predicate Single(code: Code, l: Label, lo: nat, hi: nat, role: Role) {
    && (forall s: nat :: (lo, s) in l.may ==> role.begins)
    && (lo in l.out ==> role.skips)
    && (forall h: nat, s: nat, t: nat :: Entry(code, lo, hi, h) && (h, s) in l.may && (h, t) in l.may ==> s == t)
    && (forall h: nat, s: nat :: Entry(code, lo, hi, h) && (h, s) in l.may && h in l.out ==> role.goesOn)
  }

  ghost predicate Tame(code: Code, b: byte, l: Label, lo: nat, hi: nat) {
    && lo <= hi && hi in l.out && Bounded(l, lo, hi)
    && forall k: nat :: lo <= k < hi ==> Local(code, b, l, lo, hi, k)
  }

  ghost predicate Piece(code: Code, b: byte, l: Label, lo: nat, hi: nat, role: Role) {
    Tame(code, b, l, lo, hi) && Single(code, l, lo, hi, role)
  }

  // ----- single instructions

  function EmptyRole(): Role {
    Role(false, true, false)
  }

  lemma EmptyPiece(code: Code, b: byte, at: nat) returns (l: Label)
    ensures Piece(code, b, l, at, at, EmptyRole())
  {
    l := Label(iset{}, iset{at});
  }

  lemma PassPiece(code: Code, b: byte, at: nat) returns (l: Label)
    requires at < |code.insns| && (code.insns[at].op == PUSH || code.insns[at].op == ACTION || code.insns[at].op == CAPTURE)
    ensures Piece(code, b, l, at, at + 1, EmptyRole())
  {
    l := Label(iset{}, iset{at, at + 1});
  }

  lemma StepPiece(code: Code, b: byte, at: nat) returns (l: Label)
    requires At(code, at, STEP, 0)
    ensures Piece(code, b, l, at, at + 1, Role(true, false, false))
  {
    l := Label(iset{(at, at)}, iset{at + 1});
  }

  /** A MATCH lets the thread pass only if the byte is in its range. */
  lemma MatchPiece(code: Code, b: byte, at: nat, passes: bool) returns (l: Label)
    requires at < |code.insns| && code.insns[at].op == MATCH
    requires RangeLow(code.insns[at].arg) <= b <= RangeHigh(code.insns[at].arg) ==> passes
    ensures Piece(code, b, l, at, at + 1, Role(false, passes, false))
  {
    hide RangeLow, RangeHigh;
    l := Label(iset{}, if passes then iset{at, at + 1} else iset{at + 1});
  }

  lemma EofPiece(code: Code, b: byte, at: nat) returns (l: Label)
    requires At(code, at, EOF, 0)
    ensures Piece(code, b, l, at, at + 1, Role(false, false, false))
  {
    l := Label(iset{}, iset{at + 1});
  }

  // ----- one piece behind the other

  function ThenRole(a: Role, b: Role): Role {
    Role(a.begins || (a.skips && b.begins), a.skips && b.skips, b.goesOn || (b.skips && a.goesOn))
  }

  ghost function ThenLabel(l: Label, mid: nat, m: Label): Label {
    Label(l.may + m.may + (iset x: (nat, nat) | x.0 in l.out && (mid, x.1) in m.may),
          m.out + (if mid in m.out then l.out else iset{}))
  }

  lemma ThenPiece(code: Code, b: byte, l: Label, lo: nat, mid: nat, x: Role, m: Label, hi: nat, y: Role) returns (r: Label)
    requires Piece(code, b, l, lo, mid, x) && Piece(code, b, m, mid, hi, y) && !(x.goesOn && y.begins)
    ensures Piece(code, b, r, lo, hi, ThenRole(x, y))
  {
    hide Next;
    r := ThenLabel(l, mid, m);
    forall k: nat | lo <= k < hi ensures Local(code, b, r, lo, hi, k) {
      if k < mid {
        assert Local(code, b, l, lo, mid, k);
      } else {
        assert Local(code, b, m, mid, hi, k);
      }
    }
    forall h: nat | Entry(code, lo, hi, h) ensures Entry(code, mid, hi, h) || (h < mid && Entry(code, lo, mid, h)) {
      if mid <= h {
        assert h == mid || Entry(code, mid, hi, h);
      }
    }
  }

  // ----- forks

  function OptionalRole(x: Role): Role {
    Role(x.begins, true, x.goesOn || x.begins)
  }

  /** A fork around a piece. */
  lemma OptionalPiece(code: Code, b: byte, at: nat, l: Label, hi: nat, x: Role) returns (r: Label)
    requires At(code, at, FORK, hi) && Piece(code, b, l, at + 1, hi, x)
    ensures Piece(code, b, r, at, hi, OptionalRole(x))
  {
    r := Label(l.may + (iset y: (nat, nat) | y.0 == at && (at + 1, y.1) in l.may), l.out + iset{at});
    forall k: nat | at <= k < hi ensures Local(code, b, r, at, hi, k) {
      if k > at {
        assert Local(code, b, l, at + 1, hi, k);
      }
    }
    forall h: nat | Entry(code, at, hi, h) ensures h == at || (h > at + 1 && Entry(code, at + 1, hi, h)) {
    }
  }

  function EitherRole(x: Role, y: Role): Role {
    var begins, skips := x.begins || y.begins, x.skips || y.skips;
    Role(begins, skips, x.goesOn || y.goesOn || (skips && begins))
  }

  /** A fork to one of two pieces, with a jump behind the first. */
  lemma EitherPiece(code: Code, b: byte, at: nat, l: Label, g: nat, x: Role, m: Label, hi: nat, y: Role) returns (r: Label)
    requires At(code, at, FORK, g + 1) && At(code, g, GOTO, hi)
    requires Piece(code, b, l, at + 1, g, x) && Piece(code, b, m, g + 1, hi, y) && !(x.begins && y.begins)
    ensures Piece(code, b, r, at, hi, EitherRole(x, y))
  {
    r := Label(l.may + m.may + (iset z: (nat, nat) | z.0 == at && ((at + 1, z.1) in l.may || (g + 1, z.1) in m.may)),
               l.out + m.out + (if at + 1 in l.out || g + 1 in m.out then iset{at} else iset{}));
    EitherTame(code, b, at, l, g, m, hi, r);
    forall h: nat | Entry(code, at, hi, h)
      ensures h == at || (at + 1 < h <= g && Entry(code, at + 1, g, h)) || (g + 1 < h && Entry(code, g + 1, hi, h))
    {
    }
  }

  lemma EitherTame(code: Code, b: byte, at: nat, l: Label, g: nat, m: Label, hi: nat, r: Label)
    requires At(code, at, FORK, g + 1) && At(code, g, GOTO, hi)
    requires Tame(code, b, l, at + 1, g) && Tame(code, b, m, g + 1, hi)
    requires r == Label(l.may + m.may + (iset z: (nat, nat) | z.0 == at && ((at + 1, z.1) in l.may || (g + 1, z.1) in m.may)),
                        l.out + m.out + (if at + 1 in l.out || g + 1 in m.out then iset{at} else iset{}))
    ensures Tame(code, b, r, at, hi)
  {
    forall k: nat | at <= k < hi ensures Local(code, b, r, at, hi, k) {
      if at < k < g {
        assert Local(code, b, l, at + 1, g, k);
      } else if k > g {
        assert Local(code, b, m, g + 1, hi, k);
      }
    }
  }

  // ----- loops

  /** What may follow an element of a loop: a separator `s`, or the next element if there is none to consume. */
  function Again(x: Role, s: Role): bool {
    s.begins || (s.skips && x.begins)
  }

  function LoopRole(x: Role, s: Role): Role {
    Role(x.begins || (x.skips && Again(x, s)), x.skips, x.goesOn || Again(x, s) || (x.skips && s.goesOn))
  }

  ghost predicate InAgain(l: Label, mid: nat, s: Label, next: nat, t: nat) {
    (next, t) in s.may || (next in s.out && (mid, t) in l.may)
  }

  ghost predicate LoopMay(l: Label, mid: nat, end: nat, s: Label, next: nat, h: nat, t: nat) {
    || (h, t) in l.may
    || (h, t) in s.may
    || ((h in l.out || h == end) && InAgain(l, mid, s, next, t))
    || ((h in s.out || h == next - 1) && ((mid, t) in l.may || (mid in l.out && InAgain(l, mid, s, next, t))))
  }

  /** From `next - 1` a jump to the element at `mid`; behind it a fork back to the separator at `next`. */
  ghost function LoopLabel(l: Label, mid: nat, end: nat, s: Label, next: nat): Label
    requires next > 0
  {
    Label((iset z: (nat, nat) | LoopMay(l, mid, end, s, next, z.0, z.1)),
          l.out + iset{end, end + 1} + (if mid in l.out then s.out + iset{next - 1} else iset{}))
  }

  ghost predicate LoopCode(code: Code, next: nat, mid: nat, end: nat) {
    next > 0 && At(code, next - 1, GOTO, mid) && At(code, end, FORK, next)
  }

  lemma LoopPiece(code: Code, b: byte, next: nat, s: Label, mid: nat, y: Role, l: Label, end: nat, x: Role) returns (r: Label)
    requires LoopCode(code, next, mid, end)
    requires Piece(code, b, s, next, mid, y) && Piece(code, b, l, mid, end, x)
    requires !(x.goesOn && Again(x, y)) && !(y.goesOn && x.begins) && !(x.skips && y.goesOn && Again(x, y))
    ensures Piece(code, b, r, next - 1, end + 1, LoopRole(x, y))
  {
    r := LoopLabel(l, mid, end, s, next);
    LoopTame(code, b, next, s, mid, l, end);
    LoopSingle(code, next, s, mid, y, l, end, x);
  }

  lemma LoopTame(code: Code, b: byte, next: nat, s: Label, mid: nat, l: Label, end: nat)
    requires LoopCode(code, next, mid, end) && Tame(code, b, s, next, mid) && Tame(code, b, l, mid, end)
    ensures Tame(code, b, LoopLabel(l, mid, end, s, next), next - 1, end + 1)
  {
    var r := LoopLabel(l, mid, end, s, next);
    var lo: nat, hi := next - 1, end + 1;
    forall k: nat | lo <= k < hi ensures Local(code, b, r, lo, hi, k) {
      if next <= k < mid {
        assert Local(code, b, s, next, mid, k);
      } else if mid <= k < end {
        assert Local(code, b, l, mid, end, k);
      }
    }
  }

  lemma LoopSingle(code: Code, next: nat, s: Label, mid: nat, y: Role, l: Label, end: nat, x: Role)
    requires LoopCode(code, next, mid, end) && next <= mid <= end && Bounded(s, next, mid) && Bounded(l, mid, end)
    requires Single(code, s, next, mid, y) && Single(code, l, mid, end, x)
    requires !(x.goesOn && Again(x, y)) && !(y.goesOn && x.begins) && !(x.skips && y.goesOn && Again(x, y))
    ensures Single(code, LoopLabel(l, mid, end, s, next), next - 1, end + 1, LoopRole(x, y))
  {
    var r := LoopLabel(l, mid, end, s, next);
    forall h: nat | Entry(code, next - 1, end + 1, h)
      ensures h == next - 1 || (next <= h < mid && Entry(code, next, mid, h)) || (mid <= h <= end && Entry(code, mid, end, h))
    {
    }
    assert forall t: nat, u: nat :: InAgain(l, mid, s, next, t) && InAgain(l, mid, s, next, u) ==> t == u;
    assert forall t: nat :: InAgain(l, mid, s, next, t) ==> Again(x, y);
  }

  // ----- white space in front of a piece

  function WhiteRole(b: byte, x: Role): Role {
    Role(IsSpace(b) || x.begins, x.skips, x.goesOn || (x.skips && (IsSpace(b) || x.begins)))
  }

  ghost predicate WhiteStart(b: byte, lo: nat, l: Label, t: nat) {
    (t == lo + 2 && 9 <= b <= 13) || (t == lo + 6 && b == 32) || (lo + 8, t) in l.may
  }

  ghost predicate WhiteMay(b: byte, lo: nat, l: Label, h: nat, t: nat) {
    || (h, t) in l.may
    || ((h == lo || h == lo + 3 || h == lo + 7) && WhiteStart(b, lo, l, t))
    || (t == lo + 2 && (h == lo + 2 || (h == lo + 1 && 9 <= b <= 13)))
    || (t == lo + 6 && (h == lo + 6 || ((h == lo + 5 || h == lo + 4) && b == 32)))
    || (h == lo + 4 && (lo + 8, t) in l.may)
  }

  ghost function WhiteLabel(b: byte, lo: nat, l: Label): Label {
    Label((iset z: (nat, nat) | WhiteMay(b, lo, l, z.0, z.1)),
          l.out + (if lo + 8 in l.out then iset{lo, lo + 3, lo + 4, lo + 7} else iset{}))
  }

  lemma WhitePiece(code: Code, b: byte, lo: nat, l: Label, hi: nat, x: Role) returns (r: Label)
    requires SpaceRun(code, lo, lo, RangeArg(9, 13)) && SpaceRun(code, lo, lo + 4, RangeArg(32, 32))
    requires Piece(code, b, l, lo + 8, hi, x) && !(IsSpace(b) && x.begins)
    ensures Piece(code, b, r, lo, hi, WhiteRole(b, x))
  {
    r := WhiteLabel(b, lo, l);
    WhiteTame(code, b, lo, l, hi);
    forall h: nat | Entry(code, lo, hi, h)
      ensures h == lo || h == lo + 3 || h == lo + 7 || (h > lo + 8 && Entry(code, lo + 8, hi, h))
    {
    }
  }

  lemma WhiteTame(code: Code, b: byte, lo: nat, l: Label, hi: nat)
    requires SpaceRun(code, lo, lo, RangeArg(9, 13)) && SpaceRun(code, lo, lo + 4, RangeArg(32, 32))
    requires Tame(code, b, l, lo + 8, hi)
    ensures Tame(code, b, WhiteLabel(b, lo, l), lo, hi)
  {
    hide RangeArg, RangeLow, RangeHigh;
    var r := WhiteLabel(b, lo, l);
    forall k: nat | lo <= k < hi ensures Local(code, b, r, lo, hi, k) {
      if k >= lo + 8 {
        assert Local(code, b, l, lo + 8, hi, k);
      }
    }
  }
}
