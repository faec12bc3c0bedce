/** Positions in a ring of l places. */
module Rings {
  import opened Arithmetic

  /** Where place i of an endless strip lies on the ring. */
  function Pos(i: nat, l: nat): nat
    requires l > 0
  {
    i % l
  }

  /** The position n further on, as the code computes it: one subtraction instead of a remainder. */
  function Advance(i: nat, n: nat, l: nat): nat {
    if i + n >= l then i + n - l else i + n
  }

  lemma PosStep(i: nat, n: nat, l: nat)
    requires 0 < l && n <= l
    ensures Pos(i + n, l) == Advance(Pos(i, l), n, l)
    ensures Pos(i + n, l) == Pos(Pos(i, l) + n, l) && Pos(i, l) < l
  {
    ModStep(i, n, l);
    assert Pos(Pos(i, l), l) == Pos(i, l) by { QuotientUnique(i % l, l, 0, i % l); }
    ModStep(Pos(i, l), n, l);
  }

  lemma PosDistinct(i: nat, j: nat, l: nat)
    requires i < j < i + l
    ensures Pos(i, l) != Pos(j, l)
  {
    hide Pos;
    PosStep(i, j - i, l);
    assert i + (j - i) == j;
  }

  /** A position before the end of the ring, and one past it. */
  lemma PosChunks(i: nat, l: nat)
    requires 0 < l && i < 2 * l
    ensures Pos(i, l) == if i < l then i else i - l
  {
    if i < l { QuotientUnique(i, l, 0, i); } else { QuotientUnique(i, l, 1, i - l); }
  }
}
