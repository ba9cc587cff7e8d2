/** TCP sequence numbers as mongoreplay compares them (assembly.go, `Sequence`). */
module Sequence {
  const UINT32_MAX: int := 0xFFFF_FFFF
  const UINT32_SIZE: int := 0x1_0000_0000
  const QUARTER: int := UINT32_MAX / 4
  const INVALID_SEQUENCE: int := -1

  type SeqNo = s: int | 0 <= s <= UINT32_MAX

  /** A sequence number or INVALID_SEQUENCE. */
  type NextSeq = s: int | INVALID_SEQUENCE <= s <= UINT32_MAX

  /** Positive when `t` comes after `s`.  The roll-over correction is UINT32_MAX,
      one less than the size of the space. */
  function Difference(s: int, t: int): int {
    if s > UINT32_MAX - UINT32_MAX / 4 && t < UINT32_MAX / 4 then
      t + UINT32_MAX - s
    else if t > UINT32_MAX - UINT32_MAX / 4 && s < UINT32_MAX / 4 then
      t - (s + UINT32_MAX)
    else
      t - s
  }

  /** Masking with UINT32_MAX is reduction modulo the size of the space. */
  function Add(s: int, t: int): SeqNo {
    (s + t) % UINT32_SIZE
  }

  lemma AddSmall(s: int, t: int)
    requires 0 <= s + t <= UINT32_MAX
    ensures Add(s, t) == s + t
  {
  }

  /** The distance comes out right. */
  predicate Near(s: int, t: int) {
    Difference(s, t) == t - s
  }

  /** Whatever the numbers, swapping them changes the sign. */
  lemma DifferenceIsAntisymmetric(s: int, t: int)
    ensures Difference(t, s) == -Difference(s, t)
    ensures Near(s, t) <==> Near(t, s)
  {
  }

  /** Neither number's quarter faces the other's across the roll-over point. */
  predicate SameSide(s: int, t: int) {
    && !(s > UINT32_MAX - QUARTER && t < QUARTER)
    && !(t > UINT32_MAX - QUARTER && s < QUARTER)
  }

  /** Difference undoes Add exactly when the sum does not roll over and the two
      numbers are not in facing quarters; a roll-over inside the facing quarters
      comes out one short. */
  lemma DifferenceOfAdd(s: SeqNo, k: nat)
    requires k <= UINT32_MAX
    ensures Difference(s, Add(s, k)) == k <==> s + k <= UINT32_MAX && SameSide(s, s + k)
    ensures s + k > UINT32_MAX && !SameSide(s, Add(s, k)) ==> Difference(s, Add(s, k)) == k - 1
  {
    if s + k <= UINT32_MAX {
      assert Add(s, k) == s + k;
    } else {
      assert Add(s, k) == s + k - UINT32_SIZE;
    }
  }

  /** "Zero when equal" has one exception: the last and the first number. */
  lemma ZeroDifference(s: SeqNo, t: SeqNo)
    ensures Difference(s, t) == 0 <==> s == t || {s, t} == {0, UINT32_MAX}
  {
    assert {s, t} == {0, UINT32_MAX} <==>
      (s == 0 && t == UINT32_MAX) || (t == 0 && s == UINT32_MAX) by {
      assert 0 in {s, t} && UINT32_MAX in {s, t} && s != t <==>
        (s == 0 && t == UINT32_MAX) || (t == 0 && s == UINT32_MAX);
    }
  }

  /** `x` is fewer than `width` steps ahead of `base`, rolling over if need be. */
  predicate InWindow(base: SeqNo, width: nat, x: SeqNo) {
    (x - base) % UINT32_SIZE < width
  }

  function Rank(base: SeqNo, x: SeqNo): int {
    if x < base then x + UINT32_MAX else x
  }

  lemma WindowBounds(base: SeqNo, width: nat, x: SeqNo)
    requires width <= QUARTER && InWindow(base, width, x)
    ensures base <= x < base + width || (x < base && x + UINT32_SIZE < base + width)
  {
    if x >= base {
      assert (x - base) % UINT32_SIZE == x - base;
    } else {
      assert (x - base) % UINT32_SIZE == x - base + UINT32_SIZE;
    }
  }

  /** Inside a window no wider than a quarter of the space, Difference is the
      difference of one rank function ... */
  lemma DifferenceIsRankDifference(base: SeqNo, width: nat, s: SeqNo, t: SeqNo)
    requires width <= QUARTER && InWindow(base, width, s) && InWindow(base, width, t)
    ensures Difference(s, t) == Rank(base, t) - Rank(base, s)
  {
    WindowBounds(base, width, s);
    WindowBounds(base, width, t);
  }

  /** ... so "not after" composes, which the backwards walk through a
      connection's pages relies on. */
  lemma DifferenceIsTransitive(base: SeqNo, width: nat, s: SeqNo, t: SeqNo, u: SeqNo)
    requires width <= QUARTER
    requires InWindow(base, width, s) && InWindow(base, width, t) && InWindow(base, width, u)
    ensures Difference(s, t) + Difference(t, u) == Difference(s, u)
  {
    DifferenceIsRankDifference(base, width, s, t);
    DifferenceIsRankDifference(base, width, t, u);
    DifferenceIsRankDifference(base, width, s, u);
  }
}
