/**
 The bit tricks of the repository, on unbounded naturals: the mask that turns a ticket into a
 slot index, the static_assert on the capacity, and the rounding of a flush to whole blocks.
 */
module Bits {

  function Pow2(k: nat): (p: nat)
    ensures p >= 1
  {
    if k == 0 then 1 else 2 * Pow2(k - 1)
  }

  /** Bitwise conjunction, least significant bit first. */
  function And(x: nat, y: nat): (r: nat)
    ensures r <= x && r <= y
  {
    if x == 0 || y == 0 then 0 else 2 * And(x / 2, y / 2) + (if x % 2 == 1 && y % 2 == 1 then 1 else 0)
  }

  /** The condition of the static_assert on Capacity, for a capacity of at least one. */
  predicate SingleBit(c: nat) {
    c >= 1 && And(c, c - 1) == 0
  }

  type Capacity = c: nat | c >= 1 && SingleBit(c) witness 1

  /** `pos & (Capacity - 1)` */
  function Index(pos: nat, cap: Capacity): (i: nat)
    ensures i < cap
  {
    And(pos, cap - 1)
  }

  /** The slot of a ticket; negative tickets stand for the rounds before the first. */
  ghost function Slot(t: int, cap: nat): (i: nat)
    requires cap >= 1
    ensures i < cap
    decreases if t < 0 then cap - t else t
  {
    if t < 0 then Slot(t + cap, cap)
    else if t >= cap then Slot(t - cap, cap)
    else t
  }

  // ---- Masks ----

  lemma {:induction false} SingleBitIsPow2(c: nat) returns (k: nat)
    requires SingleBit(c)
    ensures c == Pow2(k)
  {
    if c == 1 {
      k := 0;
    } else {
      assert c % 2 == 0 by {
        if c % 2 == 1 {
          AndSelf(c / 2);
        }
      }
      assert (c - 1) / 2 == c / 2 - 1;
      var k' := SingleBitIsPow2(c / 2);
      k := k' + 1;
    }
  }

  lemma {:induction false} AndSelf(x: nat)
    ensures And(x, x) == x
  {
    if x > 0 {
      AndSelf(x / 2);
    }
  }

  lemma {:induction false} Pow2IsSingleBit(k: nat)
    ensures SingleBit(Pow2(k))
  {
    if k > 0 {
      Pow2IsSingleBit(k - 1);
      assert (Pow2(k) - 1) / 2 == Pow2(k - 1) - 1;
    }
  }

  /** The static_assert admits exactly the powers of two (and, with wrap-around, zero). */
  lemma StaticAssertExact(c: nat)
    ensures SingleBit(c) <==> exists k: nat :: c == Pow2(k)
  {
    if SingleBit(c) {
      var k := SingleBitIsPow2(c);
    }
    forall k: nat | c == Pow2(k) ensures SingleBit(c) {
      Pow2IsSingleBit(k);
    }
  }

  /** The k least significant bits, and the rest. */
  ghost function Low(x: nat, k: nat): (r: nat)
    ensures r < Pow2(k) && r <= x
  {
    if k == 0 then 0 else 2 * Low(x / 2, k - 1) + x % 2
  }

  ghost function Shift(x: nat, k: nat): nat {
    if k == 0 then x else Shift(x / 2, k - 1)
  }

  lemma {:induction false} LowAndShift(x: nat, k: nat)
    ensures x == Pow2(k) * Shift(x, k) + Low(x, k)
  {
    if k > 0 {
      LowAndShift(x / 2, k - 1);
      Double(Pow2(k - 1), Shift(x / 2, k - 1));
    }
  }

  lemma Double(p: nat, q: nat)
    ensures (2 * p) * q == 2 * (p * q)
  {
  }

  lemma LowIsRemainder(x: nat, k: nat)
    ensures Low(x, k) == x % Pow2(k)
  {
    LowAndShift(x, k);
    DivModUnique(x, Pow2(k), Shift(x, k), Low(x, k));
  }

  /** k ones, and ones above k zeros, in w bits. */
  ghost function Ones(k: nat): nat {
    if k == 0 then 0 else 2 * Ones(k - 1) + 1
  }

  ghost function HighOnes(k: nat, w: nat): nat
    requires k <= w
  {
    if k == 0 then Ones(w) else 2 * HighOnes(k - 1, w - 1)
  }

  lemma {:induction false} OnesIsPow2(k: nat)
    ensures Ones(k) == Pow2(k) - 1
  {
    if k > 0 {
      OnesIsPow2(k - 1);
    }
  }

  lemma {:induction false} HighOnesIsPow2(k: nat, w: nat)
    requires k <= w
    ensures HighOnes(k, w) == Pow2(w) - Pow2(k)
  {
    if k == 0 {
      OnesIsPow2(w);
    } else {
      HighOnesIsPow2(k - 1, w - 1);
    }
  }

  lemma {:induction false} AndLow(x: nat, k: nat)
    ensures And(x, Ones(k)) == Low(x, k)
  {
    if k > 0 {
      AndLow(x / 2, k - 1);
      AndOdd(x, Ones(k - 1));
    }
  }

  lemma AndOdd(x: nat, y: nat)
    ensures And(x, 2 * y + 1) == 2 * And(x / 2, y) + x % 2
  {
    assert (2 * y + 1) / 2 == y && (2 * y + 1) % 2 == 1;
  }

  lemma AndEven(x: nat, y: nat)
    ensures And(x, 2 * y) == 2 * And(x / 2, y)
  {
    assert (2 * y) / 2 == y && (2 * y) % 2 == 0;
  }

  lemma DivModUnique(x: int, m: nat, q: int, r: int)
    requires m >= 1 && x == m * q + r && 0 <= r < m
    ensures x / m == q && x % m == r
  {
    var q', r' := x / m, x % m;
    assert m * (q - q') == r' - r;
    SmallMultiple(q - q', m);
  }

  lemma SmallMultiple(k: int, m: nat)
    requires 0 < m * k + m < 2 * m
    ensures k == 0
  {
    assert m * (k + 1) > 0;
    assert m * (1 - k) > 0;
  }

  // ---- Tickets and slots ----

  lemma {:induction false} SlotIsRemainder(t: int, cap: nat)
    requires cap >= 1
    ensures Slot(t, cap) == t % cap
    decreases if t < 0 then cap - t else t
  {
    if t < 0 {
      SlotIsRemainder(t + cap, cap);
      RemainderPeriod(t, cap);
    } else if t >= cap {
      SlotIsRemainder(t - cap, cap);
      RemainderPeriod(t - cap, cap);
    } else {
      DivModUnique(t, cap, 0, t);
    }
  }

  lemma RemainderPeriod(t: int, cap: nat)
    requires cap >= 1
    ensures (t + cap) % cap == t % cap
  {
    var q, r := t / cap, t % cap;
    assert t == cap * q + r;
    assert t + cap == cap * (q + 1) + r;
    DivModUnique(t + cap, cap, q + 1, r);
  }

  /** Masking with Capacity - 1 is the remainder by Capacity, so it gives the slot of the ticket. */
  lemma IndexIsSlot(pos: nat, cap: Capacity)
    ensures Index(pos, cap) == Slot(pos, cap) == pos % cap
  {
    var k := SingleBitIsPow2(cap);
    OnesIsPow2(k);
    AndLow(pos, k);
    LowIsRemainder(pos, k);
    SlotIsRemainder(pos, cap);
  }

  lemma SlotPeriod(t: int, cap: nat)
    requires cap >= 1
    ensures Slot(t + cap, cap) == Slot(t, cap)
  {
  }

  /** Any Capacity consecutive tickets use distinct slots. */
  lemma SlotsDistinct(a: int, b: int, cap: nat)
    requires cap >= 1
    requires a < b + cap && b < a + cap
    ensures Slot(a, cap) == Slot(b, cap) <==> a == b
  {
    SlotIsRemainder(a, cap);
    SlotIsRemainder(b, cap);
    if a % cap == b % cap {
      SameRemainder(a, b, cap);
    }
  }

  lemma SameRemainder(a: int, b: int, m: nat)
    requires m >= 1 && a % m == b % m && a < b + m && b < a + m
    ensures a == b
  {
    assert a - b == m * (a / m - b / m);
    SmallMultiple(a / m - b / m, m);
  }

  /** Within Capacity of ticket t no other ticket uses its slot. */
  lemma OtherSlots(cap: Capacity, t: int)
    ensures forall u {:trigger Slot(u, cap)} :: u < t + cap && t < u + cap && u != t ==> Slot(u, cap) != Slot(t, cap)
  {
    forall u | u < t + cap && t < u + cap && u != t ensures Slot(u, cap) != Slot(t, cap) {
      SlotsDistinct(u, t, cap);
    }
  }

  /** Every window of Capacity tickets meets every slot. */
  lemma {:induction false} SlotInWindow(t: int, lo: int, cap: nat) returns (w: int)
    requires cap >= 1
    ensures lo <= w < lo + cap && Slot(w, cap) == Slot(t, cap)
    ensures t < lo ==> w > t
    decreases if t < lo then lo - t + cap else t - lo
  {
    if t < lo {
      w := SlotInWindow(t + cap, lo, cap);
      SlotPeriod(t, cap);
    } else if t >= lo + cap {
      w := SlotInWindow(t - cap, lo, cap);
      SlotPeriod(t - cap, cap);
    } else {
      w := t;
    }
  }

  // ---- Rounding a flush up to whole blocks ----

  /** `~m` in a word of w bits. */
  function Complement(m: nat, w: nat): (r: nat)
    requires m < Pow2(w)
  {
    Pow2(w) - 1 - m
  }

  /** `(x + a - 1) & ~(a - 1)` in a word of w bits */
  function AlignUp(x: nat, a: Capacity, w: nat): (r: nat)
    requires a <= Pow2(w)
  {
    And(x + a - 1, Complement(a - 1, w))
  }

  lemma Pow2Monotone(j: nat, k: nat)
    requires j <= k
    ensures Pow2(j) <= Pow2(k)
    decreases k
  {
    if j < k {
      Pow2Monotone(j, k - 1);
    }
  }

  lemma {:induction false} LowOfSmall(x: nat, k: nat)
    requires x < Pow2(k)
    ensures Low(x, k) == x
  {
    if k > 0 {
      LowOfSmall(x / 2, k - 1);
    }
  }

  lemma {:induction false} AndHigh(x: nat, k: nat, w: nat)
    requires k <= w && x < Pow2(w)
    ensures And(x, HighOnes(k, w)) == x - Low(x, k)
    decreases w
  {
    if k == 0 {
      AndLow(x, w);
      LowOfSmall(x, w);
    } else {
      AndHigh(x / 2, k - 1, w - 1);
      AndEven(x, HighOnes(k - 1, w - 1));
    }
  }

  ghost predicate IsLeastMultiple(r: nat, a: nat, x: nat)
    requires a >= 1
  {
    r % a == 0 && x <= r < x + a && forall y: nat :: x <= y && y % a == 0 ==> r <= y
  }

  /** Rounding with the complemented mask gives the least multiple of a that is not below x. */
  lemma AlignUpLeast(x: nat, a: Capacity, w: nat)
    requires a <= Pow2(w) && x + a - 1 < Pow2(w)
    ensures IsLeastMultiple(AlignUp(x, a, w), a, x)
  {
    var r := AlignUp(x, a, w);
    assert r == x + a - 1 - (x + a - 1) % a by {
      var k := SingleBitIsPow2(a);
      AlignUpMasks(x + a - 1, k, w);
    }
    RoundedLeast(x, a, r);
  }

  /** ... so rounding stays below any multiple that bounds x. */
  lemma AlignUpBelow(x: nat, a: Capacity, w: nat, n: nat)
    requires a <= Pow2(w) && x + a - 1 < Pow2(w) && x <= n && n % a == 0
    ensures var r := AlignUp(x, a, w); x <= r <= n && r % a == 0 && r < x + a
  {
    AlignUpLeast(x, a, w);
    var r := AlignUp(x, a, w);
    assert IsLeastMultiple(r, a, x);
  }

  lemma AlignUpMasks(y: nat, k: nat, w: nat)
    requires Pow2(k) <= Pow2(w) && y < Pow2(w)
    ensures And(y, Complement(Pow2(k) - 1, w)) == y - y % Pow2(k)
  {
    if k > w {
      Pow2Monotone(w + 1, k);
    } else {
      HighOnesIsPow2(k, w);
      AndHigh(y, k, w);
      LowIsRemainder(y, k);
    }
  }

  lemma RoundedLeast(x: nat, a: nat, r: nat)
    requires a >= 1 && r == x + a - 1 - (x + a - 1) % a
    ensures IsLeastMultiple(r, a, x)
  {
    var q := (x + a - 1) / a;
    assert r == a * q + 0;
    DivModUnique(r, a, q, 0);
    forall y: nat | x <= y && y % a == 0 ensures r <= y {
      MultiplesApart(q, y / a, a, x);
    }
  }

  lemma MultiplesApart(q: int, d: int, a: nat, x: int)
    requires a >= 1 && a * q < x + a && x <= a * d
    ensures a * q <= a * d
  {
    var k := q - d;
    assert a * k == a * q - a * d;
    NotAbove(k, a);
  }

  lemma NotAbove(k: int, a: nat)
    requires a >= 1 && a * k < a
    ensures a * k <= 0
  {
    if k >= 1 {
      AtLeast(k, a);
      assert false;
    } else {
      NotPositive(k, a);
    }
  }

  lemma AtLeast(k: int, a: nat)
    requires k >= 1
    ensures a * k >= a
  {
    assert a * k == a * (k - 1) + a;
  }

  lemma NotPositive(k: int, a: nat)
    requires k <= 0
    ensures a * k <= 0
  {
  }
}
