/** Wrap-around index arithmetic shared by the gallery lightbox, the 3D menu
    pager and the hero carousel: each steps an index with `(i + 1) % n` or
    `(i - 1 + n) % n`, where `%` is JavaScript's remainder operator. */
module Cyclic {

  /** JavaScript's `a % n` for a positive divisor: the remainder truncates
      toward zero, so it takes the sign of `a` (Dafny's own `%` never returns
      a negative value). */
  function JsRem(a: int, n: int): (r: int)
    requires n > 0
    ensures a >= 0 ==> 0 <= r < n
    ensures a < 0 ==> -n < r <= 0
  {
    if a >= 0 then a % n else -((-a) % n)
  }

  /** Near zero the remainder is the dividend itself, and between `n` and
      `2 * n` it wraps exactly once. */
  lemma JsRemNear(a: int, n: int)
    requires n > 0 && -n < a < 2 * n
    ensures JsRem(a, n) == if a < n then a else a - n
  {
    if a < 0 {
      SmallRemainder(-a, n);
    } else if a < n {
      SmallRemainder(a, n);
    } else {
      SmallRemainder(a - n, n);
      assert a % n == (a - n) % n;
    }
  }

  /** A dividend below the divisor is its own remainder. */
  lemma SmallRemainder(a: int, n: int)
    requires 0 <= a < n
    ensures a % n == a
  {
  }

  /** `(i + 1) % n`: one step forward; from any index at or above -1 it
      lands in `[0, n)`. */
  function Next(i: int, n: int): (r: int)
    requires n > 0
    ensures i >= -1 ==> 0 <= r < n
  {
    JsRem(i + 1, n)
  }

  /** `(i - 1 + n) % n`: one step back; from any index at or above 0 it lands
      in `[0, n)`. */
  function Prev(i: int, n: int): (r: int)
    requires n > 0
    ensures i >= 0 ==> 0 <= r < n
  {
    JsRem(i - 1 + n, n)
  }

  /** The pager buttons' direction: `'next'` is `Forward`, `'prev'` is
      `Backward`. */
  datatype Direction = Backward | Forward

  /** One step in `direction`. */
  function Step(i: int, direction: Direction, n: int): (r: int)
    requires n > 0
    ensures i >= -1 ==> 0 <= r < n
  {
    if direction == Forward then Next(i, n) else Prev(i, n)
  }

  /** A forward step moves to the following index, wrapping from the last
      one to 0; from the out-of-range index -1 it goes to 0. */
  lemma NextStep(i: int, n: int)
    requires n > 0 && -1 <= i < n
    ensures Next(i, n) == if i == n - 1 then 0 else i + 1
  {
    JsRemNear(i + 1, n);
  }

  /** A backward step moves to the preceding index, wrapping from 0 to the
      last one. From the out-of-range index -1 it lands on `n - 2`, or on 0
      when `n` is 1 (where JavaScript computes -0). */
  lemma PrevStep(i: int, n: int)
    requires n > 0 && -1 <= i < n
    ensures Prev(i, n) == if i == 0 then n - 1 else if i > 0 then i - 1
                          else if n >= 2 then n - 2 else 0
  {
    if i == -1 && n == 1 {
      assert JsRem(-1, 1) == 0;
    } else {
      JsRemNear(i - 1 + n, n);
    }
  }

  /** Stepping back undoes stepping forward. */
  lemma PrevAfterNext(i: int, n: int)
    requires 0 <= i < n
    ensures Prev(Next(i, n), n) == i
  {
    NextStep(i, n);
    PrevStep(Next(i, n), n);
  }

  /** Stepping forward undoes stepping back. */
  lemma NextAfterPrev(i: int, n: int)
    requires 0 <= i < n
    ensures Next(Prev(i, n), n) == i
  {
    PrevStep(i, n);
    NextStep(Prev(i, n), n);
  }

  /** A step in one direction is undone by a step in the other. */
  lemma StepRoundTrip(i: int, direction: Direction, n: int)
    requires 0 <= i < n
    ensures Step(Step(i, direction, n), if direction == Forward then Backward else Forward, n) == i
  {
    if direction == Forward {
      PrevAfterNext(i, n);
    } else {
      NextAfterPrev(i, n);
    }
  }

  /** `k` forward steps from `i`. */
  function Advance(i: int, k: nat, n: int): (r: int)
    requires 0 <= i < n
    ensures 0 <= r < n
  {
    if k == 0 then i else Next(Advance(i, k - 1, n), n)
  }

  /** Up to a full turn, `k` forward steps add `k` and wrap once past `n`. */
  lemma {:induction false} AdvanceWithinTurn(i: int, k: nat, n: int)
    requires 0 <= i < n && k <= n
    ensures Advance(i, k, n) == if i + k < n then i + k else i + k - n
  {
    if k > 0 {
      AdvanceWithinTurn(i, k - 1, n);
      NextStep(Advance(i, k - 1, n), n);
    }
  }

  /** `n` forward steps bring every index back to where it started. */
  lemma FullTurn(i: int, n: int)
    requires 0 <= i < n
    ensures Advance(i, n, n) == i
  {
    AdvanceWithinTurn(i, n, n);
  }
}
