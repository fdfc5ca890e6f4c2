/**
 Changing program while one is active: the remaining time is scaled so that its value in coins is
 kept, in the 64-bit and 32-bit arithmetic of the source.
 */
module ProgramSwitch {
  import opened Fsm

  const U32: int := 0x1_0000_0000
  const U64: int := 0x1_0000_0000_0000_0000

  /** `r` ms at newPrice per newDur are worth no more than `rem` ms at oldPrice per oldDur, and one
      millisecond more would be worth more. */
  ghost predicate KeepsValue(r: int, rem: int, newDur: int, oldPrice: int, oldDur: int, newPrice: int) {
    0 <= r && r * (oldDur * newPrice) <= rem * newDur * oldPrice < (r + 1) * (oldDur * newPrice)
  }

  lemma {:induction false} Multiples(a: nat, b: nat, y: nat)
    requires a <= b
    ensures a * y <= b * y
    decreases b - a
  {
    if a < b {
      Multiples(a, b - 1, y);
      assert b * y == (b - 1) * y + y;
    }
  }

  lemma FloorIsUnique(r: nat, x: nat, y: nat)
    requires y > 0
    ensures r * y <= x < (r + 1) * y <==> r == x / y
  {
    var q := x / y;
    assert x == y * q + x % y;
    assert q * y <= x < (q + 1) * y;
    if r < q {
      Multiples(r + 1, q, y);
    } else if q < r {
      Multiples(q + 1, r, y);
    }
  }

  lemma QuotientBelow(x: nat, y: nat, bound: nat)
    requires y > 0 && x < bound * y
    ensures x / y < bound
  {
    var q := x / y;
    assert q * y <= x by {
      FloorIsUnique(q, x, y);
    }
    if q >= bound {
      Multiples(bound, q, y);
    }
  }

  /** A dropped multiple of 2^64 always shows in the quotient, because the divisor is smaller. */
  lemma OverflowChangesQuotient(x: nat, y: nat)
    requires 0 < y < U64 && x >= U64
    ensures Wrap64(x) / y < x / y
  {
    var q := Wrap64(x) / y;
    FloorIsUnique(q, Wrap64(x), y);
    assert Wrap64(x) <= x - U64;
    assert (q + 1) * y == q * y + y;
    assert (q + 1) * y <= x;
    FloorIsUnique(x / y, x, y);
    if x / y < q + 1 {
      Multiples(x / y + 1, q + 1, y);
    }
  }

  lemma DivisorFits(oldDur: UInt32, newPrice: Int32)
    requires oldDur > 0 && newPrice > 0
    ensures 0 < oldDur * newPrice < U64
  {
    Multiples(oldDur, 0x1_0000_0000, newPrice);
    assert oldDur * newPrice <= 0x1_0000_0000 * newPrice;
    ScalePositive(oldDur, newPrice);
  }

  lemma ProductIsNat(a: nat, b: nat, c: nat)
    ensures a * b * c >= 0
  {
  }

  lemma ScaleExactIff(x: nat, y: nat)
    requires 0 < y < U64
    ensures Wrap(Wrap64(x) / y) == x / y <==> x < U64 && x / y < U32
  {
    var q := Wrap64(x) / y;
    assert q >= 0;
    assert Wrap(q) <= q;
    if x >= U64 {
      OverflowChangesQuotient(x, y);
    }
  }

  /** The switch keeps the value of the remaining time, losing less than one millisecond's worth,
      exactly when neither the 64-bit product nor the 32-bit result overflows. */
  lemma SwitchKeepsValueIff(rem: UInt32, newDur: UInt32, oldPrice: Int32, oldDur: UInt32, newPrice: Int32)
    requires oldDur > 0 && newPrice > 0 && oldPrice > 0
    ensures KeepsValue(ScaledRemainder(rem, newDur, oldPrice, oldDur, newPrice), rem, newDur, oldPrice, oldDur,
                       newPrice)
      <==> rem * newDur * oldPrice < U64 && rem * newDur * oldPrice / (oldDur * newPrice) < U32
  {
    DivisorFits(oldDur, newPrice);
    ProductIsNat(rem, newDur, oldPrice);
    var x: nat := rem * newDur * oldPrice;
    var y: nat := oldDur * newPrice;
    ScaleExactIff(x, y);
    FloorIsUnique(Wrap(Wrap64(x) / y), x, y);
  }

  /** Prices up to 655 coins and durations up to 6553.6 seconds never overflow. */
  lemma SwitchBounds(rem: UInt32, newDur: UInt32, oldPrice: Int32, oldDur: UInt32, newPrice: Int32)
    requires 0 < oldDur <= 6_553_600 && newDur <= 6_553_600 && rem <= oldDur
    requires 0 < oldPrice <= MAX_VEND_UNITS && newPrice > 0
    ensures KeepsValue(ScaledRemainder(rem, newDur, oldPrice, oldDur, newPrice), rem, newDur, oldPrice, oldDur,
                       newPrice)
    ensures ScaledRemainder(rem, newDur, oldPrice, oldDur, newPrice) <= newDur * oldPrice
  {
    var rate: nat := newDur * oldPrice;
    Multiples(newDur, 6_553_600, oldPrice);
    assert rate <= 4_292_608_000;
    ProductIsNat(rem, newDur, oldPrice);
    var x: nat := rem * newDur * oldPrice;
    assert x == rem * rate;
    Multiples(rem, 6_553_600, rate);
    assert x < U64;
    DivisorFits(oldDur, newPrice);
    Multiples(rem, oldDur, rate);
    Multiples(1, newPrice, oldDur);
    Multiples(oldDur, oldDur * newPrice, rate + 1);
    assert x <= oldDur * rate;
    assert oldDur * rate < oldDur * (rate + 1);
    QuotientBelow(x, oldDur * newPrice, rate + 1);
    SwitchKeepsValueIff(rem, newDur, oldPrice, oldDur, newPrice);
    ScaleExactIff(x, oldDur * newPrice);
  }

  /** Switching to a program of the same duration and price changes nothing, exactly when the 64-bit
      product does not overflow. */
  lemma SwitchToSameRate(rem: UInt32, dur: UInt32, price: Int32)
    requires dur > 0 && price > 0
    ensures ScaledRemainder(rem, dur, price, dur, price) == rem <==> rem * dur * price < U64
  {
    DivisorFits(dur, price);
    var y: nat := dur * price;
    var x: nat := rem * y;
    assert x == rem * dur * price;
    assert (rem + 1) * y == x + y;
    FloorIsUnique(rem, x, y);
    ScaleExactIff(x, y);
  }

  // ---------------------------------------------------------------- the event

  /** The remaining time before the switch, and the rates the scaling uses: a price that is not positive
      counts as 1. */
  function RemainingOf(g: Program): UInt32 {
    if g.target > g.elapsed then g.target - g.elapsed else 0
  }

  function RateOf(price: Int32): Int32 {
    if price > 0 then price else 1
  }

  /** Neither the product, nor the scaled remainder, nor the new target overflows. */
  ghost predicate SwitchFits(g: Program, e: Input)
    requires g.target > 0
  {
    var x := RemainingOf(g) * e.aux * RateOf(g.price);
    ScalePositive(g.target, RateOf(e.i32));
    x < U64 && g.elapsed + x / (g.target * RateOf(e.i32)) < U32
  }

  /** Storing elapsed + Wrap(q) in 32 bits gives q back exactly when the sum fits. */
  lemma StoredSumIff(elapsed: UInt32, q: nat)
    ensures Wrap(elapsed + Wrap(q)) - elapsed == q <==> elapsed + q < U32
  {
  }

  lemma StoredAtMost(elapsed: UInt32, q: nat)
    ensures Wrap(elapsed + Wrap(q)) - elapsed <= q
  {
  }

  /** The last two of the three wrapping operations, on a quotient that is right exactly when `fits`. */
  lemma StoredIff(elapsed: UInt32, q: nat, right: nat, fits: bool)
    requires if fits then q == right else q < right
    ensures Wrap(elapsed + Wrap(q)) - elapsed == right <==> fits && elapsed + right < U32
  {
    hide Wrap;
    StoredSumIff(elapsed, q);
    StoredAtMost(elapsed, q);
  }

  /** What the three wrapping operations leave of x / y: less than x / y as soon as one of them wraps. */
  lemma StoredQuotientIff(elapsed: UInt32, x: nat, y: nat)
    requires 0 < y < U64
    ensures Wrap(elapsed + Wrap(Wrap64(x) / y)) - elapsed == x / y <==> x < U64 && elapsed + x / y < U32
  {
    hide Wrap;
    if x >= U64 {
      hide Wrap64;
      OverflowChangesQuotient(x, y);
    }
    StoredIff(elapsed, Wrap64(x) / y, x / y, x < U64);
  }

  lemma KeepsValueIff(r: int, rem: nat, newDur: nat, oldPrice: nat, oldDur: nat, newPrice: nat)
    requires oldDur * newPrice > 0
    ensures KeepsValue(r, rem, newDur, oldPrice, oldDur, newPrice) <==>
      r == rem * newDur * oldPrice / (oldDur * newPrice)
  {
    ProductIsNat(rem, newDur, oldPrice);
    if r >= 0 {
      FloorIsUnique(r, rem * newDur * oldPrice, oldDur * newPrice);
    }
  }

  /** The switch event as a whole, for every active program with a positive target and every new duration:
      it ends in RUNNING, moves no money, and what remains to run keeps the value of what remained exactly
      when none of the three operations overflows. */
  lemma SwitchEvent(c: Ctx, e: Input)
    requires (c.state == Running || c.state == Paused) && c.program.target > 0 && e.aux > 0
    ensures var o := OnSwitch(c, e);
      && o.ctx.state == Running && o.ctx.purse == c.purse && o.ctx.session == c.session && o.calls == []
      && o.ctx.program.elapsed == c.program.elapsed
      && o.ctx.program.price == (if e.i32 > 0 then e.i32 else c.program.price)
      && (o.changed <==> c.state == Paused)
    ensures KeepsValue(OnSwitch(c, e).ctx.program.target - c.program.elapsed, RemainingOf(c.program), e.aux,
                       RateOf(c.program.price), c.program.target, RateOf(e.i32))
      <==> SwitchFits(c.program, e)
  {
    hide KeepsValue;
    var g := c.program;
    var rem, oldPrice, newPrice := RemainingOf(g), RateOf(g.price), RateOf(e.i32);
    DivisorFits(g.target, newPrice);
    ProductIsNat(rem, e.aux, oldPrice);
    var x: nat := rem * e.aux * oldPrice;
    var y: nat := g.target * newPrice;
    var r := OnSwitch(c, e).ctx.program.target - g.elapsed;
    assert r == Wrap(g.elapsed + Wrap(Wrap64(x) / y)) - g.elapsed;
    StoredQuotientIff(g.elapsed, x, y);
    KeepsValueIff(r, rem, e.aux, oldPrice, g.target, newPrice);
  }

  /** A 64-bit product and a 32-bit remainder that both fit are not enough: the sum with the elapsed time
      can still wrap, and then the program ends up with less than no time left. */
  lemma SwitchWrapsTarget(c: Ctx, e: Input)
    requires c.state == Running && c.program.elapsed == 2_000_000_000 && c.program.target == 4_000_000_000
    requires c.program.price == 2 && e.aux == 4_200_000_000 && e.i32 == 1
    ensures ScaledRemainder(2_000_000_000, e.aux, 2, 4_000_000_000, 1) == 4_200_000_000
    ensures OnSwitch(c, e).ctx.program.target < c.program.elapsed
  {
  }

  /** With no duration given, or no target to scale from, the new duration is taken as it is. */
  lemma UnscaledSwitch(c: Ctx, e: Input)
    requires (c.state == Running || c.state == Paused) && (c.program.target == 0 || e.aux == 0)
    ensures OnSwitch(c, e).ctx.program.target - c.program.elapsed == e.aux <==> c.program.elapsed + e.aux < U32
  {
  }

  /** A larger divisor gives no larger quotient. */
  lemma LargerDivisor(x: nat, y: nat, factor: nat)
    requires y > 0 && factor > 0
    ensures y * factor > 0 && x / (y * factor) <= x / y
  {
    var q := x / y;
    FloorIsUnique(q, x, y);
    Multiples(1, factor, y);
    Multiples(y, y * factor, q + 1);
    QuotientBelow(x, y * factor, q + 1);
  }

  lemma OneMoreTime(a: nat, y: nat)
    ensures (a + 1) * y == a * y + y
  {
  }

  lemma {:induction false} Shift(a: nat, b: nat, k: nat)
    requires k <= b <= a
    ensures a * (b - k) <= (a - k) * b
    decreases k
  {
    if k > 0 {
      Shift(a, b, k - 1);
      assert a * (b - (k - 1)) == a * (b - k) + a;
      OneMoreTime(a - k, b);
    }
  }

  /** What has elapsed and what is left at any rate up to X per target is never more than the larger of
      the two. */
  lemma ElapsedAndScaled(elapsed: nat, target: nat, rate: nat)
    requires 0 < target && elapsed <= target
    ensures (target - elapsed) * rate / target + elapsed <= if rate > target then rate else target
  {
    var most: nat := if rate > target then rate else target;
    Multiples(rate, most, target - elapsed);
    Shift(most, target, elapsed);
    OneMoreTime(most - elapsed, target);
    QuotientBelow((target - elapsed) * rate, target, most - elapsed + 1);
  }

  /** Prices up to 655 coins and durations up to 6553.6 seconds always fit, whatever has elapsed and
      whatever the new price is. */
  lemma SwitchBoundsFit(g: Program, e: Input)
    requires 0 < g.target <= 6_553_600 && e.aux <= 6_553_600 && g.price <= MAX_VEND_UNITS
    ensures SwitchFits(g, e)
  {
    var rem, newPrice := RemainingOf(g), RateOf(e.i32);
    var rate: nat := e.aux * RateOf(g.price);
    Multiples(e.aux, 6_553_600, RateOf(g.price));
    assert rate <= 4_292_608_000;
    var x := rem * e.aux * RateOf(g.price);
    assert x == rem * rate;
    Multiples(rem, 6_553_600, rate);
    LargerDivisor(x, g.target, newPrice);
    if g.elapsed <= g.target {
      ElapsedAndScaled(g.elapsed, g.target, rate);
    }
  }

  lemma QuotientAtFactor(r: nat, x: nat, y: nat, factor: nat)
    requires y > 0 && factor > 0 && r * y <= x < (r + 1) * y
    ensures r * (y * factor) <= x < (r + 1) * (y * factor) <==> factor == 1 || x < y
  {
    var once: nat := r * y;
    OneMoreTime(r, y);
    Multiples(1, factor, y);
    if r > 0 {
      Multiples(1, r, y);
      if factor > 1 {
        Multiples(2, factor, y);
        Multiples(2 * y, y * factor, r);
        assert 2 * y * r == once + once;
        assert y * factor * r == r * (y * factor);
      }
    }
  }

  lemma QuotientAtPrice(r: int, rem: nat, newDur: nat, price: nat, oldDur: nat)
    requires KeepsValue(r, rem, newDur, price, oldDur, 1) && price > 0 && oldDur > 0
    ensures KeepsValue(r, rem, newDur, price, oldDur, price) <==> price == 1 || rem * newDur * price < oldDur
  {
    ProductIsNat(rem, newDur, price);
    QuotientAtFactor(r, rem * newDur * price, oldDur, price);
  }

  /** A switch that names no price scales as if the new price were 1 but keeps charging the old one: at
      that price the value is kept exactly when the price is 1 or too little is left to make a
      millisecond. */
  lemma SwitchWithoutPrice(c: Ctx, e: Input)
    requires (c.state == Running || c.state == Paused) && c.program.target > 0 && e.aux > 0
    requires e.i32 <= 0 && c.program.price > 0 && SwitchFits(c.program, e)
    ensures var g := c.program; var r := OnSwitch(c, e).ctx.program.target - g.elapsed;
      && OnSwitch(c, e).ctx.program.price == g.price
      && (KeepsValue(r, RemainingOf(g), e.aux, g.price, g.target, g.price) <==>
          g.price == 1 || RemainingOf(g) * e.aux * g.price < g.target)
  {
    hide KeepsValue, OnSwitch, SwitchFits;
    var g := c.program;
    SwitchEvent(c, e);
    var r := OnSwitch(c, e).ctx.program.target - g.elapsed;
    QuotientAtPrice(r, RemainingOf(g), e.aux, g.price, g.target);
  }

  /** From one minute at 2 coins, just started, to a free program of one minute: two minutes are left,
      and a renewal still costs 2 coins. */
  lemma FreeSwitchDoubles(c: Ctx, e: Input)
    requires c.state == Running && c.program.elapsed == 0 && c.program.target == 60_000 && c.program.price == 2
    requires e.i32 == 0 && e.aux == 60_000
    ensures OnSwitch(c, e).ctx.program.target == 120_000 && OnSwitch(c, e).ctx.program.price == 2
    ensures !KeepsValue(OnSwitch(c, e).ctx.program.target, 60_000, e.aux, 2, 60_000, 2)
  {
  }
}
