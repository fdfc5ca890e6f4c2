/**
 What time alone does: a program always ends, and a program paid from coins or QR credit renews
 itself exactly as often as the credit allows.
 */
module FsmTicks {
  import opened Fsm
  import opened FsmSafety

  ghost predicate TicksWithin(dts: seq<UInt32>, d: nat) {
    forall i :: 0 <= i < |dts| ==> 1 <= dts[i] <= d
  }

  /** Ticks up to and including the one that ends the program. */
  function TickRun(c: Ctx, dts: seq<UInt32>, percent: nat): Ctx
    decreases |dts|
  {
    if dts == [] || !Active(c) then c else TickRun(Tick(c, dts[0], percent).ctx, dts[1..], percent)
  }

  predicate CycleOver(c: Ctx, dt: UInt32, percent: nat) {
    c.state == Running && c.program.target > 0 && Advance(c.program, dt, percent).elapsed >= c.program.target
  }

  /** The context in which the end of the cycle is handled. */
  function AtCycleEnd(c: Ctx, dt: UInt32, percent: nat): Ctx {
    Idling(c, dt).(program := Advance(c.program, dt, percent))
  }

  predicate Renews(c: Ctx, dt: UInt32, percent: nat) {
    CycleOver(c, dt, percent) && AutoRenew(AtCycleEnd(c, dt, percent)).1
  }

  function Renewals(c: Ctx, dts: seq<UInt32>, percent: nat): nat
    decreases |dts|
  {
    if dts == [] || !Active(c) then 0
    else (if Renews(c, dts[0], percent) then 1 else 0) + Renewals(Tick(c, dts[0], percent).ctx, dts[1..], percent)
  }

  /** No 32-bit timer in use can step over its limit when ticks are at most `d` ms. */
  predicate Certain(c: Ctx, d: nat) {
    && c.program.target + d <= 0x1_0000_0000
    && (c.state == Paused ==> c.program.pauseMax + d <= 0x1_0000_0000)
  }

  /** How many steps a timer can take before its limit is noticed. */
  function StepsLeft(timer: UInt32, limit: UInt32): nat {
    if timer < limit then 1 + limit - timer else limit + 2
  }

  /** An upper bound on the number of ticks an active program still takes. */
  function Rank(c: Ctx): int {
    (if c.state == Paused then StepsLeft(c.program.pauseElapsed, c.program.pauseMax) else 0)
    + StepsLeft(c.program.elapsed, c.program.target)
    + Held(c.purse) * (c.program.target + 3)
  }

  // ---------------------------------------------------------------- one tick

  /** A tick that does not end the cycle only moves the clocks. */
  lemma QuietTick(c: Ctx, dt: UInt32, percent: nat)
    requires Inv(c) && c.state == Running && !CycleOver(c, dt, percent)
    ensures var n := Tick(c, dt, percent).ctx;
      n.state == Running && n.purse == c.purse && n.session == c.session
      && n.program == Advance(c.program, dt, percent)
  {
  }

  lemma PausedTick(c: Ctx, dt: UInt32, percent: nat)
    requires Inv(c) && c.state == Paused
    ensures var n := Tick(c, dt, percent).ctx; var waited := Wrap(c.program.pauseElapsed + dt);
      && n.purse == c.purse && n.session == c.session
      && n.state == (if waited >= c.program.pauseMax then Running else Paused)
      && n.program == c.program.(running := n.program.running,
                                 pauseElapsed := if n.state == Running then 0 else waited)
  {
  }

  lemma EndTick(c: Ctx, dt: UInt32, percent: nat)
    requires Inv(c) && CycleOver(c, dt, percent)
    ensures Tick(c, dt, percent) == CycleEnd(AtCycleEnd(c, dt, percent))
    ensures Inv(AtCycleEnd(c, dt, percent))
    ensures AtCycleEnd(c, dt, percent).purse == c.purse && AtCycleEnd(c, dt, percent).session == c.session
  {
  }

  lemma RenewedTick(c: Ctx, dt: UInt32, percent: nat)
    requires Inv(c) && Renews(c, dt, percent)
    ensures var n := Tick(c, dt, percent).ctx;
      && n.state == Running && n.session == c.session
      && n.program.target == c.program.target && n.program.price == c.program.price
      && n.program.pauseMax == c.program.pauseMax && n.program.stopAfter == c.program.stopAfter
      && n.program.elapsed == 0 && n.program.pauseElapsed == 0
      && 0 < c.program.price <= c.purse.totals.credit
      && n.purse == Charge(c.purse, c.program.price).0 && Charge(c.purse, c.program.price).1
  {
    EndTick(c, dt, percent);
    ChargeExact(c.purse, c.program.price);
  }

  /** When the cycle ends without renewal the program is left, with the credit as it stands. */
  lemma LastTick(c: Ctx, dt: UInt32, percent: nat)
    requires Inv(c) && CycleOver(c, dt, percent) && !Renews(c, dt, percent)
    ensures !Active(Tick(c, dt, percent).ctx)
    ensures Balanced(c.purse) ==> Tick(c, dt, percent).ctx.purse.totals.credit == c.purse.totals.credit
    ensures Balanced(c.purse) && Renewable(c) ==> c.purse.totals.credit < c.program.price
    ensures Tick(c, dt, percent).ctx.purse.ledger == c.purse.ledger
    ensures Balanced(c.purse) && c.session.source != FromCard ==>
      Tick(c, dt, percent).ctx.state == if c.purse.totals.credit > 0 then Credit else RestState(c)
  {
    EndTick(c, dt, percent);
    ChargeExact(c.purse, c.program.price);
  }

  // ---------------------------------------------------------------- termination

  lemma HeldTimes(held: nat, price: nat, t: nat)
    requires 1 <= price <= held
    ensures (held - price) * t + t <= held * t
  {
    assert (held - price) * t + price * t == held * t;
    assert t <= price * t;
  }

  lemma WrapsOnce(timer: UInt32, dt: UInt32)
    requires timer + dt >= 0x1_0000_0000
    ensures Wrap(timer + dt) == timer + dt - 0x1_0000_0000
  {
  }

  /** A step that does not bring a timer to its limit leaves fewer steps. */
  lemma StepLeaves(timer: UInt32, limit: UInt32, dt: UInt32)
    requires 1 <= dt && limit + dt <= 0x1_0000_0000 && Wrap(timer + dt) < limit
    ensures StepsLeft(Wrap(timer + dt), limit) < StepsLeft(timer, limit)
  {
    if timer + dt >= 0x1_0000_0000 {
      WrapsOnce(timer, dt);
    }
  }

  /** Closer to the end, which is still certain. */
  ghost predicate Progress(c: Ctx, n: Ctx, d: nat) {
    n.program.target == c.program.target && Certain(n, d) && Rank(n) < Rank(c)
  }

  lemma AtLeastOneStep(timer: UInt32, limit: UInt32)
    ensures 2 <= StepsLeft(timer, limit)
    ensures limit > 0 ==> StepsLeft(0, limit) == limit + 1
  {
  }

  lemma PausedProgress(c: Ctx, dt: UInt32, percent: nat, d: nat)
    requires Inv(c) && c.state == Paused && 1 <= dt <= d && Certain(c, d)
    ensures Progress(c, Tick(c, dt, percent).ctx, d)
  {
    hide Tick, StepsLeft;
    var n := Tick(c, dt, percent).ctx;
    PausedTick(c, dt, percent);
    if n.state == Paused {
      StepLeaves(c.program.pauseElapsed, c.program.pauseMax, dt);
    } else {
      AtLeastOneStep(c.program.pauseElapsed, c.program.pauseMax);
    }
  }

  lemma QuietProgress(c: Ctx, dt: UInt32, percent: nat, d: nat)
    requires Inv(c) && c.state == Running && c.program.target > 0 && !CycleOver(c, dt, percent)
    requires 1 <= dt <= d && Certain(c, d)
    ensures Progress(c, Tick(c, dt, percent).ctx, d)
  {
    hide Tick, StepsLeft;
    QuietTick(c, dt, percent);
    StepLeaves(c.program.elapsed, c.program.target, dt);
  }

  lemma RenewedProgress(c: Ctx, dt: UInt32, percent: nat, d: nat)
    requires Inv(c) && Renews(c, dt, percent) && Certain(c, d)
    ensures Progress(c, Tick(c, dt, percent).ctx, d)
  {
    hide Tick, StepsLeft;
    RenewedTick(c, dt, percent);
    ChargeExact(c.purse, c.program.price);
    HeldTimes(Held(c.purse), c.program.price, c.program.target + 3);
    AtLeastOneStep(c.program.elapsed, c.program.target);
  }

  /** Every tick of an active program whose end is certain either leaves it or brings it closer to its
      end, which stays certain. */
  lemma TickMakesProgress(c: Ctx, dt: UInt32, percent: nat, d: nat)
    requires Inv(c) && Active(c) && c.program.target > 0
    requires 1 <= dt <= d && Certain(c, d)
    ensures Active(Tick(c, dt, percent).ctx) ==> Progress(c, Tick(c, dt, percent).ctx, d)
  {
    hide Tick, Progress, Certain;
    if c.state == Paused {
      PausedProgress(c, dt, percent, d);
    } else if !CycleOver(c, dt, percent) {
      QuietProgress(c, dt, percent, d);
    } else if Renews(c, dt, percent) {
      RenewedProgress(c, dt, percent, d);
    } else {
      LastTick(c, dt, percent);
    }
  }

  lemma RankIsPositive(c: Ctx)
    requires Inv(c)
    ensures Rank(c) >= 1
  {
    hide HandshakeOk, ControlOk, Conserved;
    assert Held(c.purse) * (c.program.target + 3) >= 0;
  }

  /** Ticks alone end an active program whose end is certain, within Rank(c) ticks. */
  lemma {:induction false} TicksEndProgram(c: Ctx, dts: seq<UInt32>, percent: nat, d: nat)
    requires Inv(c) && Active(c) && c.program.target > 0
    requires TicksWithin(dts, d) && Certain(c, d)
    requires |dts| >= Rank(c)
    ensures !Active(TickRun(c, dts, percent))
    decreases |dts|
  {
    hide Rank, Tick, Certain, Inv;
    RankIsPositive(c);
    var n := Tick(c, dts[0], percent).ctx;
    TickKeeps(c, dts[0], percent);
    TickMakesProgress(c, dts[0], percent, d);
    if Active(n) {
      TicksEndProgram(n, dts[1..], percent, d);
    }
  }

  // ---------------------------------------------------------------- renewals

  /** The credit no longer covers the price, and the state says whether any is left. */
  ghost predicate Exhausted(c: Ctx, n: Ctx) {
    && 0 <= n.purse.totals.credit < c.program.price
    && n.state == if n.purse.totals.credit > 0 then Credit else RestState(c)
  }

  /** A tick of a renewable program: the price is paid exactly when it renews, and the program is left
      only when the credit no longer covers it. */
  lemma RenewableTick(c: Ctx, dt: UInt32, percent: nat)
    requires Inv(c) && Balanced(c.purse) && Active(c) && Renewable(c)
    ensures var n := Tick(c, dt, percent).ctx;
      && n.purse.totals.credit + (if Renews(c, dt, percent) then c.program.price else 0) == c.purse.totals.credit
      && n.purse.ledger.charged == c.purse.ledger.charged + (if Renews(c, dt, percent) then c.program.price else 0)
      && (Active(n) ==> Renewable(n) && n.program.price == c.program.price && n.settings == c.settings)
      && (!Active(n) ==> Exhausted(c, n))
  {
    if c.state == Paused {
      PausedTick(c, dt, percent);
    } else if !CycleOver(c, dt, percent) {
      QuietTick(c, dt, percent);
    } else if Renews(c, dt, percent) {
      RenewedTick(c, dt, percent);
      ChargeExact(c.purse, c.program.price);
    } else {
      LastTick(c, dt, percent);
    }
  }

  function CreditOf(c: Ctx): int {
    c.purse.totals.credit
  }

  /** Renewals account for all credit spent, and an ended program no longer affords its price. */
  ghost predicate Settles(c: Ctx, end: Ctx, renewals: nat) {
    && CreditOf(end) + renewals * c.program.price == CreditOf(c)
    && (!Active(end) ==> Exhausted(c, end))
  }

  lemma OneMore(k: nat, price: int)
    ensures (1 + k) * price == price + k * price
  {
  }

  lemma SettlesFrom(c: Ctx, n: Ctx, end: Ctx, k: nat, renewed: bool)
    requires CreditOf(n) + (if renewed then c.program.price else 0) == CreditOf(c)
    requires if Active(n)
      then n.program.price == c.program.price && n.settings == c.settings && Settles(n, end, k)
      else end == n && k == 0 && Exhausted(c, n)
    ensures Settles(c, end, (if renewed then 1 else 0) + k)
  {
    OneMore(k, c.program.price);
  }

  lemma FirstTick(c: Ctx, dts: seq<UInt32>, percent: nat)
    requires dts != [] && Active(c)
    ensures TickRun(c, dts, percent) == TickRun(Tick(c, dts[0], percent).ctx, dts[1..], percent)
    ensures Renewals(c, dts, percent) ==
      (if Renews(c, dts[0], percent) then 1 else 0) + Renewals(Tick(c, dts[0], percent).ctx, dts[1..], percent)
  {
  }

  lemma {:induction false} RenewalsSpend(c: Ctx, dts: seq<UInt32>, percent: nat)
    requires Inv(c) && Balanced(c.purse) && Active(c) && Renewable(c)
    ensures Settles(c, TickRun(c, dts, percent), Renewals(c, dts, percent))
    decreases |dts|
  {
    hide Inv, Tick, Renews, Renewable, Balanced, Exhausted;
    if dts == [] {
      assert Renewals(c, dts, percent) == 0 && TickRun(c, dts, percent) == c;
    } else {
      var n := Tick(c, dts[0], percent).ctx;
      RenewableTick(c, dts[0], percent);
      TickKeeps(c, dts[0], percent);
      if Active(n) {
        RenewalsSpend(n, dts[1..], percent);
      }
      FirstTick(c, dts, percent);
      SettlesFrom(c, n, TickRun(n, dts[1..], percent), Renewals(n, dts[1..], percent), Renews(c, dts[0], percent));
    }
  }

  lemma {:induction false} TimesGap(k: nat, q: nat, price: nat)
    requires k < q
    ensures k * price + price <= q * price
    decreases q - k
  {
    OneMore(q - 1, price);
    if k < q - 1 {
      TimesGap(k, q - 1, price);
    }
  }

  lemma QuotientAndRemainder(credit: nat, k: nat, rest: nat, price: nat)
    requires rest + k * price == credit && rest < price
    ensures k == credit / price && rest == credit % price
  {
    var q := credit / price;
    assert credit == price * q + credit % price;
    if k < q {
      TimesGap(k, q, price);
    } else if q < k {
      TimesGap(q, k, price);
    }
  }

  /** A program of price p > 0 started with coins or QR credit and left alone until it ends, with C coins
      remaining at first, renews exactly C div p times and is left with C mod p coins: in CREDIT if any
      remain, at rest otherwise. */
  lemma RenewsExactlyWhatCreditAllows(c: Ctx, dts: seq<UInt32>, percent: nat)
    requires Inv(c) && Balanced(c.purse) && Active(c) && Renewable(c)
    requires !Active(TickRun(c, dts, percent))
    ensures Renewals(c, dts, percent) == c.purse.totals.credit / c.program.price
    ensures TickRun(c, dts, percent).purse.totals.credit == c.purse.totals.credit % c.program.price
    ensures TickRun(c, dts, percent).state ==
      if c.purse.totals.credit % c.program.price > 0 then Credit else RestState(c)
  {
    RenewalsSpend(c, dts, percent);
    QuotientAndRemainder(c.purse.totals.credit, Renewals(c, dts, percent),
                         TickRun(c, dts, percent).purse.totals.credit, c.program.price);
  }

  /** A card session, a requested stop or a free program never renews, and no money moves. */
  lemma {:induction false} OthersNeverRenew(c: Ctx, dts: seq<UInt32>, percent: nat)
    requires Inv(c) && Active(c) && !Renewable(c)
    ensures Renewals(c, dts, percent) == 0
    ensures TickRun(c, dts, percent).purse.ledger == c.purse.ledger
    decreases |dts|
  {
    if dts != [] {
      var n := Tick(c, dts[0], percent).ctx;
      if c.state == Paused {
        PausedTick(c, dts[0], percent);
      } else if !CycleOver(c, dts[0], percent) {
        QuietTick(c, dts[0], percent);
      } else {
        LastTick(c, dts[0], percent);
      }
      TickKeeps(c, dts[0], percent);
      FirstTick(c, dts, percent);
      if Active(n) {
        OthersNeverRenew(n, dts[1..], percent);
      }
    }
  }

  // ---------------------------------------------------------------- when a timer wraps

  lemma AdvanceCounts(g: Program, dt: UInt32, percent: nat)
    ensures Advance(g, dt, percent).elapsed == Wrap(g.elapsed + dt)
  {
    hide PreFineReached, Wrap;
  }

  /** A tick that brings the true elapsed time to the target ends the cycle exactly when the 32-bit sum
      does not wrap. */
  lemma EndNoticedIff(c: Ctx, dt: UInt32, percent: nat)
    requires c.state == Running && c.program.elapsed < c.program.target <= c.program.elapsed + dt
    ensures CycleOver(c, dt, percent) <==> c.program.elapsed + dt < 0x1_0000_0000
  {
    hide Advance;
    AdvanceCounts(c.program, dt, percent);
    if c.program.elapsed + dt >= 0x1_0000_0000 {
      WrapsOnce(c.program.elapsed, dt);
    }
  }

  /** A step that takes a timer past its limit unnoticed, or not yet to it. */
  function Dodge(timer: UInt32, limit: UInt32): int {
    if timer + 1 < limit then 1 else 0x1_0000_0000 - timer
  }

  lemma Dodges(timer: UInt32, limit: UInt32, d: UInt32)
    requires limit + d > 0x1_0000_0000
    ensures 1 <= Dodge(timer, limit) <= d && Wrap(timer + Dodge(timer, limit)) < limit
  {
  }

  /** One tick after which an active program whose end is not certain is still active and still not
      certain to end. */
  lemma UncertainTick(c: Ctx, percent: nat, d: UInt32) returns (dt: UInt32)
    requires Inv(c) && Active(c) && c.program.target > 0 && 1 <= d && !Certain(c, d)
    ensures 1 <= dt <= d
    ensures var n := Tick(c, dt, percent).ctx;
      Inv(n) && Active(n) && n.program.target > 0 && !Certain(n, d)
  {
    hide Tick, Inv;
    var g := c.program;
    if c.state == Paused {
      if g.target + d > 0x1_0000_0000 {
        dt := 1;
      } else {
        Dodges(g.pauseElapsed, g.pauseMax, d);
        dt := Dodge(g.pauseElapsed, g.pauseMax);
      }
      PausedTick(c, dt, percent);
    } else {
      Dodges(g.elapsed, g.target, d);
      dt := Dodge(g.elapsed, g.target);
      QuietTick(c, dt, percent);
    }
    TickKeeps(c, dt, percent);
  }

  /** Such a program can go on for any number of ticks. */
  lemma {:induction false} CanRunOn(c: Ctx, n: nat, percent: nat, d: UInt32) returns (dts: seq<UInt32>)
    requires Inv(c) && Active(c) && c.program.target > 0 && 1 <= d && !Certain(c, d)
    ensures |dts| == n && TicksWithin(dts, d) && Active(TickRun(c, dts, percent))
    decreases n
  {
    hide Tick, Certain, Inv;
    if n == 0 {
      dts := [];
    } else {
      var dt := UncertainTick(c, percent, d);
      var rest := CanRunOn(Tick(c, dt, percent).ctx, n - 1, percent, d);
      dts := [dt] + rest;
      assert dts[1..] == rest;
    }
  }

  /** Some number of ticks always suffices. */
  ghost predicate EndsWithin(c: Ctx, bound: nat, percent: nat, d: nat) {
    forall dts :: TicksWithin(dts, d) && |dts| >= bound ==> !Active(TickRun(c, dts, percent))
  }

  /** Ticks of at most d ms are sure to end an active program, running or paused, if and only if its target
      and, during a pause, its pause limit are at most 2^32 - d. */
  lemma EndsIff(c: Ctx, percent: nat, d: UInt32)
    requires Inv(c) && Active(c) && c.program.target > 0 && 1 <= d
    ensures (exists bound :: EndsWithin(c, bound, percent, d)) <==>
      c.program.target + d <= 0x1_0000_0000 && (c.state == Paused ==> c.program.pauseMax + d <= 0x1_0000_0000)
  {
    hide Rank, Inv;
    if Certain(c, d) {
      RankIsPositive(c);
      forall dts: seq<UInt32> | TicksWithin(dts, d) && |dts| >= Rank(c) ensures !Active(TickRun(c, dts, percent)) {
        TicksEndProgram(c, dts, percent, d);
      }
      assert EndsWithin(c, Rank(c), percent, d);
    } else {
      forall bound: nat ensures !EndsWithin(c, bound, percent, d) {
        var dts := CanRunOn(c, bound, percent, d);
      }
    }
  }
}
