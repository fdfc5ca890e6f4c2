/**
 The clocks of the state machine over runs: when the choice of a program times out, and what a pause does to
 the time a program has run.
 */
module FsmTimers {
  import opened Fsm
  import opened FsmSafety
  import opened FsmTable

  // ---------------------------------------------------------------- the choice timeout

  /** A tick in CREDIT leaves CREDIT exactly when the idle time reaches the limit; otherwise it only counts. */
  lemma TickInCredit(c: Ctx, dt: UInt32, percent: nat)
    requires c.state == Credit
    ensures var n := Tick(c, dt, percent).ctx; var idle := IdleTime(c, dt);
      && (n.state != Credit <==> idle >= c.settings.splash)
      && (idle < c.settings.splash ==> n == c.(inactivity := idle))
  {
    hide HandleEvent, Idling, IdleTime;
    IdlingIs(c, dt);
    ProgramEvents(Idling(c, dt));
  }

  function Sum(dts: seq<UInt32>): nat {
    if dts == [] then 0 else dts[0] + Sum(dts[1..])
  }

  function TickAll(c: Ctx, dts: seq<UInt32>, percent: nat): Ctx
    decreases |dts|
  {
    if dts == [] then c else TickAll(Tick(c, dts[0], percent).ctx, dts[1..], percent)
  }

  /** The limit can be counted to: the ceiling above it does not wrap. */
  predicate LimitFits(c: Ctx) {
    c.settings.splash + 5000 < 0x1_0000_0000
  }

  lemma IdleBelow(c: Ctx, dt: UInt32)
    requires c.inactivity + dt < c.settings.splash
    ensures IdleTime(c, dt) <= c.inactivity + dt
    ensures LimitFits(c) ==> IdleTime(c, dt) == c.inactivity + dt
  {
  }

  /** Below the limit nothing happens, however many ticks there are: no money moves and the session goes on. */
  lemma {:induction false} BelowTheLimit(c: Ctx, dts: seq<UInt32>, percent: nat)
    requires c.state == Credit && c.inactivity + Sum(dts) < c.settings.splash
    ensures var n := TickAll(c, dts, percent);
      && n == c.(inactivity := n.inactivity) && n.inactivity <= c.inactivity + Sum(dts)
      && (LimitFits(c) ==> n.inactivity == c.inactivity + Sum(dts))
    decreases |dts|
  {
    hide Tick, IdleTime;
    if dts != [] {
      IdleBelow(c, dts[0]);
      TickInCredit(c, dts[0], percent);
      BelowTheLimit(Tick(c, dts[0], percent).ctx, dts[1..], percent);
    }
  }

  lemma IdleAtLimit(c: Ctx, dt: UInt32, counted: nat)
    requires c.inactivity <= counted < c.settings.splash <= counted + dt
    requires LimitFits(c) ==> c.inactivity == counted
    ensures IdleTime(c, dt) >= c.settings.splash <==> counted + dt < 0x1_0000_0000 && LimitFits(c)
  {
  }

  /** The tick that reaches the limit ends the choice, exactly unless a 32-bit sum wraps on the way. */
  lemma ChoiceEndsIff(c: Ctx, dts: seq<UInt32>, dt: UInt32, percent: nat)
    requires c.state == Credit
    requires c.inactivity + Sum(dts) < c.settings.splash <= c.inactivity + Sum(dts) + dt
    ensures Tick(TickAll(c, dts, percent), dt, percent).ctx.state != Credit <==>
      c.inactivity + Sum(dts) + dt < 0x1_0000_0000 && LimitFits(c)
  {
    hide Tick, IdleTime, Sum;
    BelowTheLimit(c, dts, percent);
    var n := TickAll(c, dts, percent);
    IdleAtLimit(n, dt, c.inactivity + Sum(dts));
    TickInCredit(n, dt, percent);
  }

  // ---------------------------------------------------------------- pauses

  /** A program that goes on: active before and after, not switched and no cycle ended. */
  ghost predicate GoesOn(c: Ctx, s: Step) {
    && Active(c) && Active(Apply(c, s).ctx)
    && !(s.In? && Meaning(s.e) == SwitchIn)
    && !(s.Ticking? && c.state == Running && 0 < c.program.target <= Passed(c.program.elapsed, s.dt))
  }

  /** The milliseconds a step adds to the time the program has run. */
  function RunTime(c: Ctx, s: Step): UInt32 {
    if s.Ticking? && c.state == Running then s.dt else 0
  }

  ghost predicate SameProgram(g: Program, h: Program) {
    g.target == h.target && g.price == h.price && g.pauseMax == h.pauseMax
  }

  lemma CountedSame(g: Program, dt: UInt32, percent: nat)
    ensures SameProgram(g, Counted(g, dt, percent)) && Passed(g.elapsed, 0) == g.elapsed
  {
    hide NearEnd;
  }

  lemma TickGoesOn(c: Ctx, dt: UInt32, percent: nat)
    requires GoesOn(c, Ticking(dt, percent)) && Inv(c)
    ensures var g := TickTable(c, dt, percent).program;
      SameProgram(c.program, g) && g.elapsed == Passed(c.program.elapsed, RunTime(c, Ticking(dt, percent)))
  {
    hide Apply, Inv, CycleTable, Counted, IdleTime;
    CountedKeeps(c.program, dt, percent);
    CountedSame(c.program, dt, percent);
  }

  /** The program of `t` is that of `c` with the same time run, if it is active at all. */
  ghost predicate Continues(c: Ctx, t: Control) {
    t.state == Running || t.state == Paused ==>
      SameProgram(c.program, t.program) && t.program.elapsed == c.program.elapsed
  }

  lemma PaymentsContinue(c: Ctx, e: Input, source: Source, cents: int, pay: Source)
    requires Active(c)
    ensures Continues(c, Stay(c)) && Continues(c, Opened(c, source))
    ensures Continues(c, Paid(Opened(c, source), cents, pay))
    ensures Continues(c, CardTable(c, e)) && Continues(c, QrTable(c, e)) && Continues(c, Scanned(c))
  {
  }

  lemma StopsContinue(c: Ctx, e: Input)
    requires Active(c)
    ensures Continues(c, Stopped(c)) && Continues(c, Ended(c, e)) && Continues(c, StopAsked(c))
  {
  }

  lemma KindsContinue(c: Ctx, e: Input, bus: Bus, kind: Kind)
    requires Active(c) && kind != SwitchIn
    ensures Continues(c, KindTable(c, e, bus, kind))
  {
    hide Opened, Paid, CardTable, QrTable, Scanned, Stopped, Ended, StopAsked;
    PaymentsContinue(c, e, FromTouch, 0, FromTouch);
    PaymentsContinue(c, e, FromKey, 0, FromKey);
    PaymentsContinue(c, e, FromCoin, e.i32, if kind == TokenIn && e.fromCctalk then FromCctalk else FromCoin);
    StopsContinue(c, e);
  }

  lemma InputGoesOn(c: Ctx, e: Input, bus: Bus)
    requires Active(c) && Meaning(e) != SwitchIn
    requires var t := InputTable(c, e, bus); t.state == Running || t.state == Paused
    ensures var g := InputTable(c, e, bus).program; SameProgram(c.program, g) && g.elapsed == c.program.elapsed
  {
    hide KindTable;
    KindsContinue(c, e, bus, Meaning(e));
  }

  lemma SameAsItself(g: Program)
    ensures SameProgram(g, g)
  {
  }

  /** Whatever happens while a program goes on, pauses and touches included: the time it has run grows by
      exactly the ticks taken in RUNNING, and target, price and pause limit stay. */
  lemma StepGoesOn(c: Ctx, s: Step)
    requires Inv(c) && GoesOn(c, s)
    ensures var g := Apply(c, s).ctx.program;
      SameProgram(c.program, g) && g.elapsed == Passed(c.program.elapsed, RunTime(c, s))
  {
    StepFollowsTable(c, s);
    hide Apply, Inv, InputTable, TickTable, SameProgram;
    CountedSame(c.program, 0, 0);
    match s
    case In(e, bus) => InputGoesOn(c, e, bus);
    case Ticking(dt, percent) => TickGoesOn(c, dt, percent);
    case TagGone => SameAsItself(c.program);
    case Retime(_) => SameAsItself(c.program);
  }

  ghost predicate AllGoOn(c: Ctx, steps: seq<Step>)
    decreases |steps|
  {
    steps != [] ==> GoesOn(c, steps[0]) && AllGoOn(Apply(c, steps[0]).ctx, steps[1..])
  }

  function TotalRunTime(c: Ctx, steps: seq<Step>): nat
    decreases |steps|
  {
    if steps == [] then 0 else RunTime(c, steps[0]) + TotalRunTime(Apply(c, steps[0]).ctx, steps[1..])
  }

  lemma WholeTurns(x: int, turns: int)
    ensures (x + 0x1_0000_0000 * turns) % 0x1_0000_0000 == x % 0x1_0000_0000
  {
  }

  lemma PassedTwice(timer: UInt32, a: UInt32, b: nat)
    ensures (Passed(timer, a) + b) % 0x1_0000_0000 == (timer + a + b) % 0x1_0000_0000
  {
    var turns := (timer + a) / 0x1_0000_0000;
    assert timer + a == Passed(timer, a) + 0x1_0000_0000 * turns;
    WholeTurns(Passed(timer, a) + b, turns);
  }

  /** Over every run in which a program goes on, with any number of pauses: the elapsed time is what it was
      plus the time spent in RUNNING, modulo 2^32. */
  lemma {:induction false} ElapsedIsRunTime(c: Ctx, steps: seq<Step>)
    requires Inv(c) && AllGoOn(c, steps)
    ensures var g := Run(c, steps).program;
      && SameProgram(c.program, g)
      && g.elapsed == (c.program.elapsed + TotalRunTime(c, steps)) % 0x1_0000_0000
    decreases |steps|
  {
    hide Apply, Inv, GoesOn, Passed;
    if steps != [] {
      var n := Apply(c, steps[0]).ctx;
      StepGoesOn(c, steps[0]);
      StepKeeps(c, steps[0]);
      ElapsedIsRunTime(n, steps[1..]);
      PassedTwice(c.program.elapsed, RunTime(c, steps[0]), TotalRunTime(n, steps[1..]));
    }
  }

  /** Pausing and resuming at once gives the program back as it was, but for the time of an earlier pause. */
  lemma PauseAndResume(c: Ctx)
    requires Inv(c) && c.state == Running
    ensures var paused := OnPauseToggle(c).ctx; var resumed := OnPauseToggle(paused).ctx;
      && paused.state == Paused && resumed.state == Running
      && resumed.program == c.program.(pauseElapsed := 0)
      && resumed.purse == c.purse && resumed.session == c.session
  {
    hide PurseOk, HandshakeOk;
  }

  // ---------------------------------------------------------------- starts

  lemma NotBoth(s: Step)
    ensures !(IsSelection(s) && IsApproval(s)) && (IsSelection(s) || IsApproval(s) ==> s.In?)
  {
  }

  /** A program starts at zero with the limits and the price asked for, zero standing for the limit there was:
      those of the selection or, in a card session, those kept with the vend request. */
  lemma StartsAsAsked(c: Ctx, s: Step)
    requires Inv(c) && c.state == Credit && Apply(c, s).ctx.state == Running
    ensures IsSelection(s) || IsApproval(s)
    ensures var g := Apply(c, s).ctx.program;
      var target := if IsApproval(s) then c.vend.target else s.e.aux;
      var pause := if IsApproval(s) then c.vend.pause else s.e.u32;
      && g.running && g.elapsed == 0 && g.pauseElapsed == 0
      && g.target == (if target > 0 then target else c.program.target)
      && g.pauseMax == (if pause > 0 then pause else c.program.pauseMax)
      && g.price == (if IsApproval(s) then c.vend.price else if s.e.i32 > 0 then s.e.i32 else 0)
  {
    StepFollowsTable(c, s);
    hide Apply, Inv, Table, IsSelection, IsApproval;
    if IsSelection(s) {
      SelectionTable(c, s);
      NotBoth(s);
    } else if IsApproval(s) {
      ApprovalTable(c, s);
    } else {
      OthersAreModest(c, s);
    }
  }

  /** A plain stop leaves the program, running or paused: to CREDIT exactly when credit or the card is there. */
  lemma StopLeaves(c: Ctx, e: Input)
    requires Inv(c) && Active(c) && e.aux != 1
    ensures var n := OnStop(c, e).ctx;
      && !Active(n) && n.program == NoProgram(c.program)
      && (n.state == Credit <==>
          c.purse.totals.credit > 0 || c.purse.ecd.coins + c.purse.totals.vcd > 0
          || (c.session.source == FromCard && !c.session.removedDuringRun))
  {
    hide HandleEvent, PurseOk;
    OnStopFollows(c, e, Bus(true, true));
  }
}
