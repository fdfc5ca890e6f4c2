/**
 The money part of the state machine as one flat table: which step puts a payment into which bucket, charges,
 writes off or repairs the shown credit.  With FsmTable.dfy it gives the whole next context.
 */
module FsmPurse {
  import opened Fsm
  import opened FsmSafety
  import opened FsmTable

  // ---------------------------------------------------------------- what the operations on a purse do

  /** The value of a bucket in cents. */
  function Worth(pot: Pot): int {
    100 * pot.coins + pot.cents
  }

  /** A payment fills its own bucket, by all of it or by what the cap of 99 coins leaves room for, and
      touches no other. */
  lemma PaymentFillsBucket(p: Purse, cents: int, b: Bucket)
    requires BucketsOk(p) && cents > 0
    ensures var q := AddCredit(p, cents, b); var lost := q.ledger.forfeited - p.ledger.forfeited;
      && Worth(PotOf(q, b)) == Worth(PotOf(p, b)) + cents - lost
      && 0 <= PotOf(q, b).cents < 100 && PotOf(q, b).used == PotOf(p, b).used
      && (lost != 0 <==> Held(p) + (PotOf(p, b).cents + cents) / 100 > 99)
      && (lost != 0 ==> Held(q) == 99 && PotOf(q, b).cents == 0)
      && forall other :: other != b ==> PotOf(q, other) == PotOf(p, other)
  {
  }

  /** Nothing is credited for an amount that is not positive. */
  lemma NothingPaid(p: Purse, cents: int, b: Bucket)
    requires cents <= 0
    ensures AddCredit(p, cents, b) == p
  {
  }

  /** What a choice timeout leaves: whole coins, and nothing else. */
  lemma TimeoutLeaves(p: Purse)
    requires BucketsOk(p)
    ensures var q := TimeoutPurse(p);
      && q.ecd == Pot(p.ecd.coins, 0, 0) && q.card == Pot(0, 0, 0) && q.qr == Pot(0, 0, 0)
      && q.totals == Totals(p.ecd.coins, 0, 0, 0)
  {
  }

  /** What the end of credit leaves: nothing, or coins as they were when only the card's credit ends. */
  lemma EndLeaves(p: Purse, virtualOnly: bool)
    ensures var q := EndedPurse(p, virtualOnly);
      && q.card == Pot(0, 0, 0) && q.qr == Pot(0, 0, 0)
      && q.ecd == (if virtualOnly then p.ecd else Pot(0, 0, 0))
      && q.totals == Totals(if virtualOnly then p.ecd.coins else 0, 0, 0, 0)
  {
  }

  // ---------------------------------------------------------------- the table

  /** A program left for CREDIT shows what is there. */
  function AfterStop(c: Ctx): Purse {
    var there := c.purse.ecd.coins + c.purse.totals.vcd;
    if c.purse.totals.credit > 0 then c.purse
    else if there > 0 || (WithCard(c) && !c.session.removedDuringRun) then SetCredit(c.purse, there)
    else c.purse
  }

  function KindPurse(c: Ctx, e: Input, bus: Bus, kind: Kind): Purse {
    match kind
    case CoinIn | TokenIn => AddCredit(c.purse, e.i32, Ecd)
    case QrCreditIn => AddCredit(c.purse, e.i32, VcdQr)
    case CardCreditIn => if Active(c) || !c.vend.pending then AddCredit(c.purse, e.i32, VcdCard) else c.purse
    case SelectIn =>
      if Selected(c, e, bus).state == Running && c.state == Credit && e.i32 > 0 then Charge(c.purse, e.i32).0
      else c.purse
    case VendApprovedIn =>
      if Approved(c, e, bus).state == Running && c.state == Credit then Charge(c.purse, c.vend.price).0 else c.purse
    case StopIn => if Active(c) && e.aux != 1 then AfterStop(c) else c.purse
    case CreditEndedIn => EndedPurse(c.purse, e.aux == 1)
    case _ => c.purse
  }

  function InputPurse(c: Ctx, e: Input, bus: Bus): Purse {
    if e.action == ActSystemError || e.action == ActSystemRun || c.state == OutOfService then c.purse
    else if Active(c) && e.kind in {CoinIn, TokenIn, QrCreditIn, QrScannedIn, CardCreditIn} then c.purse
    else if e.kind == NoKind && (e.action == ActLvglEnter || e.action == ActLvglExit) then c.purse
    else KindPurse(c, e, bus, Meaning(e))
  }

  function TickPurse(c: Ctx, dt: UInt32): Purse {
    if c.state == Running && 0 < c.program.target <= Passed(c.program.elapsed, dt) then
      if Renewing(c) then Charge(c.purse, c.program.price).0
      else if c.purse.ecd.coins + c.purse.totals.vcd <= 0 then SetCredit(c.purse, 0)
      else AfterStop(c)
    else if c.state == Credit && IdleTime(c, dt) >= c.settings.splash then TimeoutPurse(c.purse)
    else c.purse
  }

  function NextPurse(c: Ctx, s: Step): Purse {
    match s
    case In(e, bus) => InputPurse(c, e, bus)
    case Ticking(dt, _) => TickPurse(c, dt)
    case TagGone =>
      if Active(c) && WithCard(c) && !c.vend.pending && !c.session.removedDuringRun
      then c.purse.(totals := c.purse.totals.(credit := c.purse.ecd.coins, vcd := 0, vcdCents := 0))
      else c.purse
    case Retime(_) => c.purse
  }

  // ---------------------------------------------------------------- the handlers follow the table

  /** Only a timeout in CREDIT and a stop write the purse. */
  lemma EventPurse(c: Ctx, ev: Event)
    ensures HandleEvent(c, ev).purse ==
      if c.state == Credit && ev == Timeout then TimeoutPurse(c.purse)
      else if Active(c) && ev == ProgramStop && StaysInCredit(c) && c.purse.totals.credit <= 0
        then SetCredit(c.purse, Available(c.purse))
      else c.purse
  {
    hide TimeoutPurse;
  }

  lemma StopPurse(c: Ctx)
    requires Active(c)
    ensures HandleEvent(c, ProgramStop).purse == AfterStop(c)
  {
    hide HandleEvent;
    EventPurse(c, ProgramStop);
  }

  lemma PaymentPurse(c: Ctx, cents: int, b: Bucket, pay: Source)
    ensures TakePayment(c, cents, b, pay).purse == AddCredit(c.purse, cents, b)
    ensures HandleEvent(TakePayment(c, cents, b, pay), PaymentAccepted).purse == AddCredit(c.purse, cents, b)
  {
    hide HandleEvent;
    EventPurse(TakePayment(c, cents, b, pay), PaymentAccepted);
  }

  lemma PaymentsFollow(c: Ctx, e: Input, bus: Bus, kind: Kind)
    requires kind in {CoinIn, TokenIn, QrCreditIn, CardCreditIn}
    ensures HandleKind(c, e, bus, kind).ctx.purse == KindPurse(c, e, bus, kind)
  {
    hide HandleEvent, TakePayment, AddCredit, EventCalls;
    var c0 := SetQrPending(c, false);
    match kind
    case CoinIn => PaymentPurse(OpenSession(c, FromCoin), e.i32, Ecd, FromCoin);
    case TokenIn =>
      PaymentPurse(OpenSession(c, FromCoin), e.i32, Ecd, if e.fromCctalk then FromCctalk else FromCoin);
    case QrCreditIn => PaymentPurse(OpenSession(c0, FromQr), e.i32, VcdQr, FromQr);
    case CardCreditIn => {
      PaymentPurse(c0, e.i32, VcdCard, FromCard);
      var c1 := OpenSession(c0, FromCard);
      PaymentPurse(c1.(session := c1.session.(removedDuringRun := false)), e.i32, VcdCard, FromCard);
    }
  }

  lemma SelectPurse(c: Ctx, e: Input, bus: Bus)
    requires Inv(c)
    ensures OnSelect(c, e, bus).ctx.purse == KindPurse(c, e, bus, SelectIn)
  {
    hide Charge, Refund, HandleEvent, Conserved;
    ChargeExact(c.purse, e.i32);
    if c.state == Credit {
      var price := if e.i32 > 0 then e.i32 else 0;
      var purse := if price > 0 then Charge(c.purse, price).0 else c.purse;
      StartsFromCredit(Prepare(c, e.u32, e.aux, price).(purse := purse));
    }
  }

  lemma ApprovalPurse(c: Ctx, e: Input, bus: Bus)
    requires Inv(c)
    ensures OnVendApproved(c, e, bus).ctx.purse == KindPurse(c, e, bus, VendApprovedIn)
  {
    hide Charge, Refund;
    ChargeExact(c.purse, c.vend.price);
  }

  lemma EndPurse(c: Ctx, e: Input, bus: Bus)
    ensures OnCreditEnded(c, e).ctx.purse == KindPurse(c, e, bus, CreditEndedIn)
  {
    hide HandleEvent, EndedPurse, EventCalls;
    var c1 := if c.vend.pending then ResetVend(c) else c;
    var c2 := if e.aux == 1 && c.session.source == FromCard
              then c1.(session := c.session.(completeRequired := false, removedDuringRun := false)) else c1;
    EventPurse(c2.(purse := EndedPurse(c.purse, e.aux == 1)), CreditEnded);
  }

  lemma OthersFollow(c: Ctx, e: Input, bus: Bus, kind: Kind)
    requires kind in {ActivityIn, TouchIn, KeyIn, QrScannedIn, VendDeniedIn, StopIn, PauseToggleIn, SwitchIn, NoKind}
    ensures HandleKind(c, e, bus, kind).ctx.purse == KindPurse(c, e, bus, kind)
  {
    hide HandleEvent, EventCalls, SwitchTarget, AfterStop;
    match kind
    case ActivityIn | TouchIn => EventPurse(if Locked(c) then c else OpenSession(c, FromTouch), UserActivity);
    case KeyIn => EventPurse(if Locked(c) then c else OpenSession(c, FromKey), UserActivity);
    case QrScannedIn => EventPurse(SetQrPending(c, true), UserActivity);
    case StopIn => {
      EventPurse(c.(program := c.program.(stopAfter := true)), ProgramResume);
      EventPurse(c, ProgramStop);
      if Active(c) {
        StopPurse(c);
      }
    }
    case PauseToggleIn => {
      EventPurse(c, ProgramPause);
      EventPurse(c, ProgramResume);
    }
    case VendDeniedIn | SwitchIn | NoKind =>
  }

  lemma KindPurseIs(c: Ctx, e: Input, bus: Bus, kind: Kind)
    requires Inv(c)
    ensures HandleKind(c, e, bus, kind).ctx.purse == KindPurse(c, e, bus, kind)
  {
    if kind in {CoinIn, TokenIn, QrCreditIn, CardCreditIn} {
      PaymentsFollow(c, e, bus, kind);
    } else if kind == SelectIn {
      SelectPurse(c, e, bus);
    } else if kind == VendApprovedIn {
      ApprovalPurse(c, e, bus);
    } else if kind == CreditEndedIn {
      EndPurse(c, e, bus);
    } else {
      OthersFollow(c, e, bus, kind);
    }
  }

  lemma InputPurseIs(c: Ctx, e: Input, bus: Bus)
    requires Inv(c)
    ensures HandleInput(c, e, bus).ctx.purse == InputPurse(c, e, bus)
  {
    hide HandleKind, KindPurse, Inv, HandleEvent, EventCalls, Meaning, KindOf;
    KindPurseIs(c, e, bus, KindOf(e));
    MeaningIs(e);
    LvglEvents(c);
  }

  lemma CycleEndPurse(c: Ctx)
    requires Inv(c) && c.state == Running
    ensures CycleEnd(c).ctx.purse ==
      if Renewing(c) then Charge(c.purse, c.program.price).0
      else if c.purse.ecd.coins + c.purse.totals.vcd <= 0 then SetCredit(c.purse, 0)
      else AfterStop(c)
  {
    hide Charge, AfterStop, HandleEvent, EventCalls, Conserved;
    ChargeExact(c.purse, c.program.price);
    StopPurse(c);
  }

  lemma CountedPurse(c: Ctx, n: Ctx, dt: UInt32, percent: nat)
    requires n == c.(inactivity := n.inactivity, program := Counted(c.program, dt, percent))
    ensures AfterStop(n) == AfterStop(c) && (Renewing(n) <==> Renewing(c)) && n.program.price == c.program.price
  {
    hide NearEnd, SetCredit;
  }

  lemma RunningPurse(c: Ctx, dt: UInt32, percent: nat)
    requires Inv(c) && c.state == Running
    ensures Tick(c, dt, percent).ctx.purse == TickPurse(c, dt)
  {
    hide CycleEnd, Inv, Advance, Counted, Idling, IdleTime, Charge;
    IdlingIs(c, dt);
    CountedIs(c.program, dt, percent);
    CountedKeeps(c.program, dt, percent);
    var n := c.(inactivity := IdleTime(c, dt), program := Counted(c.program, dt, percent));
    CountedIsGood(c, n);
    CountedPurse(c, n, dt, percent);
    CycleEndPurse(n);
  }

  lemma TickPurseIs(c: Ctx, dt: UInt32, percent: nat)
    requires Inv(c)
    ensures Tick(c, dt, percent).ctx.purse == TickPurse(c, dt)
  {
    if c.state == Running {
      RunningPurse(c, dt, percent);
    } else {
      hide HandleEvent, TimeoutPurse, EventCalls, Idling, IdleTime, Inv;
      IdlingIs(c, dt);
      EventPurse(Idling(c, dt), Timeout);
      var g := c.program.(pauseElapsed := Wrap(c.program.pauseElapsed + dt), pauseLimit := true);
      EventPurse(Idling(c, dt).(program := g), ProgramResume);
    }
  }

  /** Every step of the state machine moves the money the table says, and no other. */
  lemma StepFollowsPurse(c: Ctx, s: Step)
    requires Inv(c)
    ensures Apply(c, s).ctx.purse == NextPurse(c, s)
  {
    hide Inv, HandleInput, InputPurse, Tick, TickPurse;
    match s
    case In(e, bus) => InputPurseIs(c, e, bus);
    case Ticking(dt, percent) => TickPurseIs(c, dt, percent);
    case TagGone =>
    case Retime(_) =>
  }
}
