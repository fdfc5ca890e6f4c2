/**
 Where money may move: the only steps that charge and the only steps that write money off.
 */
module FsmLedger {
  import opened Fsm
  import opened FsmSafety
  import opened FsmTable

  /** A selection outside a card session pays and starts. */
  ghost predicate PaidSelection(c: Ctx, s: Step, n: Ctx) {
    s.In? && c.state == Credit && c.session.source != FromCard && !c.vend.pending
    && KindOf(s.e) == SelectIn && n.program.price == s.e.i32
  }

  /** An approved card vend pays and starts. */
  ghost predicate PaidVend(c: Ctx, s: Step, n: Ctx) {
    s.In? && c.state == Credit && c.session.source == FromCard && c.vend.pending && !n.vend.pending
    && KindOf(s.e) == VendApprovedIn && s.bus.successOk && n.program.price == c.vend.price
  }

  /** A finished cycle pays for the next one. */
  ghost predicate PaidRenewal(c: Ctx, s: Step, n: Ctx) {
    s.Ticking? && c.state == Running && Renewable(c) && c.program.target > 0
    && n.program.price == c.program.price && n.program.elapsed == 0
  }

  ghost predicate PaidStep(c: Ctx, s: Step, n: Ctx) {
    && n.state == Running && n.program.price > 0
    && n.purse.ledger == c.purse.ledger.(charged := c.purse.ledger.charged + n.program.price)
    && Held(n.purse) == Held(c.purse) - n.program.price
    && (PaidSelection(c, s, n) || PaidVend(c, s, n) || PaidRenewal(c, s, n))
  }

  /** The written-off amount is what the step dropped, and only three things drop money. */
  ghost predicate ForfeitStep(c: Ctx, s: Step, n: Ctx) {
    || (s.In? && PaymentKind(KindOf(s.e)) && Held(n.purse) == 99)
    || (s.Ticking? && c.state == Credit && IdleTime(c, s.dt) >= c.settings.splash && n.state == Rest(c)
        && n.purse.ecd.coins == c.purse.ecd.coins
        && n.purse.ledger == Ledger(c.purse.ledger.accepted, c.purse.ledger.charged,
             c.purse.ledger.forfeited + Cents(c.purse.card.coins + c.purse.qr.coins) + Residuals(c.purse)))
    || (s.In? && KindOf(s.e) == CreditEndedIn
        && n.purse.ledger == Ledger(c.purse.ledger.accepted, c.purse.ledger.charged,
             c.purse.ledger.forfeited + VirtualCents(c.purse)
             + if s.e.aux == 1 then 0 else Cents(c.purse.ecd.coins) + c.purse.ecd.cents))
  }

  // ---------------------------------------------------------------- one lemma per kind of step

  lemma EventLedger(c: Ctx, ev: Event)
    ensures HandleEvent(c, ev).purse.ledger != c.purse.ledger ==>
      c.state == Credit && ev == Timeout && HandleEvent(c, ev) == ChoiceTimeout(c)
  {
  }

  lemma PaymentLedger(c: Ctx, cents: int, b: Bucket, pay: Source)
    requires BucketsOk(c.purse)
    ensures var n := Dispatch(TakePayment(c, cents, b, pay), PaymentAccepted, Quiet, []).ctx;
      && n.purse.ledger.charged == c.purse.ledger.charged
      && n.purse.ledger.accepted == c.purse.ledger.accepted + (if cents > 0 then cents else 0)
      && (n.purse.ledger.forfeited != c.purse.ledger.forfeited ==> Held(n.purse) == 99)
    ensures var n := TakePayment(c, cents, b, pay);
      && n.purse.ledger.charged == c.purse.ledger.charged
      && n.purse.ledger.accepted == c.purse.ledger.accepted + (if cents > 0 then cents else 0)
      && (n.purse.ledger.forfeited != c.purse.ledger.forfeited ==> Held(n.purse) == 99)
  {
    if cents > 0 {
      PaymentForfeitsOnlyAtCap(c.purse, cents, b);
    }
    EventLedger(TakePayment(c, cents, b, pay), PaymentAccepted);
  }

  lemma SoundBuckets(c: Ctx)
    requires Inv(c)
    ensures BucketsOk(c.purse)
  {
  }

  /** Payments never charge, accept exactly the amount received, and lose money only at the cap. */
  lemma PaymentKindLedger(c: Ctx, e: Input, bus: Bus, kind: Kind)
    requires Inv(c) && PaymentKind(kind)
    ensures var n := HandleKind(c, e, bus, kind).ctx;
      && n.purse.ledger.charged == c.purse.ledger.charged
      && (n.purse.ledger.accepted == c.purse.ledger.accepted
          || n.purse.ledger.accepted == c.purse.ledger.accepted + e.i32)
      && (n.purse.ledger.forfeited != c.purse.ledger.forfeited ==> Held(n.purse) == 99)
  {
    hide HandleEvent, EventCalls, AddCredit, Inv;
    SoundBuckets(c);
    match kind
    case CoinIn => PaymentLedger(OpenSession(c, FromCoin), e.i32, Ecd, FromCoin);
    case TokenIn =>
      PaymentLedger(OpenSession(c, FromCoin), e.i32, Ecd, if e.fromCctalk then FromCctalk else FromCoin);
    case QrCreditIn => PaymentLedger(OpenSession(SetQrPending(c, false), FromQr), e.i32, VcdQr, FromQr);
    case CardCreditIn => {
      var c0 := SetQrPending(c, false);
      PaymentLedger(c0, e.i32, VcdCard, FromCard);
      var c1 := OpenSession(c0, FromCard);
      PaymentLedger(c1.(session := c1.session.(removedDuringRun := false)), e.i32, VcdCard, FromCard);
    }
    case QrScannedIn => EventLedger(SetQrPending(c, true), UserActivity);
  }

  lemma SelectLedger(c: Ctx, e: Input, bus: Bus)
    requires Inv(c) && KindOf(e) == SelectIn
    ensures var n := OnSelect(c, e, bus).ctx; n.purse == c.purse || PaidStep(c, In(e, bus), n)
  {
    ChargeExact(c.purse, e.i32);
  }

  lemma ApprovalLedger(c: Ctx, e: Input, bus: Bus)
    requires Inv(c) && KindOf(e) == VendApprovedIn
    ensures var n := OnVendApproved(c, e, bus).ctx; n.purse == c.purse || PaidStep(c, In(e, bus), n)
  {
    ChargeExact(c.purse, c.vend.price);
  }

  lemma CreditEndedLedger(c: Ctx, e: Input)
    requires Inv(c)
    ensures OnCreditEnded(c, e).ctx.purse.ledger == Ledger(c.purse.ledger.accepted, c.purse.ledger.charged,
      c.purse.ledger.forfeited + VirtualCents(c.purse)
      + if e.aux == 1 then 0 else Cents(c.purse.ecd.coins) + c.purse.ecd.cents)
  {
    var c1 := if c.vend.pending then ResetVend(c) else c;
    var c2 := if e.aux == 1 && c.session.source == FromCard
              then c1.(session := c.session.(completeRequired := false, removedDuringRun := false)) else c1;
    EventLedger(c2.(purse := EndedPurse(c.purse, e.aux == 1)), CreditEnded);
  }

  /** Events that are neither payments, selections, approvals nor the end of credit move no money. */
  lemma OtherKindLedger(c: Ctx, e: Input, bus: Bus, kind: Kind)
    requires !PaymentKind(kind) && kind !in {SelectIn, VendApprovedIn, CreditEndedIn}
    ensures HandleKind(c, e, bus, kind).ctx.purse.ledger == c.purse.ledger
  {
    hide HandleEvent, EventCalls, ScaledRemainder;
    match kind
    case ActivityIn | TouchIn => EventLedger(if Locked(c) then c else OpenSession(c, FromTouch), UserActivity);
    case KeyIn => EventLedger(if Locked(c) then c else OpenSession(c, FromKey), UserActivity);
    case StopIn => {
      EventLedger(c.(program := c.program.(stopAfter := true)), ProgramResume);
      EventLedger(c, ProgramStop);
    }
    case PauseToggleIn => {
      EventLedger(c, ProgramPause);
      EventLedger(c, ProgramResume);
    }
    case VendDeniedIn | SwitchIn | NoKind =>
  }

  lemma TickLedger(c: Ctx, dt: UInt32, percent: nat)
    requires Inv(c)
    ensures var s := Ticking(dt, percent); var n := Tick(c, dt, percent).ctx;
      n.purse.ledger == c.purse.ledger || PaidStep(c, s, n) || ForfeitStep(c, s, n)
  {
    if c.state == Running {
      ChargeExact(c.purse, c.program.price);
      var c1 := Idling(c, dt);
      EventLedger(c1.(program := Advance(c1.program, dt, percent)), ProgramStop);
    } else if c.state == Credit {
      IdlingIs(c, dt);
      EventLedger(Idling(c, dt), Timeout);
    }
  }

  /** What one step may do to the three amounts. */
  ghost predicate LedgerStep(c: Ctx, s: Step, n: Ctx) {
    && (n.purse.ledger.charged != c.purse.ledger.charged ==> PaidStep(c, s, n))
    && (n.purse.ledger.forfeited != c.purse.ledger.forfeited ==> ForfeitStep(c, s, n))
    && (n.purse.ledger.accepted != c.purse.ledger.accepted ==>
          s.In? && PaymentKind(KindOf(s.e)) && n.purse.ledger.accepted == c.purse.ledger.accepted + s.e.i32)
  }

  lemma QuietLedger(c: Ctx, s: Step, n: Ctx)
    requires n.purse.ledger == c.purse.ledger
    ensures LedgerStep(c, s, n)
  {
  }

  lemma PaidLedger(c: Ctx, s: Step, n: Ctx)
    requires n.purse == c.purse || PaidStep(c, s, n)
    ensures LedgerStep(c, s, n)
  {
  }

  lemma KindLedger(c: Ctx, e: Input, bus: Bus)
    requires Inv(c)
    ensures LedgerStep(c, In(e, bus), HandleKind(c, e, bus, KindOf(e)).ctx)
  {
    hide Inv, OnSelect, OnVendApproved, OnCreditEnded, PaidStep;
    var kind := KindOf(e);
    if PaymentKind(kind) {
      hide HandleKind;
      PaymentKindLedger(c, e, bus, kind);
    } else if kind == SelectIn {
      SelectLedger(c, e, bus);
      PaidLedger(c, In(e, bus), OnSelect(c, e, bus).ctx);
    } else if kind == VendApprovedIn {
      ApprovalLedger(c, e, bus);
      PaidLedger(c, In(e, bus), OnVendApproved(c, e, bus).ctx);
    } else if kind == CreditEndedIn {
      CreditEndedLedger(c, e);
    } else {
      hide HandleKind, LedgerStep;
      OtherKindLedger(c, e, bus, kind);
      QuietLedger(c, In(e, bus), HandleKind(c, e, bus, kind).ctx);
    }
  }

  lemma InputLedger(c: Ctx, e: Input, bus: Bus)
    requires Inv(c)
    ensures LedgerStep(c, In(e, bus), HandleInput(c, e, bus).ctx)
  {
    hide Inv, LedgerStep, HandleKind, HandleEvent;
    EventLedger(c, EnterLvgl);
    EventLedger(c, ExitLvgl);
    KindLedger(c, e, bus);
    var n := HandleInput(c, e, bus).ctx;
    if n.purse.ledger == c.purse.ledger {
      QuietLedger(c, In(e, bus), n);
    }
  }

  /** Every charge is a paid selection, a paid vend or a paid renewal, each for exactly the price the
      program then runs at; and money is written off only at the cap, at a choice timeout (never whole
      coins) or when credit is ended. */
  lemma MoneyMovesOnlyHere(c: Ctx, s: Step)
    requires Inv(c)
    ensures LedgerStep(c, s, Apply(c, s).ctx)
  {
    hide Inv, HandleInput, Tick;
    match s
    case In(e, bus) => InputLedger(c, e, bus);
    case Ticking(dt, percent) => TickLedger(c, dt, percent);
    case TagGone =>
    case Retime(_) =>
  }
}
