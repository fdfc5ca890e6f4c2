/**
 What every step of the state machine keeps, over every run from fsm_init: the money balance, the
 99-coin cap, the meaning of program_running, and the card vend handshake.
 */
module FsmSafety {
  import opened Fsm

  // ---------------------------------------------------------------- invariants

  ghost predicate PotOk(pot: Pot) {
    0 <= pot.coins && 0 <= pot.cents < 100
  }

  /** The buckets respect the cap, and the totals never show more than the buckets hold. */
  ghost predicate BucketsOk(p: Purse) {
    && PotOk(p.ecd) && PotOk(p.card) && PotOk(p.qr)
    && Held(p) <= 99
    && 0 <= p.totals.vcd <= p.card.coins + p.qr.coins
    && 0 <= p.totals.credit <= Held(p)
  }

  /** Every cent taken in is held, spent on a cycle, or written off. */
  ghost predicate Conserved(p: Purse) {
    p.ledger.accepted == Cents(Held(p) + p.ledger.charged) + Residuals(p) + p.ledger.forfeited
  }

  ghost predicate PurseOk(p: Purse) {
    BucketsOk(p) && Conserved(p)
  }

  /** The totals the display uses are the sums of the buckets. */
  ghost predicate Balanced(p: Purse) {
    p == Recalc(p)
  }

  lemma BalancedMeans(p: Purse)
    ensures Balanced(p) <==>
      && p.totals.credit == p.ecd.coins + p.card.coins + p.qr.coins && p.totals.vcd == p.card.coins + p.qr.coins
      && p.totals.vcdUsed == p.card.used + p.qr.used && p.totals.vcdCents == p.card.cents + p.qr.cents
  {
  }

  predicate Active(c: Ctx) {
    c.state == Running || c.state == Paused
  }

  ghost predicate ControlOk(c: Ctx) {
    && (c.program.running <==> c.state == Running)
    && !c.program.pauseLimit
    && c.session.mode != VirtualLocked
  }

  /** A pending card vend: no program is active, and while the session is still the card's the local
      credit covers the price the reader was asked for. */
  ghost predicate HandshakeOk(c: Ctx) {
    c.vend.pending ==>
      && !Active(c)
      && (c.session.source == FromCard ==> Vendable(c.vend.price) && c.vend.price <= c.purse.totals.credit)
  }

  /** The books balance, the timers and flags are consistent, and the handshake is covered. */
  ghost predicate Inv(c: Ctx) {
    PurseOk(c.purse) && ControlOk(c) && HandshakeOk(c)
  }

  /** Step from one purse to another without breaking the balance. */
  ghost predicate PurseStep(p: Purse, q: Purse) {
    PurseOk(q) && (Balanced(p) ==> Balanced(q))
  }

  // ---------------------------------------------------------------- the purse

  /** Charging succeeds exactly when the cost is positive and covered; then exactly the cost leaves the
      buckets, coins before card credit before QR credit, and otherwise nothing changes. */
  lemma ChargeExact(p: Purse, cost: int)
    requires BucketsOk(p)
    ensures var (q, ok) := Charge(p, cost);
      && (ok <==> 0 < cost <= p.totals.credit)
      && (!ok ==> q == p)
      && (ok ==>
        && Held(q) == Held(p) - cost
        && q.ledger == p.ledger.(charged := p.ledger.charged + cost)
        && 0 <= q.ecd.coins <= p.ecd.coins && 0 <= q.card.coins <= p.card.coins && 0 <= q.qr.coins <= p.qr.coins
        && (q.card.coins < p.card.coins ==> q.ecd.coins == 0)
        && (q.qr.coins < p.qr.coins ==> q.ecd.coins == 0 && q.card.coins == 0)
        && q.ecd.used - p.ecd.used == p.ecd.coins - q.ecd.coins
        && q.card.used - p.card.used == p.card.coins - q.card.coins
        && q.qr.used - p.qr.used == p.qr.coins - q.qr.coins
        && q.ecd.cents == p.ecd.cents && q.card.cents == p.card.cents && q.qr.cents == p.qr.cents
        && Balanced(q))
  {
  }

  lemma UnpaidIsUnchanged(p: Purse, cost: int)
    ensures !Charge(p, cost).1 ==> Charge(p, cost).0 == p
  {
  }

  lemma ChargeKeeps(p: Purse, cost: int)
    requires PurseOk(p)
    ensures PurseStep(p, Charge(p, cost).0)
  {
    ChargeExact(p, cost);
  }

  lemma AddCreditKeeps(p: Purse, cents: int, b: Bucket)
    requires PurseOk(p)
    ensures PurseStep(p, AddCredit(p, cents, b))
    ensures p.totals.credit <= AddCredit(p, cents, b).totals.credit
  {
  }

  /** A payment is written off only when the cap leaves no room for all of it; then the total ends
      exactly at the cap.  Otherwise every cent of it is held. */
  lemma PaymentForfeitsOnlyAtCap(p: Purse, cents: int, b: Bucket)
    requires BucketsOk(p) && cents > 0
    ensures var q := AddCredit(p, cents, b); var lost := q.ledger.forfeited - p.ledger.forfeited;
      && 0 <= lost
      && (lost > 0 ==> Held(q) == 99 && PotOf(q, b).cents == 0)
      && (lost > 0 <== Held(p) + (PotOf(p, b).cents + cents) / 100 > 99)
      && Cents(Held(q)) + Residuals(q) + lost == Cents(Held(p)) + Residuals(p) + cents
      && q.ledger.charged == p.ledger.charged && q.ledger.accepted == p.ledger.accepted + cents
  {
  }

  /** A choice timeout keeps every whole coin and writes off exactly the rest. */
  lemma TimeoutForfeitsExactly(p: Purse)
    requires PurseOk(p)
    ensures PurseStep(p, TimeoutPurse(p))
    ensures TimeoutPurse(p).ecd.coins == p.ecd.coins && Held(TimeoutPurse(p)) == p.ecd.coins
    ensures TimeoutPurse(p).ledger.forfeited ==
      p.ledger.forfeited + Cents(p.card.coins + p.qr.coins) + Residuals(p)
  {
  }

  lemma EndedForfeitsExactly(p: Purse, virtualOnly: bool)
    requires PurseOk(p)
    ensures PurseStep(p, EndedPurse(p, virtualOnly))
    ensures virtualOnly ==> EndedPurse(p, virtualOnly).ecd == p.ecd
    ensures !virtualOnly ==> Held(EndedPurse(p, virtualOnly)) == 0 && Residuals(EndedPurse(p, virtualOnly)) == 0
  {
  }

  lemma SetCreditKeeps(p: Purse)
    requires PurseOk(p)
    ensures p.totals.credit <= 0 ==> PurseStep(p, SetCredit(p, Available(p)))
    ensures Available(p) <= 0 ==> PurseStep(p, SetCredit(p, 0))
  {
  }

  // ---------------------------------------------------------------- steps keep the invariant

  /** fsm_handle_event only ever moves money on a timeout, and repairs the shown credit on a stop. */
  lemma HandleEventPurse(c: Ctx, ev: Event)
    requires PurseOk(c.purse)
    ensures HandleEvent(c, ev).purse.ledger != c.purse.ledger ==> c.state == Credit && ev == Timeout
    ensures PurseStep(c.purse, HandleEvent(c, ev).purse)
  {
    TimeoutForfeitsExactly(c.purse);
    SetCreditKeeps(c.purse);
  }

  lemma HandleEventControl(c: Ctx, ev: Event)
    requires ControlOk(c) && HandshakeOk(c)
    requires ev == ProgramSelected ==> !c.vend.pending
    ensures ControlOk(HandleEvent(c, ev)) && HandshakeOk(HandleEvent(c, ev))
  {
  }

  lemma HandleEventKeeps(c: Ctx, ev: Event)
    requires Inv(c)
    requires ev == ProgramSelected ==> !c.vend.pending
    ensures Inv(HandleEvent(c, ev))
    ensures PurseStep(c.purse, HandleEvent(c, ev).purse)
  {
    HandleEventPurse(c, ev);
    HandleEventControl(c, ev);
  }

  lemma OpenSessionKeeps(c: Ctx, source: Source)
    requires Inv(c) && (c.vend.pending ==> source != FromCard)
    ensures Inv(OpenSession(c, source)) && OpenSession(c, source).purse == c.purse
  {
  }

  lemma TakePaymentKeeps(c: Ctx, cents: int, b: Bucket, pay: Source)
    requires Inv(c)
    ensures Inv(TakePayment(c, cents, b, pay)) && PurseStep(c.purse, TakePayment(c, cents, b, pay).purse)
  {
    AddCreditKeeps(c.purse, cents, b);
  }

  /** The common path of coin, token, QR and card payments. */
  lemma PaymentKeeps(c: Ctx, cents: int, b: Bucket, pay: Source)
    requires Inv(c)
    ensures var o := Dispatch(TakePayment(c, cents, b, pay), PaymentAccepted, Quiet, []);
      Inv(o.ctx) && PurseStep(c.purse, o.ctx.purse)
  {
    TakePaymentKeeps(c, cents, b, pay);
    HandleEventKeeps(TakePayment(c, cents, b, pay), PaymentAccepted);
  }

  lemma OnPaymentKeeps(c: Ctx, e: Input)
    requires Inv(c)
    ensures Inv(OnCoin(c, e).ctx) && PurseStep(c.purse, OnCoin(c, e).ctx.purse)
    ensures Inv(OnToken(c, e).ctx) && PurseStep(c.purse, OnToken(c, e).ctx.purse)
    ensures Inv(OnQrCredit(c, e).ctx) && PurseStep(c.purse, OnQrCredit(c, e).ctx.purse)
  {
    OpenSessionKeeps(c, FromCoin);
    PaymentKeeps(OpenSession(c, FromCoin), e.i32, Ecd, FromCoin);
    PaymentKeeps(OpenSession(c, FromCoin), e.i32, Ecd, if e.fromCctalk then FromCctalk else FromCoin);
    OpenSessionKeeps(SetQrPending(c, false), FromQr);
    PaymentKeeps(OpenSession(SetQrPending(c, false), FromQr), e.i32, VcdQr, FromQr);
  }

  lemma OnCardCreditKeeps(c: Ctx, e: Input)
    requires Inv(c)
    ensures Inv(OnCardCredit(c, e).ctx) && PurseStep(c.purse, OnCardCredit(c, e).ctx.purse)
  {
    var c0 := SetQrPending(c, false);
    TakePaymentKeeps(c0, e.i32, VcdCard, FromCard);
    if !c.vend.pending {
      OpenSessionKeeps(c0, FromCard);
      var c1 := OpenSession(c0, FromCard);
      PaymentKeeps(c1.(session := c1.session.(removedDuringRun := false)), e.i32, VcdCard, FromCard);
    }
  }

  lemma RequestVendKeeps(c: Ctx, e: Input, bus: Bus)
    requires Inv(c) && c.state == Credit
    ensures Inv(RequestVend(c, e, bus).ctx) && RequestVend(c, e, bus).ctx.purse == c.purse
    ensures RequestVend(c, e, bus).note != StartRefunded
  {
  }

  lemma StartsFromCredit(c: Ctx)
    requires c.state == Credit
    ensures HandleEvent(c, ProgramSelected) == StartProgram(c)
  {
  }

  lemma StartKeeps(c: Ctx, e: Input, purse: Purse, price: Int32)
    requires Inv(c) && c.state == Credit && !c.vend.pending && PurseStep(c.purse, purse)
    ensures Inv(StartProgram(Prepare(c, e.u32, e.aux, price).(purse := purse)))
  {
  }

  lemma StartRuns(c: Ctx)
    ensures StartProgram(c).state == Running && StartProgram(c).purse == c.purse
  {
  }

  /** The refund branch of a program selection is never taken. */
  lemma OnSelectKeeps(c: Ctx, e: Input, bus: Bus)
    requires Inv(c)
    ensures Inv(OnSelect(c, e, bus).ctx) && PurseStep(c.purse, OnSelect(c, e, bus).ctx.purse)
    ensures OnSelect(c, e, bus).note != StartRefunded
  {
    hide HandleEvent, Charge, PurseOk, RequestVend, StartProgram, Refund;
    if c.state == Credit && !c.vend.pending {
      RequestVendKeeps(c, e, bus);
      ChargeKeeps(c.purse, e.i32);
      var price := if e.i32 > 0 then e.i32 else 0;
      var purse := if price > 0 then Charge(c.purse, price).0 else c.purse;
      StartKeeps(c, e, purse, price);
      StartsFromCredit(Prepare(c, e.u32, e.aux, price).(purse := purse));
      StartRuns(Prepare(c, e.u32, e.aux, price).(purse := purse));
    }
  }

  /** The recovery branches after a vend success was queued are never taken, and neither is the one
      for a price that no longer converts to cents. */
  lemma OnVendApprovedKeeps(c: Ctx, e: Input, bus: Bus)
    requires Inv(c)
    ensures Inv(OnVendApproved(c, e, bus).ctx) && PurseStep(c.purse, OnVendApproved(c, e, bus).ctx.purse)
    ensures OnVendApproved(c, e, bus).note !in {PriceLost, ChargeLost, StartLost}
  {
    ChargeKeeps(c.purse, c.vend.price);
    ChargeExact(c.purse, c.vend.price);
  }

  lemma OnCreditEndedKeeps(c: Ctx, e: Input)
    requires Inv(c)
    ensures Inv(OnCreditEnded(c, e).ctx) && PurseStep(c.purse, OnCreditEnded(c, e).ctx.purse)
  {
    EndedForfeitsExactly(c.purse, e.aux == 1);
    var c1 := if c.vend.pending then ResetVend(c) else c;
    var c2 := if e.aux == 1 && c.session.source == FromCard
              then c1.(session := c.session.(completeRequired := false, removedDuringRun := false)) else c1;
    HandleEventKeeps(c2.(purse := EndedPurse(c.purse, e.aux == 1)), CreditEnded);
  }

  lemma OnStopKeeps(c: Ctx, e: Input)
    requires Inv(c)
    ensures Inv(OnStop(c, e).ctx) && PurseStep(c.purse, OnStop(c, e).ctx.purse)
  {
    HandleEventKeeps(c.(program := c.program.(stopAfter := true)), ProgramResume);
    HandleEventKeeps(c, ProgramStop);
  }

  lemma ActivityKeeps(c: Ctx, source: Source)
    requires Inv(c) && source != FromCard
    ensures var o := Dispatch(if Locked(c) then c else OpenSession(c, source), UserActivity, Quiet, []);
      Inv(o.ctx) && PurseStep(c.purse, o.ctx.purse)
  {
    OpenSessionKeeps(c, source);
    HandleEventKeeps(OpenSession(c, source), UserActivity);
  }

  lemma OnVendDeniedKeeps(c: Ctx)
    requires Inv(c)
    ensures Inv(OnVendDenied(c).ctx) && PurseStep(c.purse, OnVendDenied(c).ctx.purse)
  {
  }

  lemma OnPauseToggleKeeps(c: Ctx)
    requires Inv(c)
    ensures Inv(OnPauseToggle(c).ctx) && PurseStep(c.purse, OnPauseToggle(c).ctx.purse)
  {
    HandleEventKeeps(c, ProgramPause);
    HandleEventKeeps(c, ProgramResume);
  }

  lemma OnSwitchKeeps(c: Ctx, e: Input)
    requires Inv(c)
    ensures Inv(OnSwitch(c, e).ctx) && PurseStep(c.purse, OnSwitch(c, e).ctx.purse)
  {
    hide ScaledRemainder;
  }

  lemma ScannedKeeps(c: Ctx)
    requires Inv(c)
    ensures var o := Dispatch(SetQrPending(c, true), UserActivity, Quiet, []);
      Inv(o.ctx) && PurseStep(c.purse, o.ctx.purse)
  {
    HandleEventKeeps(SetQrPending(c, true), UserActivity);
  }

  lemma StaysSound(c: Ctx)
    requires Inv(c)
    ensures PurseStep(c.purse, c.purse)
  {
  }

  lemma HandleKindKeeps(c: Ctx, e: Input, bus: Bus, kind: Kind)
    requires Inv(c)
    ensures Inv(HandleKind(c, e, bus, kind).ctx) && PurseStep(c.purse, HandleKind(c, e, bus, kind).ctx.purse)
  {
    hide Inv, PurseStep, Dispatch, OpenSession, OnCoin, OnToken, OnQrCredit, OnCardCredit, OnSelect, OnVendApproved,
         OnVendDenied, OnStop, OnPauseToggle, OnCreditEnded, OnSwitch;
    StaysSound(c);
    match kind
    case ActivityIn | TouchIn => ActivityKeeps(c, FromTouch);
    case KeyIn => ActivityKeeps(c, FromKey);
    case QrScannedIn => ScannedKeeps(c);
    case CoinIn | TokenIn | QrCreditIn => OnPaymentKeeps(c, e);
    case CardCreditIn => OnCardCreditKeeps(c, e);
    case SelectIn => OnSelectKeeps(c, e, bus);
    case VendApprovedIn => OnVendApprovedKeeps(c, e, bus);
    case VendDeniedIn => OnVendDeniedKeeps(c);
    case StopIn => OnStopKeeps(c, e);
    case PauseToggleIn => OnPauseToggleKeeps(c);
    case CreditEndedIn => OnCreditEndedKeeps(c, e);
    case SwitchIn => OnSwitchKeeps(c, e);
    case NoKind =>
  }

  lemma HandleInputKeeps(c: Ctx, e: Input, bus: Bus)
    requires Inv(c)
    ensures Inv(HandleInput(c, e, bus).ctx) && PurseStep(c.purse, HandleInput(c, e, bus).ctx.purse)
  {
    hide HandleKind, HandleEvent, EventCalls;
    if e.action == ActLvglEnter {
      HandleEventKeeps(c, EnterLvgl);
    } else if e.action == ActLvglExit {
      HandleEventKeeps(c, ExitLvgl);
    }
    HandleKindKeeps(c, e, bus, KindOf(e));
  }

  lemma CycleEndKeeps(c: Ctx)
    requires Inv(c) && c.state == Running
    ensures Inv(CycleEnd(c).ctx) && PurseStep(c.purse, CycleEnd(c).ctx.purse)
  {
    ChargeKeeps(c.purse, c.program.price);
    SetCreditKeeps(c.purse);
    HandleEventKeeps(c, ProgramStop);
  }

  lemma TickKeeps(c: Ctx, dt: UInt32, percent: nat)
    requires Inv(c)
    ensures Inv(Tick(c, dt, percent).ctx) && PurseStep(c.purse, Tick(c, dt, percent).ctx.purse)
  {
    var c1 := Idling(c, dt);
    if c.state == Running {
      CycleEndKeeps(c1.(program := Advance(c1.program, dt, percent)));
    } else if c.state == Credit {
      HandleEventKeeps(c1, Timeout);
    }
  }

  /** The card leaves during a program, and there is card or QR credit to hide. */
  predicate HidesCredit(c: Ctx) {
    && Active(c) && c.session.source == FromCard && !c.vend.pending && !c.session.removedDuringRun
    && (c.purse.card.coins + c.purse.qr.coins != 0 || c.purse.card.cents + c.purse.qr.cents != 0)
  }

  /** A tag removal leaves the totals balanced exactly when it hides nothing. */
  lemma TagRemovalUnbalancesIff(c: Ctx)
    requires Inv(c) && Balanced(c.purse)
    ensures Balanced(TagRemoved(c).purse) <==> !HidesCredit(c)
  {
  }

  /** One step of any kind.  Only the tag removal, which fsm.c does not do itself, can make the totals
      disagree with the buckets. */
  lemma StepKeeps(c: Ctx, s: Step)
    requires Inv(c)
    ensures Inv(Apply(c, s).ctx)
    ensures Balanced(c.purse) ==> (Balanced(Apply(c, s).ctx.purse) <==> !(s.TagGone? && HidesCredit(c)))
  {
    match s
    case In(e, bus) => HandleInputKeeps(c, e, bus);
    case Ticking(dt, percent) => TickKeeps(c, dt, percent);
    case TagGone => if Balanced(c.purse) {
      TagRemovalUnbalancesIff(c);
    }
    case Retime(_) =>
  }

  // ---------------------------------------------------------------- runs

  /** A state the firmware starts in: fsm_init, with or without the configured timings. */
  predicate Booted(c: Ctx) {
    c == Init() || c == Configure(Init(), c.settings.splash, c.settings.adsEnabled)
  }

  predicate EmptyPot(pot: Pot) {
    pot.coins == 0 && pot.used == 0 && pot.cents == 0
  }

  predicate Empty(p: Purse) {
    && EmptyPot(p.ecd) && EmptyPot(p.card) && EmptyPot(p.qr)
    && p.totals.credit == 0 && p.totals.vcd == 0 && p.totals.vcdUsed == 0 && p.totals.vcdCents == 0
    && p.ledger.accepted == 0 && p.ledger.charged == 0 && p.ledger.forfeited == 0
  }

  lemma EmptyIsBalanced(p: Purse)
    requires Empty(p)
    ensures Balanced(p)
  {
  }

  lemma EmptyBuckets(p: Purse)
    requires Empty(p)
    ensures BucketsOk(p)
  {
  }

  lemma EmptyConserved(p: Purse)
    requires Empty(p)
    ensures Conserved(p)
  {
  }

  lemma EmptyIsSound(p: Purse)
    requires Empty(p)
    ensures PurseOk(p)
  {
    EmptyBuckets(p);
    EmptyConserved(p);
  }

  lemma BootedIsEmpty(c: Ctx)
    requires Booted(c)
    ensures Empty(c.purse) && ControlOk(c) && HandshakeOk(c)
  {
  }

  /** What a machine starts with: at rest, no session, no program, a pause limit of a minute, a choice timeout
      of half a minute and advertisements. */
  lemma FactorySettings()
    ensures var c := Init();
      && c.state == Idle && c.program == Program(false, 0, 0, 60000, false, 0, 0, false, false)
      && c.session == Session(NoSource, NoSource, NoMode, false, false, false, false)
      && !c.vend.pending && c.inactivity == 0 && c.settings == Settings(30000, true)
  {
    hide EmptyPurse;
  }

  /** What the configuration changes in that. */
  lemma ConfiguredSettings(splash: UInt32, ads: bool)
    ensures var c := Configure(Init(), splash, ads);
      && c.state == (if ads then Ads else Credit) && c.settings == Settings(splash, ads)
      && c == Init().(state := c.state, settings := c.settings)
  {
    hide EmptyPurse;
  }

  lemma BootedIsGood(c: Ctx)
    requires Booted(c)
    ensures Inv(c) && Balanced(c.purse)
  {
    BootedIsEmpty(c);
    EmptyIsSound(c.purse);
    EmptyIsBalanced(c.purse);
  }

  lemma InitIsGood()
    ensures Inv(Init())
  {
    hide Init, Inv, Balanced;
    BootedIsGood(Init());
  }

  lemma ConfiguredIsGood(splash: UInt32, ads: bool)
    ensures Inv(Configure(Init(), splash, ads))
  {
    hide Init, Inv, Balanced;
    BootedIsGood(Configure(Init(), splash, ads));
  }

  lemma {:induction false} RunKeeps(c: Ctx, steps: seq<Step>)
    requires Inv(c)
    ensures Inv(Run(c, steps))
    decreases |steps|
  {
    if steps != [] {
      StepKeeps(c, steps[0]);
      RunKeeps(Apply(c, steps[0]).ctx, steps[1..]);
    }
  }

  /** No step of the run hides credit. */
  predicate HidesNothing(c: Ctx, steps: seq<Step>)
    decreases |steps|
  {
    steps != [] ==> !(steps[0].TagGone? && HidesCredit(c)) && HidesNothing(Apply(c, steps[0]).ctx, steps[1..])
  }

  lemma {:induction false} RunKeepsTotals(c: Ctx, steps: seq<Step>)
    requires Inv(c) && Balanced(c.purse) && HidesNothing(c, steps)
    ensures Balanced(Run(c, steps).purse)
    decreases |steps|
  {
    hide Inv, Balanced, Apply, HidesCredit;
    if steps != [] {
      StepKeeps(c, steps[0]);
      RunKeepsTotals(Apply(c, steps[0]).ctx, steps[1..]);
    }
  }

  lemma {:induction false} NoTagHidesNothing(c: Ctx, steps: seq<Step>)
    requires forall i :: 0 <= i < |steps| ==> !steps[i].TagGone?
    ensures HidesNothing(c, steps)
    decreases |steps|
  {
    hide Apply, HidesCredit;
    if steps != [] {
      NoTagHidesNothing(Apply(c, steps[0]).ctx, steps[1..]);
    }
  }

  /** In every run, whatever the events, the ticks, the reader's answers and the moments a card is
      taken away: no cent is created or lost, the cap holds, `program_running` means RUNNING, and a pending
      card vend is covered. */
  lemma MoneyIsConserved(start: Ctx, steps: seq<Step>)
    requires Booted(start)
    ensures Inv(Run(start, steps))
  {
    BootedIsGood(start);
    RunKeeps(start, steps);
  }

  /** As long as only fsm.c writes the context, the displayed totals are the sums of the buckets. */
  lemma TotalsAgree(start: Ctx, steps: seq<Step>)
    requires Booted(start)
    requires forall i :: 0 <= i < |steps| ==> !steps[i].TagGone?
    ensures Balanced(Run(start, steps).purse)
  {
    hide Run, Inv, Balanced, HidesNothing;
    BootedIsGood(start);
    NoTagHidesNothing(start, steps);
    RunKeepsTotals(start, steps);
  }

  ghost predicate ApprovalIsAtomic(c: Ctx, o: Outcome, bus: Bus) {
    if VendSuccess(Cents(c.vend.price)) in o.calls && bus.successOk then
      && o.ctx.state == Running && !o.ctx.vend.pending && o.ctx.program.price == c.vend.price
      && o.ctx.purse.ledger == c.purse.ledger.(charged := c.purse.ledger.charged + c.vend.price)
      && Held(o.ctx.purse) == Held(c.purse) - c.vend.price
    else o.ctx.purse == c.purse && o.ctx.state == c.state
  }

  lemma ApprovalAtomic(c: Ctx, e: Input, bus: Bus)
    requires Inv(c)
    ensures ApprovalIsAtomic(c, OnVendApproved(c, e, bus), bus)
  {
    ChargeExact(c.purse, c.vend.price);
  }

  /** In every reachable state, an approval either tells the reader the vend succeeded, charges exactly
      the price asked for and starts the program, or charges nothing and starts nothing. */
  lemma AcceptedVendAlwaysStarts(start: Ctx, steps: seq<Step>, e: Input, bus: Bus)
    requires Booted(start)
    ensures ApprovalIsAtomic(Run(start, steps), OnVendApproved(Run(start, steps), e, bus), bus)
  {
    MoneyIsConserved(start, steps);
    ApprovalAtomic(Run(start, steps), e, bus);
  }

  /** The rollback branches of both ways to start a program are dead code. */
  lemma RollbacksAreUnreachable(start: Ctx, steps: seq<Step>, e: Input, bus: Bus)
    requires Booted(start)
    ensures OnVendApproved(Run(start, steps), e, bus).note !in {PriceLost, ChargeLost, StartLost}
    ensures OnSelect(Run(start, steps), e, bus).note != StartRefunded
  {
    MoneyIsConserved(start, steps);
    OnVendApprovedKeeps(Run(start, steps), e, bus);
    OnSelectKeeps(Run(start, steps), e, bus);
  }
}
