/**
 What becomes of card credit that fsm_task hides when the card is taken away during a program: the totals
 are cleared, the buckets are not.
 */
module HiddenCredit {
  import opened Fsm
  import opened FsmSafety
  import opened FsmPurse
  import opened FsmLedger

  // ---------------------------------------------------------------- at the removal

  lemma TagRemovalKeepsPots(c: Ctx)
    ensures var p := TagRemoved(c).purse;
      p.ecd == c.purse.ecd && p.card == c.purse.card && p.qr == c.purse.qr && p.ledger == c.purse.ledger
  {
  }

  lemma AddCreditIgnoresTotals(p: Purse, q: Purse, cents: int, b: Bucket)
    requires cents > 0
    requires p.ecd == q.ecd && p.card == q.card && p.qr == q.qr && p.ledger == q.ledger
    ensures AddCredit(p, cents, b) == AddCredit(q, cents, b)
  {
  }

  /** A credit update right after a removal gives what it would have given without it. */
  lemma RemovalLeavesNoTrace(c: Ctx, cents: int, b: Bucket)
    requires cents > 0
    ensures AddCredit(TagRemoved(c).purse, cents, b) == AddCredit(c.purse, cents, b)
  {
    TagRemovalKeepsPots(c);
    AddCreditIgnoresTotals(TagRemoved(c).purse, c.purse, cents, b);
  }

  /** But no payment event gets there while the program is active: it changes nothing at all. */
  lemma NoPaymentDuringProgram(c: Ctx, e: Input, bus: Bus)
    requires Active(c) && PaymentKind(e.kind) && e.action != ActSystemError && e.action != ActSystemRun
    ensures HandleInput(c, e, bus) == Refuse(c, Quiet)
  {
  }

  // ---------------------------------------------------------------- over runs

  ghost predicate SameCoins(p: Purse, q: Purse) {
    && p.ecd.coins == q.ecd.coins && p.card.coins == q.card.coins && p.qr.coins == q.qr.coins
    && p.ecd.cents == q.ecd.cents && p.card.cents == q.card.cents && p.qr.cents == q.qr.cents
  }

  /** No money moves in a bucket unless the ledger says so; and an accepted payment shows all there is. */
  ghost predicate CoinStep(p: Purse, q: Purse) {
    && (q.ledger == p.ledger ==> SameCoins(p, q))
    && (q.ledger.accepted != p.ledger.accepted ==> Balanced(q) && Held(p) <= Held(q))
  }

  lemma SetCreditCoins(p: Purse, credit: int)
    ensures CoinStep(p, SetCredit(p, credit)) && CoinStep(p, p)
  {
  }

  lemma TimeoutCoins(p: Purse)
    requires BucketsOk(p)
    ensures CoinStep(p, TimeoutPurse(p))
  {
  }

  lemma EndedCoins(p: Purse, virtualOnly: bool)
    requires BucketsOk(p)
    ensures CoinStep(p, EndedPurse(p, virtualOnly))
  {
  }

  lemma AddCreditCoins(p: Purse, cents: int, b: Bucket)
    requires BucketsOk(p)
    ensures CoinStep(p, AddCredit(p, cents, b))
  {
  }

  lemma EventCoins(c: Ctx, ev: Event)
    requires BucketsOk(c.purse)
    ensures CoinStep(c.purse, HandleEvent(c, ev).purse)
    ensures ev != Timeout && ev != ProgramStop ==> HandleEvent(c, ev).purse == c.purse
  {
    hide HandleEvent, CoinStep, TimeoutPurse, SetCredit, BucketsOk, StaysInCredit;
    EventPurse(c, ev);
    TimeoutCoins(c.purse);
    SetCreditCoins(c.purse, Available(c.purse));
  }

  lemma PaymentCoins(c: Ctx, cents: int, b: Bucket, pay: Source)
    requires BucketsOk(c.purse)
    ensures CoinStep(c.purse, TakePayment(c, cents, b, pay).purse)
    ensures CoinStep(c.purse, Dispatch(TakePayment(c, cents, b, pay), PaymentAccepted, Quiet, []).ctx.purse)
  {
    hide HandleEvent, CoinStep, AddCredit, BucketsOk, EventCalls;
    AddCreditCoins(c.purse, cents, b);
    SetCreditCoins(c.purse, 0);
    EventPurse(TakePayment(c, cents, b, pay), PaymentAccepted);
  }

  lemma PaymentKindCoins(c: Ctx, e: Input, bus: Bus, kind: Kind)
    requires BucketsOk(c.purse) && PaymentKind(kind)
    ensures CoinStep(c.purse, HandleKind(c, e, bus, kind).ctx.purse)
  {
    hide HandleEvent, CoinStep, TakePayment, BucketsOk, EventCalls;
    match kind
    case CoinIn => PaymentCoins(OpenSession(c, FromCoin), e.i32, Ecd, FromCoin);
    case TokenIn =>
      PaymentCoins(OpenSession(c, FromCoin), e.i32, Ecd, if e.fromCctalk then FromCctalk else FromCoin);
    case QrCreditIn => PaymentCoins(OpenSession(SetQrPending(c, false), FromQr), e.i32, VcdQr, FromQr);
    case CardCreditIn => {
      var c0 := SetQrPending(c, false);
      PaymentCoins(c0, e.i32, VcdCard, FromCard);
      var c1 := OpenSession(c0, FromCard);
      PaymentCoins(c1.(session := c1.session.(removedDuringRun := false)), e.i32, VcdCard, FromCard);
      SetCreditCoins(c.purse, 0);
    }
    case QrScannedIn => EventCoins(SetQrPending(c, true), UserActivity);
  }

  lemma PaidCoins(c: Ctx, s: Step, n: Ctx)
    requires n.purse == c.purse || PaidStep(c, s, n)
    ensures CoinStep(c.purse, n.purse)
  {
  }

  lemma CreditEndedCoins(c: Ctx, e: Input)
    requires BucketsOk(c.purse)
    ensures CoinStep(c.purse, OnCreditEnded(c, e).ctx.purse)
  {
    hide HandleEvent, CoinStep, EndedPurse, BucketsOk, EventCalls;
    EndedCoins(c.purse, e.aux == 1);
    var c1 := if c.vend.pending then ResetVend(c) else c;
    var c2 := if e.aux == 1 && c.session.source == FromCard
              then c1.(session := c.session.(completeRequired := false, removedDuringRun := false)) else c1;
    EventPurse(c2.(purse := EndedPurse(c.purse, e.aux == 1)), CreditEnded);
  }

  lemma OtherKindCoins(c: Ctx, e: Input, bus: Bus, kind: Kind)
    requires BucketsOk(c.purse)
    requires !PaymentKind(kind) && kind !in {SelectIn, VendApprovedIn, CreditEndedIn}
    ensures CoinStep(c.purse, HandleKind(c, e, bus, kind).ctx.purse)
  {
    hide HandleEvent, CoinStep, BucketsOk, EventCalls, ScaledRemainder;
    SetCreditCoins(c.purse, 0);
    match kind
    case ActivityIn | TouchIn => EventCoins(if Locked(c) then c else OpenSession(c, FromTouch), UserActivity);
    case KeyIn => EventCoins(if Locked(c) then c else OpenSession(c, FromKey), UserActivity);
    case StopIn => {
      EventCoins(c.(program := c.program.(stopAfter := true)), ProgramResume);
      EventCoins(c, ProgramStop);
    }
    case PauseToggleIn => {
      EventCoins(c, ProgramPause);
      EventCoins(c, ProgramResume);
    }
    case VendDeniedIn | SwitchIn | NoKind =>
  }

  lemma KindCoins(c: Ctx, e: Input, bus: Bus)
    requires Inv(c)
    ensures CoinStep(c.purse, HandleKind(c, e, bus, KindOf(e)).ctx.purse)
  {
    hide Inv, BucketsOk, CoinStep, OnSelect, OnVendApproved, OnCreditEnded, PaidStep;
    SoundBuckets(c);
    var kind := KindOf(e);
    if PaymentKind(kind) {
      hide HandleKind;
      PaymentKindCoins(c, e, bus, kind);
    } else if kind == SelectIn {
      SelectLedger(c, e, bus);
      PaidCoins(c, In(e, bus), OnSelect(c, e, bus).ctx);
    } else if kind == VendApprovedIn {
      ApprovalLedger(c, e, bus);
      PaidCoins(c, In(e, bus), OnVendApproved(c, e, bus).ctx);
    } else if kind == CreditEndedIn {
      CreditEndedCoins(c, e);
    } else {
      hide HandleKind;
      OtherKindCoins(c, e, bus, kind);
    }
  }

  lemma InputCoins(c: Ctx, e: Input, bus: Bus)
    requires Inv(c)
    ensures CoinStep(c.purse, HandleInput(c, e, bus).ctx.purse)
  {
    hide Inv, BucketsOk, CoinStep, HandleKind, HandleEvent, EventCalls;
    SoundBuckets(c);
    SetCreditCoins(c.purse, 0);
    EventCoins(c, EnterLvgl);
    EventCoins(c, ExitLvgl);
    KindCoins(c, e, bus);
  }

  lemma ChargeCoins(p: Purse, cost: int)
    requires BucketsOk(p)
    ensures CoinStep(p, Charge(p, cost).0)
    ensures !Charge(p, cost).1 ==> Charge(p, cost).0 == p
  {
    ChargeExact(p, cost);
  }

  lemma CycleEndCoins(c: Ctx)
    requires BucketsOk(c.purse)
    ensures CoinStep(c.purse, CycleEnd(c).ctx.purse)
  {
    hide HandleEvent, CoinStep, BucketsOk, EventCalls, Charge;
    ChargeCoins(c.purse, c.program.price);
    SetCreditCoins(c.purse, 0);
    EventCoins(c, ProgramStop);
  }

  lemma TickCoins(c: Ctx, dt: UInt32, percent: nat)
    requires BucketsOk(c.purse)
    ensures CoinStep(c.purse, Tick(c, dt, percent).ctx.purse)
  {
    hide HandleEvent, CoinStep, BucketsOk, EventCalls, CycleEnd, Advance;
    SetCreditCoins(c.purse, 0);
    var c1 := Idling(c, dt);
    if c.state == Running {
      CycleEndCoins(c1.(program := Advance(c1.program, dt, percent)));
    } else if c.state == Paused {
      var g := c.program.(pauseElapsed := Wrap(c.program.pauseElapsed + dt), pauseLimit := true);
      EventCoins(c1.(program := g), ProgramResume);
    } else if c.state == Credit {
      EventCoins(c1, Timeout);
    }
  }

  lemma StepCoins(c: Ctx, s: Step)
    requires Inv(c)
    ensures CoinStep(c.purse, Apply(c, s).ctx.purse)
  {
    hide Inv, BucketsOk, HandleInput, Tick;
    match s
    case In(e, bus) => InputCoins(c, e, bus);
    case Ticking(dt, percent) => {
      SoundBuckets(c);
      TickCoins(c, dt, percent);
    }
    case TagGone => TagRemovalKeepsPots(c);
    case Retime(_) =>
  }

  /** No step of the run moves the ledger: nothing is accepted, charged or written off. */
  predicate StillRun(c: Ctx, steps: seq<Step>)
    decreases |steps|
  {
    steps != [] ==>
      Apply(c, steps[0]).ctx.purse.ledger == c.purse.ledger && StillRun(Apply(c, steps[0]).ctx, steps[1..])
  }

  lemma {:induction false} StillRunKeepsCoins(c: Ctx, steps: seq<Step>)
    requires Inv(c) && StillRun(c, steps)
    ensures SameCoins(c.purse, Run(c, steps).purse)
    decreases |steps|
  {
    hide Apply, Inv;
    if steps != [] {
      StepCoins(c, steps[0]);
      StepKeeps(c, steps[0]);
      StillRunKeepsCoins(Apply(c, steps[0]).ctx, steps[1..]);
    }
  }

  lemma HeldOfSameCoins(p: Purse, q: Purse)
    requires SameCoins(p, q)
    ensures Held(p) == Held(q)
  {
  }

  lemma RemovalIsStep(c: Ctx)
    ensures Apply(c, TagGone).ctx == TagRemoved(c)
  {
  }

  /** Credit hidden by a removal stays in the buckets through every run that moves no money, and the next
      payment accepted, whatever its kind, shows all of it again. */
  lemma HiddenCardCreditComesBack(c: Ctx, steps: seq<Step>, payment: Step)
    requires Inv(c) && StillRun(TagRemoved(c), steps)
    ensures SameCoins(c.purse, Run(TagRemoved(c), steps).purse)
    ensures var before := Run(TagRemoved(c), steps); var after := Apply(before, payment).ctx;
      after.purse.ledger.accepted != before.purse.ledger.accepted ==>
        after.purse.totals.credit == Held(after.purse) && Held(c.purse) <= Held(after.purse)
  {
    hide Apply, Run, Inv, StillRun, TagRemoved;
    var removed := TagRemoved(c);
    TagRemovalKeepsPots(c);
    assert Inv(removed) by {
      StepKeeps(c, TagGone);
      RemovalIsStep(c);
    }
    StillRunKeepsCoins(removed, steps);
    RunKeeps(removed, steps);
    var before := Run(removed, steps);
    HeldOfSameCoins(c.purse, before.purse);
    StepCoins(before, payment);
  }

  // A run in which credit is hidden: five coins from a card, a vend for two of them approved, the card gone.

  const YES := Bus(true, true)

  function TopUp(): Step {
    In(Input(NoAction, CardCreditIn, false, 500, 0, 0), YES)
  }

  function AskForTwo(): Step {
    In(Input(NoAction, SelectIn, false, 2, 0, 60000), YES)
  }

  function Approve(): Step {
    In(Input(NoAction, VendApprovedIn, false, 0, 0, 0), YES)
  }

  ghost predicate CardSession(c: Ctx, coins: int) {
    && c.session.source == FromCard && !c.session.removedDuringRun
    && c.purse.card.coins == coins && c.purse.ecd.coins == 0 && c.purse.qr.coins == 0 && c.purse.totals.credit == coins
  }

  ghost predicate NothingHeld(p: Purse) {
    Held(p) == p.ecd.coins == p.qr.coins == p.card.cents == 0
  }

  lemma EmptyHoldsNothing(p: Purse)
    requires Empty(p)
    ensures NothingHeld(p)
  {
  }

  lemma AfterTopUp(c: Ctx)
    requires c.state in {Idle, Ads, Credit} && !c.vend.pending && NothingHeld(c.purse)
    ensures var n := Apply(c, TopUp()).ctx;
      n.state == Credit && !n.vend.pending && CardSession(n, 5) && n.settings == c.settings
  {
  }

  lemma AtStart(c: Ctx)
    requires Booted(c)
    ensures c.state in {Idle, Ads, Credit} && !c.vend.pending
  {
    hide EmptyPurse;
  }

  lemma AfterRequest(c: Ctx)
    requires c.state == Credit && !c.vend.pending && CardSession(c, 5)
    ensures var n := Apply(c, AskForTwo()).ctx;
      && n.state == Credit && n.vend.pending && n.vend.price == 2 && n.vend.target == 60000
      && CardSession(n, 5) && n.settings == c.settings
  {
  }

  /** A one-minute program just started, three coins of card credit left. */
  ghost predicate CardProgram(c: Ctx) {
    && c.state == Running && !c.vend.pending && CardSession(c, 3)
    && c.program.elapsed == 0 && c.program.target == 60000
  }

  lemma AfterApproval(c: Ctx)
    requires c.state == Credit && c.vend.pending && c.vend.price == 2 && c.vend.target == 60000 && CardSession(c, 5)
    ensures var n := Apply(c, Approve()).ctx; CardProgram(n) && n.settings == c.settings
  {
  }

  lemma RunCons(c: Ctx, s: Step, steps: seq<Step>)
    ensures Run(c, [s] + steps) == Run(Apply(c, s).ctx, steps)
  {
    hide Apply;
    assert ([s] + steps)[1..] == steps;
  }

  function Start(): seq<Step> {
    [TopUp()] + ([AskForTwo()] + ([Approve()] + []))
  }

  lemma RunNothing(c: Ctx)
    ensures Run(c, []) == c
  {
  }

  lemma AfterStart(start: Ctx)
    requires Booted(start)
    ensures var c := Run(start, Start()); CardProgram(c) && c.settings == start.settings
  {
    hide Apply, Run, Booted, Empty, NothingHeld, CardSession, CardProgram, TopUp, AskForTwo, Approve;
    var c1 := Apply(start, TopUp()).ctx;
    var c2 := Apply(c1, AskForTwo()).ctx;
    var c3 := Apply(c2, Approve()).ctx;
    AtStart(start);
    BootedIsEmpty(start);
    EmptyHoldsNothing(start.purse);
    AfterTopUp(start);
    AfterRequest(c1);
    AfterApproval(c2);
    RunCons(start, TopUp(), [AskForTwo()] + ([Approve()] + []));
    RunCons(c1, AskForTwo(), [Approve()] + []);
    RunCons(c2, Approve(), []);
    RunNothing(c3);
  }

  lemma AfterRemoval(c: Ctx)
    requires CardProgram(c)
    ensures var n := Apply(c, TagGone).ctx;
      && Held(n.purse) == 3 && n.purse.totals.credit == 0 && !Balanced(n.purse)
      && n.state == Running && n.session.source == FromCard && n.session.removedDuringRun && !n.vend.pending
      && n.program == c.program && n.settings == c.settings && n.purse.totals.vcd == 0
      && SameCoins(c.purse, n.purse) && n.purse.ledger == c.purse.ledger
  {
  }

  /** From every start: three coins are held and none are shown. */
  lemma CreditCanBeHidden(start: Ctx)
    requires Booted(start)
    ensures var n := Apply(Run(start, Start()), TagGone).ctx;
      Held(n.purse) == 3 && n.purse.totals.credit == 0 && !Balanced(n.purse)
  {
    hide Run, Booted;
    AfterStart(start);
    AfterRemoval(Run(start, Start()));
  }

  // A run in which hidden credit is lost: the program ends, the machine is touched, nobody chooses in time.

  function EndOfProgram(): Step {
    Ticking(60000, 0)
  }

  function Touch(): Step {
    In(Input(NoAction, TouchIn, false, 0, 0, 0), YES)
  }

  function NobodyChooses(): Step {
    Ticking(30000, 0)
  }

  function OneCoin(): Step {
    In(Input(NoAction, CoinIn, false, 100, 0, 0), YES)
  }

  /** At rest with three coins of card credit in the bucket. */
  ghost predicate AtRest(c: Ctx, ledger: Ledger) {
    && (c.state == Idle || c.state == Ads) && c.session.mode == NoMode && !c.vend.pending
    && c.purse.card.coins == 3 && c.purse.ecd.coins == 0 && c.purse.qr.coins == 0 && c.purse.ledger == ledger
  }

  lemma ProgramEnds(c: Ctx)
    requires c.state == Running && c.session.source == FromCard && c.session.removedDuringRun && !c.vend.pending
    requires c.program.elapsed == 0 && c.program.target == 60000
    requires c.purse.card.coins == 3 && c.purse.ecd.coins == 0 && c.purse.qr.coins == 0 && c.purse.totals.vcd == 0
    ensures var n := Apply(c, EndOfProgram()).ctx;
      AtRest(n, c.purse.ledger) && n.settings == c.settings && SameCoins(c.purse, n.purse)
  {
  }

  lemma Touched(c: Ctx)
    requires AtRest(c, c.purse.ledger)
    ensures var n := Apply(c, Touch()).ctx;
      n.state == Credit && n.inactivity == 0 && n.settings == c.settings && n.purse == c.purse && !n.vend.pending
  {
  }

  lemma TimedOut(c: Ctx)
    requires c.state == Credit && c.inactivity == 0 && c.settings.splash == 30000 && c.purse.ecd.coins == 0
    ensures var n := Apply(c, NobodyChooses()).ctx;
      && n.state in {Idle, Ads} && NothingHeld(n.purse) && n.purse.ecd.cents == 0
      && n.purse.ledger.forfeited == c.purse.ledger.forfeited + VirtualCents(c.purse) + c.purse.ecd.cents
  {
  }

  lemma CoinPaid(c: Ctx)
    requires c.state in {Idle, Ads} && NothingHeld(c.purse) && c.purse.ecd.cents == 0
    ensures var n := Apply(c, OneCoin()).ctx;
      Held(n.purse) == 1 && n.purse.totals.credit == 1 && n.purse.ledger.forfeited == c.purse.ledger.forfeited
  {
  }

  /** With a 30-second choice timeout: after the removal, the end of the program, a touch, the timeout and a
      coin, the three hidden coins are written off and only the new coin shows. */
  lemma HiddenCreditCanBeLost(start: Ctx)
    requires Booted(start) && start.settings.splash == 30000
    ensures var c := Run(start, Start());
      var n := Run(c, [TagGone] + ([EndOfProgram()] + ([Touch()] + ([NobodyChooses()] + ([OneCoin()] + [])))));
      && Held(c.purse) == 3 && Held(n.purse) == n.purse.totals.credit == 1
      && n.purse.ledger.forfeited == c.purse.ledger.forfeited + 300 + Residuals(c.purse)
  {
    hide Apply, Run, Booted, Start, EndOfProgram, Touch, NobodyChooses, OneCoin, NothingHeld;
    AfterStart(start);
    var c := Run(start, Start());
    var c1 := Apply(c, TagGone).ctx;
    var c2 := Apply(c1, EndOfProgram()).ctx;
    var c3 := Apply(c2, Touch()).ctx;
    var c4 := Apply(c3, NobodyChooses()).ctx;
    AfterRemoval(c);
    ProgramEnds(c1);
    Touched(c2);
    TimedOut(c3);
    CoinPaid(c4);
    RunCons(c, TagGone, [EndOfProgram()] + ([Touch()] + ([NobodyChooses()] + ([OneCoin()] + []))));
    RunCons(c1, EndOfProgram(), [Touch()] + ([NobodyChooses()] + ([OneCoin()] + [])));
    RunCons(c2, Touch(), [NobodyChooses()] + ([OneCoin()] + []));
    RunCons(c3, NobodyChooses(), [OneCoin()] + []);
    RunCons(c4, OneCoin(), []);
    RunNothing(Apply(c4, OneCoin()).ctx);
  }

  lemma CoinShowsAll(c: Ctx)
    requires AtRest(c, c.purse.ledger) && 0 <= c.purse.ecd.cents < 100
    ensures Apply(c, OneCoin()).ctx.purse.totals.credit == 4
  {
  }

  lemma CentsBelowCoin(c: Ctx)
    requires Inv(c)
    ensures 0 <= c.purse.ecd.cents < 100
  {
  }

  /** A coin paid right after the program brings all of it back: three hidden coins and the new one. */
  lemma HiddenCreditReturns(start: Ctx)
    requires Booted(start)
    ensures Run(Run(start, Start()), [TagGone] + ([EndOfProgram()] + ([OneCoin()] + []))).purse.totals.credit == 4
  {
    hide Apply, Run, Booted, Start, EndOfProgram, OneCoin, Inv, AtRest;
    AfterStart(start);
    var c := Run(start, Start());
    var c1 := Apply(c, TagGone).ctx;
    var c2 := Apply(c1, EndOfProgram()).ctx;
    AfterRemoval(c);
    ProgramEnds(c1);
    MoneyIsConserved(start, Start());
    CentsBelowCoin(c);
    CoinShowsAll(c2);
    RunCons(c, TagGone, [EndOfProgram()] + ([OneCoin()] + []));
    RunCons(c1, EndOfProgram(), [OneCoin()] + []);
    RunCons(c2, OneCoin(), []);
    RunNothing(Apply(c2, OneCoin()).ctx);
  }
}
