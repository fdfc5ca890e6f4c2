/**
 The state machine but for the money as one flat table: for every step, by the state it starts from and the
 data it looks at, the next state, session, program, pending vend and timers, the requests to the reader and
 the result.  The layered handlers of Fsm.dfy are proved to follow it.
 */
module FsmTable {
  import opened Fsm
  import opened FsmSafety

  /** A whole context without the purse, and what a step reports; amounts in the calls are cents. */
  datatype Control = Control(state: State, session: Session, program: Program, vend: PendingVend, idle: UInt32,
                             oosAgent: Int32, settings: Settings, calls: seq<Call>, changed: bool)

  function Seen(o: Outcome): Control {
    Control(o.ctx.state, o.ctx.session, o.ctx.program, o.ctx.vend, o.ctx.inactivity, o.ctx.oosAgent, o.ctx.settings,
            o.calls, o.changed)
  }

  function Stay(c: Ctx): Control {
    Control(c.state, c.session, c.program, c.vend, c.inactivity, c.oosAgent, c.settings, [], false)
  }

  predicate Resting(c: Ctx) {
    c.state == Idle || c.state == Ads
  }

  function Rest(c: Ctx): State {
    if c.settings.adsEnabled then Ads else Idle
  }

  predicate WithCard(c: Ctx) {
    c.session.source == FromCard
  }

  /** Who paid, as far as it is remembered at the end of a program or of a choice. */
  function Payer(c: Ctx): Source {
    if c.session.source == FromCard || c.session.source == FromQr then c.session.paySource else NoSource
  }

  // ---------------------------------------------------------------- programs

  /** No program: only the pause limit is remembered. */
  function NoProgram(g: Program): Program {
    Program(false, 0, 0, g.pauseMax, false, 0, 0, false, false)
  }

  /** What is asked for, zero meaning the limit there was. */
  function Chosen(g: Program, pause: UInt32, target: UInt32, price: Int32): Program {
    g.(pauseMax := if pause == 0 then g.pauseMax else pause, target := if target == 0 then g.target else target,
       price := price)
  }

  function Begun(g: Program): Program {
    g.(running := true, elapsed := 0, pauseElapsed := 0, pauseLimit := false)
  }

  function OnHold(g: Program): Program {
    g.(running := false, pauseElapsed := 0, pauseLimit := false)
  }

  function Resumed(g: Program): Program {
    g.(running := true, pauseElapsed := 0, pauseLimit := false)
  }

  // ---------------------------------------------------------------- the table

  /** Activity and payments open a session in any state and wake the machine up. */
  function Opened(c: Ctx, source: Source): Control {
    Stay(c).(session := c.session.(source := source, mode := OpenPayments, allowMore := true),
             state := if Resting(c) then Credit else c.state,
             idle := if Resting(c) || c.state == Credit then 0 else c.inactivity)
  }

  function Paid(t: Control, cents: int, pay: Source): Control {
    if cents > 0 then t.(session := t.session.(paySource := pay)) else t
  }

  function Gone(t: Control, state: State): Control {
    t.(state := state, program := NoProgram(t.program), idle := 0, changed := true,
       session := t.session.(mode := NoMode, source := NoSource, allowMore := false, paySource := NoSource))
  }

  /** Left for good: whether the card was taken away is forgotten too. */
  function Over(t: Control, state: State): Control {
    Gone(t, state).(session := Gone(t, state).session.(removedDuringRun := false))
  }

  /** Back to CREDIT, the session going on. */
  function Back(c: Ctx, t: Control): Control {
    t.(state := Credit, program := NoProgram(t.program), idle := 0, changed := true,
       session := t.session.(paySource := Payer(c)))
  }

  /** The program is left by a stop: to CREDIT while there is credit or the card is still there. */
  function Stopped(c: Ctx): Control {
    var t := Stay(c).(calls := if WithCard(c) && c.session.completeRequired then [SessionComplete] else [],
                      session := c.session.(completeRequired := c.session.completeRequired && !WithCard(c)));
    if c.purse.totals.credit > 0 || c.purse.ecd.coins + c.purse.totals.vcd > 0
       || (WithCard(c) && !c.session.removedDuringRun)
    then Back(c, t)
    else Over(t, Rest(c))
  }

  function Ended(c: Ctx, e: Input): Control {
    var card := e.aux == 1 && WithCard(c);
    var t := Stay(c).(calls := if c.vend.pending then [SessionComplete] else [],
                      vend := if c.vend.pending then PendingVend(false, 0, 0, 0) else c.vend,
                      session := c.session.(completeRequired := c.session.completeRequired && !card,
                                            removedDuringRun := c.session.removedDuringRun && !card));
    if c.state == Credit then Gone(t, Rest(c))
    else if c.state == Running && WithCard(c) && t.session.completeRequired then
      Over(t.(calls := t.calls + [SessionComplete], session := t.session.(completeRequired := false)), Idle)
    else if Active(c) then Over(t, Idle)
    else t
  }

  function Selected(c: Ctx, e: Input, bus: Bus): Control {
    if c.state != Credit || c.vend.pending || c.purse.totals.credit <= 0 then Stay(c)
    else if !WithCard(c) then
      var g := Chosen(c.program, e.u32, e.aux, if e.i32 > 0 then e.i32 else 0);
      if e.i32 <= c.purse.totals.credit then Stay(c).(state := Running, program := Begun(g), idle := 0, changed := true)
      else Stay(c).(program := g)
    else if 0 < e.i32 <= c.purse.totals.credit && e.i32 <= 655 then
      Stay(c).(calls := [Vend(100 * e.i32)], changed := bus.vendOk,
               vend := if bus.vendOk then PendingVend(true, e.i32, e.u32, e.aux) else PendingVend(false, 0, 0, 0))
    else Stay(c)
  }

  function Approved(c: Ctx, e: Input, bus: Bus): Control {
    if !c.vend.pending || !WithCard(c) || c.state != Credit then Stay(c)
    else
      var cents := 100 * c.vend.price;
      var t := Stay(c).(vend := PendingVend(false, 0, 0, 0));
      if e.i32 > 0 && e.i32 != cents then t.(calls := [SessionComplete])
      else if !bus.successOk then t.(calls := [VendSuccess(cents), SessionComplete])
      else
        t.(calls := [VendSuccess(cents)], state := Running, idle := 0, changed := true,
           program := Begun(Chosen(c.program, c.vend.pause, c.vend.target, c.vend.price)),
           session := c.session.(completeRequired := true))
  }

  /** A stop at the end of the cycle; a paused program goes on until then. */
  function StopAsked(c: Ctx): Control {
    var g := c.program.(stopAfter := true);
    if c.state == Paused then Stay(c).(state := Running, program := Resumed(g), idle := 0, changed := true)
    else Stay(c).(program := g, changed := true)
  }

  function Switched(c: Ctx, e: Input): Control {
    var g := c.program.(target := SwitchTarget(c.program, e), price := if e.i32 > 0 then e.i32 else c.program.price,
                        pauseMax := if e.u32 == 0 then c.program.pauseMax else e.u32);
    if c.state == Paused then Stay(c).(state := Running, program := Resumed(g), idle := 0, changed := true)
    else Stay(c).(program := g)
  }

  function Scanned(c: Ctx): Control {
    var t := Stay(c).(session := c.session.(qrPending := true));
    if Resting(c) then Back(c, t) else if c.state == Credit then t.(idle := 0) else t
  }

  function CardTable(c: Ctx, e: Input): Control {
    var seen := c.session.(qrPending := false);
    if Active(c) then Paid(Stay(c).(session := seen), e.i32, FromCard).(changed := e.i32 > 0)
    else if c.vend.pending then Stay(c).(session := seen)
    else
      var t := Opened(c, FromCard);
      Paid(t.(session := t.session.(qrPending := false, removedDuringRun := false)), e.i32, FromCard)
  }

  function QrTable(c: Ctx, e: Input): Control {
    var t := Opened(c, FromQr);
    Paid(t.(session := t.session.(qrPending := false)), e.i32, FromQr)
  }

  function KindTable(c: Ctx, e: Input, bus: Bus, kind: Kind): Control {
    match kind
    case ActivityIn | TouchIn => Opened(c, FromTouch)
    case KeyIn => Opened(c, FromKey)
    case CoinIn => Paid(Opened(c, FromCoin), e.i32, FromCoin)
    case TokenIn => Paid(Opened(c, FromCoin), e.i32, if e.fromCctalk then FromCctalk else FromCoin)
    case QrCreditIn => QrTable(c, e)
    case QrScannedIn => Scanned(c)
    case CardCreditIn => CardTable(c, e)
    case SelectIn => Selected(c, e, bus)
    case VendApprovedIn => Approved(c, e, bus)
    case VendDeniedIn =>
      if c.vend.pending && WithCard(c)
      then Stay(c).(vend := PendingVend(false, 0, 0, 0), calls := [SessionComplete], changed := true)
      else Stay(c)
    case StopIn => if !Active(c) then Stay(c) else if e.aux == 1 then StopAsked(c) else Stopped(c)
    case PauseToggleIn =>
      if c.state == Running then Stay(c).(state := Paused, program := OnHold(c.program), idle := 0, changed := true)
      else if c.state == Paused then
        Stay(c).(state := Running, program := Resumed(c.program), idle := 0, changed := true)
      else Stay(c)
    case CreditEndedIn => Ended(c, e)
    case SwitchIn => if Active(c) then Switched(c, e) else Stay(c)
    case NoKind => Stay(c)
  }

  /** What an event means; one that has only an action means what the action says. */
  function Meaning(e: Input): Kind {
    if e.kind != NoKind then e.kind
    else if e.action == ActActivity then ActivityIn
    else if e.action == ActPayment then CoinIn
    else if e.action == ActSelect then SelectIn
    else if e.action == ActStop then StopIn
    else if e.action == ActPauseToggle then PauseToggleIn
    else if e.action == ActCreditEnded then CreditEndedIn
    else NoKind
  }

  function OutOfOrder(c: Ctx, agent: Int32): Control {
    Stay(c).(state := OutOfService, program := c.program.(running := false), oosAgent := agent,
             changed := c.state != OutOfService)
  }

  function InputTable(c: Ctx, e: Input, bus: Bus): Control {
    if e.action == ActSystemError then OutOfOrder(c, e.i32)
    else if c.state == OutOfService then
      if e.action == ActSystemRun then Stay(c).(state := Idle, oosAgent := 0, changed := true) else Stay(c)
    else if e.action == ActSystemRun then Stay(c)
    else if Active(c) && e.kind in {CoinIn, TokenIn, QrCreditIn, QrScannedIn, CardCreditIn} then Stay(c)
    else if e.kind == NoKind && e.action == ActLvglEnter then
      if c.state == LvglTest then Stay(c)
      else Stay(c).(state := LvglTest, program := c.program.(running := false), changed := true)
    else if e.kind == NoKind && e.action == ActLvglExit then
      if c.state == LvglTest then Stay(c).(state := Idle, changed := true) else Stay(c)
    else KindTable(c, e, bus, Meaning(e))
  }

  function Passed(timer: UInt32, dt: UInt32): UInt32 {
    (timer + dt) % 0x1_0000_0000
  }

  /** The idle time after `dt` more milliseconds, which is kept from growing for ever. */
  function IdleTime(c: Ctx, dt: UInt32): UInt32 {
    var ceiling := (c.settings.splash + 5000) % 0x1_0000_0000;
    if Passed(c.inactivity, dt) > ceiling then ceiling else Passed(c.inactivity, dt)
  }

  /** The next cycle is paid for: from coins or QR credit that suffice, unless a stop was asked for. */
  predicate Renewing(c: Ctx) {
    && 0 < c.program.price <= c.purse.totals.credit && c.purse.ecd.coins + c.purse.totals.vcd > 0
    && !WithCard(c) && c.session.paySource != FromCard && !c.session.removedDuringRun && !c.program.stopAfter
  }

  /** The end of a cycle comes near: from the configured percentage of the target on. */
  predicate NearEnd(g: Program, percent: nat) {
    0 < percent < 100 && g.target > 0 && g.elapsed >= (g.target * percent) % 0x1_0000_0000 / 100
  }

  function Counted(g: Program, dt: UInt32, percent: nat): Program {
    var g1 := g.(elapsed := Passed(g.elapsed, dt));
    if NearEnd(g1, percent) then g1.(preFine := true) else g1
  }

  function CycleTable(c: Ctx): Control {
    if Renewing(c) then
      Stay(c).(program := c.program.(elapsed := 0, pauseElapsed := 0, pauseLimit := false, running := true,
                                     preFine := false))
    else if c.purse.ecd.coins + c.purse.totals.vcd > 0 then Stopped(c)
    else if WithCard(c) && !c.session.removedDuringRun then Back(c, Stay(c))
    else Over(Stay(c), Rest(c))
  }

  function TickTable(c: Ctx, dt: UInt32, percent: nat): Control {
    if c.state == OutOfService then Stay(c)
    else
      var t := c.(inactivity := IdleTime(c, dt));
      if c.state == Running then
        var n := t.(program := Counted(c.program, dt, percent));
        if 0 < c.program.target <= Passed(c.program.elapsed, dt) then CycleTable(n) else Stay(n)
      else if c.state == Paused then
        var waited := Passed(c.program.pauseElapsed, dt);
        if waited < c.program.pauseMax then Stay(t).(program := c.program.(pauseElapsed := waited))
        else Stay(t).(state := Running, program := Resumed(c.program), idle := 0, changed := true)
      else if c.state == Credit && IdleTime(c, dt) >= c.settings.splash then
        Gone(Stay(t), Rest(c)).(session := Gone(Stay(t), Rest(c)).session.(paySource := Payer(c)))
      else Stay(t)
  }

  function Retuned(c: Ctx, splash: UInt32): Control {
    var ceiling := (splash + 5000) % 0x1_0000_0000;
    if c.settings.splash == splash then Stay(c)
    else Stay(c).(settings := c.settings.(splash := splash),
                  idle := if c.inactivity > ceiling then ceiling else c.inactivity)
  }

  function RemovalTable(c: Ctx): Control {
    if !WithCard(c) || c.vend.pending then Stay(c)
    else if Active(c) && !c.session.removedDuringRun then
      Stay(c).(session := c.session.(removedDuringRun := true, completeRequired := false))
    else if c.state == Credit then
      Stay(c).(session := c.session.(removedDuringRun := false, completeRequired := false))
    else Stay(c)
  }

  function Table(c: Ctx, s: Step): Control {
    match s
    case In(e, bus) => InputTable(c, e, bus)
    case Ticking(dt, percent) => TickTable(c, dt, percent)
    case TagGone => RemovalTable(c)
    case Retime(splash) => Retuned(c, splash)
  }

  // ---------------------------------------------------------------- the handlers follow the table

  // What fsm_handle_event makes of the events the handlers send it.

  lemma StopEvent(c: Ctx)
    requires Active(c)
    ensures HandleEvent(c, ProgramStop) == StopProgram(c)
  {
    hide StopProgram;
  }

  lemma EndEvent(c: Ctx)
    ensures HandleEvent(c, CreditEnded) ==
      if c.state == Credit then EndCredit(c)
      else if c.state == Running then LeaveProgram(CompleteSession(c), Idle)
      else if c.state == Paused then LeaveProgram(c, Idle)
      else c
  {
    hide EndCredit, LeaveProgram, CompleteSession;
  }

  lemma WakeEvent(c: Ctx, ev: Event)
    requires ev == UserActivity || ev == PaymentAccepted
    ensures HandleEvent(c, ev) ==
      if Resting(c) then ResetRuntime(c.(state := Credit))
      else if c.state == Credit then c.(inactivity := 0)
      else c
  {
    hide ResetRuntime;
  }

  lemma ProgramEvents(c: Ctx)
    ensures HandleEvent(c, ProgramPause) == if c.state == Running then PauseProgram(c) else c
    ensures HandleEvent(c, ProgramResume) == if c.state == Paused then ResumeProgram(c) else c
    ensures HandleEvent(c, Timeout) == if c.state == Credit then ChoiceTimeout(c) else c
  {
    hide PauseProgram, ResumeProgram, ChoiceTimeout;
  }

  lemma LvglEvents(c: Ctx)
    ensures HandleEvent(c, EnterLvgl) ==
      if c.state == LvglTest then c else c.(state := LvglTest, program := c.program.(running := false))
    ensures HandleEvent(c, ExitLvgl) == if c.state == LvglTest then c.(state := Idle) else c
  {
  }

  // One lemma per kind of step.

  lemma PaidFollows(c: Ctx, cents: int, b: Bucket, pay: Source)
    requires !Resting(c)
    ensures Seen(Dispatch(TakePayment(c, cents, b, pay), PaymentAccepted, Quiet, [])) ==
      Paid(Stay(c).(idle := if c.state == Credit then 0 else c.inactivity), cents, pay)
  {
    hide HandleEvent, AddCredit;
    WakeEvent(TakePayment(c, cents, b, pay), PaymentAccepted);
  }

  lemma OpenedFollows(c: Ctx, source: Source)
    ensures var n := OpenSession(c, source);
      !Resting(n) && Stay(n).(idle := if n.state == Credit then 0 else n.inactivity) == Opened(c, source)
  {
  }

  lemma PaymentFollows(c: Ctx, e: Input, bus: Bus, kind: Kind)
    requires kind in {CoinIn, TokenIn}
    ensures Seen(HandleKind(c, e, bus, kind)) == KindTable(c, e, bus, kind)
  {
    hide Seen, Dispatch, TakePayment, OpenSession, Opened, Paid;
    OpenedFollows(c, FromCoin);
    var pay := if kind == TokenIn && e.fromCctalk then FromCctalk else FromCoin;
    PaidFollows(OpenSession(c, FromCoin), e.i32, Ecd, pay);
  }

  lemma QrFollows(c: Ctx, e: Input)
    ensures Seen(OnQrCredit(c, e)) == QrTable(c, e)
  {
    hide Seen, Dispatch, TakePayment;
    var n := OpenSession(SetQrPending(c, false), FromQr);
    PaidFollows(n, e.i32, VcdQr, FromQr);
  }

  lemma CardRefusedFollows(c: Ctx, e: Input)
    requires Active(c) || c.vend.pending
    ensures Seen(OnCardCredit(c, e)) == CardTable(c, e)
  {
    hide AddCredit, Dispatch;
  }

  lemma CardFollows(c: Ctx, e: Input)
    ensures Seen(OnCardCredit(c, e)) == CardTable(c, e)
  {
    if Active(c) || c.vend.pending {
      CardRefusedFollows(c, e);
    } else {
      hide Seen, Dispatch, TakePayment;
      var c1 := OpenSession(SetQrPending(c, false), FromCard);
      PaidFollows(c1.(session := c1.session.(removedDuringRun := false)), e.i32, VcdCard, FromCard);
    }
  }

  lemma ActivityFollows(c: Ctx, source: Source)
    requires Inv(c)
    ensures var n := if Locked(c) then c else OpenSession(c, source);
      Seen(Dispatch(n, UserActivity, Quiet, [])) == Opened(c, source)
  {
    hide HandleEvent, PurseOk, HandshakeOk;
    OpenedFollows(c, source);
    WakeEvent(OpenSession(c, source), UserActivity);
  }

  lemma ScannedFollows(c: Ctx)
    ensures Seen(Dispatch(SetQrPending(c, true), UserActivity, Quiet, [])) == Scanned(c)
  {
    hide HandleEvent;
    WakeEvent(SetQrPending(c, true), UserActivity);
  }

  lemma SelectFollows(c: Ctx, e: Input, bus: Bus)
    requires Inv(c)
    ensures Seen(OnSelect(c, e, bus)) == Selected(c, e, bus)
  {
    hide Charge, Refund, HandleEvent, Conserved;
    if e.i32 > 0 {
      ChargeExact(c.purse, e.i32);
    }
    if c.state == Credit {
      var price := if e.i32 > 0 then e.i32 else 0;
      var purse := if price > 0 then Charge(c.purse, price).0 else c.purse;
      StartsFromCredit(Prepare(c, e.u32, e.aux, price).(purse := purse));
    }
  }

  lemma ApprovalFollows(c: Ctx, e: Input, bus: Bus)
    requires Inv(c)
    ensures Seen(OnVendApproved(c, e, bus)) == Approved(c, e, bus)
  {
    hide Charge, Refund;
    ChargeExact(c.purse, c.vend.price);
  }

  lemma EndInCredit(c: Ctx)
    requires c.state == Credit
    ensures Seen(Dispatch(c, CreditEnded, Quiet, [])) == Gone(Stay(c), Rest(c))
  {
    hide HandleEvent;
    EndEvent(c);
  }

  lemma EndInProgram(c: Ctx)
    requires Active(c)
    ensures Seen(Dispatch(c, CreditEnded, Quiet, [])) ==
      if c.state == Running && WithCard(c) && c.session.completeRequired then
        Over(Stay(c).(calls := [SessionComplete], session := c.session.(completeRequired := false)), Idle)
      else Over(Stay(c), Idle)
  {
    hide HandleEvent;
    EndEvent(c);
  }

  lemma EndElsewhere(c: Ctx)
    requires c.state != Credit && !Active(c)
    ensures Seen(Dispatch(c, CreditEnded, Quiet, [])) == Stay(c)
  {
    hide HandleEvent;
    EndEvent(c);
  }

  lemma CallsFirst(c: Ctx, ev: Event, calls: seq<Call>)
    ensures Seen(Dispatch(c, ev, Quiet, calls)) ==
      Seen(Dispatch(c, ev, Quiet, [])).(calls := calls + Seen(Dispatch(c, ev, Quiet, [])).calls)
  {
    hide HandleEvent, EventCalls;
  }

  lemma EndFollows(c: Ctx, e: Input)
    ensures Seen(OnCreditEnded(c, e)) == Ended(c, e)
  {
    hide EndedPurse, HandleEvent, EventCalls, Dispatch, Seen;
    var calls := if c.vend.pending then [SessionComplete] else [];
    var c1 := if c.vend.pending then ResetVend(c) else c;
    var c2 := if e.aux == 1 && c.session.source == FromCard
              then c1.(session := c.session.(completeRequired := false, removedDuringRun := false)) else c1;
    var c3 := c2.(purse := EndedPurse(c.purse, e.aux == 1));
    CallsFirst(c3, CreditEnded, calls);
    if c.state == Credit {
      EndInCredit(c3);
    } else if Active(c) {
      EndInProgram(c3);
    } else {
      EndElsewhere(c3);
    }
  }

  lemma StopFollows(c: Ctx)
    requires Active(c)
    ensures Seen(Dispatch(c, ProgramStop, Quiet, [])) == Stopped(c)
  {
    hide HandleEvent;
    StopEvent(c);
  }

  lemma StopElsewhere(c: Ctx)
    requires !Active(c)
    ensures HandleEvent(c, ProgramStop) == c && EventCalls(c, ProgramStop) == []
  {
  }

  lemma OnStopFollows(c: Ctx, e: Input, bus: Bus)
    ensures Seen(OnStop(c, e)) == KindTable(c, e, bus, StopIn)
  {
    hide HandleEvent, Stopped;
    var c1 := c.(program := c.program.(stopAfter := true));
    ProgramEvents(c1);
    if Active(c) {
      StopFollows(c);
    } else {
      StopElsewhere(c);
    }
  }

  lemma ToggleFollows(c: Ctx, e: Input, bus: Bus)
    ensures Seen(OnPauseToggle(c)) == KindTable(c, e, bus, PauseToggleIn)
  {
    hide HandleEvent;
    ProgramEvents(c);
  }

  lemma DenialFollows(c: Ctx, e: Input, bus: Bus)
    ensures Seen(OnVendDenied(c)) == KindTable(c, e, bus, VendDeniedIn)
  {
  }

  lemma SwitchFollows(c: Ctx, e: Input, bus: Bus)
    ensures Seen(OnSwitch(c, e)) == KindTable(c, e, bus, SwitchIn)
  {
    hide SwitchTarget;
  }

  lemma RefusalFollows(c: Ctx)
    ensures Seen(Refuse(c, Quiet)) == Stay(c)
  {
  }

  lemma KindFollows(c: Ctx, e: Input, bus: Bus, kind: Kind)
    requires Inv(c)
    ensures Seen(HandleKind(c, e, bus, kind)) == KindTable(c, e, bus, kind)
  {
    hide Inv, Seen, Dispatch, OpenSession, Opened, OnCoin, OnToken, OnQrCredit, OnCardCredit, OnSelect, OnVendApproved,
         OnCreditEnded, OnVendDenied, OnStop, OnPauseToggle, OnSwitch, Selected, Approved, Ended, CardTable, QrTable,
         Scanned;
    match kind
    case CoinIn | TokenIn => PaymentFollows(c, e, bus, kind);
    case QrCreditIn => QrFollows(c, e);
    case CardCreditIn => CardFollows(c, e);
    case ActivityIn | TouchIn => ActivityFollows(c, FromTouch);
    case KeyIn => ActivityFollows(c, FromKey);
    case QrScannedIn => ScannedFollows(c);
    case SelectIn => SelectFollows(c, e, bus);
    case VendApprovedIn => ApprovalFollows(c, e, bus);
    case CreditEndedIn => EndFollows(c, e);
    case VendDeniedIn => DenialFollows(c, e, bus);
    case StopIn => OnStopFollows(c, e, bus);
    case PauseToggleIn => ToggleFollows(c, e, bus);
    case SwitchIn => SwitchFollows(c, e, bus);
    case NoKind => RefusalFollows(c);
  }

  lemma MeaningIs(e: Input)
    ensures Meaning(e) == KindOf(e)
  {
  }

  lemma LvglFollows(c: Ctx)
    ensures Seen(Dispatch(c, EnterLvgl, Quiet, [])) ==
      if c.state == LvglTest then Stay(c)
      else Stay(c).(state := LvglTest, program := c.program.(running := false), changed := true)
    ensures Seen(Dispatch(c, ExitLvgl, Quiet, [])) ==
      if c.state == LvglTest then Stay(c).(state := Idle, changed := true) else Stay(c)
  {
    hide HandleEvent;
    LvglEvents(c);
  }

  lemma SystemFollows(c: Ctx, e: Input)
    ensures Seen(Outcome(c.(state := OutOfService, program := c.program.(running := false), oosAgent := e.i32),
                         c.state != OutOfService, Quiet, []))
            == OutOfOrder(c, e.i32)
    ensures Seen(Outcome(c.(state := Idle, oosAgent := 0), true, Quiet, []))
            == Stay(c).(state := Idle, oosAgent := 0, changed := true)
  {
  }

  lemma InputFollows(c: Ctx, e: Input, bus: Bus)
    requires Inv(c)
    ensures Seen(HandleInput(c, e, bus)) == InputTable(c, e, bus)
  {
    hide HandleKind, KindTable, Inv, Dispatch, Seen, Stay, Meaning, KindOf, Refuse;
    KindFollows(c, e, bus, KindOf(e));
    MeaningIs(e);
    LvglFollows(c);
    SystemFollows(c, e);
    RefusalFollows(c);
  }

  lemma CycleEndFollows(c: Ctx)
    requires Inv(c) && c.state == Running
    ensures Seen(CycleEnd(c)) == CycleTable(c)
  {
    hide Charge, Stopped, HandleEvent, EventCalls, Conserved;
    ChargeExact(c.purse, c.program.price);
    StopFollows(c);
  }

  lemma CountedIs(g: Program, dt: UInt32, percent: nat)
    ensures Advance(g, dt, percent) == Counted(g, dt, percent)
  {
  }

  lemma CountedIsGood(c: Ctx, n: Ctx)
    requires Inv(c) && n.(program := c.program, inactivity := c.inactivity) == c
    requires n.program.running == c.program.running && n.program.pauseLimit == c.program.pauseLimit
    ensures Inv(n)
  {
  }

  lemma CountedKeeps(g: Program, dt: UInt32, percent: nat)
    ensures var n := Counted(g, dt, percent);
      && n.running == g.running && n.pauseLimit == g.pauseLimit && n.target == g.target
      && n.elapsed == Wrap(g.elapsed + dt)
  {
    hide NearEnd;
  }

  lemma IdlingIs(c: Ctx, dt: UInt32)
    ensures Idling(c, dt) == c.(inactivity := IdleTime(c, dt))
  {
  }

  lemma RunningFollows(c: Ctx, dt: UInt32, percent: nat)
    requires Inv(c) && c.state == Running
    ensures Seen(Tick(c, dt, percent)) == TickTable(c, dt, percent)
  {
    hide CycleEnd, CycleTable, Inv, Advance, Counted, Idling, IdleTime;
    IdlingIs(c, dt);
    CountedIs(c.program, dt, percent);
    CountedKeeps(c.program, dt, percent);
    var n := c.(inactivity := IdleTime(c, dt), program := Counted(c.program, dt, percent));
    CountedIsGood(c, n);
    CycleEndFollows(n);
  }

  lemma PausedFollows(c: Ctx, dt: UInt32, percent: nat)
    requires Inv(c) && c.state == Paused
    ensures Seen(Tick(c, dt, percent)) == TickTable(c, dt, percent)
  {
    hide HandleEvent, PurseOk, HandshakeOk, Idling, IdleTime;
    IdlingIs(c, dt);
    var g := c.program.(pauseElapsed := Wrap(c.program.pauseElapsed + dt), pauseLimit := true);
    ProgramEvents(Idling(c, dt).(program := g));
  }

  lemma ChoiceFollows(c: Ctx, dt: UInt32, percent: nat)
    requires c.state == Credit
    ensures Seen(Tick(c, dt, percent)) == TickTable(c, dt, percent)
  {
    hide HandleEvent, TimeoutPurse, Idling, IdleTime;
    IdlingIs(c, dt);
    ProgramEvents(Idling(c, dt));
  }

  lemma TickFollows(c: Ctx, dt: UInt32, percent: nat)
    requires Inv(c)
    ensures Seen(Tick(c, dt, percent)) == TickTable(c, dt, percent)
  {
    IdlingIs(c, dt);
    if c.state == Running {
      RunningFollows(c, dt, percent);
    } else if c.state == Paused {
      PausedFollows(c, dt, percent);
    } else if c.state == Credit {
      ChoiceFollows(c, dt, percent);
    }
  }

  /** Every step of the state machine does what the table says. */
  lemma StepFollowsTable(c: Ctx, s: Step)
    requires Inv(c)
    ensures Seen(Apply(c, s)) == Table(c, s)
  {
    hide Inv, HandleInput, InputTable, Tick, TickTable;
    match s
    case In(e, bus) => InputFollows(c, e, bus);
    case Ticking(dt, percent) => TickFollows(c, dt, percent);
    case TagGone =>
    case Retime(_) =>
  }

  // ---------------------------------------------------------------- selections and approvals stand out

  /** An event that is not about the machine as a whole. */
  predicate Ordinary(e: Input) {
    e.action != ActSystemError && e.action != ActSystemRun
  }

  predicate IsSelection(s: Step) {
    s.In? && Ordinary(s.e) && Meaning(s.e) == SelectIn
  }

  predicate IsApproval(s: Step) {
    s.In? && Ordinary(s.e) && Meaning(s.e) == VendApprovedIn
  }

  lemma SelectionTable(c: Ctx, s: Step)
    requires IsSelection(s)
    ensures Table(c, s) == Selected(c, s.e, s.bus)
  {
  }

  lemma ApprovalTable(c: Ctx, s: Step)
    requires IsApproval(s)
    ensures Table(c, s) == Approved(c, s.e, s.bus)
  {
  }

  /** Nothing but the end of a session is asked of the reader, no vend becomes pending or changes while
      pending, and no program starts from CREDIT. */
  ghost predicate Modest(c: Ctx, t: Control) {
    && (forall k :: k in t.calls ==> k == SessionComplete)
    && (t.vend == c.vend || !t.vend.pending)
    && (c.state == Credit ==> t.state != Running)
  }

  lemma OpenedIsModest(c: Ctx, source: Source, cents: int, pay: Source)
    ensures Modest(c, Stay(c)) && Modest(c, Opened(c, source)) && Modest(c, Paid(Opened(c, source), cents, pay))
  {
  }

  lemma CardAndQrAreModest(c: Ctx, e: Input)
    ensures Modest(c, CardTable(c, e)) && Modest(c, QrTable(c, e)) && Modest(c, Scanned(c))
  {
  }

  lemma StopIsModest(c: Ctx)
    ensures Modest(c, Stopped(c))
  {
  }

  lemma EndIsModest(c: Ctx, e: Input)
    ensures Modest(c, Ended(c, e))
  {
  }

  lemma ControlsAreModest(c: Ctx, e: Input)
    requires Active(c)
    ensures Modest(c, StopAsked(c)) && Modest(c, Switched(c, e))
  {
    hide SwitchTarget;
  }

  lemma KindsAreModest(c: Ctx, e: Input, bus: Bus, kind: Kind)
    requires kind != SelectIn && kind != VendApprovedIn
    ensures Modest(c, KindTable(c, e, bus, kind))
  {
    hide Opened, Paid, CardTable, QrTable, Scanned, Stopped, Ended, StopAsked, Switched;
    OpenedIsModest(c, FromTouch, 0, FromTouch);
    OpenedIsModest(c, FromKey, 0, FromKey);
    OpenedIsModest(c, FromCoin, e.i32, if kind == TokenIn && e.fromCctalk then FromCctalk else FromCoin);
    CardAndQrAreModest(c, e);
    StopIsModest(c);
    EndIsModest(c, e);
    if Active(c) {
      ControlsAreModest(c, e);
    }
  }

  lemma CycleIsModest(c: Ctx, n: Ctx)
    requires n.vend == c.vend && c.state == Running
    ensures Modest(c, CycleTable(n)) && Modest(c, Stay(n))
  {
    hide Stopped;
    StopIsModest(n);
  }

  lemma TicksAreModest(c: Ctx, dt: UInt32, percent: nat)
    ensures Modest(c, TickTable(c, dt, percent))
  {
    hide CycleTable, Counted, IdleTime;
    if c.state == Running {
      hide Modest, Stay;
      OpenedIsModest(c, FromTouch, 0, FromTouch);
      CycleIsModest(c, c.(inactivity := IdleTime(c, dt), program := Counted(c.program, dt, percent)));
    }
  }

  lemma OthersAreModest(c: Ctx, s: Step)
    requires !IsSelection(s) && !IsApproval(s)
    ensures Modest(c, Table(c, s))
  {
    hide KindTable, TickTable;
    match s
    case In(e, bus) => if Ordinary(e) {
      KindsAreModest(c, e, bus, Meaning(e));
    }
    case Ticking(dt, percent) => TicksAreModest(c, dt, percent);
    case TagGone =>
    case Retime(_) =>
  }
}
