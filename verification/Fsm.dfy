/**
 The program state machine of main/fsm.c as functions on its context record.

 `Ctx` has one component per field of `fsm_ctx_t` that influences control flow or money; texts and
 LED, audio and log output are left out.  `ledger` is history: it records money taken in, spent on
 program cycles, and written off, at the source lines where that happens.  The class in
 Controller.dfy has the same fields and is proved against these functions.
 */
module Fsm {

  const MAX_COINS: int := 99
  const MAX_VEND_UNITS: int := 655           // UINT16_MAX / 100

  type Int32 = x: int | -0x8000_0000 <= x < 0x8000_0000
  type UInt32 = x: int | 0 <= x < 0x1_0000_0000

  function Wrap(x: int): UInt32 {
    x % 0x1_0000_0000
  }

  function Wrap64(x: int): int {
    x % 0x1_0000_0000_0000_0000
  }

  /** The value of whole coins, one coin being 100 cents. */
  function Cents(coins: int): int {
    100 * coins
  }

  datatype State = Idle | Ads | Credit | Running | Paused | OutOfService | LvglTest
  datatype Source = NoSource | FromTouch | FromKey | FromCoin | FromCctalk | FromQr | FromCard
  datatype Mode = NoMode | OpenPayments | VirtualLocked
  datatype Bucket = Ecd | VcdCard | VcdQr

  /** fsm_event_t without NONE. */
  datatype Event = UserActivity | PaymentAccepted | ProgramSelected | ProgramStop | ProgramPause
                 | ProgramResume | Timeout | CreditEnded | EnterLvgl | ExitLvgl

  /** fsm_input_event_type_t. */
  datatype Kind = NoKind | ActivityIn | TouchIn | KeyIn | CoinIn | TokenIn | CardCreditIn | QrCreditIn
                | QrScannedIn | SelectIn | VendApprovedIn | VendDeniedIn | StopIn | PauseToggleIn
                | CreditEndedIn | SwitchIn

  /** The action_id_t values the state machine looks at. */
  datatype Action = NoAction | ActActivity | ActPayment | ActSelect | ActStop | ActPauseToggle
                  | ActCreditEnded | ActSystemRun | ActSystemError | ActLvglEnter | ActLvglExit | ActOther

  datatype Input = Input(action: Action, kind: Kind, fromCctalk: bool,
                         i32: Int32, u32: UInt32, aux: UInt32)

  /** Whether the MDB layer accepts a vend request and a vend success. */
  datatype Bus = Bus(vendOk: bool, successOk: bool)

  /** Requests made to the MDB layer. */
  datatype Call = Vend(cents: int) | VendSuccess(cents: int) | SessionComplete

  /** The outcome a handler reports through fsm_append_message, where it tells branches apart. */
  datatype Note = Quiet | VendBusy | NoCredit | BadAmount | LowCredit | BadPrice | VendRequestFailed
                | VendRequested | StartedByCredit | StartRefunded | UnexpectedApproval | PriceLost
                | AmountMismatch | SuccessRejected | ChargeLost | StartLost | StartedByCard

  /** Cents accepted, coins spent on cycles, cents written off. */
  datatype Ledger = Ledger(accepted: int, charged: int, forfeited: int)

  /** One credit bucket: whole coins, coins consumed, cents not yet worth a coin. */
  datatype Pot = Pot(coins: int, used: int, cents: int)

  datatype Totals = Totals(credit: int, vcd: int, vcdUsed: int, vcdCents: int)

  datatype Purse = Purse(ecd: Pot, card: Pot, qr: Pot, totals: Totals, ledger: Ledger)

  datatype Session = Session(source: Source, paySource: Source, mode: Mode, qrPending: bool, allowMore: bool,
                             completeRequired: bool, removedDuringRun: bool)

  datatype Program = Program(running: bool, elapsed: UInt32, pauseElapsed: UInt32, pauseMax: UInt32,
                             pauseLimit: bool, target: UInt32, price: Int32, stopAfter: bool, preFine: bool)

  /** The program a card vend was requested for. */
  datatype PendingVend = PendingVend(pending: bool, price: Int32, pause: UInt32, target: UInt32)

  datatype Settings = Settings(splash: UInt32, adsEnabled: bool)

  datatype Ctx = Ctx(state: State, purse: Purse, session: Session, program: Program, vend: PendingVend,
                     inactivity: UInt32, oosAgent: Int32, settings: Settings)

  datatype Outcome = Outcome(ctx: Ctx, changed: bool, note: Note, calls: seq<Call>)

  // ---------------------------------------------------------------- start

  const EMPTY_POT := Pot(0, 0, 0)
  const NO_VEND := PendingVend(false, 0, 0, 0)

  function EmptyPurse(): Purse {
    Purse(EMPTY_POT, EMPTY_POT, EMPTY_POT, Totals(0, 0, 0, 0), Ledger(0, 0, 0))
  }

  function Init(): Ctx {
    Ctx(Idle, EmptyPurse(),
        Session(NoSource, NoSource, NoMode, false, false, false, false),
        Program(false, 0, 0, 60000, false, 0, 0, false, false),
        NO_VEND, 0, 0, Settings(30000, true))
  }

  /** The settings fsm_task applies right after fsm_init. */
  function Configure(c: Ctx, splash: UInt32, ads: bool): Ctx {
    c.(settings := Settings(splash, ads), state := if ads then Ads else Credit)
  }

  // ---------------------------------------------------------------- credit

  function Held(p: Purse): int {
    p.ecd.coins + p.card.coins + p.qr.coins
  }

  function Residuals(p: Purse): int {
    p.ecd.cents + p.card.cents + p.qr.cents
  }

  /** ecd_coins + vcd_coins, as the source adds them up. */
  function Available(p: Purse): int {
    p.ecd.coins + p.totals.vcd
  }

  function Recalc(p: Purse): Purse {
    p.(totals := Totals(Held(p), p.card.coins + p.qr.coins, p.card.used + p.qr.used, p.card.cents + p.qr.cents))
  }

  function SetCredit(p: Purse, credit: int): Purse {
    p.(totals := p.totals.(credit := credit))
  }

  function PotOf(p: Purse, b: Bucket): Pot {
    match b case Ecd => p.ecd case VcdCard => p.card case VcdQr => p.qr
  }

  function SetPot(p: Purse, b: Bucket, pot: Pot): Purse {
    match b case Ecd => p.(ecd := pot) case VcdCard => p.(card := pot) case VcdQr => p.(qr := pot)
  }

  /** Coins still allowed under the cap. */
  function Room(p: Purse): int {
    if Held(p) >= MAX_COINS then 0 else MAX_COINS - Held(p)
  }

  function AddCredit(p: Purse, cents: int, b: Bucket): Purse {
    if cents <= 0 then p
    else
      var pot := PotOf(p, b);
      var total := pot.cents + cents;
      var capped := total / 100 > Room(p);
      var pot' := if capped then Pot(pot.coins + Room(p), pot.used, 0)
                  else Pot(pot.coins + total / 100, pot.used, total % 100);
      var lost := if capped then total - Cents(Room(p)) else 0;
      Recalc(SetPot(p, b, pot').(ledger := Ledger(p.ledger.accepted + cents, p.ledger.charged,
                                                  p.ledger.forfeited + lost)))
  }

  /** What a bucket contributes to a cost. */
  function Share(pot: Pot, cost: int): int {
    if cost > 0 && pot.coins > 0 then (if pot.coins >= cost then cost else pot.coins) else 0
  }

  function Spend(pot: Pot, coins: int): Pot {
    pot.(coins := pot.coins - coins, used := pot.used + coins)
  }

  /** Coins first, then card credit, then QR credit; nothing at all unless the cost is covered. */
  function Charge(p: Purse, cost: int): (Purse, bool) {
    if cost <= 0 || p.totals.credit < cost then (p, false)
    else
      var fromEcd := if p.ecd.coins >= cost then cost else p.ecd.coins;
      var fromCard := Share(p.card, cost - fromEcd);
      var fromQr := Share(p.qr, cost - fromEcd - fromCard);
      if cost - fromEcd - fromCard - fromQr > 0 then (p, false)
      else
        (Recalc(Purse(Spend(p.ecd, fromEcd), Spend(p.card, fromCard), Spend(p.qr, fromQr), p.totals,
                      p.ledger.(charged := p.ledger.charged + cost))), true)
  }

  function Forfeit(p: Purse, cents: int): Purse {
    p.(ledger := p.ledger.(forfeited := p.ledger.forfeited + cents))
  }

  function VirtualCents(p: Purse): int {
    Cents(p.card.coins + p.qr.coins) + p.card.cents + p.qr.cents
  }

  function DropVirtual(p: Purse): Purse {
    p.(card := EMPTY_POT, qr := EMPTY_POT, totals := Totals(p.totals.credit, 0, 0, 0))
  }

  /** Coins stay, virtual credit and all residual cents go. */
  function TimeoutPurse(p: Purse): Purse {
    var kept := if p.ecd.coins > 0 then p.ecd.coins else 0;
    Forfeit(SetCredit(DropVirtual(p), kept).(ecd := Pot(kept, 0, 0)), VirtualCents(p) + p.ecd.cents)
  }

  function EndedPurse(p: Purse, virtualOnly: bool): Purse {
    if virtualOnly then Recalc(Forfeit(DropVirtual(p), VirtualCents(p)))
    else Forfeit(SetCredit(DropVirtual(p), 0).(ecd := EMPTY_POT),
                 VirtualCents(p) + Cents(p.ecd.coins) + p.ecd.cents)
  }

  // ---------------------------------------------------------------- sessions

  function ResetProgram(g: Program): Program {
    Program(false, 0, 0, g.pauseMax, false, 0, 0, false, false)
  }

  function ResetRuntime(c: Ctx): Ctx {
    var s := c.session;
    c.(program := ResetProgram(c.program), inactivity := 0,
       session := if s.source != FromCard && s.source != FromQr then s.(paySource := NoSource) else s)
  }

  function ResetVend(c: Ctx): Ctx {
    c.(vend := NO_VEND)
  }

  function OpenSession(c: Ctx, source: Source): Ctx {
    var c1 := c.(session := c.session.(source := source, mode := OpenPayments, allowMore := true));
    if c.state == Idle || c.state == Ads then c1.(state := Credit, inactivity := 0) else c1
  }

  predicate Locked(c: Ctx) {
    c.session.mode == VirtualLocked && (c.session.source == FromCard || c.session.source == FromQr)
  }

  function Closed(s: Session): Session {
    s.(mode := NoMode, source := NoSource, allowMore := false)
  }

  function RestState(c: Ctx): State {
    if c.settings.adsEnabled then Ads else Idle
  }

  // ---------------------------------------------------------------- fsm_handle_event

  /** Nobody chose a program in time. */
  function ChoiceTimeout(c: Ctx): Ctx {
    var c1 := ResetRuntime(c);
    c1.(purse := TimeoutPurse(c.purse), session := Closed(c1.session), state := RestState(c))
  }

  predicate MustComplete(c: Ctx) {
    c.session.source == FromCard && c.session.completeRequired
  }

  function CompleteSession(c: Ctx): Ctx {
    if MustComplete(c) then c.(session := c.session.(completeRequired := false)) else c
  }

  predicate StaysInCredit(c: Ctx) {
    || c.purse.totals.credit > 0
    || Available(c.purse) > 0
    || (c.session.source == FromCard && !c.session.removedDuringRun)
  }

  function LeaveProgram(c: Ctx, next: State): Ctx {
    var c1 := ResetRuntime(c);
    c1.(session := Closed(c1.session).(paySource := NoSource, removedDuringRun := false), state := next)
  }

  function StopProgram(c: Ctx): Ctx {
    var c0 := CompleteSession(c);
    if StaysInCredit(c) then
      ResetRuntime(c0).(state := Credit,
        purse := if c.purse.totals.credit <= 0 then SetCredit(c.purse, Available(c.purse)) else c.purse)
    else LeaveProgram(c0, RestState(c))
  }

  function EndCredit(c: Ctx): Ctx {
    var c1 := ResetRuntime(c);
    c1.(session := Closed(c1.session).(paySource := NoSource), state := RestState(c))
  }

  function StartProgram(c: Ctx): Ctx {
    c.(state := Running, inactivity := 0,
       program := c.program.(running := true, elapsed := 0, pauseElapsed := 0, pauseLimit := false))
  }

  function PauseProgram(c: Ctx): Ctx {
    c.(state := Paused, inactivity := 0,
       program := c.program.(running := false, pauseElapsed := 0, pauseLimit := false))
  }

  function ResumeProgram(c: Ctx): Ctx {
    c.(state := Running, inactivity := 0,
       program := c.program.(running := true, pauseElapsed := 0, pauseLimit := false))
  }

  function HandleEvent(c: Ctx, ev: Event): Ctx {
    if ev == EnterLvgl then
      if c.state != LvglTest then c.(state := LvglTest, program := c.program.(running := false)) else c
    else if ev == ExitLvgl then
      if c.state == LvglTest then c.(state := Idle) else c
    else
      match c.state
      case Idle | Ads =>
        if ev == UserActivity || ev == PaymentAccepted then ResetRuntime(c.(state := Credit)) else c
      case Credit =>
        (match ev
         case ProgramSelected => StartProgram(c)
         case UserActivity | PaymentAccepted => c.(inactivity := 0)
         case Timeout => ChoiceTimeout(c)
         case CreditEnded => EndCredit(c)
         case _ => c)
      case Running =>
        (match ev
         case ProgramPause => PauseProgram(c)
         case ProgramStop => StopProgram(c)
         case CreditEnded => LeaveProgram(CompleteSession(c), Idle)
         case _ => c)
      case Paused =>
        (match ev
         case ProgramResume => ResumeProgram(c)
         case ProgramStop => StopProgram(c)
         case CreditEnded => LeaveProgram(c, Idle)
         case _ => c)
      case OutOfService => c
      case LvglTest => c
  }

  /** The reader requests fsm_handle_event makes on the way. */
  function EventCalls(c: Ctx, ev: Event): seq<Call> {
    if MustComplete(c)
       && ((ev == ProgramStop && (c.state == Running || c.state == Paused))
           || (ev == CreditEnded && c.state == Running))
    then [SessionComplete] else []
  }

  function Dispatch(c: Ctx, ev: Event, note: Note, calls: seq<Call>): Outcome {
    var c1 := HandleEvent(c, ev);
    Outcome(c1, c1.state != c.state, note, calls + EventCalls(c, ev))
  }

  // ---------------------------------------------------------------- fsm_handle_input_event

  function Refuse(c: Ctx, note: Note): Outcome {
    Outcome(c, false, note, [])
  }

  /** A positive amount goes into a bucket and sets the payment source. */
  function TakePayment(c: Ctx, cents: int, b: Bucket, pay: Source): Ctx {
    if cents > 0 then c.(purse := AddCredit(c.purse, cents, b), session := c.session.(paySource := pay)) else c
  }

  function OnCoin(c: Ctx, e: Input): Outcome {
    Dispatch(TakePayment(OpenSession(c, FromCoin), e.i32, Ecd, FromCoin), PaymentAccepted, Quiet, [])
  }

  function OnToken(c: Ctx, e: Input): Outcome {
    var pay := if e.fromCctalk then FromCctalk else FromCoin;
    Dispatch(TakePayment(OpenSession(c, FromCoin), e.i32, Ecd, pay), PaymentAccepted, Quiet, [])
  }

  function SetQrPending(c: Ctx, pending: bool): Ctx {
    c.(session := c.session.(qrPending := pending))
  }

  function OnQrCredit(c: Ctx, e: Input): Outcome {
    Dispatch(TakePayment(OpenSession(SetQrPending(c, false), FromQr), e.i32, VcdQr, FromQr),
             PaymentAccepted, Quiet, [])
  }

  function OnCardCredit(c: Ctx, e: Input): Outcome {
    var c0 := SetQrPending(c, false);
    if c.state == Running || c.state == Paused then
      Outcome(TakePayment(c0, e.i32, VcdCard, FromCard), e.i32 > 0, Quiet, [])
    else if c.vend.pending then Refuse(c0, VendBusy)
    else
      var c1 := OpenSession(c0, FromCard);
      var c2 := c1.(session := c1.session.(removedDuringRun := false));
      Dispatch(TakePayment(c2, e.i32, VcdCard, FromCard), PaymentAccepted, Quiet, [])
  }

  predicate Vendable(units: int) {
    0 < units <= MAX_VEND_UNITS
  }

  /** A selection in a card session: the reader is asked first, nothing is charged yet. */
  function RequestVend(c: Ctx, e: Input, bus: Bus): Outcome {
    if e.i32 <= 0 then Refuse(c, BadAmount)
    else if c.purse.totals.credit < e.i32 then Refuse(c, LowCredit)
    else if !Vendable(e.i32) then Refuse(c, BadPrice)
    else if !bus.vendOk then Outcome(ResetVend(c), false, VendRequestFailed, [Vend(Cents(e.i32))])
    else Outcome(c.(vend := PendingVend(true, e.i32, e.u32, e.aux)), true, VendRequested, [Vend(Cents(e.i32))])
  }

  /** Price and limits of the next program; zero keeps the current limit. */
  function Prepare(c: Ctx, pause: UInt32, target: UInt32, price: Int32): Ctx {
    c.(program := c.program.(pauseMax := if pause > 0 then pause else c.program.pauseMax,
                             target := if target > 0 then target else c.program.target,
                             price := price))
  }

  /** The rollback after a start that did not happen: totals and coins, but not the virtual buckets. */
  function Refund(c: Ctx, before: Purse): Ctx {
    c.(purse := c.purse.(
      totals := c.purse.totals.(credit := before.totals.credit, vcd := before.totals.vcd,
                                vcdUsed := before.totals.vcdUsed),
      ecd := c.purse.ecd.(coins := before.ecd.coins, used := before.ecd.used)))
  }

  function OnSelect(c: Ctx, e: Input, bus: Bus): Outcome {
    if c.state != Credit then Refuse(c, Quiet)
    else if c.vend.pending then Refuse(c, VendBusy)
    else if c.purse.totals.credit <= 0 then Refuse(c, NoCredit)
    else if c.session.source == FromCard then RequestVend(c, e, bus)
    else
      var price := if e.i32 > 0 then e.i32 else 0;
      var c1 := Prepare(c, e.u32, e.aux, price);
      var (purse, paid) := if price > 0 then Charge(c.purse, price) else (c.purse, true);
      if !paid then Refuse(c1, LowCredit)
      else
        var c2 := c1.(purse := purse);
        var c3 := HandleEvent(c2, ProgramSelected);
        if c3.state == c2.state then
          var c4 := if price > 0 then Refund(c3, c.purse) else c3;
          Outcome(c4.(program := c4.program.(pauseMax := c.program.pauseMax, target := c.program.target,
                                             price := c.program.price)), false, StartRefunded, [])
        else Outcome(c3, true, StartedByCredit, [])
  }

  function AbortVend(c: Ctx, note: Note, calls: seq<Call>): Outcome {
    Outcome(ResetVend(c), false, note, calls + [SessionComplete])
  }

  function OnVendApproved(c: Ctx, e: Input, bus: Bus): Outcome {
    if !c.vend.pending || c.session.source != FromCard || c.state != Credit then Refuse(c, UnexpectedApproval)
    else if !Vendable(c.vend.price) then AbortVend(c, PriceLost, [])
    else
      var cents := Cents(c.vend.price);
      if e.i32 > 0 && e.i32 != cents then AbortVend(c, AmountMismatch, [])
      else if !bus.successOk then AbortVend(c, SuccessRejected, [VendSuccess(cents)])
      else
        var c1 := Prepare(c, c.vend.pause, c.vend.target, c.vend.price);
        var (purse, paid) := Charge(c.purse, c.vend.price);
        if !paid then AbortVend(c1, ChargeLost, [VendSuccess(cents)])
        else
          var c2 := c1.(purse := purse);
          var c3 := HandleEvent(c2, ProgramSelected);
          if c3.state == c2.state then AbortVend(Refund(c3, c.purse), StartLost, [VendSuccess(cents)])
          else
            Outcome(ResetVend(c3.(session := c3.session.(completeRequired := true))), true, StartedByCard,
                    [VendSuccess(cents)])
  }

  function OnVendDenied(c: Ctx): Outcome {
    if !c.vend.pending || c.session.source != FromCard then Refuse(c, Quiet)
    else Outcome(ResetVend(c), true, Quiet, [SessionComplete])
  }

  function OnStop(c: Ctx, e: Input): Outcome {
    if e.aux == 1 && (c.state == Running || c.state == Paused) then
      var c1 := c.(program := c.program.(stopAfter := true));
      if c.state == Paused then Dispatch(c1, ProgramResume, Quiet, [])
      else Outcome(c1, true, Quiet, [])
    else Dispatch(c, ProgramStop, Quiet, [])
  }

  function OnPauseToggle(c: Ctx): Outcome {
    if c.state == Running then Dispatch(c, ProgramPause, Quiet, [])
    else if c.state == Paused then Dispatch(c, ProgramResume, Quiet, [])
    else Refuse(c, Quiet)
  }

  function OnCreditEnded(c: Ctx, e: Input): Outcome {
    var c1 := if c.vend.pending then ResetVend(c) else c;
    var calls := if c.vend.pending then [SessionComplete] else [];
    var c2 := if e.aux == 1 && c.session.source == FromCard
              then c1.(session := c.session.(completeRequired := false, removedDuringRun := false)) else c1;
    Dispatch(c2.(purse := EndedPurse(c.purse, e.aux == 1)), CreditEnded, Quiet, calls)
  }

  lemma ScalePositive(a: int, b: int)
    requires a > 0 && b > 0
    ensures a * b > 0
  {
  }

  /** Remaining time scaled by the two rates, in the 64-bit arithmetic of the source. */
  function ScaledRemainder(remOld: UInt32, newDur: UInt32, oldPrice: int, oldDur: UInt32, newPrice: int): UInt32
    requires oldDur > 0 && newPrice > 0
  {
    ScalePositive(oldDur, newPrice);
    Wrap(Wrap64(remOld * newDur * oldPrice) / (oldDur * newPrice))
  }

  function SwitchTarget(g: Program, e: Input): UInt32 {
    var remOld := if g.target > g.elapsed then g.target - g.elapsed else 0;
    var oldPrice := if g.price > 0 then g.price else 1;
    var newPrice := if e.i32 > 0 then e.i32 else 1;
    var remNew := if g.target > 0 && e.aux > 0
                  then ScaledRemainder(remOld, e.aux, oldPrice, g.target, newPrice) else e.aux;
    Wrap(g.elapsed + remNew)
  }

  function OnSwitch(c: Ctx, e: Input): Outcome {
    if c.state != Running && c.state != Paused then Refuse(c, Quiet)
    else
      var c1 := c.(program := c.program.(target := SwitchTarget(c.program, e),
                                         price := if e.i32 > 0 then e.i32 else c.program.price,
                                         pauseMax := if e.u32 > 0 then e.u32 else c.program.pauseMax));
      if c.state == Paused then Outcome(ResumeProgram(c1), true, Quiet, []) else Outcome(c1, false, Quiet, [])
  }

  predicate PaymentKind(k: Kind) {
    k == QrCreditIn || k == QrScannedIn || k == CoinIn || k == TokenIn || k == CardCreditIn
  }

  /** Producers that set only an action. */
  function KindOf(e: Input): Kind {
    if e.kind != NoKind then e.kind
    else match e.action
      case ActActivity => ActivityIn
      case ActPayment => CoinIn
      case ActSelect => SelectIn
      case ActStop => StopIn
      case ActPauseToggle => PauseToggleIn
      case ActCreditEnded => CreditEndedIn
      case _ => NoKind
  }

  function HandleKind(c: Ctx, e: Input, bus: Bus, kind: Kind): Outcome {
    match kind
    case ActivityIn | TouchIn =>
      Dispatch(if Locked(c) then c else OpenSession(c, FromTouch), UserActivity, Quiet, [])
    case KeyIn => Dispatch(if Locked(c) then c else OpenSession(c, FromKey), UserActivity, Quiet, [])
    case QrScannedIn => Dispatch(SetQrPending(c, true), UserActivity, Quiet, [])
    case CoinIn => OnCoin(c, e)
    case TokenIn => OnToken(c, e)
    case QrCreditIn => OnQrCredit(c, e)
    case CardCreditIn => OnCardCredit(c, e)
    case SelectIn => OnSelect(c, e, bus)
    case VendApprovedIn => OnVendApproved(c, e, bus)
    case VendDeniedIn => OnVendDenied(c)
    case StopIn => OnStop(c, e)
    case PauseToggleIn => OnPauseToggle(c)
    case CreditEndedIn => OnCreditEnded(c, e)
    case SwitchIn => OnSwitch(c, e)
    case NoKind => Refuse(c, Quiet)
  }

  function HandleInput(c: Ctx, e: Input, bus: Bus): Outcome {
    if e.action == ActSystemError then
      Outcome(c.(state := OutOfService, program := c.program.(running := false), oosAgent := e.i32),
              c.state != OutOfService, Quiet, [])
    else if e.action == ActSystemRun then
      if c.state == OutOfService then Outcome(c.(state := Idle, oosAgent := 0), true, Quiet, [])
      else Refuse(c, Quiet)
    else if c.state == OutOfService then Refuse(c, Quiet)
    else if (c.state == Running || c.state == Paused) && PaymentKind(e.kind) then Refuse(c, Quiet)
    else if e.kind == NoKind && e.action == ActLvglEnter then Dispatch(c, EnterLvgl, Quiet, [])
    else if e.kind == NoKind && e.action == ActLvglExit then Dispatch(c, ExitLvgl, Quiet, [])
    else HandleKind(c, e, bus, KindOf(e))
  }

  // ---------------------------------------------------------------- fsm_tick

  function Idling(c: Ctx, dt: UInt32): Ctx {
    var idle := Wrap(c.inactivity + dt);
    var ceiling := Wrap(c.settings.splash + 5000);
    c.(inactivity := if idle > ceiling then ceiling else idle)
  }

  predicate PreFineReached(g: Program, percent: nat) {
    g.target > 0 && 0 < percent < 100 && g.elapsed >= Wrap(g.target * percent) / 100
  }

  /** May the program that just finished renew itself, credit permitting? */
  predicate Renewable(c: Ctx) {
    && c.program.price > 0
    && c.session.source != FromCard && c.session.paySource != FromCard && !c.session.removedDuringRun
    && !c.program.stopAfter
  }

  function AutoRenew(c: Ctx): (Ctx, bool) {
    if !Renewable(c) then (c, false)
    else if Available(c.purse) <= 0 then (c.(purse := SetCredit(c.purse, 0)), false)
    else
      var (purse, paid) := Charge(c.purse, c.program.price);
      if !paid then (c, false)
      else
        (c.(purse := purse,
            program := c.program.(elapsed := 0, pauseElapsed := 0, pauseLimit := false, running := true,
                                  preFine := false)), true)
  }

  /** The end of a cycle: renew, or leave the program. */
  function CycleEnd(c: Ctx): Outcome {
    var (c1, renewed) := AutoRenew(c);
    if renewed then Outcome(c1, false, Quiet, [])
    else if Available(c1.purse) <= 0 then
      var c2 := c1.(purse := SetCredit(c1.purse, 0));
      if c2.session.source == FromCard && !c2.session.removedDuringRun
      then Outcome(ResetRuntime(c2).(state := Credit), true, Quiet, [])
      else Outcome(LeaveProgram(c2, RestState(c)), true, Quiet, [])
    else Dispatch(c1, ProgramStop, Quiet, [])
  }

  function Advance(g: Program, dt: UInt32, percent: nat): Program {
    var g1 := g.(elapsed := Wrap(g.elapsed + dt));
    if !g1.preFine && PreFineReached(g1, percent) then g1.(preFine := true) else g1
  }

  function TickRunning(c: Ctx, dt: UInt32, percent: nat): Outcome {
    var c1 := c.(program := Advance(c.program, dt, percent));
    if c1.program.target > 0 && c1.program.elapsed >= c1.program.target then CycleEnd(c1) else Refuse(c1, Quiet)
  }

  function TickPaused(c: Ctx, dt: UInt32): Outcome {
    if c.program.pauseLimit then Refuse(c, Quiet)
    else
      var c1 := c.(program := c.program.(pauseElapsed := Wrap(c.program.pauseElapsed + dt)));
      if c1.program.pauseElapsed >= c1.program.pauseMax
      then Dispatch(c1.(program := c1.program.(pauseLimit := true)), ProgramResume, Quiet, [])
      else Refuse(c1, Quiet)
  }

  /** `percent` is the configured pre-end-of-cycle threshold. */
  function Tick(c: Ctx, dt: UInt32, percent: nat): Outcome {
    if c.state == OutOfService then Refuse(c, Quiet)
    else
      var c1 := Idling(c, dt);
      if c.state == Running then TickRunning(c1, dt, percent)
      else if c.state == Paused then TickPaused(c1, dt)
      else if c.state == Credit && c1.inactivity >= c1.settings.splash then Dispatch(c1, Timeout, Quiet, [])
      else Refuse(c1, Quiet)
  }

  // ---------------------------------------------------------------- runs

  /** fsm_task's own writes when the card is taken away (main/tasks.c): during a program its credit is
      hidden; in CREDIT the session is only marked as closed, before the end of credit is published. */
  function TagRemoved(c: Ctx): Ctx {
    if (c.state == Running || c.state == Paused) && c.session.source == FromCard && !c.vend.pending
       && !c.session.removedDuringRun
    then
      c.(session := c.session.(removedDuringRun := true, completeRequired := false),
         purse := c.purse.(totals := c.purse.totals.(vcd := 0, vcdCents := 0, credit := c.purse.ecd.coins)))
    else if c.state == Credit && c.session.source == FromCard && !c.vend.pending then
      c.(session := c.session.(removedDuringRun := false, completeRequired := false))
    else c
  }

  /** fsm_apply_language_return_timeout. */
  function Retimed(c: Ctx, splash: UInt32): Ctx {
    if c.settings.splash == splash then c
    else
      var ceiling := Wrap(splash + 5000);
      c.(settings := c.settings.(splash := splash),
         inactivity := if c.inactivity > ceiling then ceiling else c.inactivity)
  }

  datatype Step = In(e: Input, bus: Bus) | Ticking(dt: UInt32, percent: nat) | TagGone | Retime(splash: UInt32)

  function Apply(c: Ctx, s: Step): Outcome {
    match s
    case In(e, bus) => HandleInput(c, e, bus)
    case Ticking(dt, percent) => Tick(c, dt, percent)
    case TagGone => Outcome(TagRemoved(c), false, Quiet, [])
    case Retime(splash) => Outcome(Retimed(c, splash), false, Quiet, [])
  }

  function Run(c: Ctx, steps: seq<Step>): Ctx
    decreases |steps|
  {
    if steps == [] then c else Run(Apply(c, steps[0]).ctx, steps[1..])
  }
}
