/**
 The state machine in the form of main/fsm.c: objects whose fields are updated in place, one method per
 C function or event case.  Every method leaves exactly the context the functions of Fsm.dfy give, so
 everything proved about those functions holds of this code.

 The money fields of `fsm_ctx_t` are in `Wallet`; the other fields are grouped as in Fsm.dfy.
 */
module Controller {
  import opened Fsm
  import opened FsmSafety

  class Wallet {
    var credit: int
    var ecd: int
    var vcd: int
    var card: int
    var qr: int
    var ecdUsed: int
    var vcdUsed: int
    var cardUsed: int
    var qrUsed: int
    var ecdCents: int
    var vcdCents: int
    var cardCents: int
    var qrCents: int
    ghost var ledger: Ledger

    ghost function Money(): Purse
      reads this
    {
      Purse(Pot(ecd, ecdUsed, ecdCents), Pot(card, cardUsed, cardCents), Pot(qr, qrUsed, qrCents),
            Totals(credit, vcd, vcdUsed, vcdCents), ledger)
    }

    constructor ()
      ensures Money() == EmptyPurse()
    {
      credit, ecd, vcd, card, qr := 0, 0, 0, 0, 0;
      ecdUsed, vcdUsed, cardUsed, qrUsed := 0, 0, 0, 0;
      ecdCents, vcdCents, cardCents, qrCents := 0, 0, 0, 0;
      ledger := Ledger(0, 0, 0);
    }

    method RecalcTotals()
      modifies this
      ensures Money() == Recalc(old(Money()))
    {
      vcd := card + qr;
      vcdUsed := cardUsed + qrUsed;
      vcdCents := cardCents + qrCents;
      credit := ecd + vcd;
    }

    /** The bucket switch at the end of a payment. */
    method Deposit(b: Bucket, coins: int, rest: int)
      modifies this
      ensures var pot := PotOf(old(Money()), b);
        Money() == SetPot(old(Money()), b, Pot(pot.coins + coins, pot.used, rest))
    {
      match b {
        case Ecd => ecd, ecdCents := ecd + coins, rest;
        case VcdCard => card, cardCents := card + coins, rest;
        case VcdQr => qr, qrCents := qr + coins, rest;
      }
    }

    method AddCreditCents(cents: int, b: Bucket)
      modifies this
      ensures Money() == AddCredit(old(Money()), cents, b)
    {
      hide Recalc;
      if cents <= 0 {
        return;
      }
      var before := ecd + card + qr;
      var available := if before >= MAX_COINS then 0 else MAX_COINS - before;
      var residual := match b case Ecd => ecdCents case VcdCard => cardCents case VcdQr => qrCents;
      var total := residual + cents;
      var add := total / 100;
      var rest := total % 100;
      ghost var lost := 0;
      if add > available {
        lost := total - 100 * available;
        add := available;
        rest := 0;
      }
      Deposit(b, add, rest);
      ledger := Ledger(ledger.accepted + cents, ledger.charged, ledger.forfeited + lost);
      RecalcTotals();
    }

    method Withdraw(fromEcd: int, fromCard: int, fromQr: int)
      modifies this
      ensures var p := old(Money());
        Money() == Purse(Spend(p.ecd, fromEcd), Spend(p.card, fromCard), Spend(p.qr, fromQr), p.totals, p.ledger)
    {
      ecd, card, qr := ecd - fromEcd, card - fromCard, qr - fromQr;
      ecdUsed, cardUsed, qrUsed := ecdUsed + fromEcd, cardUsed + fromCard, qrUsed + fromQr;
    }

    method TryCharge(cost: int) returns (ok: bool)
      modifies this
      ensures Money() == Charge(old(Money()), cost).0 && ok == Charge(old(Money()), cost).1
    {
      hide Recalc;
      if cost <= 0 || credit < cost {
        return false;
      }
      var fromEcd := if ecd >= cost then cost else ecd;
      var remaining := cost - fromEcd;
      var fromCard := if remaining > 0 && card > 0 then (if card >= remaining then remaining else card) else 0;
      remaining := remaining - fromCard;
      var fromQr := if remaining > 0 && qr > 0 then (if qr >= remaining then remaining else qr) else 0;
      remaining := remaining - fromQr;
      if remaining > 0 {
        return false;
      }
      Withdraw(fromEcd, fromCard, fromQr);
      ledger := ledger.(charged := ledger.charged + cost);
      RecalcTotals();
      return true;
    }

    method ShowCredit(coins: int)
      modifies this
      ensures Money() == SetCredit(old(Money()), coins)
    {
      credit := coins;
    }

    method ClearVirtual()
      modifies this
      ensures Money() == DropVirtual(old(Money()))
    {
      vcd, card, qr := 0, 0, 0;
      vcdUsed, cardUsed, qrUsed := 0, 0, 0;
      vcdCents, cardCents, qrCents := 0, 0, 0;
    }

    method HideVirtual()
      modifies this
      ensures Money() == old(Money()).(totals := old(Money()).totals.(vcd := 0, vcdCents := 0, credit := old(ecd)))
    {
      vcd, vcdCents, credit := 0, 0, ecd;
    }

    method TimeOut()
      modifies this
      ensures Money() == TimeoutPurse(old(Money()))
    {
      var retained := if ecd > 0 then ecd else 0;
      ledger := ledger.(forfeited := ledger.forfeited + VirtualCents(Money()) + ecdCents);
      ClearVirtual();
      ecd, credit := retained, retained;
      ecdUsed, ecdCents := 0, 0;
    }

    method End(virtualOnly: bool)
      modifies this
      ensures Money() == EndedPurse(old(Money()), virtualOnly)
    {
      ledger := ledger.(forfeited := ledger.forfeited + VirtualCents(Money())
                                     + if virtualOnly then 0 else 100 * ecd + ecdCents);
      ClearVirtual();
      if virtualOnly {
        RecalcTotals();
      } else {
        credit, ecd, ecdUsed, ecdCents := 0, 0, 0, 0;
      }
    }
  }

  class Machine {
    const wallet: Wallet
    var state: State
    var session: Session
    var program: Program
    var vend: PendingVend
    var inactivity: UInt32
    var oosAgent: Int32
    var settings: Settings

    /** The context record this object stands for. */
    ghost function Context(): Ctx
      reads this, wallet
    {
      Ctx(state, wallet.Money(), session, program, vend, inactivity, oosAgent, settings)
    }

    /** What every entry point of the machine relies on and keeps. */
    ghost predicate Valid()
      reads this, wallet
    {
      Inv(Context())
    }

    /** fsm_init. */
    constructor ()
      ensures Context() == Fsm.Init() && fresh(wallet)
      ensures Valid()
    {
      wallet := new Wallet();
      state := Idle;
      session := Session(NoSource, NoSource, NoMode, false, false, false, false);
      program := Program(false, 0, 0, 60000, false, 0, 0, false, false);
      vend := NO_VEND;
      inactivity, oosAgent := 0, 0;
      settings := Settings(30000, true);
      new;
      assert Context() == Fsm.Init();
      hide *;
      InitIsGood();
    }

    /** fsm_init followed by the configured timings. */
    constructor Configured(splash: UInt32, ads: bool)
      ensures Context() == Configure(Fsm.Init(), splash, ads) && fresh(wallet)
      ensures Valid()
    {
      wallet := new Wallet();
      state := if ads then Ads else Credit;
      session := Session(NoSource, NoSource, NoMode, false, false, false, false);
      program := Program(false, 0, 0, 60000, false, 0, 0, false, false);
      vend := NO_VEND;
      inactivity, oosAgent := 0, 0;
      settings := Settings(splash, ads);
      new;
      assert Context() == Configure(Fsm.Init(), splash, ads);
      hide *;
      ConfiguredIsGood(splash, ads);
    }

    method TryAutoRenew() returns (renewed: bool)
      modifies this, wallet
      ensures Context() == AutoRenew(old(Context())).0 && renewed == AutoRenew(old(Context())).1
    {
      if program.price <= 0 {
        return false;
      }
      if session.source == FromCard || session.paySource == FromCard || session.removedDuringRun {
        return false;
      }
      if program.stopAfter {
        return false;
      }
      if wallet.ecd + wallet.vcd <= 0 {
        wallet.ShowCredit(0);
        return false;
      }
      var paid := wallet.TryCharge(program.price);
      if !paid {
        return false;
      }
      program := program.(elapsed := 0, pauseElapsed := 0, pauseLimit := false, running := true, preFine := false);
      return true;
    }

    // ---------------------------------------------------------------- sessions

    method ClearRuntime()
      modifies this
      ensures Context() == ResetRuntime(old(Context()))
    {
      program := program.(running := false, elapsed := 0, pauseElapsed := 0, pauseLimit := false, target := 0,
                          price := 0);
      inactivity := 0;
      program := program.(stopAfter := false, preFine := false);
      if session.source != FromCard && session.source != FromQr {
        session := session.(paySource := NoSource);
      }
    }

    method PrepareOpenSession(source: Source)
      modifies this
      ensures Context() == OpenSession(old(Context()), source)
    {
      session := session.(source := source, mode := OpenPayments, allowMore := true);
      if state == Idle || state == Ads {
        state := Credit;
        inactivity := 0;
      }
    }

    /** Leaves the program for good: runtime cleared, session closed. */
    method Leave(next: State)
      modifies this
      ensures Context() == LeaveProgram(old(Context()), next)
    {
      ClearRuntime();
      session := session.(mode := NoMode, source := NoSource, allowMore := false, paySource := NoSource,
                          removedDuringRun := false);
      state := next;
    }

    method Complete() returns (calls: seq<Call>)
      modifies this
      ensures Context() == CompleteSession(old(Context()))
      ensures calls == if MustComplete(old(Context())) then [SessionComplete] else []
    {
      calls := [];
      if session.source == FromCard && session.completeRequired {
        calls := [SessionComplete];
        session := session.(completeRequired := false);
      }
    }

    // ---------------------------------------------------------------- fsm_handle_event

    method Stop() returns (calls: seq<Call>)
      modifies this, wallet
      ensures Context() == StopProgram(old(Context()))
      ensures calls == if MustComplete(old(Context())) then [SessionComplete] else []
    {
      calls := Complete();
      var hasCredit := wallet.credit > 0 || wallet.ecd + wallet.vcd > 0;
      var stay := hasCredit || (session.source == FromCard && !session.removedDuringRun);
      if stay {
        ClearRuntime();
        state := Credit;
        if wallet.credit <= 0 {
          wallet.ShowCredit(wallet.ecd + wallet.vcd);
        }
      } else {
        Leave(if settings.adsEnabled then Ads else Idle);
      }
    }

    method HandleInCredit(ev: Event)
      requires state == Credit && ev != EnterLvgl && ev != ExitLvgl
      modifies this, wallet
      ensures Context() == HandleEvent(old(Context()), ev)
    {
      if ev == ProgramSelected {
        state := Running;
        program := program.(running := true, elapsed := 0, pauseElapsed := 0, pauseLimit := false);
        inactivity := 0;
      } else if ev == UserActivity {
        inactivity := 0;
      } else if ev == Timeout {
        ClearRuntime();
        wallet.TimeOut();
        session := session.(mode := NoMode, source := NoSource, allowMore := false);
        state := if settings.adsEnabled then Ads else Idle;
        inactivity := 0;
      } else if ev == PaymentAccepted {
        inactivity := 0;
      } else if ev == CreditEnded {
        ClearRuntime();
        session := session.(mode := NoMode, source := NoSource, allowMore := false, paySource := NoSource);
        state := if settings.adsEnabled then Ads else Idle;
        inactivity := 0;
      }
    }

    method HandleInProgram(ev: Event) returns (calls: seq<Call>)
      requires (state == Running || state == Paused) && ev != EnterLvgl && ev != ExitLvgl
      modifies this, wallet
      ensures Context() == HandleEvent(old(Context()), ev) && calls == EventCalls(old(Context()), ev)
    {
      calls := [];
      if ev == ProgramStop {
        calls := Stop();
      } else if state == Running && ev == ProgramPause {
        state := Paused;
        program := program.(running := false, pauseElapsed := 0, pauseLimit := false);
        inactivity := 0;
      } else if state == Running && ev == CreditEnded {
        calls := Complete();
        Leave(Idle);
      } else if state == Paused && ev == ProgramResume {
        state := Running;
        program := program.(running := true, pauseElapsed := 0, pauseLimit := false);
        inactivity := 0;
      } else if state == Paused && ev == CreditEnded {
        Leave(Idle);
      }
    }

    method Handle(ev: Event) returns (changed: bool, calls: seq<Call>)
      modifies this, wallet
      ensures Context() == HandleEvent(old(Context()), ev)
      ensures changed == (state != old(state)) && calls == EventCalls(old(Context()), ev)
    {
      calls := [];
      var prev := state;
      if ev == EnterLvgl {
        if state != LvglTest {
          state := LvglTest;
          program := program.(running := false);
        }
      } else if ev == ExitLvgl {
        if state == LvglTest {
          state := Idle;
        }
      } else if state == Idle || state == Ads {
        if ev == UserActivity || ev == PaymentAccepted {
          state := Credit;
          ClearRuntime();
        }
      } else if state == Credit {
        HandleInCredit(ev);
      } else if state == Running || state == Paused {
        calls := HandleInProgram(ev);
      }
      changed := prev != state;
    }

    // ---------------------------------------------------------------- fsm_handle_input_event

    ghost predicate Leaves(o: Outcome, changed: bool, note: Note, calls: seq<Call>)
      reads this, wallet
    {
      Context() == o.ctx && changed == o.changed && note == o.note && calls == o.calls
    }

    /** Credits a positive amount. */
    method Take(cents: int, b: Bucket, pay: Source)
      modifies this, wallet
      ensures Context() == TakePayment(old(Context()), cents, b, pay)
    {
      if cents > 0 {
        wallet.AddCreditCents(cents, b);
        session := session.(paySource := pay);
      }
    }

    method Pay(cents: int, b: Bucket, pay: Source) returns (changed: bool, calls: seq<Call>)
      modifies this, wallet
      ensures Leaves(Dispatch(TakePayment(old(Context()), cents, b, pay), PaymentAccepted, Quiet, []),
                     changed, Quiet, calls)
    {
      Take(cents, b, pay);
      changed, calls := Handle(PaymentAccepted);
    }

    method CardCredit(e: Input) returns (changed: bool, note: Note, calls: seq<Call>)
      modifies this, wallet
      ensures Leaves(OnCardCredit(old(Context()), e), changed, note, calls)
    {
      session := session.(qrPending := false);
      note := Quiet;
      if state == Running || state == Paused {
        Take(e.i32, VcdCard, FromCard);
        return e.i32 > 0, Quiet, [];
      }
      if vend.pending {
        return false, VendBusy, [];
      }
      PrepareOpenSession(FromCard);
      session := session.(removedDuringRun := false);
      changed, calls := Pay(e.i32, VcdCard, FromCard);
    }

    method AskReader(e: Input, bus: Bus) returns (changed: bool, note: Note, calls: seq<Call>)
      modifies this
      ensures Leaves(RequestVend(old(Context()), e, bus), changed, note, calls)
    {
      if e.i32 <= 0 {
        return false, BadAmount, [];
      }
      if wallet.credit < e.i32 {
        return false, LowCredit, [];
      }
      if !Vendable(e.i32) {
        return false, BadPrice, [];
      }
      vend := vend.(pause := e.u32, target := e.aux, price := e.i32);
      if !bus.vendOk {
        vend := NO_VEND;
        return false, VendRequestFailed, [Vend(Cents(e.i32))];
      }
      vend := vend.(pending := true);
      return true, VendRequested, [Vend(Cents(e.i32))];
    }

    method SetLimits(pause: UInt32, target: UInt32, price: Int32)
      modifies this
      ensures Context() == Prepare(old(Context()), pause, target, price)
    {
      if pause > 0 {
        program := program.(pauseMax := pause);
      }
      if target > 0 {
        program := program.(target := target);
      }
      program := program.(price := price);
    }

    method Select(e: Input, bus: Bus) returns (changed: bool, note: Note, calls: seq<Call>)
      modifies this, wallet
      ensures Leaves(OnSelect(old(Context()), e, bus), changed, note, calls)
    {
      if state != Credit {
        return false, Quiet, [];
      }
      if vend.pending {
        return false, VendBusy, [];
      }
      if wallet.credit <= 0 {
        return false, NoCredit, [];
      }
      if session.source == FromCard {
        changed, note, calls := AskReader(e, bus);
        return;
      }
      SetLimits(e.u32, e.aux, if e.i32 > 0 then e.i32 else 0);
      if program.price > 0 {
        var charged := wallet.TryCharge(program.price);
        if !charged {
          return false, LowCredit, [];
        }
      }
      changed, calls := Handle(ProgramSelected);
      if !changed {
        // The source undoes the charge here; a start from CREDIT always changes the state.
        assert false;
      }
      return true, StartedByCredit, [];
    }

    method VendApproved(e: Input, bus: Bus) returns (changed: bool, note: Note, calls: seq<Call>)
      modifies this, wallet
      ensures Leaves(OnVendApproved(old(Context()), e, bus), changed, note, calls)
    {
      hide Charge, HandleEvent, EventCalls, Refund;
      if !vend.pending || session.source != FromCard || state != Credit {
        return false, UnexpectedApproval, [];
      }
      if !Vendable(vend.price) {
        vend := NO_VEND;
        return false, PriceLost, [SessionComplete];
      }
      var requested := Cents(vend.price);
      var approved := if e.i32 > 0 then e.i32 else requested;
      if approved != requested {
        vend := NO_VEND;
        return false, AmountMismatch, [SessionComplete];
      }
      if !bus.successOk {
        vend := NO_VEND;
        return false, SuccessRejected, [VendSuccess(requested), SessionComplete];
      }
      SetLimits(vend.pause, vend.target, vend.price);
      UnpaidIsUnchanged(wallet.Money(), vend.price);
      var charged := wallet.TryCharge(vend.price);
      if !charged {
        vend := NO_VEND;
        return false, ChargeLost, [VendSuccess(requested), SessionComplete];
      }
      StartsFromCredit(Context());
      StartRuns(Context());
      changed, calls := Handle(ProgramSelected);
      if !changed {
        // The source undoes the charge here; a start from CREDIT always changes the state.
        assert false;
      }
      session := session.(completeRequired := true);
      vend := NO_VEND;
      return true, StartedByCard, [VendSuccess(requested)];
    }

    method VendDenied() returns (changed: bool, note: Note, calls: seq<Call>)
      modifies this
      ensures Leaves(OnVendDenied(old(Context())), changed, note, calls)
    {
      if !vend.pending || session.source != FromCard {
        return false, Quiet, [];
      }
      vend := NO_VEND;
      return true, Quiet, [SessionComplete];
    }

    method StopRequested(e: Input) returns (changed: bool, calls: seq<Call>)
      modifies this, wallet
      ensures Leaves(OnStop(old(Context()), e), changed, Quiet, calls)
    {
      if e.aux == 1 && (state == Running || state == Paused) {
        program := program.(stopAfter := true);
        if state == Paused {
          changed, calls := Handle(ProgramResume);
          return;
        }
        return true, [];
      }
      changed, calls := Handle(ProgramStop);
    }

    method PauseToggled() returns (changed: bool, calls: seq<Call>)
      modifies this, wallet
      ensures Leaves(OnPauseToggle(old(Context())), changed, Quiet, calls)
    {
      if state == Running {
        changed, calls := Handle(ProgramPause);
      } else if state == Paused {
        changed, calls := Handle(ProgramResume);
      } else {
        changed, calls := false, [];
      }
    }

    method CreditOver(e: Input) returns (changed: bool, calls: seq<Call>)
      modifies this, wallet
      ensures Leaves(OnCreditEnded(old(Context()), e), changed, Quiet, calls)
    {
      var first: seq<Call> := [];
      if vend.pending {
        first := [SessionComplete];
        vend := NO_VEND;
      }
      if e.aux == 1 && session.source == FromCard {
        session := session.(completeRequired := false, removedDuringRun := false);
      }
      wallet.End(e.aux == 1);
      changed, calls := Handle(CreditEnded);
      calls := first + calls;
    }

    /** The writes fsm_task makes when the card leaves. */
    method TagTaken()
      requires Valid()
      modifies this, wallet
      ensures Context() == TagRemoved(old(Context()))
      ensures Valid()
    {
      hide Inv;
      StepKeeps(Context(), TagGone);
      if (state == Running || state == Paused) && session.source == FromCard && !vend.pending
         && !session.removedDuringRun {
        session := session.(removedDuringRun := true, completeRequired := false);
        wallet.HideVirtual();
      }
      if state == Credit && session.source == FromCard && !vend.pending {
        if session.completeRequired {
          session := session.(completeRequired := false);
        }
        session := session.(removedDuringRun := false);
      }
    }

    method ApplyReturnTimeout(splash: UInt32)
      requires Valid()
      modifies this
      ensures Context() == Retimed(old(Context()), splash)
      ensures Valid()
    {
      hide Inv;
      StepKeeps(Context(), Retime(splash));
      if settings.splash == splash {
        return;
      }
      settings := settings.(splash := splash);
      if inactivity > Wrap(splash + 5000) {
        inactivity := Wrap(splash + 5000);
      }
    }

    /** The remaining time at the rate of the new program, behind what has elapsed. */
    method NewTarget(e: Input) returns (target: UInt32)
      ensures target == SwitchTarget(program, e)
    {
      hide ScaledRemainder;
      var newDur := e.aux;
      var oldDur := program.target;
      var elapsed := program.elapsed;
      var remOld := if oldDur > elapsed then oldDur - elapsed else 0;
      var oldPrice := if program.price > 0 then program.price else 1;
      var newPrice := if e.i32 > 0 then e.i32 else 1;
      var remNew := if oldDur > 0 && newDur > 0
                    then ScaledRemainder(remOld, newDur, oldPrice, oldDur, newPrice) else newDur;
      return Wrap(elapsed + remNew);
    }

    method Switch(e: Input) returns (changed: bool)
      modifies this
      ensures Leaves(OnSwitch(old(Context()), e), changed, Quiet, [])
    {
      hide SwitchTarget;
      if state != Running && state != Paused {
        return false;
      }
      var wasPaused := state == Paused;
      var target := NewTarget(e);
      program := program.(target := target, price := if e.i32 > 0 then e.i32 else program.price);
      if e.u32 > 0 {
        program := program.(pauseMax := e.u32);
      }
      if wasPaused {
        state := Running;
        program := program.(running := true, pauseElapsed := 0, pauseLimit := false);
        inactivity := 0;
      }
      return wasPaused;
    }

    method Activity(source: Source) returns (changed: bool, calls: seq<Call>)
      modifies this, wallet
      ensures Leaves(Dispatch(if Locked(old(Context())) then old(Context()) else OpenSession(old(Context()), source),
                              UserActivity, Quiet, []), changed, Quiet, calls)
    {
      var locked := session.mode == VirtualLocked && (session.source == FromCard || session.source == FromQr);
      if !locked {
        PrepareOpenSession(source);
      }
      changed, calls := Handle(UserActivity);
    }

    method InputOfKind(e: Input, bus: Bus, kind: Kind) returns (changed: bool, note: Note, calls: seq<Call>)
      modifies this, wallet
      ensures Leaves(HandleKind(old(Context()), e, bus, kind), changed, note, calls)
    {
      hide HandleEvent, OpenSession, TakePayment, OnCardCredit, OnSelect, OnVendApproved, OnVendDenied, OnStop,
           OnPauseToggle, OnCreditEnded, OnSwitch;
      changed, note, calls := false, Quiet, [];
      match kind {
        case ActivityIn | TouchIn => changed, calls := Activity(FromTouch);
        case KeyIn => changed, calls := Activity(FromKey);
        case QrScannedIn =>
          session := session.(qrPending := true);
          changed, calls := Handle(UserActivity);
        case CoinIn =>
          PrepareOpenSession(FromCoin);
          changed, calls := Pay(e.i32, Ecd, FromCoin);
        case TokenIn =>
          PrepareOpenSession(FromCoin);
          changed, calls := Pay(e.i32, Ecd, if e.fromCctalk then FromCctalk else FromCoin);
        case QrCreditIn =>
          session := session.(qrPending := false);
          PrepareOpenSession(FromQr);
          changed, calls := Pay(e.i32, VcdQr, FromQr);
        case CardCreditIn => changed, note, calls := CardCredit(e);
        case SelectIn => changed, note, calls := Select(e, bus);
        case VendApprovedIn => changed, note, calls := VendApproved(e, bus);
        case VendDeniedIn => changed, note, calls := VendDenied();
        case StopIn => changed, calls := StopRequested(e);
        case PauseToggleIn => changed, calls := PauseToggled();
        case CreditEndedIn => changed, calls := CreditOver(e);
        case SwitchIn => changed := Switch(e);
        case NoKind =>
      }
    }

    method HandleInputEvent(e: Input, bus: Bus) returns (changed: bool, note: Note, calls: seq<Call>)
      requires Valid()
      modifies this, wallet
      ensures Leaves(HandleInput(old(Context()), e, bus), changed, note, calls)
      ensures Valid()
    {
      hide Inv, HandleKind, HandleEvent, EventCalls;
      HandleInputKeeps(Context(), e, bus);
      changed, note, calls := false, Quiet, [];
      var prev := state;
      if e.action == ActSystemError {
        state, oosAgent := OutOfService, e.i32;
        program := program.(running := false);
        return prev != state, Quiet, [];
      }
      if e.action == ActSystemRun {
        if state == OutOfService {
          state, oosAgent := Idle, 0;
          return true, Quiet, [];
        }
        return;
      }
      if state == OutOfService {
        return;
      }
      if (state == Running || state == Paused) && PaymentKind(e.kind) {
        return;
      }
      if e.kind == NoKind && e.action == ActLvglEnter {
        changed, calls := Handle(EnterLvgl);
      } else if e.kind == NoKind && e.action == ActLvglExit {
        changed, calls := Handle(ExitLvgl);
      } else {
        changed, note, calls := InputOfKind(e, bus, KindOf(e));
      }
    }

    // ---------------------------------------------------------------- fsm_tick

    method FinishCycle() returns (changed: bool, calls: seq<Call>)
      modifies this, wallet
      ensures Leaves(CycleEnd(old(Context())), changed, Quiet, calls)
    {
      var renewed := TryAutoRenew();
      if renewed {
        return false, [];
      }
      if wallet.ecd + wallet.vcd <= 0 {
        wallet.ShowCredit(0);
        if session.source == FromCard && !session.removedDuringRun {
          ClearRuntime();
          state := Credit;
        } else {
          Leave(if settings.adsEnabled then Ads else Idle);
        }
        return true, [];
      }
      changed, calls := Handle(ProgramStop);
    }

    method RunFor(dt: UInt32, percent: nat) returns (changed: bool, calls: seq<Call>)
      modifies this, wallet
      ensures Leaves(TickRunning(old(Context()), dt, percent), changed, Quiet, calls)
    {
      hide CycleEnd;
      program := program.(elapsed := Wrap(program.elapsed + dt));
      if !program.preFine && program.target > 0 && 0 < percent < 100 {
        var threshold := Wrap(program.target * percent) / 100;
        if program.elapsed >= threshold {
          program := program.(preFine := true);
        }
      }
      if program.target > 0 && program.elapsed >= program.target {
        changed, calls := FinishCycle();
      } else {
        changed, calls := false, [];
      }
    }

    method PauseFor(dt: UInt32) returns (changed: bool, calls: seq<Call>)
      modifies this, wallet
      ensures Leaves(TickPaused(old(Context()), dt), changed, Quiet, calls)
    {
      hide HandleEvent, EventCalls;
      if !program.pauseLimit {
        program := program.(pauseElapsed := Wrap(program.pauseElapsed + dt));
        if program.pauseElapsed >= program.pauseMax {
          program := program.(pauseLimit := true);
          changed, calls := Handle(ProgramResume);
          return;
        }
      }
      return false, [];
    }

    method CountIdle(dt: UInt32)
      modifies this
      ensures Context() == Idling(old(Context()), dt)
    {
      inactivity := Wrap(inactivity + dt);
      var ceiling := Wrap(settings.splash + 5000);
      if inactivity > ceiling {
        inactivity := ceiling;
      }
    }

    method Tick(dt: UInt32, percent: nat) returns (changed: bool, calls: seq<Call>)
      requires Valid()
      modifies this, wallet
      ensures Leaves(Fsm.Tick(old(Context()), dt, percent), changed, Quiet, calls)
      ensures Valid()
    {
      hide Inv, TickRunning, TickPaused;
      TickKeeps(Context(), dt, percent);
      changed, calls := false, [];
      if state == OutOfService {
        return;
      }
      CountIdle(dt);
      if state == Running {
        changed, calls := RunFor(dt, percent);
      } else if state == Paused {
        changed, calls := PauseFor(dt);
      } else if state == Credit && inactivity >= settings.splash {
        changed, calls := Handle(Timeout);
      }
    }
  }
}
