/**
 The card vend as a conversation with the reader: what is asked for, what success is reported for, and what is
 charged are one amount, over every run.
 */
module FsmVend {
  import opened Fsm
  import opened FsmSafety
  import opened FsmTable

  /** The amount of a step's vend request that the reader layer took, or what it was before. */
  function Asked(c: Ctx, s: Step, last: int): int {
    var calls := Apply(c, s).calls;
    if s.In? && s.bus.vendOk && |calls| == 1 && calls[0].Vend? then calls[0].cents else last
  }

  /** The latest amount asked for in a run. */
  function LastAsked(c: Ctx, steps: seq<Step>, last: int): int
    decreases |steps|
  {
    if steps == [] then last else LastAsked(Apply(c, steps[0]).ctx, steps[1..], Asked(c, steps[0], last))
  }

  /** A selection the reader is asked about: in CREDIT, in a card session, no other vend pending, the price
      covered and, in cents, within the reader's 16 bits. */
  predicate AsksFor(c: Ctx, s: Step) {
    && IsSelection(s) && c.state == Credit && c.session.source == FromCard && !c.vend.pending
    && 0 < s.e.i32 <= c.purse.totals.credit && 100 * s.e.i32 <= 0xFFFF
  }

  /** What a step asks the reader for. */
  lemma AsksIff(c: Ctx, s: Step)
    requires Inv(c)
    ensures (exists x :: Vend(x) in Apply(c, s).calls) <==> AsksFor(c, s)
    ensures AsksFor(c, s) ==> Apply(c, s).calls == [Vend(100 * s.e.i32)]
  {
    StepFollowsTable(c, s);
    hide Apply, Inv, Table, IsSelection, IsApproval;
    var calls := Apply(c, s).calls;
    if IsSelection(s) {
      SelectionTable(c, s);
      assert AsksFor(c, s) ==> Vend(100 * s.e.i32) in calls;
    } else if IsApproval(s) {
      ApprovalTable(c, s);
    } else {
      OthersAreModest(c, s);
    }
  }

  /** A vend becomes pending exactly when its price in cents is asked for and the request is taken. */
  lemma PendingMeansAsked(c: Ctx, s: Step)
    requires Inv(c) && !c.vend.pending
    ensures var o := Apply(c, s);
      && (o.ctx.vend.pending <==> AsksFor(c, s) && s.bus.vendOk)
      && (o.ctx.vend.pending ==> o.calls == [Vend(100 * o.ctx.vend.price)]
                                 && o.ctx.vend == PendingVend(true, s.e.i32, s.e.u32, s.e.aux))
  {
    StepFollowsTable(c, s);
    hide Apply, Inv, Table, IsSelection, IsApproval;
    if IsSelection(s) {
      SelectionTable(c, s);
    } else if IsApproval(s) {
      ApprovalTable(c, s);
    } else {
      OthersAreModest(c, s);
    }
  }

  /** While a vend is pending its price in cents is the amount last asked for. */
  ghost predicate Agrees(c: Ctx, last: int) {
    c.vend.pending ==> last == 100 * c.vend.price
  }

  lemma VendStays(c: Ctx, s: Step)
    requires Inv(c) && c.vend.pending
    ensures Apply(c, s).ctx.vend.pending ==> Apply(c, s).ctx.vend == c.vend
  {
    StepFollowsTable(c, s);
    hide Apply, Inv, Table, IsSelection, IsApproval;
    if IsSelection(s) {
      SelectionTable(c, s);
    } else if IsApproval(s) {
      ApprovalTable(c, s);
    } else {
      OthersAreModest(c, s);
    }
  }

  lemma SelectionIsInput(s: Step)
    requires IsSelection(s)
    ensures s.In?
  {
  }

  lemma AskedIs(c: Ctx, s: Step, last: int)
    requires (exists x :: Vend(x) in Apply(c, s).calls) <==> AsksFor(c, s)
    requires AsksFor(c, s) ==> Apply(c, s).calls == [Vend(100 * s.e.i32)]
    ensures Asked(c, s, last) == if AsksFor(c, s) && s.bus.vendOk then 100 * s.e.i32 else last
  {
    hide Apply, IsSelection;
    if AsksFor(c, s) {
      SelectionIsInput(s);
    }
    var calls := Apply(c, s).calls;
    assert |calls| == 1 ==> calls[0] in calls;
    assert |calls| == 1 && calls[0].Vend? ==> calls[0] == Vend(calls[0].cents);
  }

  lemma StepAgrees(c: Ctx, s: Step, last: int)
    requires Inv(c) && Agrees(c, last)
    ensures Agrees(Apply(c, s).ctx, Asked(c, s, last))
  {
    hide Apply, Inv;
    AsksIff(c, s);
    AskedIs(c, s, last);
    if c.vend.pending {
      VendStays(c, s);
    } else {
      PendingMeansAsked(c, s);
    }
  }

  lemma {:induction false} RunAgrees(c: Ctx, steps: seq<Step>, last: int)
    requires Inv(c) && Agrees(c, last)
    ensures Agrees(Run(c, steps), LastAsked(c, steps, last))
    decreases |steps|
  {
    hide Apply, Inv, Agrees, Asked;
    if steps != [] {
      StepAgrees(c, steps[0], last);
      StepKeeps(c, steps[0]);
      RunAgrees(Apply(c, steps[0]).ctx, steps[1..], Asked(c, steps[0], last));
    }
  }

  /** Success is reported only for a pending vend, in an approval, for its price in cents. */
  lemma SuccessIsForPending(c: Ctx, s: Step, x: int)
    requires Inv(c) && VendSuccess(x) in Apply(c, s).calls
    ensures IsApproval(s) && c.state == Credit && c.vend.pending && x == 100 * c.vend.price
  {
    StepFollowsTable(c, s);
    hide Apply, Inv, Table, IsSelection, IsApproval;
    if IsSelection(s) {
      SelectionTable(c, s);
    } else if IsApproval(s) {
      ApprovalTable(c, s);
    } else {
      OthersAreModest(c, s);
    }
  }

  lemma ApprovalIsStep(c: Ctx, s: Step)
    requires IsApproval(s) && c.state == Credit
    ensures Apply(c, s) == OnVendApproved(c, s.e, s.bus)
  {
    hide OnVendApproved;
    MeaningIs(s.e);
  }

  lemma BootedNotPending(c: Ctx)
    requires Booted(c)
    ensures !c.vend.pending
  {
    hide EmptyPurse;
  }

  /** In every run from the start: the amount a vend success is reported for is the amount last asked for; and
      when the report is taken, it is 100 times the coins charged and the program runs. */
  lemma OneAmount(start: Ctx, steps: seq<Step>, s: Step, x: int)
    requires Booted(start) && VendSuccess(x) in Apply(Run(start, steps), s).calls
    ensures var c := Run(start, steps); var n := Apply(c, s).ctx;
      && x == LastAsked(start, steps, 0)
      && (s.bus.successOk ==> n.state == Running && 100 * (n.purse.ledger.charged - c.purse.ledger.charged) == x)
      && (!s.bus.successOk ==> n.purse == c.purse && n.state == c.state)
  {
    hide Apply, Run, Inv, LastAsked, OnVendApproved, Booted;
    var c := Run(start, steps);
    BootedIsGood(start);
    BootedNotPending(start);
    MoneyIsConserved(start, steps);
    RunAgrees(start, steps, 0);
    SuccessIsForPending(c, s, x);
    ApprovalIsStep(c, s);
    ApprovalAtomic(c, s.e, s.bus);
  }
}
