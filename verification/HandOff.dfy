/**
 The hand-off of one digital-I/O request from a web task to the machine task (main/tasks.c): a record on
 the heap, a task notification, a timeout, and a record that either side may have to free.
 Each locked section and each access outside a lock is one step; the two sides interleave in any order.
 */
module HandOff {

  /** What the operation answers: error code (0 is success), level, input snapshot. */
  datatype Reply = Reply(err: int, level: bool, snapshot: int)

  const OK := 0
  const ESP_ERR_TIMEOUT := 0x107

  /** The shared record; `known` says that requester_task is not NULL. */
  datatype Rec = Rec(reply: Reply, completed: bool, abandoned: bool, known: bool)

  /** How a request ends; Refused (publish failed) and Abandoned (timed out) share an error code. */
  datatype Outcome = NoMemory | Refused | Abandoned | Got(reply: Reply)

  /** Where the requester stands, named after what it does next. */
  datatype Requester =
    | Allocating | Clearing | Publishing | Discarding
    | Waiting | Checking | Draining
    | ReadingErr | ReadingLevel(err: int) | ReadingSnapshot(err: int, level: bool) | Releasing(reply: Reply)
    | Returned(outcome: Outcome)

  /** Where the handler stands; Idle before the event is published, Dropped if it is never delivered. */
  datatype Handler =
    | Idle | Queued | WritingErr | WritingLevel | WritingSnapshot | Completing | Waking | Freeing | Done | Dropped

  /** `faults` counts every access to, and every free of, memory that is not allocated. */
  datatype State = State(requester: Requester, handler: Handler, rec: Rec, present: bool,
                         frees: nat, faults: nat, notes: nat)

  /** Whose turn it is; `lucky` settles allocation, publication and whether the wait goes on. */
  datatype Turn = RequesterTurn(lucky: bool) | HandlerTurn | Expiry

  // ---------------------------------------------------------------- the two locked sections

  /** What the handler does under the lock, and whether it must then notify or free. */
  function Complete(r: Rec): (Rec, bool, bool) {
    (r.(completed := true), !r.abandoned && r.known, r.abandoned)
  }

  /** What a timed-out requester does under the lock, and whether the reply is there after all. */
  function Abandon(r: Rec): (Rec, bool) {
    (if r.completed then r else r.(abandoned := true, known := false), r.completed)
  }

  const BLANK := Rec(Reply(ESP_ERR_TIMEOUT, false, 0), false, false, true)

  /** The record in memory. */
  class Record {
    var reply: Reply
    var completed: bool
    var abandoned: bool
    var known: bool

    constructor ()
      ensures Contents() == BLANK
    {
      reply := Reply(ESP_ERR_TIMEOUT, false, 0);
      completed, abandoned, known := false, false, true;
    }

    function Contents(): Rec
      reads this
    {
      Rec(reply, completed, abandoned, known)
    }

    method CompleteLocked() returns (wake: bool, dispose: bool)
      modifies this`completed
      ensures (Contents(), wake, dispose) == Complete(old(Contents()))
    {
      completed := true;
      dispose := abandoned;
      wake := false;
      if !dispose {
        wake := known;
      }
    }

    method AbandonLocked() returns (late: bool)
      modifies this`abandoned, this`known
      ensures (Contents(), late) == Abandon(old(Contents()))
    {
      late := completed;
      if !late {
        abandoned := true;
        known := false;
      }
    }
  }

  // ---------------------------------------------------------------- steps

  function Touch(s: State): State {
    if s.present && s.frees == 0 then s else s.(faults := s.faults + 1)
  }

  function Free(s: State): State {
    Touch(s).(frees := s.frees + 1)
  }

  function RequesterMoves(s: State, lucky: bool): State {
    match s.requester
    case Allocating =>
      if lucky then s.(requester := Clearing, rec := BLANK, present := true) else s.(requester := Returned(NoMemory))
    case Clearing => s.(requester := Publishing, notes := 0)
    case Publishing =>
      if lucky then s.(requester := Waiting, handler := Queued) else s.(requester := Discarding)
    case Discarding => Free(s).(requester := Returned(Refused))
    case Waiting =>
      if s.notes > 0 then s.(requester := ReadingErr, notes := 0)
      else if lucky then s
      else s.(requester := Checking)
    case Checking =>
      var (rec, late) := Abandon(s.rec);
      Touch(s).(rec := rec, requester := if late then Draining else Returned(Abandoned))
    case Draining => s.(requester := ReadingErr, notes := 0)
    case ReadingErr =>
      var err := s.rec.reply.err;
      Touch(s).(requester := if err == OK then ReadingLevel(err) else Releasing(Reply(err, false, 0)))
    case ReadingLevel(err) => Touch(s).(requester := ReadingSnapshot(err, s.rec.reply.level))
    case ReadingSnapshot(err, level) => Touch(s).(requester := Releasing(Reply(err, level, s.rec.reply.snapshot)))
    case Releasing(reply) => Free(s).(requester := Returned(Got(reply)))
    case Returned(_) => s
  }

  /** `op` is what the operation gives when the handler carries it out. */
  function HandlerMoves(s: State, op: Reply): State {
    match s.handler
    case Queued => s.(handler := WritingErr)
    case WritingErr => Touch(s).(handler := WritingLevel, rec := s.rec.(reply := s.rec.reply.(err := op.err)))
    case WritingLevel => Touch(s).(handler := WritingSnapshot, rec := s.rec.(reply := s.rec.reply.(level := op.level)))
    case WritingSnapshot =>
      Touch(s).(handler := Completing, rec := s.rec.(reply := s.rec.reply.(snapshot := op.snapshot)))
    case Completing =>
      var (rec, wake, dispose) := Complete(s.rec);
      Touch(s).(rec := rec, handler := if wake then Waking else if dispose then Freeing else Done)
    case Waking => s.(handler := Done, notes := s.notes + 1)
    case Freeing => Free(s).(handler := Done)
    case Idle | Done | Dropped => s
  }

  function Step(s: State, t: Turn, op: Reply): State {
    match t
    case RequesterTurn(lucky) => RequesterMoves(s, lucky)
    case HandlerTurn => HandlerMoves(s, op)
    case Expiry => if s.handler == Queued then s.(handler := Dropped) else s
  }

  /** Notifications left over from earlier requests may be pending at the start. */
  function Start(notes: nat): State {
    State(Allocating, Idle, BLANK, false, 0, 0, notes)
  }

  function Run(s: State, turns: seq<Turn>, op: Reply): State
    decreases |turns|
  {
    if turns == [] then s else Run(Step(s, turns[0], op), turns[1..], op)
  }

  // ---------------------------------------------------------------- the invariant

  predicate Unpublished(r: Requester) {
    r in {Allocating, Clearing, Publishing, Discarding, Returned(NoMemory), Returned(Refused)}
  }

  /** The requester has learnt that the reply is complete. */
  predicate Knows(r: Requester) {
    || r.Draining? || r.ReadingErr? || r.ReadingLevel? || r.ReadingSnapshot? || r.Releasing?
    || (r.Returned? && r.outcome.Got?)
  }

  /** What the caller sees of a reply: on an error only the code. */
  function Shown(op: Reply): Reply {
    if op.err == OK then op else Reply(op.err, false, 0)
  }

  predicate ReadSoFar(r: Requester, op: Reply) {
    match r
    case ReadingLevel(err) => err == OK == op.err
    case ReadingSnapshot(err, level) => err == OK == op.err && level == op.level
    case Releasing(reply) => reply == Shown(op)
    case Returned(Got(reply)) => reply == Shown(op)
    case _ => true
  }

  predicate WrittenSoFar(h: Handler, reply: Reply, op: Reply) {
    match h
    case WritingLevel => reply.err == op.err
    case WritingSnapshot => reply.err == op.err && reply.level == op.level
    case Completing | Waking | Freeing | Done => reply == op
    case _ => true
  }

  /** How often the record has been freed, read off the two positions. */
  function Owed(s: State): nat {
    match s.requester
    case Returned(Refused) => 1
    case Returned(Got(_)) => 1
    case Returned(Abandoned) => if s.handler == Done then 1 else 0
    case _ => 0
  }

  /** Who owns the record, and what is in it: all but the notifications. */
  predicate Sound(s: State, op: Reply) {
    && s.faults == 0
    && s.frees == Owed(s)
    && (s.present <==> s.requester != Allocating && s.requester != Returned(NoMemory))
    && (s.handler == Idle <==> Unpublished(s.requester))
    && (s.rec.completed <==> s.handler in {Waking, Freeing, Done})
    && (s.rec.abandoned <==> s.requester == Returned(Abandoned))
    && (s.rec.known <==> !s.rec.abandoned)
    && (s.handler == Freeing ==> s.rec.abandoned)
    && (s.handler == Waking ==> !s.rec.abandoned)
    && (Knows(s.requester) ==> s.rec.completed)
    && WrittenSoFar(s.handler, s.rec.reply, op)
    && ReadSoFar(s.requester, op)
  }

  /** Once older notifications are discarded, one means that the handler is done. */
  predicate NotesOk(s: State) {
    && (s.rec.abandoned ==> s.notes == 0)
    && (s.notes > 0 && s.requester != Allocating && s.requester != Clearing && s.requester != Returned(NoMemory)
        ==> s.handler == Done && s.notes == 1)
  }

  predicate Inv(s: State, op: Reply) {
    Sound(s, op) && NotesOk(s)
  }

  /** The requester takes a notification for its own before its reply is complete. */
  predicate Misled(s: State, t: Turn) {
    t.RequesterTurn? && s.requester == Waiting && s.notes > 0 && !s.rec.completed
  }

  lemma StepStaysSound(s: State, t: Turn, op: Reply)
    requires Sound(s, op) && !Misled(s, t)
    ensures Sound(Step(s, t, op), op)
  {
  }

  lemma StepKeepsNotes(s: State, t: Turn, op: Reply)
    requires Inv(s, op)
    ensures NotesOk(Step(s, t, op))
  {
    hide WrittenSoFar, ReadSoFar, Owed;
  }

  lemma StepKeeps(s: State, t: Turn, op: Reply)
    requires Inv(s, op)
    ensures Inv(Step(s, t, op), op)
  {
    hide Step, WrittenSoFar, ReadSoFar, Owed;
    StepStaysSound(s, t, op);
    StepKeepsNotes(s, t, op);
  }

  lemma {:induction false} RunKeeps(s: State, turns: seq<Turn>, op: Reply)
    requires Inv(s, op)
    ensures Inv(Run(s, turns, op), op)
    decreases |turns|
  {
    if turns != [] {
      StepKeeps(s, turns[0], op);
      RunKeeps(Step(s, turns[0], op), turns[1..], op);
    }
  }

  // ---------------------------------------------------------------- main results

  /** Under every interleaving the record is never touched or freed while not allocated, and freed at
      most once. */
  lemma MemoryIsSafe(notes: nat, turns: seq<Turn>, op: Reply)
    ensures Run(Start(notes), turns, op).faults == 0
    ensures Run(Start(notes), turns, op).frees <= 1
  {
    RunKeeps(Start(notes), turns, op);
  }

  /** Nothing is left to do. */
  predicate Finished(s: State) {
    s.requester.Returned? && s.handler in {Idle, Done, Dropped}
  }

  /** At the end the record has been freed exactly once, unless it was never allocated or the event of an
      abandoned request was never handled; only the latter leaks. */
  lemma FreedExactlyOnce(notes: nat, turns: seq<Turn>, op: Reply)
    requires Finished(Run(Start(notes), turns, op))
    ensures var s := Run(Start(notes), turns, op);
      && s.frees == (if s.requester.outcome == NoMemory then 0
                     else if s.requester.outcome == Abandoned && s.handler == Dropped then 0
                     else 1)
      && (s.handler == Done ==> s.frees == 1)
  {
    RunKeeps(Start(notes), turns, op);
  }

  /** A reply that is returned is whole: the one the handler produced, never torn or stale, although it
      is written in pieces outside the lock. */
  lemma ReplyIsWhole(notes: nat, turns: seq<Turn>, op: Reply)
    ensures var s := Run(Start(notes), turns, op);
      s.requester.Returned? && s.requester.outcome.Got? ==> s.requester.outcome.reply == Shown(op)
  {
    RunKeeps(Start(notes), turns, op);
  }

  /** A timeout after completion is no timeout: the request is given up exactly when the handler had not
      completed at the moment of the check. */
  lemma GivenUpIff(notes: nat, turns: seq<Turn>, op: Reply, lucky: bool)
    requires Run(Start(notes), turns, op).requester == Checking
    ensures var s := Run(Start(notes), turns, op); var after := Step(s, RequesterTurn(lucky), op);
      && (after.requester == Returned(Abandoned) <==> s.handler !in {Waking, Done})
      && (after.requester == Draining <==> s.handler in {Waking, Done})
  {
    RunKeeps(Start(notes), turns, op);
  }

  // ---------------------------------------------------------------- progress

  function RequesterRank(r: Requester): nat {
    match r
    case Allocating => 10
    case Clearing => 9
    case Publishing => 8
    case Waiting => 7
    case Checking => 6
    case Draining => 5
    case ReadingErr => 4
    case ReadingLevel(_) => 3
    case ReadingSnapshot(_, _) => 2
    case Releasing(_) | Discarding => 1
    case Returned(_) => 0
  }

  function HandlerRank(h: Handler): nat {
    match h
    case Idle => 7
    case Queued => 6
    case WritingErr => 5
    case WritingLevel => 4
    case WritingSnapshot => 3
    case Completing => 2
    case Waking | Freeing => 1
    case Done | Dropped => 0
  }

  function Rank(s: State): nat {
    RequesterRank(s.requester) + HandlerRank(s.handler)
  }

  /** Every turn that changes anything brings the end nearer, and only a finished state is stuck: there
      is no deadlock. */
  lemma Progress(s: State, op: Reply)
    requires Inv(s, op)
    ensures forall t :: Step(s, t, op) == s || Rank(Step(s, t, op)) < Rank(s)
    ensures Finished(s) <==> forall t :: Step(s, t, op) == s
  {
    if !s.requester.Returned? {
      assert Step(s, RequesterTurn(false), op) != s;
    } else if !Finished(s) {
      assert Step(s, HandlerTurn, op) != s;
    }
  }

  ghost predicate EveryTurnMoves(s: State, turns: seq<Turn>, op: Reply)
    decreases |turns|
  {
    turns != [] ==> Step(s, turns[0], op) != s && EveryTurnMoves(Step(s, turns[0], op), turns[1..], op)
  }

  lemma {:induction false} MovesAreBounded(s: State, turns: seq<Turn>, op: Reply)
    requires Inv(s, op) && EveryTurnMoves(s, turns, op)
    ensures |turns| <= Rank(s)
    decreases |turns|
  {
    if turns != [] {
      Progress(s, op);
      StepKeeps(s, turns[0], op);
      MovesAreBounded(Step(s, turns[0], op), turns[1..], op);
    }
  }

  // ---------------------------------------------------------------- the stray notification

  /** Completing and notifying are separate steps, so a request can end and leave a notification behind:
      one at most... */
  lemma NotesLeftBehind(notes: nat, turns: seq<Turn>, op: Reply)
    ensures var s := Run(Start(notes), turns, op);
      s.requester.Returned? && s.requester.outcome != NoMemory ==> s.notes <= (if s.handler == Done then 1 else 0)
  {
    RunKeeps(Start(notes), turns, op);
  }

  /** The requester discards pending notifications while the handler has yet to give its own. */
  predicate DrainsTooEarly(s: State, t: Turn) {
    t.RequesterTurn? && s.requester == Draining && s.handler == Waking
  }

  predicate EverDrainsTooEarly(s: State, turns: seq<Turn>, op: Reply)
    decreases |turns|
  {
    turns != [] && (DrainsTooEarly(s, turns[0]) || EverDrainsTooEarly(Step(s, turns[0], op), turns[1..], op))
  }

  /** Past the point where it discards notifications. */
  predicate PastDraining(r: Requester) {
    Knows(r) && r != Draining
  }

  /** A notification is there, or about to be, that the requester will not take. */
  predicate Stray(s: State) {
    PastDraining(s.requester) && (s.handler == Waking || s.notes == 1)
  }

  lemma StepStray(s: State, t: Turn, op: Reply)
    requires Inv(s, op)
    ensures Stray(Step(s, t, op)) <==> Stray(s) || DrainsTooEarly(s, t)
  {
  }

  lemma {:induction false} RunStray(s: State, turns: seq<Turn>, op: Reply)
    requires Inv(s, op)
    ensures Stray(Run(s, turns, op)) <==> Stray(s) || EverDrainsTooEarly(s, turns, op)
    decreases |turns|
  {
    if turns != [] {
      StepStray(s, turns[0], op);
      StepKeeps(s, turns[0], op);
      RunStray(Step(s, turns[0], op), turns[1..], op);
    }
  }

  /** ...and exactly when the requester timed out, found the reply complete and discarded notifications
      before the handler gave its own.  This decides it for every way a request can end (without memory
      none is discarded, and none is given). */
  lemma NoteIsLeftIff(notes: nat, turns: seq<Turn>, op: Reply)
    requires Finished(Run(Start(notes), turns, op))
    ensures var s := Run(Start(notes), turns, op);
      s.requester.outcome != NoMemory ==> s.notes == if EverDrainsTooEarly(Start(notes), turns, op) then 1 else 0
    ensures EverDrainsTooEarly(Start(notes), turns, op) ==> Run(Start(notes), turns, op).requester.outcome.Got?
  {
    RunKeeps(Start(notes), turns, op);
    RunStray(Start(notes), turns, op);
  }

  function Timeout(): seq<Turn> {
    [RequesterTurn(true), RequesterTurn(true), RequesterTurn(true), RequesterTurn(false)]
  }

  function Handling(): seq<Turn> {
    [HandlerTurn, HandlerTurn, HandlerTurn, HandlerTurn, HandlerTurn]
  }

  /** Drain, read what there is to read, release; then the handler. */
  function Collecting(op: Reply): seq<Turn> {
    var r, h := RequesterTurn(true), HandlerTurn;
    [r, r, r, r] + if op.err == OK then [r, r, h, h] else [h, h, h, h]
  }

  lemma {:induction false} RunConcat(s: State, first: seq<Turn>, second: seq<Turn>, op: Reply)
    ensures Run(s, first + second, op) == Run(Run(s, first, op), second, op)
    decreases |first|
  {
    if first == [] {
      assert first + second == second;
    } else {
      assert (first + second)[1..] == first[1..] + second;
      RunConcat(Step(s, first[0], op), first[1..], second, op);
    }
  }

  lemma RunFive(s: State, a: Turn, b: Turn, c: Turn, d: Turn, e: Turn, op: Reply)
    ensures Run(s, [a, b, c, d], op) == Step(Step(Step(Step(s, a, op), b, op), c, op), d, op)
    ensures Run(s, [a, b, c, d, e], op) == Step(Run(s, [a, b, c, d], op), e, op)
  {
    hide Step;
    RunConcat(s, [a], [b, c, d, e], op);
    RunConcat(s, [a], [b, c, d], op);
    assert [a] + [b, c, d, e] == [a, b, c, d, e] && [a] + [b, c, d] == [a, b, c, d];
    assert [a, b, c, d] + [e] == [a, b, c, d, e];
    RunConcat(s, [a, b, c, d], [e], op);
    var s1 := Step(s, a, op);
    assert Run(s, [a], op) == s1;
    RunConcat(s1, [b], [c, d], op);
    assert [b] + [c, d] == [b, c, d];
    var s2 := Step(s1, b, op);
    RunConcat(s2, [c], [d], op);
    assert [c] + [d] == [c, d];
  }

  function ReadyLate(op: Reply): State {
    State(Checking, Waking, Rec(op, true, false, true), true, 0, 0, 0)
  }

  lemma FourTurns(op: Reply)
    ensures var r := RequesterTurn(true); var s := ReadyLate(op);
      Run(s, [r, r, r, r], op) ==
        if op.err == OK then s.(requester := ReadingSnapshot(OK, op.level))
        else s.(requester := Returned(Got(Reply(op.err, false, 0))), frees := 1)
  {
    hide Run;
    var r := RequesterTurn(true);
    RunFive(ReadyLate(op), r, r, r, r, r, op);
  }

  lemma CollectsLate(op: Reply)
    ensures var s := Run(ReadyLate(op), Collecting(op), op);
      Finished(s) && s.requester == Returned(Got(Shown(op))) && s.notes == 1
  {
    hide Run;
    var r, h := RequesterTurn(true), HandlerTurn;
    var rest := if op.err == OK then [r, r, h, h] else [h, h, h, h];
    RunConcat(ReadyLate(op), [r, r, r, r], rest, op);
    FourTurns(op);
    var read := Run(ReadyLate(op), [r, r, r, r], op);
    if op.err == OK {
      RunFive(read, r, r, h, h, h, op);
    } else {
      RunFive(read, h, h, h, h, h, op);
    }
  }

  /** Such runs exist for every reply: the requester times out, finds the operation complete, drains its
      notification, frees the record and returns; only then does the handler notify. */
  lemma LateWake(op: Reply)
    ensures var s := Run(Start(0), Timeout() + Handling() + Collecting(op), op);
      Finished(s) && s.requester == Returned(Got(Shown(op))) && s.notes == 1
  {
    hide Run;
    var r, h := RequesterTurn(true), HandlerTurn;
    RunConcat(Start(0), Timeout() + Handling(), Collecting(op), op);
    RunConcat(Start(0), Timeout(), Handling(), op);
    RunFive(Start(0), r, r, r, RequesterTurn(false), h, op);
    var waiting := Run(Start(0), Timeout(), op);
    assert waiting.requester == Checking && waiting.handler == Queued;
    RunFive(waiting, h, h, h, h, h, op);
    CollectsLate(op);
  }

  // ---------------------------------------------------------------- a notification from outside

  /** An earlier request can have returned while its handler has yet to notify. */
  lemma ReturnsBeforeNotified(op: Reply)
    ensures var r := RequesterTurn(true);
      var s := Run(Start(0), Timeout() + Handling() + ([r, r, r, r] + [r, r, r, r]), op);
      s.requester == Returned(Got(Shown(op))) && s.handler == Waking
  {
    hide Run;
    var r, h := RequesterTurn(true), HandlerTurn;
    RunConcat(Start(0), Timeout() + Handling(), [r, r, r, r] + [r, r, r, r], op);
    RunConcat(Start(0), Timeout(), Handling(), op);
    RunFive(Start(0), r, r, r, RequesterTurn(false), h, op);
    var waiting := Run(Start(0), Timeout(), op);
    assert waiting.requester == Checking && waiting.handler == Queued;
    RunFive(waiting, h, h, h, h, h, op);
    RunConcat(ReadyLate(op), [r, r, r, r], [r, r, r, r], op);
    FourTurns(op);
    RunFive(Run(ReadyLate(op), [r, r, r, r], op), r, r, r, r, h, op);
  }

  /** The turns of a request, or that late notification. */
  datatype OuterTurn = Own(turn: Turn) | OuterNote

  function OuterStep(s: State, t: OuterTurn, op: Reply): State {
    match t
    case Own(turn) => Step(s, turn, op)
    case OuterNote => s.(notes := s.notes + 1)
  }

  function OuterRun(s: State, turns: seq<OuterTurn>, op: Reply): State
    decreases |turns|
  {
    if turns == [] then s else OuterRun(OuterStep(s, turns[0], op), turns[1..], op)
  }

  predicate NeverMisled(s: State, turns: seq<OuterTurn>, op: Reply)
    decreases |turns|
  {
    turns != [] ==>
      !(turns[0].Own? && Misled(s, turns[0].turn)) && NeverMisled(OuterStep(s, turns[0], op), turns[1..], op)
  }

  lemma OuterStepKeeps(s: State, t: OuterTurn, op: Reply)
    requires Sound(s, op) && !(t.Own? && Misled(s, t.turn))
    ensures Sound(OuterStep(s, t, op), op)
  {
    match t
    case Own(turn) => StepStaysSound(s, turn, op);
    case OuterNote =>
  }

  /** Whatever notifications arrive from outside, as long as none is mistaken for the handler's the record is
      never touched or freed when not allocated, freed at most once, and its reply returned whole. */
  lemma {:induction false} SafeUnlessMisled(s: State, turns: seq<OuterTurn>, op: Reply)
    requires Sound(s, op) && NeverMisled(s, turns, op)
    ensures Sound(OuterRun(s, turns, op), op)
    ensures OuterRun(s, turns, op).faults == 0 && OuterRun(s, turns, op).frees <= 1
    decreases |turns|
  {
    if turns != [] {
      OuterStepKeeps(s, turns[0], op);
      SafeUnlessMisled(OuterStep(s, turns[0], op), turns[1..], op);
    }
  }

  /** Once past the wait, no notification matters. */
  lemma {:induction false} SafeWhenKnown(s: State, turns: seq<Turn>, op: Reply)
    requires Sound(s, op) && Knows(s.requester)
    ensures Run(s, turns, op).faults == 0
    decreases |turns|
  {
    if turns != [] {
      StepStaysSound(s, turns[0], op);
      SafeWhenKnown(Step(s, turns[0], op), turns[1..], op);
    }
  }

  /** A misled requester whose event is never handled has the record to itself. */
  predicate Alone(s: State) {
    && s.handler == Dropped && s.present && s.faults == 0
    && (s.requester.ReadingErr? || s.requester.ReadingLevel? || s.requester.ReadingSnapshot? || s.requester.Releasing?
        || (s.requester.Returned? && s.requester.outcome.Got?))
    && s.frees == if s.requester.Returned? then 1 else 0
  }

  lemma {:induction false} SafeWhenAlone(s: State, turns: seq<Turn>, op: Reply)
    requires Alone(s)
    ensures Run(s, turns, op).faults == 0
    decreases |turns|
  {
    if turns != [] {
      assert Alone(Step(s, turns[0], op));
      SafeWhenAlone(Step(s, turns[0], op), turns[1..], op);
    }
  }

  /** The misled requester reads what is there, frees the record and returns. */
  lemma FreesTooEarly(s: State, op: Reply)
    requires s.requester == ReadingErr && s.present && s.frees == 0 && s.faults == 0
    ensures var r := RequesterTurn(true); var n := Run(s, [r, r, r, r], op);
      n.requester.Returned? && n.frees == 1 && n.handler == s.handler && n.present && n.rec == s.rec
  {
    hide Run;
    var r := RequesterTurn(true);
    RunFive(s, r, r, r, r, r, op);
  }

  /** The handler then touches what is no longer there. */
  lemma HandlerTouches(s: State, op: Reply)
    requires s.requester.Returned? && s.frees == 1
    requires s.handler in {Queued, WritingErr, WritingLevel, WritingSnapshot, Completing}
    ensures Run(s, [HandlerTurn, HandlerTurn, HandlerTurn, HandlerTurn], op).faults > 0
  {
    hide Run;
    var h := HandlerTurn;
    RunFive(s, h, h, h, h, h, op);
  }

  lemma MisledFaults(s: State, op: Reply) returns (turns: seq<Turn>)
    requires Sound(s, op) && s.requester == Waiting && s.notes > 0
    requires !s.rec.completed && s.handler != Dropped
    ensures Run(Step(s, RequesterTurn(true), op), turns, op).faults > 0
  {
    hide Run;
    var r, h := RequesterTurn(true), HandlerTurn;
    var misled := Step(s, r, op);
    FreesTooEarly(misled, op);
    HandlerTouches(Run(misled, [r, r, r, r], op), op);
    RunConcat(misled, [r, r, r, r], [h, h, h, h], op);
    turns := [r, r, r, r] + [h, h, h, h];
  }

  /** Taking a notification while waiting can end in a touch of freed memory exactly when the reply is not
      complete and the handler is still to write it. */
  lemma WakeFaultsIff(s: State, op: Reply)
    requires Sound(s, op) && s.requester == Waiting && s.notes > 0
    ensures (exists turns :: Run(Step(s, RequesterTurn(true), op), turns, op).faults > 0) <==>
      !s.rec.completed && s.handler != Dropped
  {
    var next := Step(s, RequesterTurn(true), op);
    if s.rec.completed {
      StepStaysSound(s, RequesterTurn(true), op);
      forall turns ensures Run(next, turns, op).faults == 0 {
        SafeWhenKnown(next, turns, op);
      }
    } else if s.handler == Dropped {
      forall turns ensures Run(next, turns, op).faults == 0 {
        SafeWhenAlone(next, turns, op);
      }
    } else {
      var turns := MisledFaults(s, op);
    }
  }

  /** Without outside notifications the requester is never misled, whatever was pending at the start: those
      are discarded before the request is published. */
  lemma PendingNotesAreHarmless(notes: nat, turns: seq<Turn>, op: Reply)
    ensures var s := Run(Start(notes), turns, op); s.requester == Waiting && s.notes > 0 ==> s.rec.completed
  {
    RunKeeps(Start(notes), turns, op);
  }

  /** One that comes between publication and handling is not harmless. */
  lemma LateNoteFaults(op: Reply) returns (turns: seq<Turn>)
    ensures var r := RequesterTurn(true);
      var waiting := Run(Start(0), [r, r, r, RequesterTurn(true)], op);
      && waiting.requester == Waiting && waiting.handler == Queued
      && Run(Step(OuterStep(waiting, OuterNote, op), r, op), turns, op).faults > 0
  {
    hide Run;
    var r := RequesterTurn(true);
    RunFive(Start(0), r, r, r, r, r, op);
    var waiting := Run(Start(0), [r, r, r, r], op);
    turns := MisledFaults(OuterStep(waiting, OuterNote, op), op);
  }
}
