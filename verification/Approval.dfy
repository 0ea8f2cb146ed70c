/** The answers an approval request can get: resultFor and rejection of internal/approval/pending.go. */
module ApprovalResults {
  import opened Wrappers
  import opened Decimals
  import DecimalText

  datatype Proposal = Proposal(sizeQuote: Decimal, details: string)

  datatype Verdict = Approve | Reject | Modify

  datatype Request = Request(decision: Option<Verdict>, size: Option<Decimal>, operator: string, note: string)

  datatype Decision = Decision(verdict: Verdict, operator: string, ts: int, note: string, modified: Option<Proposal>)

  datatype DecisionResult = DecisionResult(decision: Decision, finalProposal: Proposal, requiresRevalidation: bool)

  datatype ApprovalError = EmptyRunId | InvalidProposal | DuplicateRunId | NotPending | ModifySizeNeeded | InvalidDecision

  function Trimmed(text: string): string { DecimalText.TrimRight(DecimalText.TrimLeft(text)) }

  function NoteOr(note: string, standard: string): string { if note == "" then standard else note }

  /** resultFor: what a request decides; a decision this program does not know is None. */
  function ResultFor(proposal: Proposal, request: Request, defaultOperator: string, now: int):
    Result<DecisionResult, ApprovalError>
  {
    var operator := if Trimmed(request.operator) == "" then defaultOperator else Trimmed(request.operator);
    match request.decision
    case None => Err(InvalidDecision)
    case Some(Approve) =>
      Ok(DecisionResult(Decision(Approve, operator, now, NoteOr(request.note, "仪表盘批准"), None), proposal, false))
    case Some(Reject) =>
      Ok(DecisionResult(Decision(Reject, operator, now, NoteOr(request.note, "仪表盘拒绝"), None), proposal, false))
    case Some(Modify) =>
      if request.size.None? || !IsPositive(request.size.value) then Err(ModifySizeNeeded)
      else
        var modified := proposal.(sizeQuote := request.size.value);
        var note := NoteOr(request.note, "改规模至 " + DecimalText.Text(request.size.value));
        Ok(DecisionResult(Decision(Modify, operator, now, note, Some(modified)), modified, true))
  }

  /** The fail-safe answer of a timeout or a cancellation. */
  function Rejection(proposal: Proposal, defaultOperator: string, now: int, note: string): DecisionResult {
    DecisionResult(Decision(Reject, defaultOperator, now, note, None), proposal, false)
  }

  /** The text without the white space around it. */
  ghost predicate IsTrimmed(text: string, core: string) {
    && (exists pre, post :: text == pre + core + post && DecimalText.AllSpace(pre) && DecimalText.AllSpace(post))
    && (core != "" ==> !DecimalText.IsSpace(core[0]) && !DecimalText.IsSpace(core[|core| - 1]))
  }

  lemma TrimmedIsTrimmed(text: string)
    ensures IsTrimmed(text, Trimmed(text))
  {
    var left := DecimalText.TrimLeft(text);
    var pre := DecimalText.TrimLeftSplits(text);
    var post := DecimalText.TrimRightSplits(left);
    var core := DecimalText.TrimRight(left);
    assert text == pre + core + post;
    if core != "" {
      assert left[0] == core[0];
    }
  }

  lemma BlankIsTrimmedAway(text: string)
    ensures Trimmed(text) == "" <==> DecimalText.AllSpace(text)
  {
    var left := DecimalText.TrimLeft(text);
    var pre := DecimalText.TrimLeftSplits(text);
    var post := DecimalText.TrimRightSplits(left);
    if Trimmed(text) == "" {
      assert text == pre + post;
    } else {
      assert text[|pre|] == left[0] && !DecimalText.IsSpace(left[0]);
    }
  }

  /**
   A request is refused exactly for an unknown decision or a modification without a positive size, each with
   its own error. An accepted one is decided by its own operator, or the default one if it names none, at the
   given time, with its own note or the standard one; a modification replaces the size by the requested one,
   records the modified proposal and asks for a new risk check, anything else leaves the proposal.
   */
  lemma RequestOutcome(proposal: Proposal, request: Request, defaultOperator: string, now: int)
    ensures var r := ResultFor(proposal, request, defaultOperator, now);
      && (r == Err(InvalidDecision) <==> request.decision.None?)
      && (r == Err(ModifySizeNeeded) <==>
          request.decision == Some(Modify) && (request.size.None? || Value(request.size.value) <= 0.0))
      && (r.Err? ==> r.error == InvalidDecision || r.error == ModifySizeNeeded)
      && (r.Ok? ==>
          && r.value.decision.verdict == request.decision.value
          && r.value.decision.ts == now
          && (exists named :: IsTrimmed(request.operator, named)
                              && r.value.decision.operator == if named == "" then defaultOperator else named)
          && (request.note != "" ==> r.value.decision.note == request.note)
          && (request.note == "" && request.decision == Some(Approve) ==> r.value.decision.note == "仪表盘批准")
          && (request.note == "" && request.decision == Some(Reject) ==> r.value.decision.note == "仪表盘拒绝")
          && (request.note == "" && request.decision == Some(Modify) ==>
              r.value.decision.note == "改规模至 " + DecimalText.Text(r.value.finalProposal.sizeQuote))
          && (request.decision == Some(Modify) ==>
              && request.size.Some? && Value(request.size.value) > 0.0
              && r.value.finalProposal == Proposal(request.size.value, proposal.details)
              && r.value.decision.modified == Some(r.value.finalProposal) && r.value.requiresRevalidation)
          && (request.decision != Some(Modify) ==>
              r.value.finalProposal == proposal && r.value.decision.modified == None && !r.value.requiresRevalidation))
  {
    hide Value, DecimalText.Text, Trimmed, IsTrimmed;
    TrimmedIsTrimmed(request.operator);
    if request.size.Some? {
      SignOfValue(request.size.value);
    }
  }
}

/**
 The approval gate: for each registration a waiter races a resolver against its timer and the
 cancellation of its context. The steps are those between two uses of the gate's mutex or of the
 registration's one-place channel.
 */
module ApprovalGate {
  import opened Wrappers
  import opened ApprovalResults

  /** Where a waiting Decide is. */
  datatype Phase =
    | Racing
    | Expired
    | Cancelled
    | Awaiting
    | Returned(result: DecisionResult, contextError: bool)

  /** A registration; resolutions lists the results of the successful Resolve calls on it. */
  datatype Registration = Registration(
    runId: string,
    proposal: Proposal,
    channel: Option<DecisionResult>,
    phase: Phase,
    resolutions: seq<DecisionResult>)

  datatype Gate<Id(==)> = Gate(pending: map<string, Id>, entries: map<Id, Registration>)

  ghost predicate WellTyped<Id>(g: Gate<Id>) {
    forall r :: r in g.pending ==> g.pending[r] in g.entries && g.entries[g.pending[r]].runId == r
  }

  predicate Current<Id(==)>(g: Gate<Id>, id: Id)
    requires id in g.entries
  {
    g.entries[id].runId in g.pending && g.pending[g.entries[id].runId] == id
  }

  // ---- the atomic steps ----

  function Register<Id(==)>(g: Gate<Id>, id: Id, runId: string, proposal: Proposal): Gate<Id> {
    Gate(g.pending[runId := id], g.entries[id := Registration(runId, proposal, None, Racing, [])])
  }

  /** A successful Resolve: the registration leaves the table and its channel takes the result. */
  function Resolved<Id(==)>(g: Gate<Id>, runId: string, result: DecisionResult): Gate<Id>
    requires WellTyped(g) && runId in g.pending
  {
    var id := g.pending[runId];
    var e := g.entries[id];
    Gate(g.pending - {runId}, g.entries[id := e.(channel := Some(result), resolutions := e.resolutions + [result])])
  }

  /** The waiter takes the result out of the channel and returns it. */
  function Received<Id(==)>(g: Gate<Id>, id: Id): Gate<Id>
    requires id in g.entries && g.entries[id].channel.Some?
  {
    var e := g.entries[id];
    g.(entries := g.entries[id := e.(channel := None, phase := Returned(e.channel.value, false))])
  }

  /** The timer fires, or the context ends, before a result was taken. */
  function Interrupted<Id(==)>(g: Gate<Id>, id: Id, cancelled: bool): Gate<Id>
    requires id in g.entries
  {
    g.(entries := g.entries[id := g.entries[id].(phase := if cancelled then Cancelled else Expired)])
  }

  /** removeIfCurrent after an interruption: the waiter withdraws, or learns that a resolver was faster. */
  function Withdrawn<Id(==)>(g: Gate<Id>, id: Id, rejection: DecisionResult): Gate<Id>
    requires id in g.entries
  {
    var e := g.entries[id];
    if Current(g, id) then
      Gate(g.pending - {e.runId}, g.entries[id := e.(phase := Returned(rejection, e.phase.Cancelled?))])
    else
      g.(entries := g.entries[id := e.(phase := Awaiting)])
  }

  ghost predicate WaiterStep<Id>(g: Gate<Id>, id: Id, operator: string, next: Gate<Id>)
    requires id in g.entries
  {
    match g.entries[id].phase
    case Racing =>
      || next == Interrupted(g, id, false)
      || next == Interrupted(g, id, true)
      || (g.entries[id].channel.Some? && next == Received(g, id))
    case Expired => exists now :: next == Withdrawn(g, id, TimeoutResult(g, id, operator, now))
    case Cancelled => exists now :: next == Withdrawn(g, id, CancelResult(g, id, operator, now))
    case Awaiting => g.entries[id].channel.Some? && next == Received(g, id)
    case Returned(_, _) => false
  }

  function TimeoutResult<Id(==)>(g: Gate<Id>, id: Id, operator: string, now: int): DecisionResult
    requires id in g.entries
  {
    Rejection(g.entries[id].proposal, operator, now, "审批超时(fail-safe)")
  }

  function CancelResult<Id(==)>(g: Gate<Id>, id: Id, operator: string, now: int): DecisionResult
    requires id in g.entries
  {
    Rejection(g.entries[id].proposal, operator, now, "审批上下文已取消(fail-safe)")
  }

  ghost predicate ResolveStep<Id>(
    g: Gate<Id>, runId: string, request: Request, operator: string, now: int, next: Gate<Id>)
    requires WellTyped(g)
  {
    && runId in g.pending
    && ResultFor(g.entries[g.pending[runId]].proposal, request, operator, now).Ok?
    && next == Resolved(g, runId, ResultFor(g.entries[g.pending[runId]].proposal, request, operator, now).value)
  }

  ghost predicate Next<Id(!new)>(g: Gate<Id>, operator: string, next: Gate<Id>) {
    && WellTyped(g)
    && ( || (exists id, runId, proposal :: id !in g.entries && runId !in g.pending && next == Register(g, id, runId, proposal))
         || (exists runId, request, now :: ResolveStep(g, runId, request, operator, now, next))
         || (exists id :: id in g.entries && WaiterStep(g, id, operator, next)))
  }

  ghost predicate IsRun<Id(!new)>(run: seq<Gate<Id>>, operator: string) {
    && run != []
    && run[0] == Gate(map[], map[])
    && forall i :: 0 < i < |run| ==> Next(run[i - 1], operator, run[i])
  }

  // ---- the invariant ----

  /** A registration that is still in the table. */
  ghost predicate Open(e: Registration) {
    e.resolutions == [] && e.channel.None? && (e.phase.Racing? || e.phase.Expired? || e.phase.Cancelled?)
  }

  /** A registration that left the table: resolved and not yet collected, collected, or withdrawn. */
  ghost predicate Decided(e: Registration, operator: string) {
    if e.phase.Returned? then
      && e.channel.None?
      && ((e.resolutions == [e.phase.result] && !e.phase.contextError)
          || (e.resolutions == [] && FailSafe(e, operator)))
    else
      && |e.resolutions| == 1
      && e.channel == Some(e.resolutions[0])
  }

  /** The waiter's own answer rejects the proposal as it was. */
  ghost predicate FailSafe(e: Registration, operator: string)
    requires e.phase.Returned?
  {
    exists now, note ::
      e.phase.result == DecisionResult(Decision(Reject, operator, now, note, None), e.proposal, false)
  }

  ghost predicate Consistent<Id>(g: Gate<Id>, id: Id, operator: string) {
    && id in g.entries
    && if Current(g, id) then Open(g.entries[id]) else Decided(g.entries[id], operator)
  }

  ghost predicate Inv<Id>(g: Gate<Id>, operator: string) {
    WellTyped(g) && forall id :: id in g.entries ==> Consistent(g, id, operator)
  }

  /** A step that leaves an entry alone and keeps or drops another entry's table place keeps it consistent. */
  lemma Untouched<Id>(g: Gate<Id>, next: Gate<Id>, id: Id, operator: string)
    requires Consistent(g, id, operator)
    requires id in next.entries && next.entries[id] == g.entries[id]
    requires Current(next, id) == Current(g, id)
    ensures Consistent(next, id, operator)
  {
  }

  lemma RegisterKeeps<Id>(g: Gate<Id>, id: Id, runId: string, proposal: Proposal, operator: string)
    requires Inv(g, operator) && id !in g.entries && runId !in g.pending
    ensures Inv(Register(g, id, runId, proposal), operator)
  {
    hide Open, Decided;
    var next := Register(g, id, runId, proposal);
    assert WellTyped(next);
    forall other | other in next.entries ensures Consistent(next, other, operator) {
      if other == id {
        NewIsOpen(runId, proposal);
      } else {
        Untouched(g, next, other, operator);
      }
    }
  }

  lemma NewIsOpen(runId: string, proposal: Proposal)
    ensures Open(Registration(runId, proposal, None, Racing, []))
  {
  }

  lemma ResolveKeeps<Id>(g: Gate<Id>, runId: string, result: DecisionResult, operator: string)
    requires Inv(g, operator) && runId in g.pending
    ensures g.entries[g.pending[runId]].channel.None?
    ensures Inv(Resolved(g, runId, result), operator)
  {
    var next, id := Resolved(g, runId, result), g.pending[runId];
    assert Consistent(g, id, operator);
    assert WellTyped(next);
    forall other | other in next.entries ensures Consistent(next, other, operator) {
      if other != id {
        Untouched(g, next, other, operator);
      }
    }
  }

  /** A waiter step that does not change the table. */
  lemma PrivateStep<Id>(g: Gate<Id>, next: Gate<Id>, id: Id, operator: string)
    requires Inv(g, operator) && id in g.entries
    requires next.pending == g.pending
    requires next.entries.Keys == g.entries.Keys && next.entries[id].runId == g.entries[id].runId
    requires forall other :: other in g.entries && other != id ==> next.entries[other] == g.entries[other]
    requires Consistent(next, id, operator)
    ensures Inv(next, operator)
  {
    hide Open, Decided;
    assert WellTyped(next);
    forall other | other in next.entries ensures Consistent(next, other, operator) {
      if other != id {
        Untouched(g, next, other, operator);
      }
    }
  }

  lemma ReceiveKeeps<Id>(g: Gate<Id>, id: Id, operator: string)
    requires Inv(g, operator) && id in g.entries && g.entries[id].channel.Some?
    ensures Inv(Received(g, id), operator)
  {
    assert Consistent(g, id, operator);
    PrivateStep(g, Received(g, id), id, operator);
  }

  lemma InterruptKeeps<Id>(g: Gate<Id>, id: Id, cancelled: bool, operator: string)
    requires Inv(g, operator) && id in g.entries && g.entries[id].phase.Racing?
    ensures Inv(Interrupted(g, id, cancelled), operator)
  {
    assert Consistent(g, id, operator);
    PrivateStep(g, Interrupted(g, id, cancelled), id, operator);
  }

  lemma WithdrawKeeps<Id>(g: Gate<Id>, id: Id, now: int, note: string, operator: string)
    requires Inv(g, operator) && id in g.entries
    requires g.entries[id].phase.Expired? || g.entries[id].phase.Cancelled?
    ensures Inv(Withdrawn(g, id, Rejection(g.entries[id].proposal, operator, now, note)), operator)
  {
    assert Consistent(g, id, operator);
    var rejection := Rejection(g.entries[id].proposal, operator, now, note);
    var next := Withdrawn(g, id, rejection);
    if Current(g, id) {
      assert FailSafe(next.entries[id], operator);
      assert WellTyped(next);
      forall other | other in next.entries ensures Consistent(next, other, operator) {
        if other != id {
          Untouched(g, next, other, operator);
        }
      }
    } else {
      PrivateStep(g, next, id, operator);
    }
  }

  lemma WaiterStepKeeps<Id>(g: Gate<Id>, id: Id, operator: string, next: Gate<Id>)
    requires Inv(g, operator) && id in g.entries && WaiterStep(g, id, operator, next)
    ensures Inv(next, operator)
  {
    hide Inv, Received, Interrupted, Withdrawn, Rejection;
    match g.entries[id].phase
    case Racing =>
      if next == Interrupted(g, id, false) {
        InterruptKeeps(g, id, false, operator);
      } else if next == Interrupted(g, id, true) {
        InterruptKeeps(g, id, true, operator);
      } else {
        ReceiveKeeps(g, id, operator);
      }
    case Expired =>
      var now :| next == Withdrawn(g, id, TimeoutResult(g, id, operator, now));
      WithdrawKeeps(g, id, now, "审批超时(fail-safe)", operator);
    case Cancelled =>
      var now :| next == Withdrawn(g, id, CancelResult(g, id, operator, now));
      WithdrawKeeps(g, id, now, "审批上下文已取消(fail-safe)", operator);
    case Awaiting =>
      ReceiveKeeps(g, id, operator);
  }

  lemma StepKeepsInvariant<Id(!new)>(g: Gate<Id>, operator: string, next: Gate<Id>)
    requires Inv(g, operator) && Next(g, operator, next)
    ensures Inv(next, operator)
  {
    hide Inv, Register, Resolved, WaiterStep;
    if id, runId, proposal :| id !in g.entries && runId !in g.pending && next == Register(g, id, runId, proposal) {
      RegisterKeeps(g, id, runId, proposal, operator);
    } else if runId, request, now :| ResolveStep(g, runId, request, operator, now, next) {
      ResolveKeeps(g, runId, ResultFor(g.entries[g.pending[runId]].proposal, request, operator, now).value, operator);
    } else if id :| id in g.entries && WaiterStep(g, id, operator, next) {
      WaiterStepKeeps(g, id, operator, next);
    }
  }

  /** Every interleaving of any number of registrations, resolvers, timers and cancellations is consistent. */
  lemma {:induction false} RunsKeepInvariant<Id(!new)>(run: seq<Gate<Id>>, operator: string, i: nat)
    requires IsRun(run, operator) && i < |run|
    ensures Inv(run[i], operator)
  {
    if i > 0 {
      RunsKeepInvariant(run, operator, i - 1);
      StepKeepsInvariant(run[i - 1], operator, run[i]);
    }
  }

  /**
   Exactly once: at most one Resolve succeeds on a registration; a returned decision is that
   resolver's if there was one, and else rejects the unchanged proposal.
   */
  lemma EachRegistrationIsDecidedOnce<Id(!new)>(run: seq<Gate<Id>>, operator: string, i: nat, id: Id)
    requires IsRun(run, operator) && i < |run| && id in run[i].entries
    ensures var e := run[i].entries[id];
      && |e.resolutions| <= 1
      && (e.phase.Returned? ==>
          && (e.resolutions != [] <==> e.resolutions == [e.phase.result])
          && (e.resolutions == [] ==> FailSafe(e, operator)))
  {
    RunsKeepInvariant(run, operator, i);
    assert Consistent(run[i], id, operator);
  }

  lemma WaiterStepsAreFinal<Id>(g: Gate<Id>, other: Id, operator: string, next: Gate<Id>, id: Id)
    requires id in g.entries && other in g.entries && WaiterStep(g, other, operator, next)
    ensures id in next.entries && next.entries[id].resolutions == g.entries[id].resolutions
    ensures g.entries[id].phase.Returned? ==> next.entries[id] == g.entries[id]
  {
  }

  /** A returned decision is final, and so is the success of a Resolve. */
  lemma DecisionsAreFinal<Id(!new)>(g: Gate<Id>, operator: string, next: Gate<Id>, id: Id)
    requires Inv(g, operator) && Next(g, operator, next) && id in g.entries
    ensures id in next.entries
    ensures g.entries[id].phase.Returned? ==> next.entries[id] == g.entries[id]
    ensures g.entries[id].resolutions != [] ==> next.entries[id].resolutions == g.entries[id].resolutions
  {
    hide WaiterStep, ResultFor, Decided;
    assert Consistent(g, id, operator);
    if added, runId, proposal :| added !in g.entries && runId !in g.pending && next == Register(g, added, runId, proposal) {
    } else if runId, request, now :| ResolveStep(g, runId, request, operator, now, next) {
    } else if other :| other in g.entries && WaiterStep(g, other, operator, next) {
      WaiterStepsAreFinal(g, other, operator, next, id);
    }
  }

  /** Neither the resolver's send nor the waiter's receive after a lost race ever blocks. */
  lemma ChannelsNeverBlock<Id(!new)>(run: seq<Gate<Id>>, operator: string, i: nat, id: Id)
    requires IsRun(run, operator) && i < |run| && id in run[i].entries
    ensures Current(run[i], id) ==> run[i].entries[id].channel.None?
    ensures run[i].entries[id].phase.Awaiting? ==> run[i].entries[id].channel.Some?
  {
    RunsKeepInvariant(run, operator, i);
    assert Consistent(run[i], id, operator);
  }

  /** A waiter's step never takes another registration out of the table, not even one of the same run. */
  lemma OthersStayPending<Id>(g: Gate<Id>, id: Id, other: Id, operator: string, next: Gate<Id>)
    requires WellTyped(g) && id in g.entries && other in g.entries && other != id
    requires WaiterStep(g, id, operator, next)
    ensures other in next.entries && next.entries[other] == g.entries[other]
    ensures Current(next, other) <==> Current(g, other)
  {
  }

  /** What an interrupted waiter answers itself: by its timer or by its context. */
  function OwnRejection<Id(==)>(g: Gate<Id>, id: Id, operator: string, now: int): DecisionResult
    requires id in g.entries
  {
    if g.entries[id].phase.Cancelled? then CancelResult(g, id, operator, now) else TimeoutResult(g, id, operator, now)
  }

  /**
   With no help from a resolver, an expired or cancelled waiter returns within two of its own steps: its
   own rejection, with the context's error exactly if it was cancelled, or what a faster resolver sent.
   */
  lemma ExpiredWaiterReturns<Id>(g: Gate<Id>, id: Id, operator: string, now: int)
    requires Inv(g, operator) && id in g.entries && (g.entries[id].phase.Expired? || g.entries[id].phase.Cancelled?)
    ensures var next := Withdrawn(g, id, OwnRejection(g, id, operator, now));
      && WaiterStep(g, id, operator, next)
      && if Current(g, id)
         then next.entries[id].phase == Returned(OwnRejection(g, id, operator, now), g.entries[id].phase.Cancelled?)
         else
           && next.entries[id].phase.Awaiting? && next.entries[id].channel.Some?
           && WaiterStep(next, id, operator, Received(next, id))
           && next.entries[id].resolutions == [next.entries[id].channel.value]
           && Received(next, id).entries[id].phase == Returned(next.entries[id].channel.value, false)
  {
    assert Consistent(g, id, operator);
  }
}

/** The gate as the program keeps it: shared entries, changed under the gate's mutex. */
module PendingApprovals {
  import opened Wrappers
  import opened ApprovalResults
  import opened ApprovalGate
  import DecimalText

  class PendingEntry {
    const runId: string
    const sequence: nat
    const proposal: Proposal
    var channel: Option<DecisionResult>
    ghost var phase: Phase
    ghost var resolutions: seq<DecisionResult>

    constructor (runId: string, sequence: nat, proposal: Proposal)
      ensures this.sequence == sequence
      ensures State() == Registration(runId, proposal, None, Racing, [])
    {
      this.runId, this.sequence, this.proposal := runId, sequence, proposal;
      channel, phase, resolutions := None, Racing, [];
    }

    ghost function State(): Registration
      reads this
    {
      Registration(runId, proposal, channel, phase, resolutions)
    }
  }

  class PendingGate {
    var pending: map<string, PendingEntry>
    var nextSequence: nat
    const defaultOperator: string
    ghost var made: set<PendingEntry>

    ghost function Gate(): Gate<PendingEntry>
      reads this, made
    {
      ApprovalGate.Gate(pending, map e | e in made :: e.State())
    }

    /** Sequence numbers never repeat. */
    ghost predicate Valid()
      reads this, made
    {
      && Inv(Gate(), defaultOperator)
      && (forall e :: e in made ==> e.sequence <= nextSequence)
      && (forall e, f :: e in made && f in made && e.sequence == f.sequence ==> e == f)
    }

    constructor (defaultOperator: string)
      ensures Valid() && Gate() == ApprovalGate.Gate(map[], map[]) && this.defaultOperator == defaultOperator
    {
      this.defaultOperator := defaultOperator;
      pending, nextSequence, made := map[], 0, {};
    }

    method Enroll(runId: string, entry: PendingEntry)
      modifies this`pending, this`made
      ensures pending == old(pending)[runId := entry] && made == old(made) + {entry}
      ensures Gate() == ApprovalGate.Gate(old(pending)[runId := entry], old(Gate()).entries[entry := entry.State()])
    {
      pending := pending[runId := entry];
      made := made + {entry};
    }

    /** The first half of Decide. */
    method Register(runId: string, proposal: Proposal, proposalIsValid: bool, assessmentIsValid: bool)
      returns (r: Result<PendingEntry, ApprovalError>)
      requires Valid()
      modifies this
      ensures Valid()
      ensures r == Err(EmptyRunId) <==> DecimalText.AllSpace(runId)
      ensures r == Err(InvalidProposal) <==> !DecimalText.AllSpace(runId) && (!proposalIsValid || !assessmentIsValid)
      ensures r == Err(DuplicateRunId) <==>
        !DecimalText.AllSpace(runId) && proposalIsValid && assessmentIsValid && runId in old(pending)
      ensures r.Err? ==> r.error in {EmptyRunId, InvalidProposal, DuplicateRunId}
      ensures r.Err? ==> Gate() == old(Gate())
      ensures r.Ok? ==>
        && fresh(r.value) && r.value.sequence == nextSequence == old(nextSequence) + 1
        && Gate() == ApprovalGate.Register(old(Gate()), r.value, runId, proposal)
    {
      hide Inv, Trimmed, DecimalText.AllSpace;
      BlankIsTrimmedAway(runId);
      if Trimmed(runId) == "" {
        return Err(EmptyRunId);
      }
      if !proposalIsValid || !assessmentIsValid {
        return Err(InvalidProposal);
      }
      if runId in pending {
        return Err(DuplicateRunId);
      }
      ghost var before := Gate();
      nextSequence := nextSequence + 1;
      var entry := new PendingEntry(runId, nextSequence, proposal);
      assert entry !in before.entries;
      RegisterKeeps(before, entry, runId, proposal, defaultOperator);
      Enroll(runId, entry);
      assert Gate() == ApprovalGate.Register(before, entry, runId, proposal);
      return Ok(entry);
    }

    /** Resolve: nothing changes on an error; on success the send finds the channel empty. */
    method Resolve(runId: string, request: Request, now: int) returns (error: Option<ApprovalError>)
      requires Valid()
      modifies this`pending, pending.Values
      ensures Valid()
      ensures error.Some? ==> Gate() == old(Gate())
      ensures runId !in old(pending) ==> error == Some(NotPending)
      ensures runId in old(pending) ==>
        var result := ResultFor(old(pending)[runId].proposal, request, defaultOperator, now);
        && error == (match result case Err(e) => Some(e) case Ok(_) => None)
        && (result.Ok? ==> old(pending[runId].channel).None? && Gate() == Resolved(old(Gate()), runId, result.value))
    {
      if runId !in pending {
        return Some(NotPending);
      }
      var entry := pending[runId];
      var result := ResultFor(entry.proposal, request, defaultOperator, now);
      if result.Err? {
        return Some(result.error);
      }
      ghost var before := Gate();
      assert entry in before.entries;
      ResolveKeeps(before, runId, result.value, defaultOperator);
      pending := pending - {runId};
      entry.channel := Some(result.value);
      entry.resolutions := entry.resolutions + [result.value];
      assert Gate() == Resolved(before, runId, result.value);
      return None;
    }

    /** The receive of the select, or the one after a lost race. */
    method Receive(entry: PendingEntry) returns (result: DecisionResult)
      requires Valid() && entry in made && entry.channel.Some?
      requires entry.phase.Racing? || entry.phase.Awaiting?
      modifies entry
      ensures Valid() && Gate() == Received(old(Gate()), entry)
      ensures entry.resolutions == [result] && entry.phase == Returned(result, false)
    {
      ghost var before := Gate();
      assert Consistent(before, entry, defaultOperator);
      ReceiveKeeps(before, entry, defaultOperator);
      result := entry.channel.value;
      entry.channel := None;
      entry.phase := Returned(result, false);
      assert Gate() == Received(before, entry);
    }

    /** The select takes the timer's or the context's branch. */
    ghost method Interrupt(entry: PendingEntry, cancelled: bool)
      requires Valid() && entry in made && entry.phase.Racing?
      modifies entry`phase
      ensures Valid() && Gate() == Interrupted(old(Gate()), entry, cancelled)
    {
      hide Inv;
      var before := Gate();
      InterruptKeeps(before, entry, cancelled, defaultOperator);
      entry.phase := if cancelled then Cancelled else Expired;
      assert Gate() == Interrupted(before, entry, cancelled);
    }

    /** removeIfCurrent, after the timer fired or the context ended; None means a resolver was faster. */
    method Withdraw(entry: PendingEntry, now: int, cancelled: bool) returns (result: Option<DecisionResult>)
      requires Valid() && entry in made && entry.phase == if cancelled then Cancelled else Expired
      modifies this`pending, entry
      ensures Valid()
      ensures var g := old(Gate());
        var rejection := if cancelled then CancelResult(g, entry, defaultOperator, now)
                         else TimeoutResult(g, entry, defaultOperator, now);
        && Gate() == Withdrawn(g, entry, rejection)
        && result == (if Current(g, entry) then Some(rejection) else None)
      ensures result.None? ==> entry.channel.Some?
    {
      hide Inv;
      ghost var before := Gate();
      var note := if cancelled then "审批上下文已取消(fail-safe)" else "审批超时(fail-safe)";
      var rejection := Rejection(entry.proposal, defaultOperator, now, note);
      WithdrawKeeps(before, entry, now, note, defaultOperator);
      LateWaiterFindsResult(before, entry, defaultOperator);
      if entry.runId in pending && pending[entry.runId] == entry {
        pending := pending - {entry.runId};
        entry.phase := Returned(rejection, cancelled);
        result := Some(rejection);
      } else {
        entry.phase := Awaiting;
        result := None;
      }
      assert Gate() == Withdrawn(before, entry, rejection);
    }
  }

  lemma LateWaiterFindsResult(g: Gate<PendingEntry>, entry: PendingEntry, operator: string)
    requires Inv(g, operator) && entry in g.entries && !g.entries[entry].phase.Returned?
    ensures !Current(g, entry) ==> g.entries[entry].channel.Some?
  {
    assert Consistent(g, entry, operator);
  }
}
