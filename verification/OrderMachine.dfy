/** The legal status changes of internal/orders/machine.go. */
module OrderMachine {
  import opened OrderTypes

  function Transitions(from: Status): set<Status> {
    match from
    case New => {Preflight, Submitting, Canceled, Rejected}
    case Preflight => {Submitting, Rejected, Canceled}
    case Submitting => {Acknowledged, PartiallyFilled, Filled, Canceled, Rejected, Failed, Unknown}
    case Acknowledged => {PartiallyFilled, Filled, Canceled, Failed, Unknown}
    case PartiallyFilled =>
      {PartiallyFilled, Filled, Canceled, Unknown, ProtectivePlaced, ProtectiveFailed, Flattening}
    case Filled => {ProtectivePlaced, ProtectiveFailed, Flattening, Closed}
    case ProtectivePlaced => {Flattening, Closed}
    case ProtectiveFailed => {ProtectivePlaced, Flattening, Closed}
    case Flattening => {Closed, Failed, Unknown}
    case Unknown => {Acknowledged, PartiallyFilled, Filled, Canceled, Rejected, Failed, Closed}
    case Closed => {}
    case Canceled => {}
    case Rejected => {}
    case Failed => {}
  }

  predicate CanTransition(from: Status, to: Status) { to in Transitions(from) }

  predicate IsTerminal(status: Status) { status in {Closed, Canceled, Rejected, Failed} }

  /** ValidateTransition accepts the change. */
  predicate LegalTransition(from: Status, to: Status) { !IsTerminal(from) && CanTransition(from, to) }

  /** The same table read the other way: from where a status is entered. */
  function EnteredFrom(to: Status): set<Status> {
    match to
    case New => {}
    case Preflight => {New}
    case Submitting => {New, Preflight}
    case Acknowledged => {Submitting, Unknown}
    case PartiallyFilled => {Submitting, Acknowledged, PartiallyFilled, Unknown}
    case Filled => {Submitting, Acknowledged, PartiallyFilled, Unknown}
    case ProtectivePlaced => {PartiallyFilled, Filled, ProtectiveFailed}
    case ProtectiveFailed => {PartiallyFilled, Filled}
    case Flattening => {PartiallyFilled, Filled, ProtectivePlaced, ProtectiveFailed}
    case Unknown => {Submitting, Acknowledged, PartiallyFilled, Flattening}
    case Closed => {Filled, ProtectivePlaced, ProtectiveFailed, Flattening, Unknown}
    case Canceled => {New, Preflight, Submitting, Acknowledged, PartiallyFilled, Unknown}
    case Rejected => {New, Preflight, Submitting, Unknown}
    case Failed => {Submitting, Acknowledged, Flattening, Unknown}
  }

  /** A change is legal exactly if its target is entered from its source. */
  lemma TableByTarget(from: Status, to: Status)
    ensures LegalTransition(from, to) <==> from in EnteredFrom(to)
    ensures CanTransition(from, to) <==> from in EnteredFrom(to)
  {
  }

  /** Terminal statuses are the ones that nothing is entered from. */
  lemma NothingLeavesTerminal(from: Status)
    ensures IsTerminal(from) <==> forall next :: from !in EnteredFrom(next)
  {
    if !IsTerminal(from) {
      assert from in EnteredFrom(Failed) || from in EnteredFrom(Rejected) || from in EnteredFrom(Closed) || from in EnteredFrom(Canceled);
    }
  }

  /** A status history that starts a life and only makes legal changes. */
  ghost predicate LegalHistory(history: seq<Status>) {
    && history != []
    && history[0] == New
    && forall i :: 0 < i < |history| ==> LegalTransition(history[i - 1], history[i])
  }

  /** A history ends at the first terminal status, and is never New again. */
  lemma HistoryShape(history: seq<Status>, i: int)
    requires LegalHistory(history)
    requires 0 <= i < |history|
    ensures IsTerminal(history[i]) ==> i == |history| - 1
    ensures history[i] == New ==> i == 0
  {
    if i + 1 < |history| {
      assert LegalTransition(history[i], history[i + 1]);
    }
    if i > 0 {
      assert LegalTransition(history[i - 1], history[i]);
    }
  }

  /** How far a status is into the life of an order. */
  function Stage(status: Status): nat {
    match status
    case New => 0
    case Preflight => 1
    case Submitting => 2
    case Acknowledged => 3
    case PartiallyFilled => 4
    case Filled => 5
    case ProtectiveFailed => 6
    case ProtectivePlaced => 7
    case Flattening => 8
    case Unknown => 0
    case _ => 9
  }

  /**
   Only a lost answer or a repeated partial fill keeps an order from advancing: a history
   without either has at most ten entries.
   */
  lemma {:induction false} LifeIsBounded(history: seq<Status>)
    requires LegalHistory(history)
    requires forall i :: 0 <= i < |history| ==> history[i] != Unknown
    requires forall i :: 0 < i < |history| ==> history[i] != history[i - 1]
    ensures |history| <= Stage(history[|history| - 1]) + 1 <= 10
  {
    var n := |history|;
    if n > 1 {
      LifeIsBounded(history[..n - 1]);
      assert LegalTransition(history[n - 2], history[n - 1]);
    }
  }
}
