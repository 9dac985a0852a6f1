/** The approval state machine: its declared transitions and the one edge the store adds. */
module ApprovalStates {
  datatype ApprovalState = Pending | Approved | Rejected | Cancelled | Expired | Executing | Executed | Failed

  function Targets(from: ApprovalState): set<ApprovalState> {
    match from
    case Pending => {Approved, Rejected, Cancelled, Expired, Executing}
    case Approved => {Executing}
    case Executing => {Executed, Failed}
    case _ => {}
  }

  predicate IsTransitionAllowed(from: ApprovalState, to: ApprovalState) {
    to in Targets(from)
  }

  predicate Final(s: ApprovalState) {
    s in {Executed, Failed, Rejected, Cancelled, Expired}
  }

  /** What the store can do in one write: nothing, a declared transition, or the undeclared expiry of an approval. */
  predicate Moves(from: ApprovalState, to: ApprovalState) {
    from == to || IsTransitionAllowed(from, to) || (from == Approved && to == Expired)
  }

  /** The final states are exactly those without declared transitions. */
  lemma FinalIsStuck(s: ApprovalState)
    ensures Final(s) <==> forall t :: Moves(s, t) ==> t == s
  {
    if !Final(s) {
      var t := if s == Executing then Failed else Executing;
      assert Moves(s, t);
    }
  }
}
