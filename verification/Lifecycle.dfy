/** The two transition tables and the predicates over document and session states. */
module Lifecycle {

  datatype DocumentState =
    | Draft
    | Prepared
    | Sent
    | InProgress
    | Completed
    | Finalizing
    | Finalized
    | Voided
    | Expired
    | Declined
    | FinalizationFailed

  datatype SessionStatus = Issued | Active | SessionCompleted | SessionExpired | Revoked

  datatype InspectionStatus = InspectionPending | InspectionAccepted | InspectionRejected

  datatype SigningMode = Ordered | Parallel

  datatype SignerStatus = Pending | Signed | SignerDeclined

  /** DOCUMENT_TRANSITIONS, row by row. */
  predicate CanTransitionDocument(from: DocumentState, to: DocumentState) {
    match from
    case Draft => to == Prepared || to == Sent || to == Voided
    case Prepared => to == Draft || to == Sent || to == Voided
    case Sent => to == InProgress || to == Completed || to == Voided || to == Expired || to == Declined
    case InProgress => to == InProgress || to == Completed || to == Voided || to == Expired || to == Declined
    case Completed => to == Finalizing
    case Finalizing => to == Finalized || to == FinalizationFailed
    case FinalizationFailed => to == Finalizing
    case Finalized => false
    case Voided => false
    case Expired => false
    case Declined => false
  }

  /** SIGNING_SESSION_TRANSITIONS, row by row. */
  predicate CanTransitionSession(from: SessionStatus, to: SessionStatus) {
    match from
    case Issued => to == Active || to == SessionExpired || to == Revoked
    case Active => to == SessionCompleted || to == SessionExpired || to == Revoked
    case SessionCompleted => false
    case SessionExpired => false
    case Revoked => false
  }

  predicate IsPreparation(state: DocumentState) {
    state == Draft || state == Prepared
  }

  predicate IsOutForSigning(state: DocumentState) {
    state == Sent || state == InProgress
  }

  predicate IsOpen(status: SessionStatus) {
    status == Issued || status == Active
  }

  /** Everybody has signed and the document waits for, or has, its artifact. */
  predicate IsPastSigning(state: DocumentState) {
    state == Completed || state == Finalizing || state == FinalizationFailed || state == Finalized
  }
}
