/** The rows of the collection tables (app/models.py); ids of events, requests, findings and cases are positions. */
module Tables {
  import opened Wrappers
  import opened Hashing

  datatype ConnectionStatus = Pending | Active | Paused | Revoked

  datatype Connection = Connection(tenant: nat, enabled: bool, status: ConnectionStatus, deleted: bool,
                                   cursor: Option<string>)

  datatype Source = Source(tenant: nat, connection: nat, ref: string, enabled: bool, status: ConnectionStatus,
                           deleted: bool)

  datatype RequestStatus = Awaiting | Verified | Expired

  // collection_source_test_request: an open handshake is awaiting.
  datatype Request = Request(tenant: nat, connection: nat, source: Option<nat>, nonce: Digest,
                             status: RequestStatus, verifiedAt: Option<int>, expiresAt: Option<int>)

  datatype EventState = Normalized | Control | Rejected | Analyzing | Analyzed | Failed | DeadLetter

  // What analysis wrote about an event: the decision, the approved target, and whether promotion linked it later.
  datatype Analysis = Analysis(decision: string, target: Option<string>, fromContext: bool)

  datatype Event = Event(
    tenant: nat, source: nat, key: Option<Digest>, state: EventState, isControl: bool, purged: bool,
    occurredAt: Option<int>, createdAt: int, attempts: nat, nextAttempt: Option<int>, lockedBy: Option<string>,
        lockedAt: Option<int>,
    analysis: Option<Analysis>, finding: Option<nat>, caseId: Option<nat>)

  function NewEvent(tenant: nat, source: nat, key: Option<Digest>, state: EventState,
                    occurredAt: Option<int>, createdAt: int): Event {
    Event(tenant, source, key, state, state == Control, false, occurredAt, createdAt, 0, None, None, None, None, None,
        None)
  }
}
