/** What the requests on signing sessions do, from any reachable state and for reads of any age: when each
    goes through, and every row it writes. */
module SessionEffects {
  import opened Results
  import opened Lifecycle
  import opened Envelope
  import opened UnitsOfWork
  import opened Protocol
  import opened Invariants
  import opened StepLemmas
  import opened Safety
  import opened Evolution

  predicate IsOverdue(row: Session, now: int) {
    (row.status == Issued || row.status == Active) && row.expiresAt <= now
  }

  /** The document takes signatures: accepted, and sent or in progress. */
  predicate IsOpenForSigning(d: Document) {
    d.inspection == InspectionAccepted && (d.state == Sent || d.state == InProgress)
  }

  /** A session belongs to a signer of the document, an exchanged one is no longer issued, and the signer of a
      completed one has signed. */
  lemma SessionHolds(s: State, i: Id)
    requires Reachable(s)
    ensures i in s.db.sessions ==>
              && s.db.sessions[i].signerId in s.db.signers
              && (s.db.sessions[i].consumed ==> s.db.sessions[i].status != Issued)
              && (s.db.sessions[i].status == SessionCompleted ==> s.db.signers[s.db.sessions[i].signerId].status == Signed)
  {
    ReachableKeepsInv(s);
  }

  /** Rotating revokes what the signer had open and issues one new session with the new token and expiry;
      the sessions of all other signers stay as they are. */
  lemma Rotating(s: State, g: Id, i: Id, token: Id, until: int)
    requires Reachable(s) && RotateRead(g) in s.pool
    ensures var t, t' := s.db, Next(s, OnSession(DoRotate(g, i, token, until))).db;
            if i !in t.sessions && token !in s.tokens
            then && t' == t.(sessions := t'.sessions)
                 && (forall j :: j in t'.sessions <==> j in t.sessions || j == i)
                 && t'.sessions[i] == Session(g, Issued, token, false, until, 1)
                 && (forall j :: j in t.sessions && t.sessions[j].signerId != g ==> t'.sessions[j] == t.sessions[j])
                 && (forall j :: j in t.sessions && t.sessions[j].signerId == g ==>
                       t'.sessions[j] == if t.sessions[j].status == Issued || t.sessions[j].status == Active
                                         then t.sessions[j].(status := Revoked) else t.sessions[j])
            else t' == t
  {
    if i !in s.db.sessions && token !in s.tokens {
      SessionIsRotated(s.db, g, i, token, until);
    }
  }

  lemma SessionIsRotated(t: Tables, g: Id, i: Id, token: Id, until: int)
    requires i !in t.sessions
    ensures Rotate(t, g, i, token, until)
            == Ok(t.(sessions := RevokeOpenOf(t.sessions, g)[i := Session(g, Issued, token, false, until, 1)]))
  {
    assert !HasOpenSession(RevokeOpenOf(t.sessions, g), g);
  }

  /** After rotating, the new session is the one way in for its signer. */
  lemma RotatedIsTheOnlyWayIn(s: State, g: Id, i: Id, token: Id, until: int)
    requires Reachable(s) && RotateRead(g) in s.pool && i !in s.db.sessions && token !in s.tokens
    ensures var sessions := Next(s, OnSession(DoRotate(g, i, token, until))).db.sessions;
            forall j :: j in sessions && sessions[j].signerId == g && (sessions[j].status == Issued || sessions[j].status == Active) ==> j == i
  {
    Rotating(s, g, i, token, until);
  }

  lemma LoadingForRotate(s: State, g: Id)
    ensures Next(s, OnSession(LoadForRotate(g)))
            == if IsOpenForSigning(s.db.document) && g in s.db.signers then s.(pool := s.pool + {RotateRead(g)}) else s
  {
  }

  lemma Revoking(s: State, i: Id)
    ensures Next(s, OnSession(DoRevoke(i)))
            == if i in s.db.sessions && (s.db.sessions[i].status == Issued || s.db.sessions[i].status == Active)
               then s.(db := s.db.(sessions := s.db.sessions[i := s.db.sessions[i].(status := Revoked)]))
               else s
  {
  }

  /** Resolving expires an overdue session, presents an issued one, and writes nothing else. */
  lemma Resolving(s: State, i: Id, now: int)
    ensures Next(s, OnSession(DoResolve(i, now)))
            == if i in s.db.sessions && IsOverdue(s.db.sessions[i], now)
               then s.(db := s.db.(sessions := s.db.sessions[i := s.db.sessions[i].(status := SessionExpired)]))
               else if i in s.db.sessions && s.db.sessions[i].status == Issued
               then s.(db := s.db.(sessions := s.db.sessions[i := s.db.sessions[i].(status := Active)]))
               else s
  {
    if i in s.db.sessions {
      SameRow(s.db, i);
    }
  }

  lemma SameRow(t: Tables, i: Id)
    requires i in t.sessions
    ensures t.sessions[i := t.sessions[i]] == t.sessions
  {
  }

  /** An invitation may be exchanged while its session is open, not overdue and not exchanged yet, and the
      document takes signatures. */
  lemma LoadingForExchange(s: State, i: Id, now: int)
    requires Reachable(s)
    ensures Next(s, OnSession(LoadForExchange(i, now)))
            == if i in s.db.sessions && IsOverdue(s.db.sessions[i], now)
               then s.(db := s.db.(sessions := s.db.sessions[i := s.db.sessions[i].(status := SessionExpired)]))
               else if && i in s.db.sessions
                       && (s.db.sessions[i].status == Issued || s.db.sessions[i].status == Active)
                       && !s.db.sessions[i].consumed
                       && IsOpenForSigning(s.db.document)
               then s.(pool := s.pool + {ExchangeRead(i, s.db.sessions[i].version)})
               else s
  {
    SessionHolds(s, i);
  }

  /** The exchange goes through once: for an open session, not exchanged, at the version that was read. The
      invitation token gives way to the new one. */
  lemma Exchanging(s: State, i: Id, version: nat, token: Id)
    requires ExchangeRead(i, version) in s.pool
    ensures Next(s, OnSession(DoExchange(i, version, token)))
            == if && token !in s.tokens && i in s.db.sessions && s.db.sessions[i].version == version && !s.db.sessions[i].consumed
                  && (s.db.sessions[i].status == Issued || s.db.sessions[i].status == Active)
               then s.(db := s.db.(sessions := s.db.sessions[i := Session(s.db.sessions[i].signerId, Active, token, true,
                                                                          s.db.sessions[i].expiresAt, version + 1)]),
                       tokens := s.tokens + {token}, exchanged := s.exchanged + [s.db.sessions[i].token])
               else s
  {
  }

  /** Recording a view writes nothing but the expiry of an overdue session. */
  lemma RecordingAView(s: State, i: Id, now: int)
    requires Reachable(s)
    ensures Next(s, OnSession(DoRecordViewed(i, now)))
            == if i in s.db.sessions && IsOverdue(s.db.sessions[i], now)
               then s.(db := s.db.(sessions := s.db.sessions[i := s.db.sessions[i].(status := SessionExpired)]))
               else s
  {
    SessionHolds(s, i);
    if i in s.db.sessions {
      SameRow(s.db, i);
    }
  }
}
