/** Outcome types shared by the whole project: an optional value, and a result that carries the
    reason the source would throw. Both work with `:-`. */
module Results {

  datatype Option<+T> = None | Some(value: T)

  datatype Failure =
    | NotFound
    | DocumentVersionConflict
    | DocumentLeaseConflict
    | DocumentStateConflict
    | SignerVersionConflict
    | SessionNotOpen
    | SessionNotExchangeable
    | SessionNotCompletable
    | DuplicateOpenSession
    | ArtifactExists
    | ForbiddenPayload
    | UnsupportedJson
    | UnsupportedSchemaVersion
    | ObjectKeyUnsafe
    | ObjectKeyForeignTenant
    | InvalidOrganizationId
    | ObjectDigestMismatch
    | ImmutableKeyConflict

  datatype Result<+T> = Ok(value: T) | Err(failure: Failure) {

    predicate IsFailure() {
      Err?
    }

    function PropagateFailure<U>(): Result<U>
      requires Err?
    {
      Err(failure)
    }

    function Extract(): T
      requires Ok?
    {
      value
    }
  }

  /** A keyed lookup that fails the way the stores do. */
  function Lookup<K, V>(rows: map<K, V>, key: K): Result<V> {
    if key in rows then Ok(rows[key]) else Err(NotFound)
  }
}
