/** The one error type of the gateway's stores, and the unit of its clocks. */
module DbErrors {

  const NANOS_PER_SECOND := 1_000_000_000

  datatype DbError =
    | AgentNotFound
    | AgentDelegationNotFound
    | DomainNotFound
    | DomainNotVerified
    | ConnectionNotFound
    | MappingNotFound
    | EncryptionKeyMissing
    | BadEncryptionKey
    | Undecipherable
    | ConstraintViolation
    | Unavailable
}
