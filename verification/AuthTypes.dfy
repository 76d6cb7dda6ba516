/** Values that pass between introspection, subject resolution and authentication. */
module AuthTypes {
  import opened Wrappers

  datatype SubjectType = User | Agent | Client

  datatype SubjectBackend = Hydra | Kratos

  datatype Actor = Actor(agent: string, delegation: string)

  datatype AuthContext = AuthContext(
    tenant: string,
    subject: string,
    subjectType: SubjectType,
    actor: Option<Actor>,
    scopes: seq<string>,
    tokenHash: string,
    authenticationMethods: seq<string>)

  datatype IntrospectionResult = IntrospectionResult(
    active: bool,
    sub: Option<string>,
    scope: seq<string>,
    exp: Option<int>,
    authenticationMethods: seq<string>)

  datatype AuthError = IntrospectionFailed | Database | UnknownSubject

  datatype ResolvedSubject = ResolvedSubject(tenant: string, publicId: string, backend: SubjectBackend)

  /** The three statuses with which authentication can refuse a request. */
  datatype Refusal = Unauthorized | InternalServerError | ServiceUnavailable
}
