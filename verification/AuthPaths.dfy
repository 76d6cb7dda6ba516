/** What bearer authentication answers, told from its inputs. */
module AuthPaths {
  import opened Wrappers
  import opened DbErrors
  import opened AgentStores
  import opened AuthTypes
  import opened AgentAuthority

  /** The inputs of one authentication. */
  datatype Login = Login(
    st: Stores, act: ActCache, status: StatusCache, installed: bool, hash: string,
    introspection: Result<IntrospectionResult, AuthError>, subject: Result<ResolvedSubject, AuthError>,
    now: int, ttl: int, up: Uptime)

  function Answer(l: Login): Result<AuthContext, Refusal> {
    Authenticate(l.st, l.act, l.status, l.installed, l.hash, l.introspection, l.subject, l.now, l.ttl, l.up).answer
  }

  /** What the token is to the act-token authority; without a resolver, no act-token. */
  function ActAnswer(l: Login): Result<Option<Resolution>, DbError> {
    if l.installed then Resolve(l.st, l.act, l.hash, l.now, l.ttl, l.up).0 else Ok(None)
  }

  predicate NoActToken(l: Login) {
    ActAnswer(l) == Ok(None)
  }

  /** Introspection vouches for a subject and the subject is known. */
  predicate Vouched(l: Login) {
    && NoActToken(l)
    && l.introspection.Ok? && l.introspection.value.active && l.introspection.value.sub.Some? && l.subject.Ok?
  }

  /** The status read that a Hydra subject causes when a resolver is installed. */
  function StatusAnswer(l: Login): Result<Option<string>, DbError>
    requires l.subject.Ok?
  {
    ReadStatus(l.st, l.status, l.subject.value.publicId, l.now, l.ttl, l.up).0
  }

  predicate AsksStatus(l: Login) {
    Vouched(l) && l.subject.value.backend == Hydra && l.installed
  }

  /** A context with an actor is exactly an accepted act-token: the user, on whose behalf, by which agent and grant. */
  lemma ActorsComeFromActTokens(l: Login)
    ensures (Answer(l).Ok? && Answer(l).value.actor.Some?) <==> ActAnswer(l).Ok? && ActAnswer(l).value.Some?
    ensures Answer(l).Ok? && Answer(l).value.actor.Some? ==>
              var context, res := Answer(l).value, ActAnswer(l).value.value;
              && context.tenant == res.tenant && context.subject == res.user && context.subjectType == User
              && context.actor.value.agent == res.agent && context.actor.value.delegation == res.delegation
              && context.scopes == res.scopes && context.tokenHash == l.hash && context.authenticationMethods == []
  {
  }

  /**
    A context without an actor is exactly an introspected token of a known
    subject that is not an inactive agent, with the resolved tenant and subject
    and the introspected scopes and methods. It is a user's exactly for a Kratos
    subject, and an agent's exactly for a Hydra subject whose status is active.
   */
  lemma OthersAreIntrospected(l: Login)
    ensures (Answer(l).Ok? && Answer(l).value.actor.None?) <==>
            && Vouched(l)
            && (AsksStatus(l) ==> StatusAnswer(l) in {Ok(None), Ok(Some(AGENT_STATUS_ACTIVE))})
    ensures Answer(l).Ok? && Answer(l).value.actor.None? ==>
              var context := Answer(l).value;
              && context.tenant == l.subject.value.tenant && context.subject == l.subject.value.publicId
              && context.scopes == l.introspection.value.scope && context.tokenHash == l.hash
              && context.authenticationMethods == l.introspection.value.authenticationMethods
              && (context.subjectType == User <==> l.subject.value.backend == Kratos)
              && (context.subjectType == SubjectType.Agent <==>
                    AsksStatus(l) && StatusAnswer(l) == Ok(Some(AGENT_STATUS_ACTIVE)))
  {
  }

  /** Which refusal is given when: bad tokens are told apart from faults behind the gateway. */
  lemma RefusalsMean(l: Login)
    ensures Answer(l) == Err(ServiceUnavailable) <==> NoActToken(l) && l.introspection == Err(IntrospectionFailed)
    ensures Answer(l) == Err(Unauthorized) <==>
            && NoActToken(l)
            && (|| l.introspection == Err(UnknownSubject)
                || (l.introspection.Ok? && !l.introspection.value.active)
                || (l.introspection.Ok? && l.introspection.value.sub.Some? && l.subject == Err(UnknownSubject))
                || (AsksStatus(l) && StatusAnswer(l).Ok? && StatusAnswer(l).value.Some?
                    && StatusAnswer(l).value.value != AGENT_STATUS_ACTIVE))
    ensures Answer(l) == Err(InternalServerError) <==>
            || ActAnswer(l).Err?
            || (&& NoActToken(l)
                && (|| l.introspection == Err(Database)
                    || (l.introspection.Ok? && l.introspection.value.active
                        && (|| l.introspection.value.sub.None?
                            || (l.subject.Err? && l.subject.error != UnknownSubject)))
                    || (AsksStatus(l) && StatusAnswer(l).Err?)))
  {
  }

  /** A registered agent that is not active is refused its own tokens, unless the cache still says otherwise. */
  lemma DisabledAgentIsRefused(l: Login)
    requires l.installed && l.subject.Ok? && l.subject.value.backend == Hydra
    requires var a := l.subject.value.publicId;
             && a in l.st.agents && l.st.agents[a].status != AGENT_STATUS_ACTIVE
             && (a in l.status ==> l.status[a].value.Some? && l.status[a].value.value != AGENT_STATUS_ACTIVE)
    ensures Answer(l).Ok? ==> Answer(l).value.actor.Some?
  {
    OthersAreIntrospected(l);
  }

  /** The status cache answers while it is fresh, then the table does; absence is an answer, a failure is not. */
  lemma StatusAnswerMeans(l: Login)
    requires l.subject.Ok?
    ensures var a := l.subject.value.publicId;
            if a in l.status && l.now - l.status[a].at < l.ttl then StatusAnswer(l) == Ok(l.status[a].value)
            else if l.up.agents then StatusAnswer(l) == Ok(StatusOf(l.st, a))
            else StatusAnswer(l).Err?
  {
  }
}
