/**
  Tenant domains and identity-provider connections. Creating a connection is
  two statements, the check that the tenant verified the domain and the insert,
  with other work in between; the step system keeps them apart.
 */
module Connections {
  import opened Wrappers
  import opened DbErrors
  import opened ConnectionSecrets
  import Json

  datatype ConnectionType = Oidc | OAuth2 | Saml

  datatype DomainRow = DomainRow(tenant: string, domain: string, verified: bool)

  datatype ConnectionRow = ConnectionRow(
    tenant: string, kind: ConnectionType, domain: string, config: Json.Value, enabled: bool)

  /** Rows are keyed by their ids. */
  datatype Tables = Tables(
    tenants: set<string>, domains: map<string, DomainRow>, connections: map<string, ConnectionRow>)

  /* ---- Statements ---- */

  predicate DomainTaken(t: Tables, domain: string) {
    exists k :: k in t.domains && t.domains[k].domain == domain
  }

  predicate ConnectionTaken(t: Tables, domain: string) {
    exists k :: k in t.connections && t.connections[k].domain == domain
  }

  predicate VerifiedFor(t: Tables, tenant: string, domain: string) {
    exists k :: k in t.domains && t.domains[k] == DomainRow(tenant, domain, true)
  }

  /** A domain belongs to one tenant at a time, unverified at first. */
  function InsertDomain(t: Tables, id: string, tenant: string, domain: string): Result<Tables, DbError> {
    if tenant !in t.tenants || id in t.domains || DomainTaken(t, domain) then Err(ConstraintViolation)
    else Ok(t.(domains := t.domains[id := DomainRow(tenant, domain, false)]))
  }

  function VerifyRow(t: Tables, tenant: string, id: string): Result<Tables, DbError> {
    if id !in t.domains || t.domains[id].tenant != tenant then Err(DomainNotFound)
    else Ok(t.(domains := t.domains[id := t.domains[id].(verified := true)]))
  }

  /** A domain has at most one connection; new connections are enabled. */
  function InsertConnection(
    t: Tables, id: string, tenant: string, kind: ConnectionType, domain: string, stored: Json.Value)
    : Result<Tables, DbError>
  {
    if tenant !in t.tenants || id in t.connections || ConnectionTaken(t, domain) then Err(ConstraintViolation)
    else Ok(t.(connections := t.connections[id := ConnectionRow(tenant, kind, domain, stored, true)]))
  }

  function WriteConfig(t: Tables, tenant: string, id: string, stored: Json.Value): Result<Tables, DbError> {
    if id !in t.connections || t.connections[id].tenant != tenant then Err(ConnectionNotFound)
    else Ok(t.(connections := t.connections[id := t.connections[id].(config := stored)]))
  }

  function SwitchRow(t: Tables, tenant: string, id: string, enabled: bool): Result<Tables, DbError> {
    if id !in t.connections || t.connections[id].tenant != tenant then Err(ConnectionNotFound)
    else Ok(t.(connections := t.connections[id := t.connections[id].(enabled := enabled)]))
  }

  /** Both tables cascade when a tenant goes. */
  function DropTenant(t: Tables, tenant: string): Tables {
    Tables(t.tenants - {tenant},
           map k | k in t.domains && t.domains[k].tenant != tenant :: t.domains[k],
           map k | k in t.connections && t.connections[k].tenant != tenant :: t.connections[k])
  }

  /** What readers see: every row with its config decrypted. */
  function View(c: Codec, t: Tables): Tables {
    t.(connections := map k | k in t.connections ::
         t.connections[k].(config := DecryptConfig(c, t.connections[k].config)))
  }

  /* ---- The stores ---- */

  class TenantDatabase {
    var tables: Tables
    constructor (t: Tables)
      ensures tables == t
    {
      tables := t;
    }
  }

  class TenantDomainStore {
    const db: TenantDatabase

    constructor (db: TenantDatabase)
      ensures this.db == db
    {
      this.db := db;
    }

    method Create(tenant: string, domain: string, id: string) returns (res: Result<DomainRow, DbError>)
      modifies db
      ensures res.Ok? <==> InsertDomain(old(db.tables), id, tenant, domain).Ok?
      ensures res.Ok? ==> res.value == DomainRow(tenant, domain, false)
                          && InsertDomain(old(db.tables), id, tenant, domain) == Ok(db.tables)
                          && !VerifiedFor(db.tables, tenant, domain)
      ensures res.Err? ==> db.tables == old(db.tables)
    {
      if tenant !in db.tables.tenants || id in db.tables.domains || DomainTaken(db.tables, domain) {
        return Err(ConstraintViolation);
      }
      var row := DomainRow(tenant, domain, false);
      db.tables := db.tables.(domains := db.tables.domains[id := row]);
      return Ok(row);
    }

    method MarkVerified(tenant: string, id: string) returns (res: Result<DomainRow, DbError>)
      modifies db
      ensures res.Ok? <==> id in old(db.tables).domains && old(db.tables).domains[id].tenant == tenant
      ensures res.Ok? ==> VerifyRow(old(db.tables), tenant, id) == Ok(db.tables)
                          && VerifiedFor(db.tables, tenant, res.value.domain)
      ensures res.Err? ==> db.tables == old(db.tables) && res.error == DomainNotFound
    {
      if id !in db.tables.domains || db.tables.domains[id].tenant != tenant {
        return Err(DomainNotFound);
      }
      var row := db.tables.domains[id].(verified := true);
      db.tables := db.tables.(domains := db.tables.domains[id := row]);
      assert db.tables.domains[id] == row;
      return Ok(row);
    }
  }

  class TenantConnectionStore {
    const db: TenantDatabase
    const codec: Codec

    constructor (db: TenantDatabase, codec: Codec)
      ensures this.db == db && this.codec == codec
    {
      this.db := db;
      this.codec := codec;
    }

    /** The whole call without interference between its two statements. */
    method Create(tenant: string, kind: ConnectionType, domain: string, config: Json.Value, id: string, nonce: Bytes)
      returns (res: Result<ConnectionRow, DbError>)
      requires Lawful(codec.cipher)
      modifies db
      ensures !VerifiedFor(old(db.tables), tenant, domain) ==> res == Err(DomainNotVerified)
      ensures var stored := EncryptConfig(codec, config, nonce);
              res.Ok? ==>
                && VerifiedFor(old(db.tables), tenant, domain)
                && InsertConnection(old(db.tables), id, tenant, kind, domain, stored) == Ok(db.tables)
                && res.value == ConnectionRow(tenant, kind, domain, config, true)
      ensures res.Err? ==> db.tables == old(db.tables)
      ensures var stored := EncryptConfig(codec, config, nonce);
              res.Err? && VerifiedFor(old(db.tables), tenant, domain) ==>
                InsertConnection(old(db.tables), id, tenant, kind, domain, stored) == Err(res.error)
    {
      if !VerifiedFor(db.tables, tenant, domain) {
        return Err(DomainNotVerified);
      }
      var stored := EncryptConfig(codec, config, nonce);
      if tenant !in db.tables.tenants || id in db.tables.connections || ConnectionTaken(db.tables, domain) {
        return Err(ConstraintViolation);
      }
      var row := ConnectionRow(tenant, kind, domain, stored, true);
      db.tables := db.tables.(connections := db.tables.connections[id := row]);
      ConfigRoundTrip(codec, config, nonce);
      return Ok(row.(config := DecryptConfig(codec, row.config)));
    }

    /** At most one enabled connection can match; any match is returned decrypted. */
    method GetByDomain(domain: string) returns (res: Result<ConnectionRow, DbError>)
      ensures res.Ok? ==> exists k :: k in db.tables.connections && Serves(View(codec, db.tables), k, domain)
                                      && View(codec, db.tables).connections[k] == res.value
      ensures res.Err? ==> res.error == ConnectionNotFound && forall k :: !Serves(View(codec, db.tables), k, domain)
    {
      if k :| k in db.tables.connections && Serves(db.tables, k, domain) {
        var row := db.tables.connections[k];
        assert Serves(View(codec, db.tables), k, domain);
        return Ok(row.(config := DecryptConfig(codec, row.config)));
      }
      return Err(ConnectionNotFound);
    }

    method UpdateConfig(
      tenant: string, id: string, config: Json.Value, nonce: Bytes) returns (res: Result<ConnectionRow, DbError>)
      requires Lawful(codec.cipher)
      modifies db
      ensures res.Ok? <==> id in old(db.tables).connections && old(db.tables).connections[id].tenant == tenant
      ensures res.Ok? ==> WriteConfig(old(db.tables), tenant, id, EncryptConfig(codec, config, nonce)) == Ok(db.tables)
                          && res.value == old(db.tables).connections[id].(config := config)
      ensures res.Err? ==> db.tables == old(db.tables) && res.error == ConnectionNotFound
    {
      if id !in db.tables.connections || db.tables.connections[id].tenant != tenant {
        return Err(ConnectionNotFound);
      }
      var row := db.tables.connections[id].(config := EncryptConfig(codec, config, nonce));
      db.tables := db.tables.(connections := db.tables.connections[id := row]);
      ConfigRoundTrip(codec, config, nonce);
      return Ok(row.(config := DecryptConfig(codec, row.config)));
    }

    method SetEnabled(tenant: string, id: string, enabled: bool) returns (res: Result<ConnectionRow, DbError>)
      modifies db
      ensures res.Ok? <==> id in old(db.tables).connections && old(db.tables).connections[id].tenant == tenant
      ensures res.Ok? ==> SwitchRow(old(db.tables), tenant, id, enabled) == Ok(db.tables)
                          && res.value == View(codec, db.tables).connections[id]
      ensures res.Err? ==> db.tables == old(db.tables) && res.error == ConnectionNotFound
    {
      if id !in db.tables.connections || db.tables.connections[id].tenant != tenant {
        return Err(ConnectionNotFound);
      }
      var row := db.tables.connections[id].(enabled := enabled);
      db.tables := db.tables.(connections := db.tables.connections[id := row]);
      return Ok(row.(config := DecryptConfig(codec, row.config)));
    }
  }

  /** Row `k` is what the lookup by domain selects. */
  predicate Serves(t: Tables, k: string, domain: string) {
    k in t.connections && t.connections[k].domain == domain && t.connections[k].enabled
  }

  /* ---- Runs ---- */

  /** `permits` holds the creates whose check has passed, `retired` the tenants that are gone. */
  datatype State = State(tables: Tables, retired: set<string>, permits: set<(string, string)>)

  const EMPTY := State(Tables({}, map[], map[]), {}, {})

  datatype Event =
    | AddTenant(tenant: string)
    | DeleteTenant(tenant: string)
    | CreateDomain(id: string, tenant: string, domain: string)
    | VerifyDomain(tenant: string, id: string)
    | CheckDomain(tenant: string, domain: string)
    | Insert(id: string, tenant: string, kind: ConnectionType, domain: string, config: Json.Value, nonce: Bytes)
    | Update(tenant: string, id: string, config: Json.Value, nonce: Bytes)
    | Enable(tenant: string, id: string, enabled: bool)

  /** How configs reach the table: sealed by a codec, or as they are in the reference store. */
  datatype Mode = Sealed(codec: Codec) | Plain

  function Stored(m: Mode, config: Json.Value, nonce: Bytes): Json.Value {
    if m.Sealed? then EncryptConfig(m.codec, config, nonce) else config
  }

  function Commit(s: State, outcome: Result<Tables, DbError>): State {
    if outcome.Ok? then s.(tables := outcome.value) else s
  }

  /** Tenant ids are never reused. A passed check may be followed by any number of inserts. */
  function Step(m: Mode, s: State, e: Event): State {
    match e
    case AddTenant(tenant) =>
      if tenant in s.retired then s else s.(tables := s.tables.(tenants := s.tables.tenants + {tenant}))
    case DeleteTenant(tenant) =>
      if tenant !in s.tables.tenants then s
      else s.(tables := DropTenant(s.tables, tenant), retired := s.retired + {tenant})
    case CreateDomain(id, tenant, domain) => Commit(s, InsertDomain(s.tables, id, tenant, domain))
    case VerifyDomain(tenant, id) => Commit(s, VerifyRow(s.tables, tenant, id))
    case CheckDomain(tenant, domain) =>
      if VerifiedFor(s.tables, tenant, domain) then s.(permits := s.permits + {(tenant, domain)}) else s
    case Insert(id, tenant, kind, domain, config, nonce) =>
      if (tenant, domain) in s.permits
      then Commit(s, InsertConnection(s.tables, id, tenant, kind, domain, Stored(m, config, nonce)))
      else s
    case Update(tenant, id, config, nonce) => Commit(s, WriteConfig(s.tables, tenant, id, Stored(m, config, nonce)))
    case Enable(tenant, id, enabled) => Commit(s, SwitchRow(s.tables, tenant, id, enabled))
  }

  function Run(m: Mode, s: State, es: seq<Event>): State
    decreases es
  {
    if es == [] then s else Run(m, Step(m, s, es[0]), es[1..])
  }

  /* ---- The verified-domain invariant ---- */

  ghost predicate DomainsOk(t: Tables) {
    && (forall k | k in t.domains :: t.domains[k].tenant in t.tenants)
    && (forall k, l | k in t.domains && l in t.domains && t.domains[k].domain == t.domains[l].domain :: k == l)
  }

  ghost predicate ConnectionsOk(t: Tables) {
    && (forall k | k in t.connections :: t.connections[k].tenant in t.tenants)
    && (forall k, l | k in t.connections && l in t.connections ::
          t.connections[k].domain == t.connections[l].domain ==> k == l)
  }

  /** Every connection's own tenant has verified that connection's domain. */
  ghost predicate AllVerified(t: Tables) {
    forall k | k in t.connections :: VerifiedFor(t, t.connections[k].tenant, t.connections[k].domain)
  }

  /** A passed check stays true while its tenant exists, and a lost tenant never returns. */
  ghost predicate PermitsOk(s: State) {
    && s.tables.tenants !! s.retired
    && forall p | p in s.permits ::
         if p.0 in s.tables.tenants then VerifiedFor(s.tables, p.0, p.1) else p.0 in s.retired
  }

  ghost predicate Inv(s: State) {
    DomainsOk(s.tables) && ConnectionsOk(s.tables) && AllVerified(s.tables) && PermitsOk(s)
  }

  /** Verification is permanent for as long as the tenant exists. */
  lemma VerifiedStays(m: Mode, s: State, e: Event, tenant: string, domain: string)
    requires VerifiedFor(s.tables, tenant, domain) && DomainsOk(s.tables)
    requires tenant in Step(m, s, e).tables.tenants
    ensures VerifiedFor(Step(m, s, e).tables, tenant, domain)
  {
    var k :| k in s.tables.domains && s.tables.domains[k] == DomainRow(tenant, domain, true);
    var t := Step(m, s, e).tables;
    assert k in t.domains && t.domains[k] == DomainRow(tenant, domain, true);
  }

  lemma StepKeepsDomains(m: Mode, s: State, e: Event)
    requires DomainsOk(s.tables)
    ensures DomainsOk(Step(m, s, e).tables)
  {
  }

  lemma StepKeepsConnections(m: Mode, s: State, e: Event)
    requires ConnectionsOk(s.tables)
    ensures ConnectionsOk(Step(m, s, e).tables)
  {
  }

  lemma StepKeepsInv(m: Mode, s: State, e: Event)
    requires Inv(s)
    ensures Inv(Step(m, s, e))
  {
    StepKeepsDomains(m, s, e);
    StepKeepsConnections(m, s, e);
    var next := Step(m, s, e);
    forall k | k in next.tables.connections
      ensures VerifiedFor(next.tables, next.tables.connections[k].tenant, next.tables.connections[k].domain)
    {
      var row := next.tables.connections[k];
      VerifiedStays(m, s, e, row.tenant, row.domain);
    }
    forall p | p in next.permits
      ensures if p.0 in next.tables.tenants then VerifiedFor(next.tables, p.0, p.1) else p.0 in next.retired
    {
      assert p !in s.permits ==> VerifiedFor(s.tables, p.0, p.1);
      if p.0 in next.tables.tenants {
        VerifiedStays(m, s, e, p.0, p.1);
      }
    }
  }

  /** In every reachable state, under every interleaving of checks and inserts. */
  lemma {:induction false} RunKeepsInv(m: Mode, s: State, es: seq<Event>)
    requires Inv(s)
    ensures Inv(Run(m, s, es))
    decreases es
  {
    if es != [] {
      StepKeepsInv(m, s, es[0]);
      RunKeepsInv(m, Step(m, s, es[0]), es[1..]);
    }
  }

  /** The tenant that verified a connection's domain is the only one that holds it. */
  lemma OneHolder(t: Tables, k: string, d: string)
    requires DomainsOk(t) && AllVerified(t) && k in t.connections
    requires d in t.domains && t.domains[d].domain == t.connections[k].domain
    ensures t.domains[d] == DomainRow(t.connections[k].tenant, t.connections[k].domain, true)
  {
    assert VerifiedFor(t, t.connections[k].tenant, t.connections[k].domain);
  }

  /* ---- What each step changes ---- */

  /** Key `k` holds the same domain and the same connection of the tenant in both tables, or none. */
  ghost predicate SameAt(a: Tables, b: Tables, tenant: string, k: string) {
    && (k in a.domains && a.domains[k].tenant == tenant ==> k in b.domains && b.domains[k] == a.domains[k])
    && (k in b.domains && b.domains[k].tenant == tenant ==> k in a.domains && b.domains[k] == a.domains[k])
    && (k in a.connections && a.connections[k].tenant == tenant ==>
          k in b.connections && b.connections[k] == a.connections[k])
    && (k in b.connections && b.connections[k].tenant == tenant ==>
          k in a.connections && b.connections[k] == a.connections[k])
  }

  /** No event changes, adds or removes a domain or a connection of a tenant other than the one it acts for. */
  lemma StepStaysInTenant(m: Mode, s: State, e: Event, tenant: string, k: string)
    requires tenant != e.tenant
    ensures SameAt(s.tables, Step(m, s, e).tables, tenant, k)
    ensures tenant in Step(m, s, e).tables.tenants <==> tenant in s.tables.tenants
  {
  }

  /** No run in which nobody acts for a tenant changes that tenant's domains or connections. */
  lemma {:induction false} TenantsAreIsolated(m: Mode, s: State, es: seq<Event>, tenant: string, k: string)
    requires forall i | 0 <= i < |es| :: es[i].tenant != tenant
    ensures SameAt(s.tables, Run(m, s, es).tables, tenant, k)
    decreases es
  {
    if es != [] {
      StepStaysInTenant(m, s, es[0], tenant, k);
      TenantsAreIsolated(m, Step(m, s, es[0]), es[1..], tenant, k);
    }
  }

  /** A verification marks the tenant's own domain row; a missing or foreign row changes nothing. */
  lemma VerificationIsExact(m: Mode, s: State, tenant: string, id: string)
    ensures var t, t' := s.tables, Step(m, s, VerifyDomain(tenant, id)).tables;
            && t'.connections == t.connections && t'.tenants == t.tenants
            && if id in t.domains && t.domains[id].tenant == tenant
               then && t'.domains.Keys == t.domains.Keys
                    && t'.domains[id] == DomainRow(tenant, t.domains[id].domain, true)
                    && (forall k | k in t.domains && k != id :: t'.domains[k] == t.domains[k])
               else t' == t
  {
  }

  /** A registered domain is unverified, and only a domain that nobody holds can be registered. */
  lemma RegistrationIsExact(m: Mode, s: State, id: string, tenant: string, domain: string)
    ensures var t, t' := s.tables, Step(m, s, CreateDomain(id, tenant, domain)).tables;
            && t'.connections == t.connections && t'.tenants == t.tenants
            && if tenant in t.tenants && id !in t.domains
                  && (forall k | k in t.domains :: t.domains[k].domain != domain)
               then && id in t'.domains && t'.domains[id] == DomainRow(tenant, domain, false)
                    && (forall k | k != id :: (k in t'.domains <==> k in t.domains)
                                              && (k in t.domains ==> t'.domains[k] == t.domains[k]))
               else t' == t
  {
  }

  /** A write to a connection changes the field it is for, in the tenant's own row, and nothing else. */
  lemma ConnectionWritesAreExact(
    s: State, tenant: string, id: string, config: Json.Value, nonce: Bytes, enabled: bool)
    ensures var t := s.tables;
            var updated := Step(Plain, s, Update(tenant, id, config, nonce)).tables;
            var switched := Step(Plain, s, Enable(tenant, id, enabled)).tables;
            if id in t.connections && t.connections[id].tenant == tenant
            then var row := t.connections[id];
                 && updated == t.(connections := t.connections[id :=
                      ConnectionRow(tenant, row.kind, row.domain, config, row.enabled)])
                 && switched == t.(connections := t.connections[id :=
                      ConnectionRow(tenant, row.kind, row.domain, row.config, enabled)])
            else updated == t && switched == t
  {
  }

  /** A new connection is enabled and holds what was given; it needs a passed check and an unused domain. */
  lemma InsertIsExact(s: State, e: Event)
    requires e.Insert?
    ensures var t, t' := s.tables, Step(Plain, s, e).tables;
            && t'.domains == t.domains && t'.tenants == t.tenants
            && if (e.tenant, e.domain) in s.permits && e.tenant in t.tenants && e.id !in t.connections
                  && (forall k | k in t.connections :: t.connections[k].domain != e.domain)
               then && e.id in t'.connections
                    && t'.connections[e.id] == ConnectionRow(e.tenant, e.kind, e.domain, e.config, true)
                    && (forall k | k != e.id :: (k in t'.connections <==> k in t.connections)
                                                && (k in t.connections ==> t'.connections[k] == t.connections[k]))
               else t' == t
  {
  }

  /* ---- The sealed store refines the plain one ---- */

  function ViewState(c: Codec, s: State): State {
    s.(tables := View(c, s.tables))
  }

  lemma InsertRefines(c: Codec, t: Tables, e: Event)
    requires Lawful(c.cipher) && e.Insert?
    ensures var sealed := InsertConnection(t, e.id, e.tenant, e.kind, e.domain, EncryptConfig(c, e.config, e.nonce));
            var plain := InsertConnection(View(c, t), e.id, e.tenant, e.kind, e.domain, e.config);
            sealed.Ok? == plain.Ok? && (sealed.Ok? ==> View(c, sealed.value) == plain.value)
  {
    ConfigRoundTrip(c, e.config, e.nonce);
    var v := View(c, t);
    assert forall k :: k in t.connections <==> k in v.connections;
    assert ConnectionTaken(t, e.domain) <==> ConnectionTaken(v, e.domain) by {
      if ConnectionTaken(t, e.domain) {
        var k :| k in t.connections && t.connections[k].domain == e.domain;
        assert v.connections[k].domain == e.domain;
      }
    }
    var sealed := InsertConnection(t, e.id, e.tenant, e.kind, e.domain, EncryptConfig(c, e.config, e.nonce));
    var plain := InsertConnection(v, e.id, e.tenant, e.kind, e.domain, e.config);
    if sealed.Ok? {
      assert View(c, sealed.value).connections == plain.value.connections;
    }
  }

  lemma UpdateRefines(c: Codec, t: Tables, e: Event)
    requires Lawful(c.cipher) && e.Update?
    ensures var sealed := WriteConfig(t, e.tenant, e.id, EncryptConfig(c, e.config, e.nonce));
            var plain := WriteConfig(View(c, t), e.tenant, e.id, e.config);
            sealed.Ok? == plain.Ok? && (sealed.Ok? ==> View(c, sealed.value) == plain.value)
  {
    ConfigRoundTrip(c, e.config, e.nonce);
    var sealed := WriteConfig(t, e.tenant, e.id, EncryptConfig(c, e.config, e.nonce));
    var plain := WriteConfig(View(c, t), e.tenant, e.id, e.config);
    if sealed.Ok? {
      assert View(c, sealed.value).connections == plain.value.connections;
    }
  }

  lemma StepRefines(c: Codec, s: State, e: Event)
    requires Lawful(c.cipher)
    ensures ViewState(c, Step(Sealed(c), s, e)) == Step(Plain, ViewState(c, s), e)
  {
    var t, v := s.tables, View(c, s.tables);
    assert forall d, tenant :: VerifiedFor(t, tenant, d) <==> VerifiedFor(v, tenant, d);
    assert forall d :: DomainTaken(t, d) <==> DomainTaken(v, d);
    match e
    case Insert(_, _, _, _, _, _) => InsertRefines(c, t, e);
    case Update(_, _, _, _) => UpdateRefines(c, t, e);
    case DeleteTenant(tenant) =>
      assert View(c, DropTenant(t, tenant)).connections == DropTenant(v, tenant).connections;
    case Enable(tenant, id, enabled) =>
      var sealed := SwitchRow(t, tenant, id, enabled);
      var plain := SwitchRow(v, tenant, id, enabled);
      if sealed.Ok? {
        assert View(c, sealed.value).connections == plain.value.connections;
      }
    case _ =>
  }

  /** After any run, readers of the sealed store see exactly what a store that never
      encrypts would hold, whatever the key state and whatever the secrets. */
  lemma {:induction false} SealedRefinesPlain(c: Codec, s: State, es: seq<Event>)
    requires Lawful(c.cipher)
    ensures ViewState(c, Run(Sealed(c), s, es)) == Run(Plain, ViewState(c, s), es)
    decreases es
  {
    if es != [] {
      StepRefines(c, s, es[0]);
      SealedRefinesPlain(c, Step(Sealed(c), s, es[0]), es[1..]);
    }
  }

  /** `e` neither rewrites nor removes connection `id` of `tenant`. */
  predicate LeavesConfig(e: Event, tenant: string, id: string) {
    match e
    case Update(t, i, _, _) => !(t == tenant && i == id)
    case DeleteTenant(t) => t != tenant
    case _ => true
  }

  lemma {:induction false} PlainKeepsConfig(s: State, es: seq<Event>, tenant: string, id: string, config: Json.Value)
    requires id in s.tables.connections
    requires s.tables.connections[id].tenant == tenant && s.tables.connections[id].config == config
    requires forall i | 0 <= i < |es| :: LeavesConfig(es[i], tenant, id)
    ensures id in Run(Plain, s, es).tables.connections
    ensures var row := Run(Plain, s, es).tables.connections[id]; row.tenant == tenant && row.config == config
    decreases es
  {
    if es != [] {
      assert LeavesConfig(es[0], tenant, id);
      PlainKeepsConfig(Step(Plain, s, es[0]), es[1..], tenant, id, config);
    }
  }

  /** `e` is a create or an update of connection `id` that succeeds in `s`. */
  predicate Writes(s: State, e: Event, tenant: string, id: string, config: Json.Value) {
    match e
    case Insert(i, t, kind, domain, written, _) =>
      && i == id && t == tenant && written == config && (t, domain) in s.permits
      && InsertConnection(s.tables, i, t, kind, domain, written).Ok?
    case Update(t, i, written, _) =>
      && i == id && t == tenant && written == config
      && id in s.tables.connections && s.tables.connections[id].tenant == tenant
    case _ => false
  }

  /** A read returns the config last written, after any run that does not write or remove it. */
  lemma ReadsLastWrite(c: Codec, s: State, e: Event, tenant: string, id: string, config: Json.Value, es: seq<Event>)
    requires Lawful(c.cipher) && Writes(s, e, tenant, id, config)
    requires forall i | 0 <= i < |es| :: LeavesConfig(es[i], tenant, id)
    ensures var end := Run(Sealed(c), Step(Sealed(c), s, e), es);
            id in View(c, end.tables).connections && View(c, end.tables).connections[id].config == config
  {
    var written := Step(Sealed(c), s, e);
    StepRefines(c, s, e);
    SealedRefinesPlain(c, written, es);
    ConfigRoundTrip(c, config, e.nonce);
    PlainKeepsConfig(ViewState(c, written), es, tenant, id, config);
  }
}
