/**
  The id-mapping store: rows held under (tenant, backend, public id), moved
  between tenants by `update_tenant`, and looked up by backend id to resolve an
  authenticated subject. A lookup that several rows satisfy may return any of
  them, as neither a hash map's iteration nor `LIMIT 1` fixes an order.
 */
module IdMappings {
  import opened Wrappers
  import opened DbErrors
  import opened AuthTypes

  datatype MappingKey = MappingKey(tenant: string, backend: string, publicId: string)

  datatype MappingRow = MappingRow(
    id: string, tenant: string, backend: string, publicId: string, oryId: string, createdAt: int)

  type Mappings = map<MappingKey, MappingRow>

  function KeyOf(row: MappingRow): MappingKey {
    MappingKey(row.tenant, row.backend, row.publicId)
  }

  /** Map key and row fields agree. */
  ghost predicate KeysAgree(m: Mappings) {
    forall k | k in m :: KeyOf(m[k]) == k
  }

  /** A public id names at most one row per backend. */
  ghost predicate UniquePublic(m: Mappings) {
    forall j, k | j in m && k in m && j.backend == k.backend && j.publicId == k.publicId :: j == k
  }

  /* ---- Re-homing ---- */

  predicate Named(k: MappingKey, backend: string, publicId: string) {
    k.backend == backend && k.publicId == publicId
  }

  /** Remove the row under `k` and insert it, with its new tenant, under its new key. */
  function Rehome(m: Mappings, k: MappingKey, tenant: string): Mappings
    requires k in m
  {
    (m - {k})[k.(tenant := tenant) := m[k].(tenant := tenant)]
  }

  /** Exactly when re-homing loses a row: another row already sits under the target key. */
  lemma RehomeLosesIffOccupied(m: Mappings, k: MappingKey, tenant: string)
    requires k in m
    ensures var target := k.(tenant := tenant);
            |Rehome(m, k, tenant)| == if target in m && target != k then |m| - 1 else |m|
  {
    var target := k.(tenant := tenant);
    var rest := m - {k};
    assert rest.Keys == m.Keys - {k};
    assert |rest| == |rest.Keys| && |m| == |m.Keys|;
    var moved := Rehome(m, k, tenant);
    assert |moved| == |moved.Keys|;
    if target in rest {
      assert moved.Keys == rest.Keys;
    } else {
      assert moved.Keys == rest.Keys + {target};
    }
  }

  /**
    With public ids unique per backend, re-homing moves exactly one row: nothing
    is lost or overwritten, its ids and creation time stay, and both invariants
    hold afterwards.
   */
  lemma RehomeConserves(m: Mappings, k: MappingKey, tenant: string)
    requires k in m && KeysAgree(m) && UniquePublic(m)
    ensures var moved := Rehome(m, k, tenant);
            var target := k.(tenant := tenant);
            && KeysAgree(moved) && UniquePublic(moved) && |moved| == |m|
            && target in moved && moved[target] == m[k].(tenant := tenant)
            && (tenant != k.tenant ==> k !in moved)
            && (forall j | j in m && j != k :: j in moved && moved[j] == m[j])
            && (forall j | j in moved && j != target :: j in m && j != k)
  {
    RehomeLosesIffOccupied(m, k, tenant);
  }

  /* ---- Whole runs ---- */

  datatype Event =
    | Create(row: MappingRow)
    | Delete(key: MappingKey)
    | Move(key: MappingKey, tenant: string)

  function Step(m: Mappings, e: Event): Mappings {
    match e
    case Create(row) => if KeyOf(row) in m then m else m[KeyOf(row) := row]
    case Delete(key) => m - {key}
    case Move(key, tenant) => if key in m then Rehome(m, key, tenant) else m
  }

  /** A created row's public id is not in use on its backend under another tenant. */
  ghost predicate FreshPublic(m: Mappings, e: Event) {
    e.Create? ==> forall k | k in m && Named(k, e.row.backend, e.row.publicId) :: k == KeyOf(e.row)
  }

  ghost predicate AllFresh(m: Mappings, es: seq<Event>)
    decreases es
  {
    es != [] ==> FreshPublic(m, es[0]) && AllFresh(Step(m, es[0]), es[1..])
  }

  function Run(m: Mappings, es: seq<Event>): Mappings
    decreases es
  {
    if es == [] then m else Run(Step(m, es[0]), es[1..])
  }

  /** Keys and rows agree after every step; public ids stay unique exactly if a created one was not in use. */
  lemma StepKeepsKeys(m: Mappings, e: Event)
    requires KeysAgree(m)
    ensures KeysAgree(Step(m, e))
    ensures UniquePublic(m) ==> (UniquePublic(Step(m, e)) <==> FreshPublic(m, e))
  {
    if UniquePublic(m) && e.Move? && e.key in m {
      RehomeConserves(m, e.key, e.tenant);
    }
    if e.Create? && !FreshPublic(m, e) {
      var k :| k in m && Named(k, e.row.backend, e.row.publicId) && k != KeyOf(e.row);
      var m' := Step(m, e);
      assert k in m' && KeyOf(e.row) in m';
    }
  }

  /** A create adds its row, a delete drops its own, a move changes the tenant of one; every other key stays. */
  lemma StepIsExact(m: Mappings, e: Event, k: MappingKey)
    ensures var m' := Step(m, e);
            match e
            case Create(row) =>
              && KeyOf(row) in m' && m'[KeyOf(row)] == (if KeyOf(row) in m then m[KeyOf(row)] else row)
              && (k != KeyOf(row) ==> (k in m' <==> k in m) && (k in m ==> m'[k] == m[k]))
            case Delete(key) =>
              && key !in m' && (k != key ==> (k in m' <==> k in m) && (k in m ==> m'[k] == m[k]))
            case Move(key, tenant) =>
              var target := MappingKey(tenant, key.backend, key.publicId);
              && (key !in m ==> m' == m)
              && (key in m ==> target in m' && m'[target] == m[key].(tenant := tenant))
              && (key in m && key != target ==> key !in m')
              && (k != key && k != target ==> (k in m' <==> k in m) && (k in m ==> m'[k] == m[k]))
  {
  }

  /** Every run keeps keys and rows in agreement; one that only creates unused public ids keeps them unique. */
  lemma {:induction false} RunKeepsKeys(m: Mappings, es: seq<Event>)
    requires KeysAgree(m)
    ensures KeysAgree(Run(m, es))
    ensures UniquePublic(m) && AllFresh(m, es) ==> UniquePublic(Run(m, es))
    decreases es
  {
    if es != [] {
      StepKeepsKeys(m, es[0]);
      RunKeepsKeys(Step(m, es[0]), es[1..]);
    }
  }

  lemma RunThree(m: Mappings, a: Event, b: Event, c: Event)
    ensures Run(m, [a, b]) == Step(Step(m, a), b)
    ensures Run(m, [a, b, c]) == Step(Run(m, [a, b]), c)
  {
    assert [a, b][1..] == [b] && [b][1..] == [];
    assert [a, b, c][1..] == [b, c] && [b, c][1..] == [c] && [c][1..] == [];
    assert Run(Step(m, a), [b]) == Step(Step(m, a), b);
    var two := Step(Step(m, a), b);
    assert Run(two, [c]) == Run(Step(two, c), []);
    assert Run(Step(m, a), [b, c]) == Run(two, [c]);
  }

  /**
    Without that condition a row can be lost: two tenants create the same public
    id on one backend, the first is moved to the second tenant, and of the two
    rows only the moved one is left.
   */
  lemma RehomeCanLose(p: MappingRow, q: MappingRow)
    requires p.backend == q.backend && p.publicId == q.publicId && p.tenant != q.tenant
    ensures var two := Run(map[], [Create(p), Create(q)]);
            var moved := Run(map[], [Create(p), Create(q), Move(KeyOf(p), q.tenant)]);
            && two == map[KeyOf(p) := p, KeyOf(q) := q] && |two| == 2
            && moved == map[KeyOf(q) := p.(tenant := q.tenant)] && |moved| == 1
  {
    RunThree(map[], Create(p), Create(q), Move(KeyOf(p), q.tenant));
    var two := Run(map[], [Create(p), Create(q)]);
    assert KeyOf(p) != KeyOf(q);
    assert two.Keys == {KeyOf(p), KeyOf(q)} && |two| == |two.Keys|;
    RehomeLosesIffOccupied(two, KeyOf(p), q.tenant);
  }

  class MemoryIdMappingStore {
    var rows: Mappings

    constructor ()
      ensures rows == map[]
    {
      rows := map[];
    }

    /** Refuses a key that is taken, with the store's one error. */
    method CreateAt(id: string, tenant: string, backend: string, publicId: string, oryId: string, createdAt: int)
      returns (res: Result<MappingRow, DbError>)
      modifies this
      ensures var row := MappingRow(id, tenant, backend, publicId, oryId, createdAt);
              && rows == Step(old(rows), Create(row))
              && res == if KeyOf(row) in old(rows) then Err(MappingNotFound) else Ok(row)
    {
      var key := MappingKey(tenant, backend, publicId);
      if key in rows {
        return Err(MappingNotFound);
      }
      var row := MappingRow(id, tenant, backend, publicId, oryId, createdAt);
      rows := rows[key := row];
      return Ok(row);
    }

    method UpdateTenant(backend: string, publicId: string, tenant: string) returns (res: Result<(), DbError>)
      requires KeysAgree(rows)
      modifies this
      ensures res.Err? ==> rows == old(rows) && forall k | k in old(rows) :: !Named(k, backend, publicId)
      ensures res.Ok? ==>
                exists k :: k in old(rows) && Named(k, backend, publicId) && rows == Rehome(old(rows), k, tenant)
      ensures KeysAgree(rows)
      ensures UniquePublic(old(rows)) ==> UniquePublic(rows) && |rows| == |old(rows)|
    {
      if k :| k in rows && rows[k].backend == backend && rows[k].publicId == publicId {
        var oldKey := MappingKey(rows[k].tenant, rows[k].backend, rows[k].publicId);
        assert KeyOf(rows[k]) == k;
        if UniquePublic(rows) {
          RehomeConserves(rows, oldKey, tenant);
        }
        var row := rows[oldKey].(tenant := tenant);
        rows := rows - {oldKey};
        rows := rows[MappingKey(tenant, backend, publicId) := row];
        return Ok(());
      } else {
        assert forall k | k in rows :: KeyOf(rows[k]) == k;
        return Err(MappingNotFound);
      }
    }
  }

  /* ---- Subject resolution ---- */

  /** The order in which one lookup meets the rows. */
  type Order = seq<MappingRow>

  /** One order for each backend a lookup may ask. */
  datatype PerBackend = PerBackend(hydra: Order, kratos: Order)

  /** One order for each lookup a resolver may make. */
  datatype Orders = Orders(tenantIn: PerBackend, publicIn: PerBackend)

  function In(orders: PerBackend, b: SubjectBackend): Order {
    if b == Hydra then orders.hydra else orders.kratos
  }

  function BackendName(b: SubjectBackend): string {
    match b
    case Hydra => "hydra"
    case Kratos => "kratos"
  }

  predicate IsFor(row: MappingRow, b: SubjectBackend, ory: string) {
    row.backend == BackendName(b) && row.oryId == ory
  }

  /** The orders list exactly the rows of the table, in any order. */
  ghost predicate Lists(m: Mappings, o: Orders) {
    && (forall row :: row in o.tenantIn.hydra <==> row in m.Values)
    && (forall row :: row in o.tenantIn.kratos <==> row in m.Values)
    && (forall row :: row in o.publicIn.hydra <==> row in m.Values)
    && (forall row :: row in o.publicIn.kratos <==> row in m.Values)
  }

  function First(order: Order, b: SubjectBackend, ory: string): Option<MappingRow> {
    if order == [] then None
    else if IsFor(order[0], b, ory) then Some(order[0])
    else First(order[1..], b, ory)
  }

  const BACKENDS: seq<SubjectBackend> := [Hydra, Kratos]

  /** The first backend in which the tenant lookup succeeds. */
  function ResolveTenant(backends: seq<SubjectBackend>, tenantIn: PerBackend, ory: string): Result<string, AuthError>
  {
    if backends == [] then Err(UnknownSubject)
    else
      match First(In(tenantIn, backends[0]), backends[0], ory)
      case Some(row) => Ok(row.tenant)
      case None => ResolveTenant(backends[1..], tenantIn, ory)
  }

  /** The first backend in which the public-id lookup succeeds. */
  function ResolvePublic(backends: seq<SubjectBackend>, publicIn: PerBackend, ory: string): Result<string, AuthError>
  {
    if backends == [] then Err(UnknownSubject)
    else
      match First(In(publicIn, backends[0]), backends[0], ory)
      case Some(row) => Ok(row.publicId)
      case None => ResolvePublic(backends[1..], publicIn, ory)
  }

  /** One pass: the first backend in which both lookups succeed. */
  function ResolveSubject(backends: seq<SubjectBackend>, o: Orders, ory: string): Result<ResolvedSubject, AuthError>
  {
    if backends == [] then Err(UnknownSubject)
    else
      var b := backends[0];
      var tenantRow := First(In(o.tenantIn, b), b, ory);
      var publicRow := First(In(o.publicIn, b), b, ory);
      if tenantRow.Some? && publicRow.Some? then
        Ok(ResolvedSubject(tenantRow.value.tenant, publicRow.value.publicId, b))
      else ResolveSubject(backends[1..], o, ory)
  }

  /** The one-pass answer says what the two older passes say. */
  ghost predicate SameAnswer(
    one: Result<ResolvedSubject, AuthError>, tenant: Result<string, AuthError>, public_: Result<string, AuthError>) {
    match one
    case Ok(s) => tenant == Ok(s.tenant) && public_ == Ok(s.publicId)
    case Err(e) => tenant == Err(e) && public_ == Err(e)
  }

  /** One pass over the orders `o` and two passes over the orders `p` give the same answer. */
  ghost predicate Coincide(o: Orders, p: Orders, ory: string) {
    SameAnswer(ResolveSubject(BACKENDS, o, ory), ResolveTenant(BACKENDS, p.tenantIn, ory),
               ResolvePublic(BACKENDS, p.publicIn, ory))
  }

  /** The backend that answers for a subject: the first one with a row for it. */
  ghost predicate Answers(m: Mappings, b: SubjectBackend, ory: string) {
    && (exists row :: row in m.Values && IsFor(row, b, ory))
    && (b == Kratos ==> forall row | row in m.Values :: !IsFor(row, Hydra, ory))
  }

  /** All rows of the answering backend give the subject the same tenant and public id. */
  ghost predicate Unambiguous(m: Mappings, ory: string) {
    forall b, r, s | Answers(m, b, ory) && r in m.Values && s in m.Values && IsFor(r, b, ory) && IsFor(s, b, ory) ::
      r.tenant == s.tenant && r.publicId == s.publicId
  }

  lemma {:induction false} FirstFacts(order: Order, b: SubjectBackend, ory: string)
    ensures First(order, b, ory).Some? ==>
              First(order, b, ory).value in order && IsFor(First(order, b, ory).value, b, ory)
    ensures First(order, b, ory).None? ==> forall row | row in order :: !IsFor(row, b, ory)
    decreases order
  {
    if order != [] {
      FirstFacts(order[1..], b, ory);
      assert order == [order[0]] + order[1..];
    }
  }

  lemma AgreeWhenUnambiguous(m: Mappings, o: Orders, p: Orders, ory: string)
    requires Lists(m, o) && Lists(m, p) && Unambiguous(m, ory)
    ensures Coincide(o, p, ory)
  {
    FirstFacts(o.tenantIn.hydra, Hydra, ory);
    FirstFacts(o.publicIn.hydra, Hydra, ory);
    FirstFacts(o.tenantIn.kratos, Kratos, ory);
    FirstFacts(o.publicIn.kratos, Kratos, ory);
    FirstFacts(p.tenantIn.hydra, Hydra, ory);
    FirstFacts(p.publicIn.hydra, Hydra, ory);
    FirstFacts(p.tenantIn.kratos, Kratos, ory);
    FirstFacts(p.publicIn.kratos, Kratos, ory);
    assert BACKENDS[1..] == [Kratos] && BACKENDS[1..][1..] == [];
    if row :| row in m.Values && IsFor(row, Hydra, ory) {
      assert Answers(m, Hydra, ory);
    } else if row :| row in m.Values && IsFor(row, Kratos, ory) {
      assert Answers(m, Kratos, ory);
    } else {
      assert ResolveSubject([Kratos], o, ory) == Err(UnknownSubject);
      assert ResolveTenant([Kratos], p.tenantIn, ory) == Err(UnknownSubject);
      assert ResolvePublic([Kratos], p.publicIn, ory) == Err(UnknownSubject);
    }
  }

  /**
    What one pass answers: the first backend with a row for the subject, the
    tenant of the row that the tenant lookup meets first there and the public id
    of the row that the other lookup meets first; unknown exactly without a row.
   */
  lemma ResolveSubjectMeans(m: Mappings, o: Orders, ory: string)
    requires Lists(m, o)
    ensures var r := ResolveSubject(BACKENDS, o, ory);
            && (r.Err? <==> forall b, row | row in m.Values :: !IsFor(row, b, ory))
            && (r.Err? ==> r.error == UnknownSubject)
            && (r.Ok? ==>
                  var b := r.value.backend;
                  var seen, named := First(In(o.tenantIn, b), b, ory), First(In(o.publicIn, b), b, ory);
                  && Answers(m, b, ory) && seen.Some? && named.Some?
                  && seen.value in m.Values && IsFor(seen.value, b, ory) && r.value.tenant == seen.value.tenant
                  && named.value in m.Values && IsFor(named.value, b, ory) && r.value.publicId == named.value.publicId)
  {
    FirstFacts(o.tenantIn.hydra, Hydra, ory);
    FirstFacts(o.publicIn.hydra, Hydra, ory);
    FirstFacts(o.tenantIn.kratos, Kratos, ory);
    FirstFacts(o.publicIn.kratos, Kratos, ory);
    assert BACKENDS[1..] == [Kratos] && BACKENDS[1..][1..] == [];
    var r := ResolveSubject(BACKENDS, o, ory);
    var rest := ResolveSubject([Kratos], o, ory);
    assert [Kratos][1..] == [] && ResolveSubject([], o, ory) == Err(UnknownSubject);
    assert First(o.tenantIn.hydra, Hydra, ory).None? ==> r == rest;
    assert First(o.tenantIn.kratos, Kratos, ory).None? ==> rest == Err(UnknownSubject);
  }

  ghost function Enumerate(s: set<MappingRow>): Order {
    if s == {} then [] else var row :| row in s; [row] + Enumerate(s - {row})
  }

  lemma {:induction false} EnumerateAll(s: set<MappingRow>)
    ensures forall row :: row in Enumerate(s) <==> row in s
    decreases s
  {
    if s != {} {
      var row :| row in s && Enumerate(s) == [row] + Enumerate(s - {row});
      EnumerateAll(s - {row});
    }
  }

  /** Orders in which every lookup meets `row` first. */
  ghost function Favour(m: Mappings, row: MappingRow): Orders {
    var order := [row] + Enumerate(m.Values);
    Orders(PerBackend(order, order), PerBackend(order, order))
  }

  lemma FavourLists(m: Mappings, row: MappingRow)
    requires row in m.Values
    ensures Lists(m, Favour(m, row))
  {
    EnumerateAll(m.Values);
  }

  /** A row of the answering backend that is met first decides all three resolvers. */
  lemma FavourDecides(m: Mappings, b: SubjectBackend, row: MappingRow, ory: string)
    requires Answers(m, b, ory) && row in m.Values && IsFor(row, b, ory)
    ensures var o := Favour(m, row);
            && ResolveSubject(BACKENDS, o, ory) == Ok(ResolvedSubject(row.tenant, row.publicId, b))
            && ResolveTenant(BACKENDS, o.tenantIn, ory) == Ok(row.tenant)
            && ResolvePublic(BACKENDS, o.publicIn, ory) == Ok(row.publicId)
  {
    FavourLists(m, row);
    var o := Favour(m, row);
    FirstFacts(o.tenantIn.hydra, Hydra, ory);
    assert BACKENDS[1..] == [Kratos] && BACKENDS[1..][1..] == [];
  }

  /**
    The one-pass resolver equals the pair of older ones, whatever rows their
    lookups happen to meet first, if and only if the answering backend's rows
    for the subject agree on tenant and public id.
   */
  lemma OnePassIffUnambiguous(m: Mappings, ory: string)
    ensures Unambiguous(m, ory) <==>
            forall o, p | Lists(m, o) && Lists(m, p) ::
              Coincide(o, p, ory)
  {
    if Unambiguous(m, ory) {
      forall o, p | Lists(m, o) && Lists(m, p)
        ensures Coincide(o, p, ory)
      {
        AgreeWhenUnambiguous(m, o, p, ory);
      }
    } else {
      var b, r, s :| Answers(m, b, ory) && r in m.Values && s in m.Values && IsFor(r, b, ory) && IsFor(s, b, ory)
                     && !(r.tenant == s.tenant && r.publicId == s.publicId);
      FavourLists(m, r);
      FavourLists(m, s);
      FavourDecides(m, b, r, ory);
      FavourDecides(m, b, s, ory);
      var o, p := Favour(m, r), Favour(m, s);
      assert !Coincide(o, p, ory);
    }
  }

  /** Backend ids unique per backend, which the resolvers' callers rely on, leave no ambiguity. */
  lemma UniqueOryIsUnambiguous(m: Mappings, ory: string)
    requires forall r, s | r in m.Values && s in m.Values && r.backend == s.backend && r.oryId == s.oryId :: r == s
    ensures Unambiguous(m, ory)
  {
  }
}
