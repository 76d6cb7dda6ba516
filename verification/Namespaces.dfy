/**
  Permission namespaces and the type index that resolves an object type to the
  namespace owning it. Each namespace stores a model; the index holds one row
  per relation-bearing type of each stored model. Transactions run one at a
  time, and a transaction that fails leaves both tables as they were.
 */
module Namespaces {
  import opened Wrappers
  import opened Json
  import TextLib = Text

  /* ---- Relation-bearing types of a model ---- */

  predicate BearsRelations(def: Value) {
    var relations := Get(def, "relations");
    relations.Some? && relations.value.Object? && relations.value.fields != map[]
  }

  function NamedTypes(defs: seq<Value>): seq<string> {
    if defs == [] then []
    else
      var name := GetText(defs[0], "type");
      (if BearsRelations(defs[0]) && name.Some? then [name.value] else []) + NamedTypes(defs[1..])
  }

  function InsertName(name: string, sorted: seq<string>): seq<string> {
    if sorted == [] || !TextLib.Less(sorted[0], name) then [name] + sorted
    else [sorted[0]] + InsertName(name, sorted[1..])
  }

  function SortNames(names: seq<string>): seq<string> {
    if names == [] then [] else InsertName(names[0], SortNames(names[1..]))
  }

  /** Names of the types that define at least one relation, sorted. */
  function RelationBearingTypes(model: Value): seq<string> {
    var defs := Get(model, "type_definitions");
    SortNames(if defs.Some? && defs.value.Array? then NamedTypes(defs.value.items) else [])
  }

  /** Type `name` is defined with at least one relation somewhere in the model. */
  ghost predicate Bears(model: Value, name: string) {
    var defs := Get(model, "type_definitions");
    && defs.Some? && defs.value.Array?
    && exists i :: 0 <= i < |defs.value.items| && BearsRelations(defs.value.items[i])
                   && GetText(defs.value.items[i], "type") == Some(name)
  }

  /** Read off the JSON: an entry of the list "type_definitions" with that type and a non-empty object of relations. */
  lemma BearsMeans(model: Value, name: string)
    ensures Bears(model, name) <==>
            && model.Object? && "type_definitions" in model.fields && model.fields["type_definitions"].Array?
            && exists def :: def in model.fields["type_definitions"].items && DefinesRelations(def, name)
  {
    if Bears(model, name) {
      var items := model.fields["type_definitions"].items;
      var i :| 0 <= i < |items| && BearsRelations(items[i]) && GetText(items[i], "type") == Some(name);
      assert DefinesRelations(items[i], name);
    }
  }

  ghost predicate DefinesRelations(def: Value, name: string) {
    && def.Object? && "type" in def.fields && def.fields["type"] == Text(name)
    && "relations" in def.fields && def.fields["relations"].Object?
    && exists relation :: relation in def.fields["relations"].fields
  }

  ghost predicate Ascending(names: seq<string>) {
    forall i, j | 0 <= i < j < |names| :: !TextLib.Less(names[j], names[i])
  }

  /** What is not above the least name is not above any. */
  lemma LeastIsBelowAll(name: string, sorted: seq<string>, j: nat)
    requires Ascending(sorted) && j < |sorted| && !TextLib.Less(sorted[0], name)
    ensures !TextLib.Less(sorted[j], name)
  {
    if j > 0 && TextLib.Less(sorted[j], name) {
      TextLib.LessIsTotal(sorted[0], name);
      TextLib.LessIsTotal(sorted[0], sorted[j]);
      if TextLib.Less(name, sorted[0]) {
        TextLib.LessIsTransitive(sorted[j], name, sorted[0]);
      }
    }
  }

  lemma PrependAscends(name: string, sorted: seq<string>)
    requires Ascending(sorted) && forall j | 0 <= j < |sorted| :: !TextLib.Less(sorted[j], name)
    ensures Ascending([name] + sorted)
  {
  }

  lemma {:induction false} InsertNameKeeps(name: string, sorted: seq<string>)
    ensures multiset(InsertName(name, sorted)) == multiset(sorted) + multiset{name}
    decreases sorted
  {
    if sorted != [] {
      assert sorted == [sorted[0]] + sorted[1..];
      InsertNameKeeps(name, sorted[1..]);
    }
  }

  lemma {:induction false} InsertNameSorts(name: string, sorted: seq<string>)
    requires Ascending(sorted)
    ensures Ascending(InsertName(name, sorted))
    decreases sorted
  {
    if sorted == [] {
    } else if TextLib.Less(sorted[0], name) {
      var tail := sorted[1..];
      var rest := InsertName(name, tail);
      InsertNameSorts(name, tail);
      InsertNameKeeps(name, tail);
      NotBelow(sorted[0], name);
      forall j | 0 <= j < |rest| ensures !TextLib.Less(rest[j], sorted[0]) {
        assert rest[j] in multiset(rest);
        assert rest[j] in tail || rest[j] == name;
      }
      PrependAscends(sorted[0], rest);
    } else {
      forall j | 0 <= j < |sorted| ensures !TextLib.Less(sorted[j], name) {
        LeastIsBelowAll(name, sorted, j);
      }
      PrependAscends(name, sorted);
    }
  }

  lemma NotBelow(a: string, b: string)
    requires TextLib.Less(a, b)
    ensures !TextLib.Less(b, a)
  {
    if TextLib.Less(b, a) {
      TextLib.LessIsTransitive(a, b, a);
    }
    TextLib.LessIsIrreflexive(a);
  }

  lemma {:induction false} SortNamesSorts(names: seq<string>)
    ensures Ascending(SortNames(names)) && multiset(SortNames(names)) == multiset(names)
    decreases names
  {
    if names != [] {
      SortNamesSorts(names[1..]);
      InsertNameSorts(names[0], SortNames(names[1..]));
      InsertNameKeeps(names[0], SortNames(names[1..]));
      assert names == [names[0]] + names[1..];
    }
  }

  lemma {:induction false} NamedTypesAreBearing(defs: seq<Value>, name: string)
    ensures name in NamedTypes(defs) <==>
            exists i :: 0 <= i < |defs| && BearsRelations(defs[i]) && GetText(defs[i], "type") == Some(name)
    decreases defs
  {
    if defs != [] {
      NamedTypesAreBearing(defs[1..], name);
      assert forall i | 1 <= i < |defs| :: defs[i] == defs[1..][i - 1];
    }
  }

  /** The computed list is sorted and holds exactly the types that bear a relation. */
  lemma TypesAreExact(model: Value, name: string)
    ensures Ascending(RelationBearingTypes(model))
    ensures name in RelationBearingTypes(model) <==> Bears(model, name)
  {
    var defs := Get(model, "type_definitions");
    var names := if defs.Some? && defs.value.Array? then NamedTypes(defs.value.items) else [];
    SortNamesSorts(names);
    assert name in SortNames(names) <==> name in multiset(SortNames(names));
    assert name in names <==> name in multiset(names);
    if defs.Some? && defs.value.Array? {
      NamedTypesAreBearing(defs.value.items, name);
    }
  }

  /* ---- The two tables ---- */

  datatype NamespaceKey = NamespaceKey(tenant: string, name: string)

  datatype TypeKey = TypeKey(tenant: string, name: string)

  datatype NamespaceRow = NamespaceRow(
    model: Value, storeId: Option<string>, modelId: Option<string>, createdAt: int, updatedAt: int)

  datatype Tables = Tables(namespaces: map<NamespaceKey, NamespaceRow>, types: map<TypeKey, string>)

  function Coalesce(a: Option<string>, b: Option<string>): Option<string> {
    if a.Some? then a else b
  }

  /** Types of `names` that another namespace of the tenant holds in the index. */
  function Conflicts(t: Tables, tenant: string, namespace: string, names: seq<string>): set<string> {
    set k | k in t.types && k.tenant == tenant && k.name in names && t.types[k] != namespace :: k.name
  }

  function UpsertedRow(
    t: Tables, key: NamespaceKey, model: Value, storeId: Option<string>, modelId: Option<string>, now: int)
    : NamespaceRow
  {
    if key in t.namespaces then
      var row := t.namespaces[key];
      NamespaceRow(model, Coalesce(storeId, row.storeId), Coalesce(modelId, row.modelId), row.createdAt, now)
    else
      NamespaceRow(model, storeId, modelId, now, now)
  }

  /** Drop the namespace's index rows that are not among `names`. */
  function PruneTypes(
    types: map<TypeKey, string>, tenant: string, namespace: string, names: seq<string>): map<TypeKey, string> {
    map k | k in types && !(k.tenant == tenant && types[k] == namespace && k.name !in names) :: types[k]
  }

  /** Add an index row for each name that has none in the tenant. */
  function AddTypes(
    types: map<TypeKey, string>, tenant: string, namespace: string, names: seq<string>): map<TypeKey, string> {
    types + map n | n in names && TypeKey(tenant, n) !in types :: TypeKey(tenant, n) := namespace
  }

  /** The transaction's effect; `None` when it is refused for a type conflict. */
  function Upsert(
    t: Tables, tenant: string, namespace: string, model: Value,
    storeId: Option<string>, modelId: Option<string>, now: int)
    : Option<Tables>
  {
    var names := RelationBearingTypes(model);
    if Conflicts(t, tenant, namespace, names) != {} then None
    else
      var key := NamespaceKey(tenant, namespace);
      Some(Tables(t.namespaces[key := UpsertedRow(t, key, model, storeId, modelId, now)],
                  AddTypes(PruneTypes(t.types, tenant, namespace, names), tenant, namespace, names)))
  }

  /** Deleting a namespace cascades to its index rows. */
  function Delete(t: Tables, tenant: string, namespace: string): Tables {
    Tables(t.namespaces - {NamespaceKey(tenant, namespace)},
           map k | k in t.types && !(k.tenant == tenant && t.types[k] == namespace) :: t.types[k])
  }

  /** Resolve a type to a namespace: by the index, else by the type's own name. */
  function GetByType(t: Tables, tenant: string, name: string): Option<string> {
    var key := TypeKey(tenant, name);
    if key in t.types && NamespaceKey(tenant, t.types[key]) in t.namespaces then Some(t.types[key])
    else if NamespaceKey(tenant, name) in t.namespaces then Some(name)
    else None
  }

  /** The types a namespace row reports: its rows of the index. */
  function IndexedTypes(t: Tables, tenant: string, namespace: string): set<string> {
    set k | k in t.types && k.tenant == tenant && t.types[k] == namespace :: k.name
  }

  /* ---- The index agrees with the models ---- */

  /** The namespace exists and its stored model bears the type. */
  ghost predicate Owns(t: Tables, tenant: string, namespace: string, name: string) {
    var key := NamespaceKey(tenant, namespace);
    key in t.namespaces && Bears(t.namespaces[key].model, name)
  }

  ghost predicate IndexAgrees(t: Tables) {
    forall tenant, namespace, name ::
      Owns(t, tenant, namespace, name) <==>
      TypeKey(tenant, name) in t.types && t.types[TypeKey(tenant, name)] == namespace
  }

  /** An upsert is refused exactly when another namespace's current model bears one of the types. */
  lemma RefusedIffOwnedElsewhere(
    t: Tables, tenant: string, namespace: string, model: Value,
    storeId: Option<string>, modelId: Option<string>, now: int)
    requires IndexAgrees(t)
    ensures Upsert(t, tenant, namespace, model, storeId, modelId, now).None? <==>
            exists other, name :: other != namespace && Bears(model, name) && Owns(t, tenant, other, name)
  {
    var names := RelationBearingTypes(model);
    var conflicts := Conflicts(t, tenant, namespace, names);
    if conflicts != {} {
      var name :| name in conflicts;
      TypesAreExact(model, name);
      assert Owns(t, tenant, t.types[TypeKey(tenant, name)], name);
    }
    if other, name :| other != namespace && Bears(model, name) && Owns(t, tenant, other, name) {
      TypesAreExact(model, name);
      assert TypeKey(tenant, name) in t.types;
      assert name in conflicts;
    }
  }

  /** After an accepted upsert, a type of the tenant is indexed by its namespace exactly if the model bears it. */
  lemma UpsertedTypes(t: Tables, tenant: string, namespace: string, names: seq<string>, k: TypeKey)
    requires Conflicts(t, tenant, namespace, names) == {}
    ensures var types := AddTypes(PruneTypes(t.types, tenant, namespace, names), tenant, namespace, names);
            if k.tenant == tenant && k.name in names then k in types && types[k] == namespace
            else if k in t.types && !(k.tenant == tenant && t.types[k] == namespace)
            then k in types && types[k] == t.types[k]
            else k !in types
  {
    if k.tenant == tenant && k.name in names {
      assert k in t.types && t.types[k] != namespace ==> k.name in Conflicts(t, tenant, namespace, names);
      assert k == TypeKey(tenant, k.name);
    }
  }

  /** Whether a namespace owns a type after an accepted upsert, told from before. */
  lemma UpsertedOwners(
    t: Tables, tenant: string, namespace: string, row: NamespaceRow, tn: string, ns: string, name: string)
    ensures var t' := t.(namespaces := t.namespaces[NamespaceKey(tenant, namespace) := row]);
            Owns(t', tn, ns, name) <==>
            if tn == tenant && ns == namespace then Bears(row.model, name) else Owns(t, tn, ns, name)
  {
  }

  lemma UpsertKeepsIndex(
    t: Tables, tenant: string, namespace: string, model: Value,
    storeId: Option<string>, modelId: Option<string>, now: int)
    requires IndexAgrees(t) && Upsert(t, tenant, namespace, model, storeId, modelId, now).Some?
    ensures IndexAgrees(Upsert(t, tenant, namespace, model, storeId, modelId, now).value)
  {
    var names := RelationBearingTypes(model);
    var row := UpsertedRow(t, NamespaceKey(tenant, namespace), model, storeId, modelId, now);
    var t' := Upsert(t, tenant, namespace, model, storeId, modelId, now).value;
    assert row.model == model;
    forall tn, ns, name
      ensures Owns(t', tn, ns, name) <==> TypeKey(tn, name) in t'.types && t'.types[TypeKey(tn, name)] == ns
    {
      var k := TypeKey(tn, name);
      TypesAreExact(model, name);
      UpsertedTypes(t, tenant, namespace, names, k);
      UpsertedOwners(t, tenant, namespace, row, tn, ns, name);
      assert Owns(t, tn, ns, name) <==> k in t.types && t.types[k] == ns;
    }
  }

  lemma DeleteKeepsIndex(t: Tables, tenant: string, namespace: string)
    requires IndexAgrees(t)
    ensures IndexAgrees(Delete(t, tenant, namespace))
  {
    var t' := Delete(t, tenant, namespace);
    forall tn, ns, name
      ensures Owns(t', tn, ns, name) <==> TypeKey(tn, name) in t'.types && t'.types[TypeKey(tn, name)] == ns
    {
      var k := TypeKey(tn, name);
      assert Owns(t, tn, ns, name) <==> k in t.types && t.types[k] == ns;
    }
  }

  /** No type has two owners in a tenant. */
  lemma OneOwner(t: Tables, tenant: string, a: string, b: string, name: string)
    requires IndexAgrees(t) && Owns(t, tenant, a, name) && Owns(t, tenant, b, name)
    ensures a == b
  {
  }

  /**
    Resolving a type through the index is the same as scanning the stored models
    for the one that bears it, with the namespace of that name as the fallback.
   */
  lemma GetByTypeScansModels(t: Tables, tenant: string, name: string)
    requires IndexAgrees(t)
    ensures forall namespace | Owns(t, tenant, namespace, name) :: GetByType(t, tenant, name) == Some(namespace)
    ensures (forall namespace :: !Owns(t, tenant, namespace, name)) ==>
              GetByType(t, tenant, name) == if NamespaceKey(tenant, name) in t.namespaces then Some(name) else None
  {
    var key := TypeKey(tenant, name);
    if key in t.types {
      assert Owns(t, tenant, t.types[key], name);
    }
  }

  /* ---- Whole runs ---- */

  datatype Event =
    | DoUpsert(tenant: string, namespace: string, model: Value,
               storeId: Option<string>, modelId: Option<string>, now: int)
    | DoDelete(tenant: string, namespace: string)

  function Step(t: Tables, e: Event): Tables {
    match e
    case DoUpsert(tenant, namespace, model, storeId, modelId, now) =>
      var t' := Upsert(t, tenant, namespace, model, storeId, modelId, now);
      if t'.Some? then t'.value else t
    case DoDelete(tenant, namespace) => Delete(t, tenant, namespace)
  }

  function Run(t: Tables, es: seq<Event>): Tables
    decreases es
  {
    if es == [] then t else Run(Step(t, es[0]), es[1..])
  }

  const EMPTY := Tables(map[], map[])

  lemma {:induction false} RunKeepsIndex(t: Tables, es: seq<Event>)
    requires IndexAgrees(t)
    ensures IndexAgrees(Run(t, es))
    decreases es
  {
    if es != [] {
      match es[0] {
        case DoUpsert(tenant, namespace, model, storeId, modelId, now) =>
          if Upsert(t, tenant, namespace, model, storeId, modelId, now).Some? {
            UpsertKeepsIndex(t, tenant, namespace, model, storeId, modelId, now);
          }
        case DoDelete(tenant, namespace) => DeleteKeepsIndex(t, tenant, namespace);
      }
      RunKeepsIndex(Step(t, es[0]), es[1..]);
    }
  }

  /**
    After any run of upserts and deletes from empty tables, a namespace's index
    rows are exactly the relation-bearing types of its current model, no type
    has two owners in a tenant, and resolving by type is a scan of the models
    with the namespace of that name as the fallback.
   */
  lemma EveryRunIndexesTheModels(es: seq<Event>, tenant: string, name: string)
    ensures var t := Run(EMPTY, es);
            && (forall namespace :: name in IndexedTypes(t, tenant, namespace) <==> Owns(t, tenant, namespace, name))
            && (forall a, b | Owns(t, tenant, a, name) && Owns(t, tenant, b, name) :: a == b)
            && (forall namespace | Owns(t, tenant, namespace, name) :: GetByType(t, tenant, name) == Some(namespace))
            && ((forall namespace :: !Owns(t, tenant, namespace, name)) ==>
                  GetByType(t, tenant, name) == if NamespaceKey(tenant, name) in t.namespaces then Some(name) else None)
  {
    RunKeepsIndex(EMPTY, es);
    var t := Run(EMPTY, es);
    GetByTypeScansModels(t, tenant, name);
    forall namespace ensures name in IndexedTypes(t, tenant, namespace) <==> Owns(t, tenant, namespace, name) {
      var key := TypeKey(tenant, name);
      assert Owns(t, tenant, namespace, name) <==> key in t.types && t.types[key] == namespace;
    }
    forall a, b | Owns(t, tenant, a, name) && Owns(t, tenant, b, name) ensures a == b {
      OneOwner(t, tenant, a, b, name);
    }
  }

  /* ---- What an upsert leaves in its row ---- */

  /** The row gets the model; an id that is given replaces the old one, an absent one keeps it; all other rows stay. */
  lemma UpsertedRowMeans(
    t: Tables, tenant: string, namespace: string, model: Value,
    storeId: Option<string>, modelId: Option<string>, now: int, other: NamespaceKey)
    requires Upsert(t, tenant, namespace, model, storeId, modelId, now).Some?
    ensures var t' := Upsert(t, tenant, namespace, model, storeId, modelId, now).value;
            var key := NamespaceKey(tenant, namespace);
            && key in t'.namespaces
            && var row := t'.namespaces[key];
            && row.model == model && row.updatedAt == now
            && (storeId.Some? ==> row.storeId == storeId) && (modelId.Some? ==> row.modelId == modelId)
            && (key in t.namespaces ==>
                  && row.createdAt == t.namespaces[key].createdAt
                  && (storeId.None? ==> row.storeId == t.namespaces[key].storeId)
                  && (modelId.None? ==> row.modelId == t.namespaces[key].modelId))
            && (key !in t.namespaces ==>
                  row.createdAt == now && row.storeId == storeId && row.modelId == modelId)
            && (other != key ==>
                  && (other in t'.namespaces <==> other in t.namespaces)
                  && (other in t.namespaces ==> t'.namespaces[other] == t.namespaces[other]))
  {
  }

  /** A delete drops its own row only. */
  lemma DeleteMeans(t: Tables, tenant: string, namespace: string, other: NamespaceKey)
    ensures var t' := Delete(t, tenant, namespace);
            && NamespaceKey(tenant, namespace) !in t'.namespaces
            && (other != NamespaceKey(tenant, namespace) ==>
                  && (other in t'.namespaces <==> other in t.namespaces)
                  && (other in t.namespaces ==> t'.namespaces[other] == t.namespaces[other]))
  {
  }

  /** The event neither deletes the namespace nor gives it a store id. */
  predicate KeepsStoreId(e: Event, key: NamespaceKey) {
    NamespaceKey(e.tenant, e.namespace) == key ==> e.DoUpsert? && e.storeId.None?
  }

  /** The event neither deletes the namespace nor gives it a model id. */
  predicate KeepsModelId(e: Event, key: NamespaceKey) {
    NamespaceKey(e.tenant, e.namespace) == key ==> e.DoUpsert? && e.modelId.None?
  }

  lemma StepKeepsIds(t: Tables, e: Event, key: NamespaceKey)
    requires key in t.namespaces
    ensures KeepsStoreId(e, key) ==>
              key in Step(t, e).namespaces && Step(t, e).namespaces[key].storeId == t.namespaces[key].storeId
    ensures KeepsModelId(e, key) ==>
              key in Step(t, e).namespaces && Step(t, e).namespaces[key].modelId == t.namespaces[key].modelId
  {
    match e
    case DoUpsert(tenant, namespace, model, storeId, modelId, now) =>
      if Upsert(t, tenant, namespace, model, storeId, modelId, now).Some? {
        UpsertedRowMeans(t, tenant, namespace, model, storeId, modelId, now, key);
      }
    case DoDelete(tenant, namespace) => DeleteMeans(t, tenant, namespace, key);
  }

  /** Over any run, a namespace's store id is the last one given to it, and so is its model id. */
  lemma {:induction false} IdsAreTheLastGiven(t: Tables, es: seq<Event>, key: NamespaceKey)
    requires key in t.namespaces
    ensures (forall i | 0 <= i < |es| :: KeepsStoreId(es[i], key)) ==>
              key in Run(t, es).namespaces && Run(t, es).namespaces[key].storeId == t.namespaces[key].storeId
    ensures (forall i | 0 <= i < |es| :: KeepsModelId(es[i], key)) ==>
              key in Run(t, es).namespaces && Run(t, es).namespaces[key].modelId == t.namespaces[key].modelId
    decreases es
  {
    if es != [] {
      StepKeepsIds(t, es[0], key);
      if key in Step(t, es[0]).namespaces {
        IdsAreTheLastGiven(Step(t, es[0]), es[1..], key);
      }
    }
  }

  /** After an accepted upsert that gives ids, and any run that gives none, the row still has them. */
  lemma GivenIdsSurvive(t: Tables, e: Event, es: seq<Event>)
    requires e.DoUpsert?
    requires Upsert(t, e.tenant, e.namespace, e.model, e.storeId, e.modelId, e.now).Some?
    ensures var key := NamespaceKey(e.tenant, e.namespace);
            var end := Run(Step(t, e), es);
            && (e.storeId.Some? && (forall i | 0 <= i < |es| :: KeepsStoreId(es[i], key)) ==>
                  key in end.namespaces && end.namespaces[key].storeId == e.storeId)
            && (e.modelId.Some? && (forall i | 0 <= i < |es| :: KeepsModelId(es[i], key)) ==>
                  key in end.namespaces && end.namespaces[key].modelId == e.modelId)
  {
    var key := NamespaceKey(e.tenant, e.namespace);
    UpsertedRowMeans(t, e.tenant, e.namespace, e.model, e.storeId, e.modelId, e.now, key);
    IdsAreTheLastGiven(Step(t, e), es, key);
  }

  /* ---- The store ---- */

  class PermissionNamespaceStore {
    var namespaces: map<NamespaceKey, NamespaceRow>
    var types: map<TypeKey, string>

    function View(): Tables reads this {
      Tables(namespaces, types)
    }

    ghost predicate Valid() reads this {
      IndexAgrees(View())
    }

    constructor ()
      ensures Valid() && View() == EMPTY
    {
      namespaces, types := map[], map[];
    }

    /** The statements of the transaction, in order; a conflict rolls back before any write. */
    method UpsertNamespace(
      tenant: string, namespace: string, model: Value, storeId: Option<string>, modelId: Option<string>, now: int)
      returns (res: Result<set<string>, string>)
      requires Valid()
      modifies this
      ensures Valid()
      ensures match Upsert(old(View()), tenant, namespace, model, storeId, modelId, now)
              case Some(t) => View() == t && res == Ok(IndexedTypes(t, tenant, namespace))
              case None =>
                && View() == old(View()) && res.Err?
                && res.error in Conflicts(old(View()), tenant, namespace, RelationBearingTypes(model))
    {
      var names := RelationBearingTypes(model);
      var conflicts := Conflicts(View(), tenant, namespace, names);
      if conflicts != {} {
        var conflict :| conflict in conflicts;
        return Err(conflict);
      }
      UpsertKeepsIndex(View(), tenant, namespace, model, storeId, modelId, now);
      var key := NamespaceKey(tenant, namespace);
      namespaces := namespaces[key := UpsertedRow(View(), key, model, storeId, modelId, now)];
      types := PruneTypes(types, tenant, namespace, names);
      types := AddTypes(types, tenant, namespace, names);
      return Ok(IndexedTypes(View(), tenant, namespace));
    }

    method DeleteNamespace(tenant: string, namespace: string)
      requires Valid()
      modifies this
      ensures Valid() && View() == Delete(old(View()), tenant, namespace)
    {
      DeleteKeepsIndex(View(), tenant, namespace);
      types := map k | k in types && !(k.tenant == tenant && types[k] == namespace) :: types[k];
      namespaces := namespaces - {NamespaceKey(tenant, namespace)};
    }
  }
}
