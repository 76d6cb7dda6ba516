/**
  The permission-tuple table and its list query. The query text is built as the
  store builds it: conditions appended one by one with a running placeholder
  number, then values bound in the same order.
 */
module PermissionTuples {
  import opened Wrappers
  import opened Text
  import opened Pagination
  import opened ListQueries

  datatype TupleData = TupleData(tenant: string, namespace: string, object_: string, relation: string, subject: string)

  type TupleRow = Row<TupleData>

  datatype Filter = Filter(tenant: string, namespace: Option<string>, object_: Option<string>, relation: Option<string>)

  predicate Agrees(wanted: Option<string>, actual: string) {
    wanted.None? || wanted.value == actual
  }

  /** The filter read directly: an absent field asks for nothing. */
  predicate Matches(f: Filter, d: TupleData) {
    && f.tenant == d.tenant && Agrees(f.namespace, d.namespace)
    && Agrees(f.object_, d.object_) && Agrees(f.relation, d.relation)
  }

  function Wanted(f: Filter): TupleData -> bool {
    (d: TupleData) => Matches(f, d)
  }

  /* ---- The table for the engine ---- */

  const TABLE := "permission_tuples"

  const SELECTED: seq<string> := [
    "id,", "tenant_id,", "namespace,", "object,", "relation,", "subject_id,", "created_at"]

  const TEXT_COLUMNS: set<string> := {"tenant_id", "namespace", "object", "relation", "subject_id"}

  function Cell(d: TupleData, column: string): string {
    match column
    case "tenant_id" => d.tenant
    case "namespace" => d.namespace
    case "object" => d.object_
    case "relation" => d.relation
    case _ => d.subject
  }

  function Tuples(rows: seq<TupleRow>): Source<TupleData> {
    Source(TABLE, TEXT_COLUMNS, Cell, rows)
  }

  /* ---- The filter as conditions ---- */

  function Optional(column: string, wanted: Option<string>): seq<Condition> {
    if wanted.Some? then [(column, wanted.value)] else []
  }

  function Conditions(f: Filter): seq<Condition> {
    [("tenant_id", f.tenant)] + Optional("namespace", f.namespace) + Optional("object", f.object_)
    + Optional("relation", f.relation)
  }

  lemma MeetsConcat(a: seq<Condition>, b: seq<Condition>, d: TupleData)
    ensures Meets(Cell, a + b, d) <==> Meets(Cell, a, d) && Meets(Cell, b, d)
  {
    var c := a + b;
    if Meets(Cell, c, d) {
      assert forall i | 0 <= i < |a| :: c[i] == a[i];
      assert forall i | 0 <= i < |b| :: c[|a| + i] == b[i];
    }
  }

  lemma MeetsOptional(column: string, wanted: Option<string>, d: TupleData)
    ensures Meets(Cell, Optional(column, wanted), d) <==> Agrees(wanted, Cell(d, column))
  {
    if wanted.Some? {
      assert Optional(column, wanted)[0] == (column, wanted.value);
    }
  }

  lemma ConditionsAreFilter(f: Filter, d: TupleData)
    ensures Meets(Cell, Conditions(f), d) <==> Matches(f, d)
  {
    var c0 := [("tenant_id", f.tenant)];
    var c1, c2 := Optional("namespace", f.namespace), Optional("object", f.object_);
    var c3 := Optional("relation", f.relation);
    assert c0 == Optional("tenant_id", Some(f.tenant));
    MeetsOptional("tenant_id", Some(f.tenant), d);
    MeetsOptional("namespace", f.namespace, d);
    MeetsOptional("object", f.object_, d);
    MeetsOptional("relation", f.relation, d);
    MeetsConcat(c0, c1, d);
    MeetsConcat(c0 + c1, c2, d);
    MeetsConcat(c0 + c1 + c2, c3, d);
  }

  /* ---- The query text ---- */

  function FilterText(f: Filter): string {
    Phrase(WhereWords(Numbered(Conditions(f), 1)))
  }

  function PageText(f: Filter, after: Option<Cursor>): string {
    Phrase(StatementWords(SELECTED, PageStatement(TABLE, Conditions(f), after)))
  }

  function CountText(f: Filter): string {
    Phrase(StatementWords(["COUNT(*)"], CountStatement(TABLE, Conditions(f))))
  }

  lemma ConditionsAreWritable(f: Filter)
    ensures Writable(SELECTED, TABLE, Conditions(f)) && ColumnsKnown(TEXT_COLUMNS, Conditions(f))
  {
    assert Conditions(f)[0] == ("tenant_id", f.tenant);
    forall i | 0 <= i < |SELECTED| ensures Free(SELECTED[i], ' ') && SELECTED[i] != "FROM" {
      assert SELECTED[i][|SELECTED[i]| - 1] != 'M';
    }
    forall i | 0 <= i < |Conditions(f)|
      ensures Free(Conditions(f)[i].0, ' ') && Conditions(f)[i].0 in TEXT_COLUMNS
    {
      assert Conditions(f)[i].0 in ["tenant_id", "namespace", "object", "relation"];
    }
  }

  /**
    For every combination of optional filters and cursor, over every table, the
    built text with its values in bind order returns exactly the page that the
    plain filter describes.
   */
  lemma PageQueryMeansFilter(rows: seq<TupleRow>, f: Filter, after: Option<Cursor>, limit: nat)
    ensures ExecuteText(Tuples(rows), PageText(f, after), PageBinds(Conditions(f), after, limit))
            == Some(Rows(Page(rows, Wanted(f), after, limit)))
  {
    ConditionsAreWritable(f);
    PageTextMeans(Tuples(rows), SELECTED, Conditions(f), after, limit);
    forall d ensures Keep(Cell, Conditions(f))(d) <==> Wanted(f)(d) {
      ConditionsAreFilter(f, d);
    }
    SelectSame(rows, Keep(Cell, Conditions(f)), Wanted(f), after);
  }

  /** The count query counts the matching rows of the whole table, whatever the cursor. */
  lemma CountQueryMeansFilter(rows: seq<TupleRow>, f: Filter)
    ensures ExecuteText(Tuples(rows), CountText(f), Values(Conditions(f)))
            == Some(Number(|Select(rows, Wanted(f), None)|))
  {
    ConditionsAreWritable(f);
    CountTextMeans(Tuples(rows), SELECTED, Conditions(f));
    forall d ensures Keep(Cell, Conditions(f))(d) <==> Wanted(f)(d) {
      ConditionsAreFilter(f, d);
    }
    SelectSame(rows, Keep(Cell, Conditions(f)), Wanted(f), None);
  }

  lemma CountTextAssembles(f: Filter)
    ensures CountText(f) == Phrase(HeadWords(["COUNT(*)"], TABLE)) + " " + FilterText(f)
  {
    NumberedColumns(Conditions(f), 1);
    AssembledText(["COUNT(*)"], CountStatement(TABLE, Conditions(f)));
  }

  /* ---- The store ---- */

  /** Rows for freshly drawn ids, all created at one moment. */
  function Fresh(ids: seq<string>, now: int, data: seq<TupleData>): seq<TupleRow>
    requires |ids| == |data|
  {
    seq(|ids|, i requires 0 <= i < |ids| => Row(Cursor(now, ids[i]), data[i]))
  }

  /** What a deletion keeps. */
  function Except(gone: TupleData -> bool): TupleData -> bool {
    (d: TupleData) => !gone(d)
  }

  lemma {:induction false} DeletionConserves(rows: seq<TupleRow>, gone: TupleData -> bool)
    ensures |Select(rows, gone, None)| + |Select(rows, Except(gone), None)| == |rows|
    ensures multiset(Select(rows, gone, None)) + multiset(Select(rows, Except(gone), None)) == multiset(rows)
    decreases rows
  {
    if rows != [] {
      DeletionConserves(rows[1..], gone);
      assert rows == [rows[0]] + rows[1..];
    }
  }

  class PermissionTupleStore {
    var rows: seq<TupleRow>

    ghost predicate Valid() reads this {
      Keyed(rows)
    }

    constructor ()
      ensures Valid() && rows == []
    {
      rows := [];
    }

    /** Inserts one row per key, with fresh distinct ids; the table assigns the creation time. */
    method CreateMany(ids: seq<string>, now: int, data: seq<TupleData>)
      requires Valid() && |ids| == |data|
      requires forall i, j | 0 <= i < j < |ids| :: ids[i] != ids[j]
      requires forall i, j | 0 <= i < |rows| && 0 <= j < |ids| :: rows[i].key.id != ids[j]
      modifies this
      ensures Valid() && |rows| == |old(rows)| + |data| && old(rows) <= rows
      ensures forall i | 0 <= i < |data| :: rows[|old(rows)| + i] == Row(Cursor(now, ids[i]), data[i])
    {
      if data == [] {
        assert Fresh(ids, now, data) == [];
        return;
      }
      rows := rows + Fresh(ids, now, data);
    }

    /** Removes every row with exactly this key; ids and creation times do not matter. */
    method DeleteByKey(key: TupleData) returns (affected: nat)
      requires Valid()
      modifies this
      ensures Valid() && rows == Select(old(rows), Except((d: TupleData) => d == key), None)
      ensures affected == |Select(old(rows), (d: TupleData) => d == key, None)| == |old(rows)| - |rows|
    {
      var gone := (d: TupleData) => d == key;
      SelectKeyed(rows, Except(gone), None);
      DeletionConserves(rows, gone);
      affected := |Select(rows, gone, None)|;
      rows := Select(rows, Except(gone), None);
    }

    method DeleteByNamespace(tenant: string, namespace: string) returns (affected: nat)
      requires Valid()
      modifies this
      ensures var f := Filter(tenant, Some(namespace), None, None);
              && Valid() && rows == Select(old(rows), Except(Wanted(f)), None)
              && affected == |Select(old(rows), Wanted(f), None)| == |old(rows)| - |rows|
    {
      var gone := Wanted(Filter(tenant, Some(namespace), None, None));
      SelectKeyed(rows, Except(gone), None);
      DeletionConserves(rows, gone);
      affected := |Select(rows, gone, None)|;
      rows := Select(rows, Except(gone), None);
    }

    method ListPage(
      tenant: string, namespace: Option<string>, object_: Option<string>, relation: Option<string>,
      limit: nat, after: Option<Cursor>) returns (page: seq<TupleRow>, total: nat)
      ensures page == Page(rows, Wanted(Filter(tenant, namespace, object_, relation)), after, limit)
      ensures total == |Select(rows, Wanted(Filter(tenant, namespace, object_, relation)), None)|
    {
      ghost var f := Filter(tenant, namespace, object_, relation);
      var filters, paramIdx := FilterConditions(tenant, namespace, object_, relation);
      var binds := BindFilter(tenant, namespace, object_, relation);

      total := Count(f, filters, binds);
      var query := PageQuery(f, filters, paramIdx, after);
      if after.Some? {
        binds := binds + [TimeValue(after.value.createdAt), TextValue(after.value.id)];
      }
      binds := binds + [NumberValue(limit)];
      page := Fetch(f, after, limit, query, binds);
    }

    method Count(ghost f: Filter, filters: string, binds: seq<Bind>) returns (total: nat)
      requires filters == FilterText(f) && binds == Values(Conditions(f))
      ensures total == |Select(rows, Wanted(f), None)|
    {
      var countQuery := Phrase(HeadWords(["COUNT(*)"], TABLE)) + " " + filters;
      CountTextAssembles(f);
      CountQueryMeansFilter(rows, f);
      total := ExecuteText(Tuples(rows), countQuery, binds).value.count;
    }

    method Fetch(ghost f: Filter, ghost after: Option<Cursor>, ghost limit: nat, query: string, binds: seq<Bind>)
      returns (page: seq<TupleRow>)
      requires query == PageText(f, after) && binds == PageBinds(Conditions(f), after, limit)
      ensures page == Page(rows, Wanted(f), after, limit)
    {
      PageQueryMeansFilter(rows, f, after, limit);
      page := ExecuteText(Tuples(rows), query, binds).value.rows;
    }

    /** The page query's text, from the conditions' text and the next free placeholder number. */
    method PageQuery(ghost f: Filter, filters: string, next: nat, after: Option<Cursor>) returns (query: string)
      requires filters == FilterText(f) && next == |Conditions(f)| + 1
      ensures query == PageText(f, after)
    {
      var paramIdx := next;
      var cursor := None;
      query := Phrase(HeadWords(SELECTED, TABLE)) + " " + filters;
      if after.Some? {
        cursor := Some(["(" + Placeholder(paramIdx) + ",", Placeholder(paramIdx + 1) + ")"]);
        query := query + " " + Phrase(["AND", "(created_at,", "id)", "<"] + cursor.value);
        paramIdx := paramIdx + 2;
      }
      query := query + " " + Phrase(
        ["ORDER", "BY", "created_at", "DESC,", "id", "DESC", "LIMIT", Placeholder(paramIdx)]);
      PagedText(SELECTED, TABLE, Conditions(f), after, filters, cursor, Placeholder(paramIdx));
    }

    /** The conditions' text, and the next free placeholder number. */
    method FilterConditions(
      tenant: string, namespace: Option<string>, object_: Option<string>, relation: Option<string>)
      returns (filters: string, paramIdx: nat)
      ensures var f := Filter(tenant, namespace, object_, relation);
              filters == FilterText(f) && paramIdx == |Conditions(f)| + 1
    {
      ghost var c := [("tenant_id", tenant)];
      filters := Phrase(["tenant_id", "=", "$1"]);
      paramIdx := 2;
      TenantText(tenant);
      if namespace.Some? {
        filters := filters + " " + Phrase(["AND", "namespace", "=", Placeholder(paramIdx)]);
        AppendCondition(c, ("namespace", namespace.value));
        c := c + [("namespace", namespace.value)];
        paramIdx := paramIdx + 1;
      }
      if object_.Some? {
        filters := filters + " " + Phrase(["AND", "object", "=", Placeholder(paramIdx)]);
        AppendCondition(c, ("object", object_.value));
        c := c + [("object", object_.value)];
        paramIdx := paramIdx + 1;
      }
      if relation.Some? {
        filters := filters + " " + Phrase(["AND", "relation", "=", Placeholder(paramIdx)]);
        AppendCondition(c, ("relation", relation.value));
        c := c + [("relation", relation.value)];
        paramIdx := paramIdx + 1;
      }
      assert c == Conditions(Filter(tenant, namespace, object_, relation));
    }

    method BindFilter(tenant: string, namespace: Option<string>, object_: Option<string>, relation: Option<string>)
      returns (binds: seq<Bind>)
      ensures binds == Values(Conditions(Filter(tenant, namespace, object_, relation)))
    {
      ghost var c := [("tenant_id", tenant)];
      binds := [TextValue(tenant)];
      assert Values(c) == binds;
      if namespace.Some? {
        binds := binds + [TextValue(namespace.value)];
        NumberedAppend(c, ("namespace", namespace.value), 1);
        c := c + [("namespace", namespace.value)];
      }
      if object_.Some? {
        binds := binds + [TextValue(object_.value)];
        NumberedAppend(c, ("object", object_.value), 1);
        c := c + [("object", object_.value)];
      }
      if relation.Some? {
        binds := binds + [TextValue(relation.value)];
        NumberedAppend(c, ("relation", relation.value), 1);
        c := c + [("relation", relation.value)];
      }
      assert c == Conditions(Filter(tenant, namespace, object_, relation));
    }
  }

  /** One more condition takes the next placeholder number. */
  lemma AppendCondition(conditions: seq<Condition>, c: Condition)
    requires conditions != []
    ensures Phrase(WhereWords(Numbered(conditions, 1))) + " " + Phrase(["AND", c.0, "=", Placeholder(|conditions| + 1)])
            == Phrase(WhereWords(Numbered(conditions + [c], 1)))
  {
    NumberedColumns(conditions, 1);
    NumberedAppend(conditions, c, 1);
    AppendText(Numbered(conditions, 1), Equals(c.0, |conditions| + 1));
    EqualsWords(c.0, |conditions| + 1);
  }
}
