/**
  The paged lists of agents and of delegation grants. Their query texts carry
  literal placeholder numbers, one set with a cursor and one without; the
  contracts say that both sets fit the values that are bound.
 */
module AgentLists {
  import opened Wrappers
  import opened Text
  import opened Pagination
  import opened ListQueries

  datatype AgentData = AgentData(tenant: string, owner: string, name: string, status: string)

  datatype GrantData = GrantData(tenant: string, agent: string, user: string)

  const AGENT_COLUMNS: seq<string> := [
    "id,", "tenant_id,", "owner_identity_id,", "name,", "status,", "created_at,", "updated_at"]

  const DELEGATION_COLUMNS: seq<string> := [
    "id,", "tenant_id,", "agent_id,", "user_identity_id,", "scopes,", "expires_at,", "revoked_at,", "created_at"]

  function AgentCell(d: AgentData, column: string): string {
    match column
    case "tenant_id" => d.tenant
    case "owner_identity_id" => d.owner
    case "name" => d.name
    case _ => d.status
  }

  function GrantCell(d: GrantData, column: string): string {
    match column
    case "tenant_id" => d.tenant
    case "agent_id" => d.agent
    case _ => d.user
  }

  function Agents(rows: seq<Row<AgentData>>): Source<AgentData> {
    Source("agents", {"tenant_id", "owner_identity_id", "name", "status"}, AgentCell, rows)
  }

  function Grants(rows: seq<Row<GrantData>>): Source<GrantData> {
    Source("agent_delegations", {"tenant_id", "agent_id", "user_identity_id"}, GrantCell, rows)
  }

  /* ---- Literal text ---- */

  lemma SmallPlaceholders()
    ensures Placeholder(1) == "$1" && Placeholder(2) == "$2" && Placeholder(3) == "$3"
    ensures Placeholder(4) == "$4" && Placeholder(5) == "$5"
    ensures ["($2,", "$3)"] == ["(" + Placeholder(2) + ",", Placeholder(3) + ")"]
    ensures ["($3,", "$4)"] == ["(" + Placeholder(3) + ",", Placeholder(4) + ")"]
  {
    assert "($2," == "(" + Placeholder(2) + "," && "$3)" == Placeholder(3) + ")";
    assert "($3," == "(" + Placeholder(3) + "," && "$4)" == Placeholder(4) + ")";
  }

  lemma TwoConditionsText(tenant: string, column: string, value: string)
    ensures Phrase(["tenant_id", "=", "$1", "AND", column, "=", "$2"])
            == Phrase(WhereWords(Numbered([("tenant_id", tenant), (column, value)], 1)))
  {
    SmallPlaceholders();
    var c: seq<Condition> := [("tenant_id", tenant)];
    NumberedAppend(c, (column, value), 1);
    assert c + [(column, value)] == [("tenant_id", tenant), (column, value)];
    assert Numbered(c, 1) == [Equals("tenant_id", 1)];
    WhereWordsAppend([Equals("tenant_id", 1)], Equals(column, 2));
    assert ["tenant_id", "=", "$1", "AND", column, "=", "$2"]
        == ["tenant_id", "=", "$1"] + (["AND"] + [column, "=", "$2"]);
  }

  /* ---- Agents ---- */

  lemma AgentsAreWritable(tenant: string)
    ensures var c: seq<Condition> := [("tenant_id", tenant)];
            Writable(AGENT_COLUMNS, "agents", c) && ColumnsKnown(Agents([]).columns, c)
  {
    forall i | 0 <= i < |AGENT_COLUMNS| ensures Free(AGENT_COLUMNS[i], ' ') && AGENT_COLUMNS[i] != "FROM" {
      assert AGENT_COLUMNS[i][|AGENT_COLUMNS[i]| - 1] != 'M';
    }
  }

  function OwnedBy(tenant: string): AgentData -> bool {
    (d: AgentData) => d.tenant == tenant
  }

  /** One page of a tenant's agents, and how many it has in all. */
  method AgentListPage(rows: seq<Row<AgentData>>, tenant: string, limit: nat, after: Option<Cursor>)
    returns (page: seq<Row<AgentData>>, total: nat)
    ensures page == Page(rows, OwnedBy(tenant), after, limit)
    ensures total == |Select(rows, OwnedBy(tenant), None)|
  {
    ghost var kept := Keep(AgentCell, [("tenant_id", tenant)]);
    forall d ensures kept(d) <==> OwnedBy(tenant)(d) {
      var c: seq<Condition> := [("tenant_id", tenant)];
      assert c[0] == ("tenant_id", tenant);
    }
    SelectSame(rows, kept, OwnedBy(tenant), after);
    SelectSame(rows, kept, OwnedBy(tenant), None);
    total := CountAgents(rows, tenant);
    var query := AgentPageText(tenant, after);
    var binds := [TextValue(tenant)];
    if after.Some? {
      binds := binds + [TimeValue(after.value.createdAt), TextValue(after.value.id)];
    }
    binds := binds + [NumberValue(limit)];
    assert Values([("tenant_id", tenant)]) == [TextValue(tenant)];
    page := FetchAgents(rows, query, binds, tenant, limit, after);
  }

  method FetchAgents(
    rows: seq<Row<AgentData>>, query: string, binds: seq<Bind>,
    ghost tenant: string, ghost limit: nat, ghost after: Option<Cursor>)
    returns (page: seq<Row<AgentData>>)
    requires var c: seq<Condition> := [("tenant_id", tenant)];
             && query == Phrase(StatementWords(AGENT_COLUMNS, PageStatement("agents", c, after)))
             && binds == PageBinds(c, after, limit)
    ensures page == Page(rows, Keep(AgentCell, [("tenant_id", tenant)]), after, limit)
  {
    AgentsAreWritable(tenant);
    PageTextMeans(Agents(rows), AGENT_COLUMNS, [("tenant_id", tenant)], after, limit);
    page := ExecuteText(Agents(rows), query, binds).value.rows;
  }

  method CountAgents(rows: seq<Row<AgentData>>, tenant: string) returns (total: nat)
    ensures total == |Select(rows, Keep(AgentCell, [("tenant_id", tenant)]), None)|
  {
    ghost var c: seq<Condition> := [("tenant_id", tenant)];
    var count := Phrase(HeadWords(["COUNT(*)"], "agents")) + " " + Phrase(["tenant_id", "=", "$1"]);
    TenantText(tenant);
    NumberedColumns(c, 1);
    AssembledText(["COUNT(*)"], CountStatement("agents", c));
    AgentsAreWritable(tenant);
    CountTextMeans(Agents(rows), AGENT_COLUMNS, c);
    assert Values(c) == [TextValue(tenant)];
    total := ExecuteText(Agents(rows), count, [TextValue(tenant)]).value.count;
  }

  method AgentPageText(ghost tenant: string, after: Option<Cursor>) returns (query: string)
    ensures query == Phrase(StatementWords(AGENT_COLUMNS, PageStatement("agents", [("tenant_id", tenant)], after)))
  {
    SmallPlaceholders();
    TenantText(tenant);
    var filters := Phrase(["tenant_id", "=", "$1"]);
    var cursor := if after.Some? then Some(["($2,", "$3)"]) else None;
    var limit := if after.Some? then "$4" else "$2";
    query := Paged(AGENT_COLUMNS, "agents", filters, cursor, limit);
    PagedText(AGENT_COLUMNS, "agents", [("tenant_id", tenant)], after, filters, cursor, limit);
  }

  /* ---- Grants, by agent or by user ---- */

  ghost predicate Listable(column: string) {
    column == "agent_id" || column == "user_identity_id"
  }

  function GrantConditions(tenant: string, column: string, value: string): seq<Condition> {
    [("tenant_id", tenant), (column, value)]
  }

  /** The tenant's grants of one agent, or for one user. */
  function Concerning(tenant: string, column: string, value: string): GrantData -> bool {
    (d: GrantData) => d.tenant == tenant && (if column == "agent_id" then d.agent == value else d.user == value)
  }

  lemma GrantConditionsMean(tenant: string, column: string, value: string, d: GrantData)
    requires Listable(column)
    ensures Meets(GrantCell, GrantConditions(tenant, column, value), d) <==> Concerning(tenant, column, value)(d)
  {
    var c := GrantConditions(tenant, column, value);
    assert c[0] == ("tenant_id", tenant) && c[1] == (column, value);
  }

  lemma GrantsAreWritable(tenant: string, column: string, value: string)
    requires Listable(column)
    ensures Writable(DELEGATION_COLUMNS, "agent_delegations", GrantConditions(tenant, column, value))
    ensures ColumnsKnown(Grants([]).columns, GrantConditions(tenant, column, value))
  {
    forall i | 0 <= i < |DELEGATION_COLUMNS|
      ensures Free(DELEGATION_COLUMNS[i], ' ') && DELEGATION_COLUMNS[i] != "FROM"
    {
      assert DELEGATION_COLUMNS[i][|DELEGATION_COLUMNS[i]| - 1] != 'M';
    }
  }

  /** One page of a tenant's grants with a given agent or user, and their number. */
  method GrantListPage(
    rows: seq<Row<GrantData>>, tenant: string, column: string, value: string, limit: nat, after: Option<Cursor>)
    returns (page: seq<Row<GrantData>>, total: nat)
    requires Listable(column)
    ensures page == Page(rows, Concerning(tenant, column, value), after, limit)
    ensures total == |Select(rows, Concerning(tenant, column, value), None)|
  {
    ghost var kept := Keep(GrantCell, GrantConditions(tenant, column, value));
    forall d ensures kept(d) <==> Concerning(tenant, column, value)(d) {
      GrantConditionsMean(tenant, column, value, d);
    }
    SelectSame(rows, kept, Concerning(tenant, column, value), after);
    SelectSame(rows, kept, Concerning(tenant, column, value), None);
    total := CountGrants(rows, tenant, column, value);
    var query := GrantPageText(tenant, column, value, after);
    var binds := [TextValue(tenant), TextValue(value)];
    if after.Some? {
      binds := binds + [TimeValue(after.value.createdAt), TextValue(after.value.id)];
    }
    binds := binds + [NumberValue(limit)];
    GrantValues(tenant, column, value);
    page := FetchGrants(rows, query, binds, tenant, column, value, limit, after);
  }

  method FetchGrants(
    rows: seq<Row<GrantData>>, query: string, binds: seq<Bind>,
    ghost tenant: string, ghost column: string, ghost value: string, ghost limit: nat, ghost after: Option<Cursor>)
    returns (page: seq<Row<GrantData>>)
    requires Listable(column)
    requires var c := GrantConditions(tenant, column, value);
             && query == Phrase(StatementWords(DELEGATION_COLUMNS, PageStatement("agent_delegations", c, after)))
             && binds == PageBinds(c, after, limit)
    ensures page == Page(rows, Keep(GrantCell, GrantConditions(tenant, column, value)), after, limit)
  {
    GrantsAreWritable(tenant, column, value);
    PageTextMeans(Grants(rows), DELEGATION_COLUMNS, GrantConditions(tenant, column, value), after, limit);
    page := ExecuteText(Grants(rows), query, binds).value.rows;
  }

  lemma GrantValues(tenant: string, column: string, value: string)
    ensures Values(GrantConditions(tenant, column, value)) == [TextValue(tenant), TextValue(value)]
  {
    assert GrantConditions(tenant, column, value)[1..] == [(column, value)];
    assert Values([(column, value)]) == [TextValue(value)];
  }

  method CountGrants(rows: seq<Row<GrantData>>, tenant: string, column: string, value: string) returns (total: nat)
    requires Listable(column)
    ensures total == |Select(rows, Keep(GrantCell, GrantConditions(tenant, column, value)), None)|
  {
    ghost var c := GrantConditions(tenant, column, value);
    var count := Phrase(HeadWords(["COUNT(*)"], "agent_delegations")) + " "
    + Phrase(["tenant_id", "=", "$1", "AND", column, "=", "$2"]);
    TwoConditionsText(tenant, column, value);
    NumberedColumns(c, 1);
    AssembledText(["COUNT(*)"], CountStatement("agent_delegations", c));
    GrantsAreWritable(tenant, column, value);
    CountTextMeans(Grants(rows), DELEGATION_COLUMNS, c);
    GrantValues(tenant, column, value);
    total := ExecuteText(Grants(rows), count, [TextValue(tenant), TextValue(value)]).value.count;
  }

  method GrantPageText(
    ghost tenant: string, column: string, ghost value: string, after: Option<Cursor>) returns (query: string)
    ensures query == Phrase(StatementWords(DELEGATION_COLUMNS,
                            PageStatement("agent_delegations", GrantConditions(tenant, column, value), after)))
  {
    SmallPlaceholders();
    TwoConditionsText(tenant, column, value);
    var filters := Phrase(["tenant_id", "=", "$1", "AND", column, "=", "$2"]);
    var cursor := if after.Some? then Some(["($3,", "$4)"]) else None;
    var limit := if after.Some? then "$5" else "$3";
    query := Paged(DELEGATION_COLUMNS, "agent_delegations", filters, cursor, limit);
    ghost var conditions := GrantConditions(tenant, column, value);
    PagedText(DELEGATION_COLUMNS, "agent_delegations", conditions, after, filters, cursor, limit);
  }
}
