/**
  List queries as text. The stores assemble the text of a query piece by piece
  with numbered placeholders and bind values in order; here that text is split
  into words, parsed and run by a small engine over a table. One theorem says
  that a query whose placeholders number its conditions in bind order returns
  exactly the page that the plain conditions describe.
 */
module ListQueries {
  import opened Wrappers
  import opened Text
  import opened Pagination

  /* ---- Decimal numbers ---- */

  function Digit(d: nat): char
    requires d < 10
  {
    ('0' as int + d) as char
  }

  function Decimal(n: nat): string {
    if n < 10 then [Digit(n)] else Decimal(n / 10) + [Digit(n % 10)]
  }

  function ParseDecimal(s: string): Option<nat> {
    if s == "" then None
    else
      var c := s[|s| - 1];
      if !('0' <= c <= '9') then None
      else
        var d: nat := c as int - '0' as int;
        if |s| == 1 then Some(d)
        else
          var high := ParseDecimal(s[..|s| - 1]);
          if high.None? then None else Some(10 * high.value + d)
  }

  lemma {:induction false} DecimalRoundTrip(n: nat)
    ensures Decimal(n) != "" && ParseDecimal(Decimal(n)) == Some(n) && Free(Decimal(n), ' ')
    decreases n
  {
    if n >= 10 {
      DecimalRoundTrip(n / 10);
      var s := Decimal(n);
      assert s[..|s| - 1] == Decimal(n / 10);
    }
  }

  /* ---- Statements ---- */

  datatype Clause =
    | Equals(column: string, param: nat)
    | RowBefore(createdParam: nat, idParam: nat)

  /** A selection of rows, newest first and cut at a limit, or their number. */
  datatype Statement = Statement(counts: bool, table: string, clauses: seq<Clause>, limitParam: Option<nat>)

  datatype Bind = TextValue(text: string) | TimeValue(time: int) | NumberValue(number: nat)

  /** A table the engine knows: its name, its text columns and its rows. */
  datatype Source<!T> = Source(name: string, columns: set<string>, cell: (T, string) -> string, rows: seq<Row<T>>)

  datatype Answer<T> = Rows(rows: seq<Row<T>>) | Number(count: nat)

  predicate IsText(binds: seq<Bind>, param: nat) { 1 <= param <= |binds| && binds[param - 1].TextValue? }
  predicate IsTime(binds: seq<Bind>, param: nat) { 1 <= param <= |binds| && binds[param - 1].TimeValue? }
  predicate IsNumber(binds: seq<Bind>, param: nat) { 1 <= param <= |binds| && binds[param - 1].NumberValue? }

  predicate WellBound(clause: Clause, columns: set<string>, binds: seq<Bind>) {
    match clause
    case Equals(column, param) => column in columns && IsText(binds, param)
    case RowBefore(createdParam, idParam) => IsTime(binds, createdParam) && IsText(binds, idParam)
  }

  predicate AllBound(clauses: seq<Clause>, columns: set<string>, binds: seq<Bind>) {
    forall i | 0 <= i < |clauses| :: WellBound(clauses[i], columns, binds)
  }

  predicate Holds<T>(src: Source<T>, row: Row<T>, clause: Clause, binds: seq<Bind>)
    requires WellBound(clause, src.columns, binds)
  {
    match clause
    case Equals(column, param) => src.cell(row.data, column) == binds[param - 1].text
    case RowBefore(createdParam, idParam) =>
      Below(row.key, Cursor(binds[createdParam - 1].time, binds[idParam - 1].text))
  }

  predicate AllHold<T>(src: Source<T>, row: Row<T>, clauses: seq<Clause>, binds: seq<Bind>)
    requires AllBound(clauses, src.columns, binds)
  {
    forall i | 0 <= i < |clauses| :: Holds(src, row, clauses[i], binds)
  }

  function Scan<T>(src: Source<T>, rows: seq<Row<T>>, clauses: seq<Clause>, binds: seq<Bind>): seq<Row<T>>
    requires AllBound(clauses, src.columns, binds)
  {
    if rows == [] then []
    else
      var rest := Scan(src, rows[1..], clauses, binds);
      if AllHold(src, rows[0], clauses, binds) then [rows[0]] + rest else rest
  }

  /** The engine's answer; `None` for an unknown name, an unbound placeholder or a value of the wrong type. */
  function Execute<T>(src: Source<T>, q: Statement, binds: seq<Bind>): Option<Answer<T>> {
    if q.table != src.name || !AllBound(q.clauses, src.columns, binds) then None
    else
      var rows := Scan(src, src.rows, q.clauses, binds);
      if q.counts then (if q.limitParam.None? then Some(Number(|rows|)) else None)
      else if q.limitParam.Some? && IsNumber(binds, q.limitParam.value)
      then Some(Rows(Take(SortDesc(rows), binds[q.limitParam.value - 1].number)))
      else None
  }

  /* ---- Parsing ---- */

  function ParsePlaceholder(word: string): Option<nat> {
    if StartsWith(word, "$") then ParseDecimal(word[1..]) else None
  }

  /** One condition, and the words after it. */
  function ParseClause(words: seq<string>): (r: Option<(Clause, seq<string>)>)
    ensures r.Some? ==> |r.value.1| < |words|
  {
    if |words| >= 3 && words[1] == "=" then
      var p := ParsePlaceholder(words[2]);
      if p.None? then None else Some((Equals(words[0], p.value), words[3..]))
    else if |words| >= 5 && words[..3] == ["(created_at,", "id)", "<"]
            && StartsWith(words[3], "(") && |words[3]| >= 2 && words[4] != "" then
      var p := ParsePlaceholder(words[3][1..|words[3]| - 1]);
      var q := ParsePlaceholder(words[4][..|words[4]| - 1]);
      if p.None? || q.None? then None
      else if words[3][|words[3]| - 1] != ',' || words[4][|words[4]| - 1] != ')' then None
      else Some((RowBefore(p.value, q.value), words[5..]))
    else None
  }

  /** Conditions joined by AND, and the words after them. */
  function ParseWhere(words: seq<string>): Option<(seq<Clause>, seq<string>)>
    decreases |words|
  {
    var first := ParseClause(words);
    if first.None? then None
    else
      var (clause, rest) := first.value;
      if rest != [] && rest[0] == "AND" then
        var more := ParseWhere(rest[1..]);
        if more.None? then None else Some(([clause] + more.value.0, more.value.1))
      else Some(([clause], rest))
  }

  const NEWEST_FIRST: seq<string> := ["ORDER", "BY", "created_at", "DESC,", "id", "DESC", "LIMIT"]

  function IndexOf(words: seq<string>, word: string): nat {
    if words == [] || words[0] == word then 0 else 1 + IndexOf(words[1..], word)
  }

  /** Nothing, or the order and the limit. */
  function ParseTail(tail: seq<string>): Option<Option<nat>> {
    if tail == [] then Some(None)
    else if |tail| == 8 && tail[..7] == NEWEST_FIRST && ParsePlaceholder(tail[7]).Some?
    then Some(ParsePlaceholder(tail[7]))
    else None
  }

  function ParseWords(words: seq<string>): Option<Statement> {
    var at := IndexOf(words, "FROM");
    if !(2 <= at && at + 2 < |words|) || words[0] != "SELECT" || words[at + 2] != "WHERE" then None
    else
      var conditions := ParseWhere(words[at + 3..]);
      if conditions.None? then None
      else
        var limit := ParseTail(conditions.value.1);
        if limit.None? then None
        else Some(Statement(words[1..at] == ["COUNT(*)"], words[at + 1], conditions.value.0, limit.value))
  }

  function ExecuteText<T>(src: Source<T>, text: string, binds: seq<Bind>): Option<Answer<T>> {
    var q := ParseWords(Split(text, ' '));
    if q.None? then None else Execute(src, q.value, binds)
  }

  /* ---- Writing ---- */

  function Phrase(words: seq<string>): string {
    Join(words, " ")
  }

  function Placeholder(n: nat): string {
    "$" + Decimal(n)
  }

  function ClauseWords(c: Clause): seq<string> {
    match c
    case Equals(column, param) => [column, "=", Placeholder(param)]
    case RowBefore(createdParam, idParam) =>
      ["(created_at,", "id)", "<", "(" + Placeholder(createdParam) + ",", Placeholder(idParam) + ")"]
  }

  function WhereWords(clauses: seq<Clause>): seq<string> {
    if clauses == [] then []
    else if |clauses| == 1 then ClauseWords(clauses[0])
    else ClauseWords(clauses[0]) + ["AND"] + WhereWords(clauses[1..])
  }

  function HeadWords(columns: seq<string>, table: string): seq<string> {
    ["SELECT"] + columns + ["FROM", table, "WHERE"]
  }

  function TailWords(limitParam: Option<nat>): seq<string> {
    if limitParam.Some? then NEWEST_FIRST + [Placeholder(limitParam.value)] else []
  }

  function StatementWords(columns: seq<string>, q: Statement): seq<string> {
    HeadWords(columns, q.table) + WhereWords(q.clauses) + TailWords(q.limitParam)
  }

  ghost predicate AllFree(words: seq<string>) {
    forall i | 0 <= i < |words| :: Free(words[i], ' ')
  }

  lemma PlaceholderParses(n: nat)
    ensures ParsePlaceholder(Placeholder(n)) == Some(n) && Free(Placeholder(n), ' ')
  {
    DecimalRoundTrip(n);
    assert Placeholder(n)[1..] == Decimal(n);
  }

  lemma ClauseParses(c: Clause, rest: seq<string>)
    ensures ParseClause(ClauseWords(c) + rest) == Some((c, rest))
  {
    var words := ClauseWords(c) + rest;
    match c
    case Equals(column, param) =>
      PlaceholderParses(param);
      assert words[3..] == rest;
    case RowBefore(createdParam, idParam) =>
      PlaceholderParses(createdParam);
      PlaceholderParses(idParam);
      assert words[3][1..|words[3]| - 1] == Placeholder(createdParam);
      assert words[4][..|words[4]| - 1] == Placeholder(idParam);
      assert words[..3] == ["(created_at,", "id)", "<"] && words[5..] == rest;
  }

  lemma LastParses(c: Clause, tail: seq<string>)
    requires tail == [] || tail[0] != "AND"
    ensures ParseWhere(ClauseWords(c) + tail) == Some(([c], tail))
  {
    ClauseParses(c, tail);
  }

  lemma AndParses(c: Clause, rest: seq<string>)
    requires ParseWhere(rest).Some?
    ensures ParseWhere(ClauseWords(c) + (["AND"] + rest))
            == Some(([c] + ParseWhere(rest).value.0, ParseWhere(rest).value.1))
  {
    ClauseParses(c, ["AND"] + rest);
    assert (["AND"] + rest)[1..] == rest;
  }

  lemma {:induction false} WhereParses(clauses: seq<Clause>, tail: seq<string>)
    requires clauses != [] && (tail == [] || tail[0] != "AND")
    ensures ParseWhere(WhereWords(clauses) + tail) == Some((clauses, tail))
    decreases clauses
  {
    var first := clauses[0];
    if |clauses| == 1 {
      LastParses(first, tail);
      assert clauses == [first];
    } else {
      var rest := WhereWords(clauses[1..]) + tail;
      WhereParses(clauses[1..], tail);
      AndParses(first, rest);
      Reassociate(ClauseWords(first), ["AND"], WhereWords(clauses[1..]), tail);
      assert clauses == [first] + clauses[1..];
    }
  }

  lemma Reassociate(a: seq<string>, b: seq<string>, c: seq<string>, d: seq<string>)
    ensures a + b + c + d == a + (b + (c + d))
  {
  }

  lemma {:induction false} IndexOfFirst(a: seq<string>, word: string, b: seq<string>)
    requires word !in a
    ensures IndexOf(a + [word] + b, word) == |a|
    decreases a
  {
    if a != [] {
      assert (a + [word] + b)[1..] == a[1..] + [word] + b;
      IndexOfFirst(a[1..], word, b);
    }
  }

  lemma TailParses(limitParam: Option<nat>)
    ensures ParseTail(TailWords(limitParam)) == Some(limitParam)
    ensures TailWords(limitParam) == [] || TailWords(limitParam)[0] != "AND"
  {
    if limitParam.Some? {
      PlaceholderParses(limitParam.value);
      assert TailWords(limitParam)[..7] == NEWEST_FIRST;
    }
  }

  lemma HeadFacts(columns: seq<string>, table: string, body: seq<string>)
    requires "FROM" !in columns
    ensures var words, at := HeadWords(columns, table) + body, 1 + |columns|;
            && IndexOf(words, "FROM") == at && at + 2 < |words|
            && words[0] == "SELECT" && words[1..at] == columns
            && words[at + 1] == table && words[at + 2] == "WHERE" && words[at + 3..] == body
  {
    var words := HeadWords(columns, table) + body;
    var before := ["SELECT"] + columns;
    assert words == before + ["FROM"] + ([table, "WHERE"] + body);
    IndexOfFirst(before, "FROM", [table, "WHERE"] + body);
  }

  /** Parsing undoes writing, for every statement and every list of selected columns. */
  lemma StatementParses(columns: seq<string>, q: Statement)
    requires q.clauses != [] && columns != [] && "FROM" !in columns && (q.counts <==> columns == ["COUNT(*)"])
    ensures ParseWords(StatementWords(columns, q)) == Some(q)
  {
    var tail := TailWords(q.limitParam);
    var body := WhereWords(q.clauses) + tail;
    assert StatementWords(columns, q) == HeadWords(columns, q.table) + body;
    HeadFacts(columns, q.table, body);
    TailParses(q.limitParam);
    WhereParses(q.clauses, tail);
  }

  lemma ClauseWordsFree(c: Clause)
    requires c.Equals? ==> Free(c.column, ' ')
    ensures AllFree(ClauseWords(c))
  {
    match c
    case Equals(_, param) => PlaceholderParses(param);
    case RowBefore(createdParam, idParam) =>
      PlaceholderParses(createdParam);
      PlaceholderParses(idParam);
  }

  lemma {:induction false} WhereWordsFree(clauses: seq<Clause>)
    requires forall i | 0 <= i < |clauses| :: clauses[i].Equals? ==> Free(clauses[i].column, ' ')
    ensures AllFree(WhereWords(clauses)) && (clauses != [] ==> WhereWords(clauses) != [])
    decreases clauses
  {
    if clauses != [] {
      ClauseWordsFree(clauses[0]);
      WhereWordsFree(clauses[1..]);
    }
  }

  lemma FreeConcat(a: seq<string>, b: seq<string>)
    requires AllFree(a) && AllFree(b)
    ensures AllFree(a + b)
  {
  }

  lemma HeadWordsFree(columns: seq<string>, table: string)
    requires AllFree(columns) && Free(table, ' ')
    ensures AllFree(HeadWords(columns, table))
  {
    FreeConcat(["SELECT"], columns);
    FreeConcat(["SELECT"] + columns, ["FROM", table, "WHERE"]);
  }

  lemma TailWordsFree(limitParam: Option<nat>)
    ensures AllFree(TailWords(limitParam))
  {
    if limitParam.Some? {
      PlaceholderParses(limitParam.value);
      FreeConcat(NEWEST_FIRST, [Placeholder(limitParam.value)]);
    }
  }

  /** Text assembled from the words of a statement is read back as that statement. */
  lemma TextParses(columns: seq<string>, q: Statement)
    requires q.clauses != [] && columns != [] && "FROM" !in columns && (q.counts <==> columns == ["COUNT(*)"])
    requires AllFree(columns) && Free(q.table, ' ')
    requires forall i | 0 <= i < |q.clauses| :: q.clauses[i].Equals? ==> Free(q.clauses[i].column, ' ')
    ensures ParseWords(Split(Phrase(StatementWords(columns, q)), ' ')) == Some(q)
  {
    var words := StatementWords(columns, q);
    WhereWordsFree(q.clauses);
    HeadWordsFree(columns, q.table);
    TailWordsFree(q.limitParam);
    FreeConcat(HeadWords(columns, q.table), WhereWords(q.clauses));
    FreeConcat(HeadWords(columns, q.table) + WhereWords(q.clauses), TailWords(q.limitParam));
    SplitJoin(words, ' ');
    StatementParses(columns, q);
  }

  lemma {:induction false} PhraseConcat(a: seq<string>, b: seq<string>)
    requires a != [] && b != []
    ensures Phrase(a) + " " + Phrase(b) == Phrase(a + b)
    decreases a
  {
    if |a| == 1 {
      assert (a + b)[1..] == b;
    } else {
      assert (a + b)[1..] == a[1..] + b;
      PhraseConcat(a[1..], b);
    }
  }

  lemma {:induction false} WhereWordsAppend(clauses: seq<Clause>, c: Clause)
    requires clauses != []
    ensures WhereWords(clauses) != []
    ensures WhereWords(clauses + [c]) == WhereWords(clauses) + (["AND"] + ClauseWords(c))
    decreases clauses
  {
    var longer, first := clauses + [c], ClauseWords(clauses[0]);
    assert longer[0] == clauses[0];
    if |clauses| == 1 {
      assert longer[1..] == [c];
      assert first + ["AND"] + ClauseWords(c) == first + (["AND"] + ClauseWords(c));
    } else {
      assert longer[1..] == clauses[1..] + [c];
      WhereWordsAppend(clauses[1..], c);
      Reassociate(first, ["AND"], WhereWords(clauses[1..]), ["AND"] + ClauseWords(c));
      assert first + ["AND"] + (WhereWords(clauses[1..]) + (["AND"] + ClauseWords(c)))
          == first + (["AND"] + (WhereWords(clauses[1..]) + (["AND"] + ClauseWords(c))));
    }
  }

  lemma EqualsWords(column: string, param: nat)
    ensures ["AND"] + ClauseWords(Equals(column, param)) == ["AND", column, "=", Placeholder(param)]
  {
  }

  lemma LimitWords(param: nat)
    ensures TailWords(Some(param)) == ["ORDER", "BY", "created_at", "DESC,", "id", "DESC", "LIMIT", Placeholder(param)]
  {
  }

  /** Appending the text of one more condition. */
  lemma AppendText(clauses: seq<Clause>, c: Clause)
    requires clauses != []
    ensures Phrase(WhereWords(clauses)) + " " + Phrase(["AND"] + ClauseWords(c)) == Phrase(WhereWords(clauses + [c]))
  {
    WhereWordsAppend(clauses, c);
    PhraseConcat(WhereWords(clauses), ["AND"] + ClauseWords(c));
  }

  /** The pieces of a query put together are the text of its statement. */
  lemma AssembledText(columns: seq<string>, q: Statement)
    requires q.clauses != []
    ensures var filtered := Phrase(HeadWords(columns, q.table)) + " " + Phrase(WhereWords(q.clauses));
            && (q.limitParam.None? ==> filtered == Phrase(StatementWords(columns, q)))
            && (q.limitParam.Some? ==>
                  filtered + " " + Phrase(TailWords(q.limitParam)) == Phrase(StatementWords(columns, q)))
  {
    var head, body, tail := HeadWords(columns, q.table), WhereWords(q.clauses), TailWords(q.limitParam);
    assert ClauseWords(q.clauses[0]) != [];
    PhraseConcat(head, body);
    if q.limitParam.Some? {
      PhraseConcat(head + body, tail);
    } else {
      assert head + body + tail == head + body;
    }
  }

  /* ---- Conditions numbered in bind order ---- */

  /** A column and the text it must equal. */
  type Condition = (string, string)

  function Numbered(conditions: seq<Condition>, param: nat): seq<Clause> {
    if conditions == [] then []
    else [Equals(conditions[0].0, param)] + Numbered(conditions[1..], param + 1)
  }

  function Values(conditions: seq<Condition>): seq<Bind> {
    if conditions == [] then [] else [TextValue(conditions[0].1)] + Values(conditions[1..])
  }

  /** The conditions read directly. */
  predicate Meets<T>(cell: (T, string) -> string, conditions: seq<Condition>, d: T) {
    forall i | 0 <= i < |conditions| :: cell(d, conditions[i].0) == conditions[i].1
  }

  function Keep<T>(cell: (T, string) -> string, conditions: seq<Condition>): T -> bool {
    (d: T) => Meets(cell, conditions, d)
  }

  lemma {:induction false} NumberedColumns(conditions: seq<Condition>, param: nat)
    ensures |Numbered(conditions, param)| == |conditions| == |Values(conditions)|
    ensures forall i | 0 <= i < |conditions| :: Numbered(conditions, param)[i] == Equals(conditions[i].0, param + i)
    ensures forall i | 0 <= i < |conditions| :: Values(conditions)[i] == TextValue(conditions[i].1)
    decreases conditions
  {
    if conditions != [] {
      NumberedColumns(conditions[1..], param + 1);
    }
  }

  lemma {:induction false} NumberedAppend(conditions: seq<Condition>, c: Condition, param: nat)
    ensures Numbered(conditions + [c], param) == Numbered(conditions, param) + [Equals(c.0, param + |conditions|)]
    ensures Values(conditions + [c]) == Values(conditions) + [TextValue(c.1)]
    decreases conditions
  {
    if conditions == [] {
      assert conditions + [c] == [c];
    } else {
      assert (conditions + [c])[1..] == conditions[1..] + [c];
      NumberedAppend(conditions[1..], c, param + 1);
    }
  }

  function PageClauses(conditions: seq<Condition>, after: Option<Cursor>): seq<Clause> {
    var p := |conditions| + 1;
    Numbered(conditions, 1) + (if after.Some? then [RowBefore(p, p + 1)] else [])
  }

  function PageStatement(table: string, conditions: seq<Condition>, after: Option<Cursor>): Statement {
    var p := |conditions| + 1;
    Statement(false, table, PageClauses(conditions, after), Some(if after.Some? then p + 2 else p))
  }

  function CountStatement(table: string, conditions: seq<Condition>): Statement {
    Statement(true, table, Numbered(conditions, 1), None)
  }

  function PageBinds(conditions: seq<Condition>, after: Option<Cursor>, limit: nat): seq<Bind> {
    Values(conditions)
    + (if after.Some? then [TimeValue(after.value.createdAt), TextValue(after.value.id)] else [])
    + [NumberValue(limit)]
  }

  ghost predicate ColumnsKnown(columns: set<string>, conditions: seq<Condition>) {
    forall i | 0 <= i < |conditions| :: conditions[i].0 in columns
  }

  /** The numbered conditions are bound by any values that start with the conditions' own. */
  lemma ConditionsBound(columns: set<string>, conditions: seq<Condition>, more: seq<Bind>)
    requires ColumnsKnown(columns, conditions)
    ensures AllBound(Numbered(conditions, 1), columns, Values(conditions) + more)
  {
    NumberedColumns(conditions, 1);
  }

  /** Under such values they mean the plain conditions. */
  lemma ConditionsMean<T(!new)>(src: Source<T>, row: Row<T>, conditions: seq<Condition>, more: seq<Bind>)
    requires ColumnsKnown(src.columns, conditions)
    requires AllBound(Numbered(conditions, 1), src.columns, Values(conditions) + more)
    ensures AllHold(src, row, Numbered(conditions, 1), Values(conditions) + more)
            <==> Meets(src.cell, conditions, row.data)
  {
    NumberedColumns(conditions, 1);
    var binds := Values(conditions) + more;
    var clauses := Numbered(conditions, 1);
    forall i | 0 <= i < |clauses|
      ensures Holds(src, row, clauses[i], binds) <==> src.cell(row.data, conditions[i].0) == conditions[i].1
    {
      assert binds[i] == TextValue(conditions[i].1);
    }
  }

  lemma PageBindsSplit(conditions: seq<Condition>, after: Option<Cursor>, limit: nat)
    ensures |Values(conditions)| == |conditions|
    ensures var binds := PageBinds(conditions, after, limit);
            && binds == Values(conditions) + binds[|conditions|..]
            && binds[|binds| - 1] == NumberValue(limit)
            && (after.Some? ==> |binds| == |conditions| + 3 && binds[|conditions|] == TimeValue(after.value.createdAt)
                                && binds[|conditions| + 1] == TextValue(after.value.id))
            && (after.None? ==> |binds| == |conditions| + 1)
  {
    NumberedColumns(conditions, 1);
  }

  lemma PageClausesBound(columns: set<string>, conditions: seq<Condition>, after: Option<Cursor>, limit: nat)
    requires ColumnsKnown(columns, conditions)
    ensures AllBound(PageClauses(conditions, after), columns, PageBinds(conditions, after, limit))
  {
    NumberedColumns(conditions, 1);
    PageBindsSplit(conditions, after, limit);
    var binds := PageBinds(conditions, after, limit);
    ConditionsBound(columns, conditions, binds[|conditions|..]);
    var clauses := PageClauses(conditions, after);
    forall i | 0 <= i < |clauses| ensures WellBound(clauses[i], columns, binds) {
      if i < |conditions| {
        assert clauses[i] == Numbered(conditions, 1)[i];
      }
    }
  }

  lemma PageClausesMean<T(!new)>(
    src: Source<T>, row: Row<T>, conditions: seq<Condition>, after: Option<Cursor>, limit: nat)
    requires ColumnsKnown(src.columns, conditions)
    requires AllBound(PageClauses(conditions, after), src.columns, PageBinds(conditions, after, limit))
    ensures AllHold(src, row, PageClauses(conditions, after), PageBinds(conditions, after, limit))
            <==> Eligible(row, Keep(src.cell, conditions), after)
  {
    NumberedColumns(conditions, 1);
    PageBindsSplit(conditions, after, limit);
    var clauses, binds := PageClauses(conditions, after), PageBinds(conditions, after, limit);
    var numbered := Numbered(conditions, 1);
    ConditionsBound(src.columns, conditions, binds[|conditions|..]);
    ConditionsMean(src, row, conditions, binds[|conditions|..]);
    assert forall i | 0 <= i < |numbered| :: clauses[i] == numbered[i];
    if after.Some? {
      var n := |numbered|;
      assert clauses[n] == RowBefore(n + 1, n + 2);
      assert Holds(src, row, clauses[n], binds) <==> Below(row.key, after.value);
      assert AllHold(src, row, clauses, binds) <==>
             AllHold(src, row, numbered, binds) && Holds(src, row, clauses[n], binds);
    } else {
      assert clauses == numbered;
    }
  }

  lemma {:induction false} ScanIsSelect<T(!new)>(
    src: Source<T>, rows: seq<Row<T>>, clauses: seq<Clause>, binds: seq<Bind>, keep: T -> bool, after: Option<Cursor>)
    requires AllBound(clauses, src.columns, binds)
    requires forall row: Row<T> :: AllHold(src, row, clauses, binds) <==> Eligible(row, keep, after)
    ensures Scan(src, rows, clauses, binds) == Select(rows, keep, after)
    decreases rows
  {
    if rows != [] {
      ScanIsSelect(src, rows[1..], clauses, binds, keep, after);
    }
  }

  lemma PageStatementMeans<T(!new)>(src: Source<T>, conditions: seq<Condition>, after: Option<Cursor>, limit: nat)
    requires ColumnsKnown(src.columns, conditions)
    ensures Execute(src, PageStatement(src.name, conditions, after), PageBinds(conditions, after, limit))
            == Some(Rows(Page(src.rows, Keep(src.cell, conditions), after, limit)))
  {
    var clauses, binds := PageClauses(conditions, after), PageBinds(conditions, after, limit);
    PageClausesBound(src.columns, conditions, after, limit);
    forall row: Row<T>
      ensures AllHold(src, row, clauses, binds) <==> Eligible(row, Keep(src.cell, conditions), after)
    {
      PageClausesMean(src, row, conditions, after, limit);
    }
    ScanIsSelect(src, src.rows, clauses, binds, Keep(src.cell, conditions), after);
    PageBindsSplit(conditions, after, limit);
  }

  lemma CountStatementMeans<T(!new)>(src: Source<T>, conditions: seq<Condition>)
    requires ColumnsKnown(src.columns, conditions)
    ensures Execute(src, CountStatement(src.name, conditions), Values(conditions))
            == Some(Number(|Select(src.rows, Keep(src.cell, conditions), None)|))
  {
    var clauses, binds := Numbered(conditions, 1), Values(conditions);
    assert binds + [] == binds;
    ConditionsBound(src.columns, conditions, []);
    forall row: Row<T>
      ensures AllHold(src, row, clauses, binds) <==> Eligible(row, Keep(src.cell, conditions), None)
    {
      ConditionsMean(src, row, conditions, []);
    }
    ScanIsSelect(src, src.rows, clauses, binds, Keep(src.cell, conditions), None);
  }

  /* ---- The text as the stores put it together ---- */

  /** The text of a page query from the text of its conditions. */
  function Paged(
    columns: seq<string>, table: string, filters: string, cursor: Option<seq<string>>, limit: string): string {
    var start := Phrase(HeadWords(columns, table)) + " " + filters;
    (if cursor.Some? then start + " " + Phrase(["AND", "(created_at,", "id)", "<"] + cursor.value) else start)
    + " " + Phrase(["ORDER", "BY", "created_at", "DESC,", "id", "DESC", "LIMIT", limit])
  }

  lemma Spaced(a: string, b: string, c: string)
    ensures a + " " + b + " " + c == a + " " + (b + " " + c)
  {
  }

  lemma CursorWords(p: nat)
    ensures ["AND", "(created_at,", "id)", "<"] + ["(" + Placeholder(p) + ",", Placeholder(p + 1) + ")"]
            == ["AND"] + ClauseWords(RowBefore(p, p + 1))
  {
  }

  /** Numbers that continue the count of the conditions give the text of the numbered statement. */
  lemma {:induction false} PagedText(
    columns: seq<string>, table: string, conditions: seq<Condition>, after: Option<Cursor>,
    filters: string, cursor: Option<seq<string>>, limit: string)
    requires conditions != [] && filters == Phrase(WhereWords(Numbered(conditions, 1)))
    requires var p := |conditions| + 1;
             if after.Some?
             then cursor == Some(["(" + Placeholder(p) + ",", Placeholder(p + 1) + ")"]) && limit == Placeholder(p + 2)
             else cursor == None && limit == Placeholder(p)
    ensures Paged(columns, table, filters, cursor, limit)
            == Phrase(StatementWords(columns, PageStatement(table, conditions, after)))
  {
    NumberedColumns(conditions, 1);
    var clauses, p := Numbered(conditions, 1), |conditions| + 1;
    AssembledText(columns, PageStatement(table, conditions, after));
    if after.Some? {
      CursorWords(p);
      AppendText(clauses, RowBefore(p, p + 1));
      Spaced(Phrase(HeadWords(columns, table)), filters, Phrase(["AND"] + ClauseWords(RowBefore(p, p + 1))));
      LimitWords(p + 2);
    } else {
      assert PageClauses(conditions, after) == clauses;
      LimitWords(p);
    }
  }

  lemma TenantText(tenant: string)
    ensures Phrase(["tenant_id", "=", "$1"]) == Phrase(WhereWords(Numbered([("tenant_id", tenant)], 1)))
  {
    assert Placeholder(1) == "$1";
    assert Numbered([("tenant_id", tenant)], 1) == [Equals("tenant_id", 1)];
  }

  /* ---- From text to rows ---- */

  ghost predicate Writable(columns: seq<string>, table: string, conditions: seq<Condition>) {
    && columns != [] && columns != ["COUNT(*)"] && "FROM" !in columns && AllFree(columns) && Free(table, ' ')
    && conditions != [] && forall i | 0 <= i < |conditions| :: Free(conditions[i].0, ' ')
  }

  /** The text of a numbered page query, run with its values, returns the page of the plain conditions. */
  lemma PageTextMeans<T(!new)>(
    src: Source<T>, columns: seq<string>, conditions: seq<Condition>, after: Option<Cursor>, limit: nat)
    requires Writable(columns, src.name, conditions) && ColumnsKnown(src.columns, conditions)
    ensures ExecuteText(src, Phrase(StatementWords(columns, PageStatement(src.name, conditions, after))),
                        PageBinds(conditions, after, limit))
            == Some(Rows(Page(src.rows, Keep(src.cell, conditions), after, limit)))
  {
    var q := PageStatement(src.name, conditions, after);
    NumberedColumns(conditions, 1);
    forall i | 0 <= i < |q.clauses| && q.clauses[i].Equals? ensures Free(q.clauses[i].column, ' ') {
      assert i < |conditions|;
    }
    TextParses(columns, q);
    PageStatementMeans(src, conditions, after, limit);
  }

  lemma CountTextMeans<T(!new)>(src: Source<T>, columns: seq<string>, conditions: seq<Condition>)
    requires Writable(columns, src.name, conditions) && ColumnsKnown(src.columns, conditions)
    ensures ExecuteText(src, Phrase(StatementWords(["COUNT(*)"], CountStatement(src.name, conditions))),
                        Values(conditions))
            == Some(Number(|Select(src.rows, Keep(src.cell, conditions), None)|))
  {
    var q := CountStatement(src.name, conditions);
    NumberedColumns(conditions, 1);
    TextParses(["COUNT(*)"], q);
    CountStatementMeans(src, conditions);
  }
}
