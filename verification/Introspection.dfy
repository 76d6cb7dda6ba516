/**
  Token introspection through the cache table. The upstream answer is a JSON
  value; the cache keeps its scope list as one space-joined string and does not
  keep the authentication methods. The main result is that a hit is always an
  upstream answer of the recent past, with only those methods dropped.
 */
module Introspection {
  import opened Wrappers
  import opened DbErrors
  import opened Text
  import opened AuthTypes
  import Json

  // The range of seconds a date-time can represent.
  const MIN_TIMESTAMP := -377_705_116_800
  const MAX_TIMESTAMP := 253_402_300_799

  /* ---- Reading the upstream answer ---- */

  function MethodOf(entry: Json.Value): Option<string> {
    var method_ := Json.GetText(entry, "method");
    if method_.Some? then method_
    else if entry.Text? then Some(entry.s)
    else None
  }

  function MethodsOf(entries: seq<Json.Value>): seq<string> {
    if entries == [] then []
    else
      var m := MethodOf(entries[0]);
      (if m.Some? then [m.value] else []) + MethodsOf(entries[1..])
  }

  function AuthenticationMethods(value: Json.Value): seq<string> {
    var ext := Json.Get(value, "ext");
    var nested := if ext.Some? then Json.Get(ext.value, "authentication_methods") else None;
    var amr := if nested.Some? then nested else Json.Get(value, "authentication_methods");
    if amr.Some? && amr.value.Array? then MethodsOf(amr.value.items) else []
  }

  function FromHydra(value: Json.Value): IntrospectionResult {
    var scope := Json.GetText(value, "scope");
    var exp := Json.Get(value, "exp");
    IntrospectionResult(
      Json.Get(value, "active") == Some(Json.Boolean(true)),
      Json.GetText(value, "sub"),
      if scope.Some? then Split(scope.value, ' ') else [],
      if exp.Some? && exp.value.Integer? && MIN_TIMESTAMP <= exp.value.n <= MAX_TIMESTAMP
      then Some(exp.value.n * NANOS_PER_SECOND) else None,
      AuthenticationMethods(value))
  }

  /* ---- What the reading means, on the members of the answer ---- */

  /** The answer is an object whose member `key` is `member`. */
  ghost predicate Says(value: Json.Value, key: string, member: Json.Value) {
    value.Object? && key in value.fields && value.fields[key] == member
  }

  /** Only the boolean true makes a token active; a subject is a text; an expiry a whole second that a date can hold. */
  lemma FromHydraMeans(value: Json.Value, sub: string, seconds: int)
    ensures FromHydra(value).active <==> Says(value, "active", Json.Boolean(true))
    ensures FromHydra(value).sub == Some(sub) <==> Says(value, "sub", Json.Text(sub))
    ensures FromHydra(value).exp == Some(seconds * NANOS_PER_SECOND) <==>
            Says(value, "exp", Json.Integer(seconds)) && MIN_TIMESTAMP <= seconds <= MAX_TIMESTAMP
    ensures FromHydra(value).exp.Some? ==> FromHydra(value).exp.value % NANOS_PER_SECOND == 0
  {
  }

  /** The scope list is the space-separated pieces of the scope text, in order; without one it is empty. */
  lemma ScopesMean(value: Json.Value)
    ensures var scopes := FromHydra(value).scope;
            && (forall i | 0 <= i < |scopes| :: Free(scopes[i], ' '))
            && (scopes == [] <==> forall text :: !Says(value, "scope", Json.Text(text)))
            && (forall text | Says(value, "scope", Json.Text(text)) :: Join(scopes, " ") == text)
  {
    var scope := Json.GetText(value, "scope");
    if scope.Some? {
      assert Says(value, "scope", Json.Text(scope.value));
      SplitPieces(scope.value, ' ');
      JoinSplit(scope.value, ' ');
    }
  }

  /** The list the methods are read from: the extension's, if it has such a member at all, else the answer's own. */
  ghost predicate MethodList(value: Json.Value, items: seq<Json.Value>) {
    if exists ext, member :: Says(value, "ext", ext) && Says(ext, "authentication_methods", member)
    then exists ext :: Says(value, "ext", ext) && Says(ext, "authentication_methods", Json.Array(items))
    else Says(value, "authentication_methods", Json.Array(items))
  }

  /** An entry names a method by its text member "method", or is itself a text. */
  ghost predicate NamesMethod(entry: Json.Value, name: string) {
    Says(entry, "method", Json.Text(name)) || entry == Json.Text(name)
  }

  lemma {:induction false} MethodsMean(entries: seq<Json.Value>, name: string)
    ensures name in MethodsOf(entries) <==> exists i :: 0 <= i < |entries| && NamesMethod(entries[i], name)
    decreases entries
  {
    if entries != [] {
      MethodsMean(entries[1..], name);
      assert forall i | 1 <= i < |entries| :: entries[i] == entries[1..][i - 1];
    }
  }

  /** The member the methods are read from, if any. */
  function MethodMember(value: Json.Value): Option<Json.Value> {
    var ext := Json.Get(value, "ext");
    var nested := if ext.Some? then Json.Get(ext.value, "authentication_methods") else None;
    if nested.Some? then nested else Json.Get(value, "authentication_methods")
  }

  lemma MethodMemberMeans(value: Json.Value, items: seq<Json.Value>)
    ensures MethodList(value, items) <==> MethodMember(value) == Some(Json.Array(items))
  {
    var ext := Json.Get(value, "ext");
    if ext.Some? && Json.Get(ext.value, "authentication_methods").Some? {
      assert Says(value, "ext", ext.value);
      assert Says(ext.value, "authentication_methods", Json.Get(ext.value, "authentication_methods").value);
    }
  }

  /** A method is reported exactly when an entry of that list names it. */
  lemma AuthenticationMethodsMean(value: Json.Value, name: string)
    ensures name in FromHydra(value).authenticationMethods <==>
            exists items :: MethodList(value, items) && exists i :: 0 <= i < |items| && NamesMethod(items[i], name)
  {
    forall items ensures MethodList(value, items) <==> MethodMember(value) == Some(Json.Array(items)) {
      MethodMemberMeans(value, items);
    }
    var amr := MethodMember(value);
    if amr.Some? && amr.value.Array? {
      assert MethodList(value, amr.value.items);
      MethodsMean(amr.value.items, name);
    }
  }

  /* ---- The cache table ---- */

  datatype CacheRow = CacheRow(
    active: bool, sub: Option<string>, scope: Option<string>, exp: Option<int>, cachedAt: int)

  type CacheTable = map<string, CacheRow>

  /** A row is usable up to and including its maximum age and its expiry. */
  function CacheGet(table: CacheTable, hash: string, maxAge: int, now: int): Option<CacheRow> {
    if hash !in table then None
    else
      var row := table[hash];
      if row.cachedAt + maxAge < now then None
      else if row.exp.Some? && row.exp.value < now then None
      else Some(row)
  }

  function ToRow(result: IntrospectionResult, at: int): CacheRow {
    var scope := if result.scope == [] then None else Some(Join(result.scope, " "));
    CacheRow(result.active, result.sub, scope, result.exp, at)
  }

  function FromRow(row: CacheRow): IntrospectionResult {
    IntrospectionResult(row.active, row.sub, if row.scope.Some? then Split(row.scope.value, ' ') else [], row.exp, [])
  }

  function WithoutMethods(result: IntrospectionResult): IntrospectionResult {
    result.(authenticationMethods := [])
  }

  /**
    For every JSON answer, storing the parsed result and reading it back loses
    exactly the authentication methods. This covers the missing scope, the empty
    scope and scopes with repeated spaces.
   */
  lemma RowRoundTrip(value: Json.Value, at: int)
    ensures FromRow(ToRow(FromHydra(value), at)) == WithoutMethods(FromHydra(value))
  {
    var scope := Json.GetText(value, "scope");
    if scope.Some? {
      SplitPieces(scope.value, ' ');
      SplitJoin(Split(scope.value, ' '), ' ');
    }
  }

  /* ---- One call ---- */

  /** What the tables and the upstream do during one call, and when. */
  datatype Call = Call(
    readable: bool,                         // the cache read succeeds
    upstream: Result<Json.Value, AuthError>,
    writable: bool,                         // the cache write succeeds
    readAt: int, storedAt: int)

  function Introspect(table: CacheTable, hash: string, maxAge: int, c: Call)
    : (Result<IntrospectionResult, AuthError>, CacheTable)
  {
    if !c.readable then (Err(Database), table)
    else
      match CacheGet(table, hash, maxAge, c.readAt)
      case Some(row) => (Ok(FromRow(row)), table)
      case None =>
        if c.upstream.Err? then (Err(c.upstream.error), table)
        else
          var result := FromHydra(c.upstream.value);
          if !result.active || !c.writable then (Ok(result), table)
          else (Ok(result), table[hash := ToRow(result, c.storedAt)])
  }

  predicate Hits(table: CacheTable, hash: string, maxAge: int, c: Call) {
    c.readable && CacheGet(table, hash, maxAge, c.readAt).Some?
  }

  /** The call reaches the upstream, which accepts the token, and the answer is written to the cache. */
  predicate Caches(table: CacheTable, hash: string, maxAge: int, c: Call) {
    c.readable && !Hits(table, hash, maxAge, c) && c.upstream.Ok? && FromHydra(c.upstream.value).active && c.writable
  }

  class CachedTokenIntrospector {
    const maxAge: int
    var table: CacheTable

    constructor (maxAge: int)
      ensures this.maxAge == maxAge && table == map[]
    {
      this.maxAge, table := maxAge, map[];
    }

    method IntrospectToken(hash: string, c: Call) returns (res: Result<IntrospectionResult, AuthError>)
      modifies this
      ensures (res, table) == Introspect(old(table), hash, maxAge, c)
    {
      if !c.readable {
        return Err(Database);
      }
      var cached := CacheGet(table, hash, maxAge, c.readAt);
      if cached.Some? {
        var row := cached.value;
        var scope := if row.scope.Some? then Split(row.scope.value, ' ') else [];
        return Ok(IntrospectionResult(row.active, row.sub, scope, row.exp, []));
      }
      if c.upstream.Err? {
        return Err(c.upstream.error);
      }
      var result := FromHydra(c.upstream.value);
      if !result.active {
        return Ok(result);
      }
      var scope := if result.scope == [] then None else Some(Join(result.scope, " "));
      if c.writable {
        table := table[hash := CacheRow(result.active, result.sub, scope, result.exp, c.storedAt)];
      }
      return Ok(result);
    }
  }

  /* ---- Whole runs ---- */

  /** An answer the upstream gave for a token, and when the cache stored it. */
  datatype Stored = Stored(hash: string, source: Json.Value, answer: IntrospectionResult, at: int)

  datatype World = World(table: CacheTable, stored: seq<Stored>)

  datatype Event = Present(hash: string, call: Call) | Remove(hash: string)

  function Step(w: World, maxAge: int, e: Event): World {
    match e
    case Remove(hash) => w.(table := w.table - {hash})
    case Present(hash, c) =>
      var table := Introspect(w.table, hash, maxAge, c).1;
      World(table,
            if Caches(w.table, hash, maxAge, c)
            then w.stored + [Stored(hash, c.upstream.value, FromHydra(c.upstream.value), c.storedAt)] else w.stored)
  }

  function Run(w: World, maxAge: int, es: seq<Event>): World
    decreases es
  {
    if es == [] then w else Run(Step(w, maxAge, es[0]), maxAge, es[1..])
  }

  /** Row `row` is stored answer number `i`, the latest for its token, stripped of its methods. */
  ghost predicate Backs(w: World, hash: string, row: CacheRow, i: int) {
    && 0 <= i < |w.stored| && w.stored[i].hash == hash && w.stored[i].at == row.cachedAt
    && w.stored[i].answer == FromHydra(w.stored[i].source)
    && w.stored[i].answer.active && row.active && row.exp == w.stored[i].answer.exp
    && FromRow(row) == WithoutMethods(w.stored[i].answer)
    && (forall j | i < j < |w.stored| :: w.stored[j].hash != hash)
  }

  ghost predicate Inv(w: World) {
    forall hash | hash in w.table :: exists i :: Backs(w, hash, w.table[hash], i)
  }

  lemma NewRowIsBacked(w: World, maxAge: int, hash: string, c: Call)
    requires Caches(w.table, hash, maxAge, c)
    ensures var w' := Step(w, maxAge, Present(hash, c));
            hash in w'.table && Backs(w', hash, w'.table[hash], |w.stored|)
  {
    RowRoundTrip(c.upstream.value, c.storedAt);
  }

  lemma OldRowStaysBacked(w: World, maxAge: int, e: Event, hash: string, i: int)
    requires hash in w.table && Backs(w, hash, w.table[hash], i) && hash in Step(w, maxAge, e).table
    requires !(e.Present? && e.hash == hash && Caches(w.table, hash, maxAge, e.call))
    ensures var w' := Step(w, maxAge, e);
            w'.table[hash] == w.table[hash] && Backs(w', hash, w'.table[hash], i)
  {
  }

  lemma StepKeepsInv(w: World, maxAge: int, e: Event)
    requires Inv(w)
    ensures Inv(Step(w, maxAge, e))
  {
    var w' := Step(w, maxAge, e);
    forall hash | hash in w'.table
      ensures exists i :: Backs(w', hash, w'.table[hash], i)
    {
      if e.Present? && e.hash == hash && Caches(w.table, hash, maxAge, e.call) {
        NewRowIsBacked(w, maxAge, hash, e.call);
      } else {
        var i :| Backs(w, hash, w.table[hash], i);
        OldRowStaysBacked(w, maxAge, e, hash, i);
      }
    }
  }

  lemma {:induction false} RunKeepsInv(w: World, maxAge: int, es: seq<Event>)
    requires Inv(w)
    ensures Inv(Run(w, maxAge, es))
    decreases es
  {
    if es != [] {
      StepKeepsInv(w, maxAge, es[0]);
      RunKeepsInv(Step(w, maxAge, es[0]), maxAge, es[1..]);
    }
  }

  const EMPTY := World(map[], [])

  /**
    After any run from an empty cache, a hit is active, is the latest upstream
    answer stored for the token, no more than the maximum age ago, equals it in
    everything but the authentication methods, and is not past its expiry. The
    JSON of that answer said that the token was active.
   */
  lemma HitRefinesUpstream(maxAge: int, es: seq<Event>, hash: string, c: Call)
    requires Hits(Run(EMPTY, maxAge, es).table, hash, maxAge, c)
    ensures var w := Run(EMPTY, maxAge, es);
            var answer := Introspect(w.table, hash, maxAge, c).0;
            && answer.Ok? && answer.value.active
            && (answer.value.exp.Some? ==> c.readAt <= answer.value.exp.value)
            && exists i :: 0 <= i < |w.stored| && w.stored[i].hash == hash && c.readAt <= w.stored[i].at + maxAge
                           && Says(w.stored[i].source, "active", Json.Boolean(true))
                           && answer.value == WithoutMethods(FromHydra(w.stored[i].source))
                           && (forall j | i < j < |w.stored| :: w.stored[j].hash != hash)
  {
    RunKeepsInv(EMPTY, maxAge, es);
    var w := Run(EMPTY, maxAge, es);
    var i :| Backs(w, hash, w.table[hash], i);
    assert w.stored[i].hash == hash;
    FromHydraMeans(w.stored[i].source, "", 0);
  }

  /** Without a hit the upstream decides, whether or not its answer can then be written. */
  lemma MissAsksUpstream(table: CacheTable, hash: string, maxAge: int, c: Call)
    requires !Hits(table, hash, maxAge, c)
    ensures var (answer, table') := Introspect(table, hash, maxAge, c);
            && (!c.readable ==> answer == Err(Database))
            && (c.readable && c.upstream.Err? ==> answer == Err(c.upstream.error))
            && (c.readable && c.upstream.Ok? ==> answer == Ok(FromHydra(c.upstream.value)))
            && (forall h | h != hash :: (h in table' <==> h in table) && (h in table ==> table'[h] == table[h]))
            && (!Caches(table, hash, maxAge, c) ==> table' == table)
  {
  }

  /** A removed token is asked for upstream at the next call; other tokens keep their rows. */
  lemma RemovedIsMissed(w: World, maxAge: int, hash: string, c: Call, other: string)
    ensures var w' := Step(w, maxAge, Remove(hash));
            && !Hits(w'.table, hash, maxAge, c)
            && (other != hash ==>
                  (other in w'.table <==> other in w.table) && (other in w.table ==> w'.table[other] == w.table[other]))
  {
  }

  /** The event leaves the row for `hash` alone: it is for another token, or a call that the row itself answers. */
  predicate Spares(w: World, maxAge: int, e: Event, hash: string) {
    e.hash != hash || (e.Present? && !Caches(w.table, hash, maxAge, e.call))
  }

  ghost predicate AllSpare(w: World, maxAge: int, es: seq<Event>, hash: string)
    decreases es
  {
    es != [] ==> Spares(w, maxAge, es[0], hash) && AllSpare(Step(w, maxAge, es[0]), maxAge, es[1..], hash)
  }

  lemma {:induction false} RowStays(w: World, maxAge: int, es: seq<Event>, hash: string)
    requires hash in w.table && AllSpare(w, maxAge, es, hash)
    ensures var end := Run(w, maxAge, es); hash in end.table && end.table[hash] == w.table[hash]
    decreases es
  {
    if es != [] {
      RowStays(Step(w, maxAge, es[0]), maxAge, es[1..], hash);
    }
  }

  /**
    What was cached is served: after an answer is stored, and until its row is
    removed or stored anew, every call within the maximum age and the token's
    expiry gets that answer, whatever the upstream would say.
   */
  lemma StoredAnswerIsServed(w: World, maxAge: int, hash: string, c: Call, es: seq<Event>, later: Call)
    requires Caches(w.table, hash, maxAge, c)
    requires AllSpare(Step(w, maxAge, Present(hash, c)), maxAge, es, hash)
    requires var answer := FromHydra(c.upstream.value);
             && later.readable && later.readAt <= c.storedAt + maxAge
             && (answer.exp.Some? ==> later.readAt <= answer.exp.value)
    ensures var end := Run(Step(w, maxAge, Present(hash, c)), maxAge, es);
            Introspect(end.table, hash, maxAge, later).0 == Ok(WithoutMethods(FromHydra(c.upstream.value)))
  {
    RowStays(Step(w, maxAge, Present(hash, c)), maxAge, es, hash);
    RowRoundTrip(c.upstream.value, c.storedAt);
  }
}
