/** Home-realm discovery: from an email address to the identity provider of its domain. */
module HomeRealm {
  import opened Wrappers
  import opened Text
  import opened ConnectionSecrets
  import opened Connections
  import Json

  datatype HrdError =
    | MissingEmail
    | InvalidEmail
    | MissingReturnTo
    | InvalidReturnTo
    | MissingConfig(field: string)
    | EmptyScopes
    | SamlProviderNotFound

  /** Redirects before percent-encoding; `state` is the random value of the call. */
  datatype Discovery =
    | OidcRedirect(endpoint: string, clientId: string, scope: string, redirectUri: string, state: string)
    | OAuth2Redirect(endpoint: string, clientId: string, scope: string, redirectUri: string, state: string)
    | SamlRedirect(ssoUrl: string)
    | SelectTenant(email: string, returnTo: string)

  /* ---- Email addresses ---- */

  function Occurrences(s: string, c: char): nat {
    if s == "" then 0 else (if s[0] == c then 1 else 0) + Occurrences(s[1..], c)
  }

  /** The text before and after the last `sep`. */
  function RSplitOnce(s: string, sep: char): Option<(string, string)> {
    if s == "" then None
    else if s[|s| - 1] == sep then Some((s[..|s| - 1], ""))
    else
      var rest := RSplitOnce(s[..|s| - 1], sep);
      if rest.None? then None else Some((rest.value.0, rest.value.1 + [s[|s| - 1]]))
  }

  function DomainOf(email: string): string {
    var parts := RSplitOnce(email, '@');
    if parts.Some? then parts.value.1 else ""
  }

  function ValidateEmail(email: string): Result<(), HrdError> {
    if email == "" then Err(MissingEmail)
    else if Occurrences(email, '@') != 1 then Err(InvalidEmail)
    else if DomainOf(email) == "" then Err(InvalidEmail)
    else Ok(())
  }

  lemma {:induction false} OccurrencesConcat(a: string, b: string, c: char)
    ensures Occurrences(a + b, c) == Occurrences(a, c) + Occurrences(b, c)
    decreases a
  {
    if a == "" {
      assert a + b == b;
    } else {
      assert (a + b)[1..] == a[1..] + b;
      OccurrencesConcat(a[1..], b, c);
    }
  }

  lemma {:induction false} NoneOccur(s: string, c: char)
    ensures Occurrences(s, c) == 0 <==> c !in s
    decreases s
  {
    if s != "" {
      NoneOccur(s[1..], c);
      assert s == [s[0]] + s[1..];
    }
  }

  /** The last piece never contains the separator. */
  lemma {:induction false} RSplitOnceParts(s: string, sep: char)
    ensures sep in s <==> RSplitOnce(s, sep).Some?
    ensures RSplitOnce(s, sep).Some? ==>
              var (a, b) := RSplitOnce(s, sep).value; s == a + [sep] + b && sep !in b
    decreases s
  {
    if s != "" {
      var front := s[..|s| - 1];
      assert s == front + [s[|s| - 1]];
      if s[|s| - 1] != sep {
        RSplitOnceParts(front, sep);
      }
    }
  }

  /** The accepted addresses are exactly `local@domain` with one '@' and a domain, and that
      domain is the one looked up. */
  lemma EmailMeans(email: string, domain: string)
    ensures ValidateEmail(email).Ok? && DomainOf(email) == domain <==>
            domain != "" && '@' !in domain && exists local :: '@' !in local && email == local + "@" + domain
  {
    RSplitOnceParts(email, '@');
    NoneOccur(email, '@');
    if ValidateEmail(email).Ok? && DomainOf(email) == domain {
      var (a, b) := RSplitOnce(email, '@').value;
      OneAt(a, b);
      assert email == a + "@" + b;
    }
    if local :| domain != "" && '@' !in domain && '@' !in local && email == local + "@" + domain {
      OneAt(local, domain);
      var (a, b) := RSplitOnce(email, '@').value;
      LastAt(a, b, local, domain);
    }
  }

  lemma OneAt(local: string, domain: string)
    ensures Occurrences(local + "@" + domain, '@') == 1 <==> '@' !in local && '@' !in domain
  {
    OccurrencesConcat(local + "@", domain, '@');
    OccurrencesConcat(local, "@", '@');
    assert Occurrences("@", '@') == 1;
    NoneOccur(local, '@');
    NoneOccur(domain, '@');
  }

  lemma EarlierCut(a: string, b: string, local: string, domain: string)
    requires a + "@" + b == local + "@" + domain && |a| < |local|
    ensures '@' in b
  {
    var s := a + "@" + b;
    assert s[|local|] == '@' && s[|a| + 1..] == b;
    assert b[|local| - |a| - 1] == s[|local|];
  }

  lemma LastAt(a: string, b: string, local: string, domain: string)
    requires a + "@" + b == local + "@" + domain && '@' !in b && '@' !in domain
    ensures b == domain
  {
    if |a| < |local| {
      EarlierCut(a, b, local, domain);
    } else if |local| < |a| {
      EarlierCut(local, domain, a, b);
    } else {
      assert (a + "@" + b)[|a| + 1..] == b && (local + "@" + domain)[|local| + 1..] == domain;
    }
  }

  /* ---- Redirects ---- */

  function TrimSlashes(s: string): string {
    if s != "" && s[|s| - 1] == '/' then TrimSlashes(s[..|s| - 1]) else s
  }

  function NormalizeIssuer(issuer: string): string {
    if StartsWith(issuer, "https://") || StartsWith(issuer, "http://") then TrimSlashes(issuer)
    else "https://" + issuer
  }

  function NonEmptyTexts(items: seq<Json.Value>): seq<string> {
    if items == [] then []
    else (if items[0].Text? && items[0].s != "" then [items[0].s] else []) + NonEmptyTexts(items[1..])
  }

  function Scope(config: Json.Value): Result<string, HrdError> {
    var scopes := Json.Get(config, "scopes");
    if scopes.None? || !scopes.value.Array? then Err(MissingConfig("scopes"))
    else
      var texts := NonEmptyTexts(scopes.value.items);
      if texts == [] then Err(EmptyScopes) else Ok(Join(texts, " "))
  }

  /** Both OAuth flavours read their fields in the same order; the first missing one is reported. */
  function AuthorizeUrl(config: Json.Value, base: string, oidc: bool, state: string): Result<Discovery, HrdError> {
    var at := Json.GetText(config, base);
    var client := Json.GetText(config, "client_id");
    var redirect := Json.GetText(config, "redirect_uri");
    var scope := Scope(config);
    if at.None? then Err(MissingConfig(base))
    else if client.None? then Err(MissingConfig("client_id"))
    else if redirect.None? then Err(MissingConfig("redirect_uri"))
    else if scope.Err? then Err(scope.error)
    else if oidc then
      var endpoint := NormalizeIssuer(at.value) + "/oauth2/authorize";
      Ok(OidcRedirect(endpoint, client.value, scope.value, redirect.value, state))
    else Ok(OAuth2Redirect(at.value, client.value, scope.value, redirect.value, state))
  }

  function Redirect(row: ConnectionRow, providers: map<string, string>, state: string): Result<Discovery, HrdError> {
    match row.kind
    case Oidc => AuthorizeUrl(row.config, "issuer", true, state)
    case OAuth2 => AuthorizeUrl(row.config, "authorization_url", false, state)
    case Saml =>
      var provider := Json.GetText(row.config, "provider_id");
      if provider.None? then Err(MissingConfig("provider_id"))
      else if provider.value !in providers then Err(SamlProviderNotFound)
      else Ok(SamlRedirect(providers[provider.value]))
  }

  /* ---- What a redirect holds, on the members of the connection's config ---- */

  /** The config is an object whose member `key` is the text `text`. */
  ghost predicate Has(config: Json.Value, key: string, text: string) {
    config.Object? && key in config.fields && config.fields[key] == Json.Text(text)
  }

  ghost predicate Lacks(config: Json.Value, key: string) {
    forall text :: !Has(config, key, text)
  }

  lemma GetTextMeans(config: Json.Value, key: string)
    ensures Json.GetText(config, key).Some? <==> !Lacks(config, key)
    ensures Json.GetText(config, key).Some? ==> Has(config, key, Json.GetText(config, key).value)
  {
    if Json.GetText(config, key).Some? {
      assert Has(config, key, Json.GetText(config, key).value);
    }
  }

  /** The list member "scopes", if there is one. */
  ghost predicate HasScopes(config: Json.Value, items: seq<Json.Value>) {
    config.Object? && "scopes" in config.fields && config.fields["scopes"] == Json.Array(items)
  }

  /** The texts are the non-empty text entries of the list, in order and each as often as it occurs. */
  lemma {:induction false} NonEmptyTextsMean(items: seq<Json.Value>, more: seq<Json.Value>, text: string)
    ensures NonEmptyTexts(items + more) == NonEmptyTexts(items) + NonEmptyTexts(more)
    ensures NonEmptyTexts([Json.Text(text)]) == if text == "" then [] else [text]
    ensures forall item: Json.Value | !item.Text? :: NonEmptyTexts([item]) == []
    ensures "" !in NonEmptyTexts(items)
    decreases items
  {
    assert forall item: Json.Value :: NonEmptyTexts([item][1..]) == [];
    if items == [] {
      assert items + more == more;
    } else {
      assert (items + more)[1..] == items[1..] + more;
      NonEmptyTextsMean(items[1..], more, text);
    }
  }

  lemma {:induction false} TrimSlashesMeans(s: string)
    ensures TrimSlashes(s) <= s && (forall i | |TrimSlashes(s)| <= i < |s| :: s[i] == '/')
    ensures TrimSlashes(s) != "" ==> TrimSlashes(s)[|TrimSlashes(s)| - 1] != '/'
    decreases s
  {
    if s != "" && s[|s| - 1] == '/' {
      TrimSlashesMeans(s[..|s| - 1]);
    }
  }

  /** An issuer with a scheme loses its trailing slashes; one without gets https. */
  lemma NormalizeIssuerMeans(issuer: string)
    ensures var url := NormalizeIssuer(issuer);
            if StartsWith(issuer, "https://") || StartsWith(issuer, "http://")
            then && url <= issuer && (forall i | |url| <= i < |issuer| :: issuer[i] == '/')
                 && (url != "" ==> url[|url| - 1] != '/')
            else url == "https://" + issuer
  {
    TrimSlashesMeans(issuer);
  }

  /** What an OAuth redirect of either flavour says: the provider, the client, what is asked and where to return. */
  ghost predicate AuthorizeRedirect(config: Json.Value, d: Discovery, endpoint: string, state: string) {
    && (d.OidcRedirect? || d.OAuth2Redirect?)
    && d.endpoint == endpoint && d.state == state
    && Has(config, "client_id", d.clientId) && Has(config, "redirect_uri", d.redirectUri)
    && exists items :: && HasScopes(config, items) && NonEmptyTexts(items) != []
                       && d.scope == Join(NonEmptyTexts(items), " ")
  }

  /** The OIDC redirect goes to the normalized issuer's authorize endpoint, with the config's own client. */
  lemma OidcRedirectMeans(row: ConnectionRow, providers: map<string, string>, state: string)
    requires row.kind.Oidc? && Redirect(row, providers, state).Ok?
    ensures var d := Redirect(row, providers, state).value;
            && d.OidcRedirect?
            && exists issuer ::
                 && Has(row.config, "issuer", issuer)
                 && AuthorizeRedirect(row.config, d, NormalizeIssuer(issuer) + "/oauth2/authorize", state)
  {
    var d := Redirect(row, providers, state).value;
    var issuer := Json.GetText(row.config, "issuer").value;
    assert HasScopes(row.config, row.config.fields["scopes"].items);
    assert AuthorizeRedirect(row.config, d, NormalizeIssuer(issuer) + "/oauth2/authorize", state);
    assert Has(row.config, "issuer", issuer);
  }

  /** The OAuth2 redirect goes to the configured URL as it is. */
  lemma OAuth2RedirectMeans(row: ConnectionRow, providers: map<string, string>, state: string)
    requires row.kind.OAuth2? && Redirect(row, providers, state).Ok?
    ensures var d := Redirect(row, providers, state).value;
            && d.OAuth2Redirect?
            && exists url :: Has(row.config, "authorization_url", url) && AuthorizeRedirect(row.config, d, url, state)
  {
    var d := Redirect(row, providers, state).value;
    var url := Json.GetText(row.config, "authorization_url").value;
    assert HasScopes(row.config, row.config.fields["scopes"].items);
    assert AuthorizeRedirect(row.config, d, url, state);
    assert Has(row.config, "authorization_url", url);
  }

  /** The SAML redirect goes to the sign-on URL of the provider the config names, and fails only for want of one. */
  lemma SamlRedirectMeans(row: ConnectionRow, providers: map<string, string>, state: string)
    requires row.kind.Saml?
    ensures var r := Redirect(row, providers, state);
            && (Lacks(row.config, "provider_id") <==> r == Err(MissingConfig("provider_id")))
            && (forall id | Has(row.config, "provider_id", id) ::
                  r == if id in providers then Ok(SamlRedirect(providers[id])) else Err(SamlProviderNotFound))
  {
    GetTextMeans(row.config, "provider_id");
  }

  /** The members an OAuth connection needs, in the order in which they are missed. */
  function Needed(kind: ConnectionType): seq<string> {
    [if kind.Oidc? then "issuer" else "authorization_url", "client_id", "redirect_uri"]
  }

  ghost predicate FirstLack(config: Json.Value, needed: seq<string>, i: nat) {
    i < |needed| && Lacks(config, needed[i]) && forall j | 0 <= j < i :: !Lacks(config, needed[j])
  }

  /** The error names the first needed text that is missing, then the scope list, then its being empty; else none. */
  lemma RedirectErrorsMean(row: ConnectionRow, providers: map<string, string>, state: string)
    requires !row.kind.Saml?
    ensures var r, needed := Redirect(row, providers, state), Needed(row.kind);
            var complete := forall i | 0 <= i < 3 :: !Lacks(row.config, needed[i]);
            && (forall i: nat | FirstLack(row.config, needed, i) :: r == Err(MissingConfig(needed[i])))
            && (complete && (forall items :: !HasScopes(row.config, items)) ==> r == Err(MissingConfig("scopes")))
            && (forall items | complete && HasScopes(row.config, items) ::
                  if NonEmptyTexts(items) == [] then r == Err(EmptyScopes) else r.Ok?)
  {
    var needed := Needed(row.kind);
    forall i | 0 <= i < 3 ensures Json.GetText(row.config, needed[i]).Some? <==> !Lacks(row.config, needed[i]) {
      GetTextMeans(row.config, needed[i]);
    }
    assert Json.GetText(row.config, needed[0]).Some? <==> !Lacks(row.config, needed[0]);
    assert Json.GetText(row.config, needed[1]).Some? <==> !Lacks(row.config, needed[1]);
    assert Json.GetText(row.config, needed[2]).Some? <==> !Lacks(row.config, needed[2]);
    var scopes := Json.Get(row.config, "scopes");
    if scopes.Some? && scopes.value.Array? {
      assert HasScopes(row.config, scopes.value.items);
    }
  }

  /* ---- Discovery ---- */

  /** One call's inputs beside the tables: `parses` is the URL parser's verdict on `returnTo`,
      `providers` maps a SAML provider to its sign-on URL. */
  datatype Request = Request(
    email: string, returnTo: string, parses: bool, providers: map<string, string>, state: string)

  function ValidateRequest(q: Request): Result<(), HrdError> {
    var e := ValidateEmail(q.email);
    if e.Err? then e
    else if q.returnTo == "" then Err(MissingReturnTo)
    else if !q.parses then Err(InvalidReturnTo)
    else Ok(())
  }

  /** A request is refused for its email first, then for where it wants to return. */
  lemma RequestRefusals(q: Request)
    ensures var r := ValidateRequest(q);
            && (r == Err(MissingEmail) <==> q.email == "")
            && (r == Err(InvalidEmail) <==> q.email != "" && ValidateEmail(q.email).Err?)
            && (r == Err(MissingReturnTo) <==> ValidateEmail(q.email).Ok? && q.returnTo == "")
            && (r == Err(InvalidReturnTo) <==> ValidateEmail(q.email).Ok? && q.returnTo != "" && !q.parses)
            && (r.Ok? <==> ValidateEmail(q.email).Ok? && q.returnTo != "" && q.parses)
            && (r.Err? ==> Discover(EMPTY.tables, q) == Err(r.error))
  {
  }

  /** Row `d` is what the lookup of a domain finds. */
  predicate Holds(t: Tables, d: string, domain: string) {
    d in t.domains && t.domains[d].domain == domain
  }

  ghost predicate IsVerifiedDomain(t: Tables, domain: string) {
    (exists d :: Holds(t, d, domain)) && (var d :| Holds(t, d, domain); t.domains[d].verified)
  }

  /** Discovery over tables whose configs have been decrypted. */
  ghost function Discover(t: Tables, q: Request): Result<Discovery, HrdError> {
    var valid := ValidateRequest(q);
    var domain := DomainOf(q.email);
    if valid.Err? then Err(valid.error)
    else if !IsVerifiedDomain(t, domain) then Ok(SelectTenant(q.email, q.returnTo))
    else if !exists k :: Serves(t, k, domain) then Ok(SelectTenant(q.email, q.returnTo))
    else
      var k :| Serves(t, k, domain);
      Redirect(t.connections[k], q.providers, q.state)
  }

  /** Over any tables, reachable or not, an address whose domain nobody has verified is never redirected. */
  lemma UnverifiedIsNeverRedirected(t: Tables, q: Request)
    requires ValidateRequest(q).Ok?
    requires forall d | Holds(t, d, DomainOf(q.email)) :: !t.domains[d].verified
    ensures Discover(t, q) == Ok(SelectTenant(q.email, q.returnTo))
  {
  }

  /** A domain that a connection uses passes the verification gate. */
  lemma ConnectedIsVerified(t: Tables, k: string, domain: string)
    requires DomainsOk(t) && AllVerified(t) && Serves(t, k, domain)
    ensures IsVerifiedDomain(t, domain)
  {
    assert VerifiedFor(t, t.connections[k].tenant, domain);
    var d :| d in t.domains && t.domains[d] == DomainRow(t.connections[k].tenant, domain, true);
    assert Holds(t, d, domain);
    forall d' | Holds(t, d', domain) ensures t.domains[d'].verified {
      OneHolder(t, k, d');
    }
  }

  /** Exactly what discovery answers: the redirect of the one enabled connection for the
      address's domain, or tenant selection when there is none. */
  lemma DiscoverMeans(s: State, q: Request, k: string)
    requires Inv(s) && ValidateRequest(q).Ok?
    ensures Serves(s.tables, k, DomainOf(q.email)) ==>
              Discover(s.tables, q) == Redirect(s.tables.connections[k], q.providers, q.state)
    ensures (forall l :: !Serves(s.tables, l, DomainOf(q.email))) ==>
              Discover(s.tables, q) == Ok(SelectTenant(q.email, q.returnTo))
  {
    if Serves(s.tables, k, DomainOf(q.email)) {
      ConnectedIsVerified(s.tables, k, DomainOf(q.email));
    }
  }

  /** A redirect to an identity provider comes from an enabled connection of a tenant that
      has verified the domain of the address, and from nothing else. */
  ghost predicate Justified(t: Tables, q: Request, result: Discovery) {
    exists k, local, domain ::
      && q.email == local + "@" + domain && '@' !in local && '@' !in domain
      && Serves(t, k, domain) && VerifiedFor(t, t.connections[k].tenant, domain)
      && Redirect(t.connections[k], q.providers, q.state) == Ok(result)
  }

  lemma RedirectIsJustified(s: State, q: Request)
    requires Inv(s)
    requires Discover(s.tables, q).Ok? && !Discover(s.tables, q).value.SelectTenant?
    ensures Justified(s.tables, q, Discover(s.tables, q).value)
  {
    var t, domain := s.tables, DomainOf(q.email);
    var k :| Serves(t, k, domain);
    DiscoverMeans(s, q, k);
    EmailMeans(q.email, domain);
    var local :| '@' !in local && q.email == local + "@" + domain;
    assert VerifiedFor(t, t.connections[k].tenant, domain);
  }

  lemma EmptyInv()
    ensures Inv(EMPTY)
  {
  }

  /** From empty tables, whatever happened and whatever the key state: discovery answers as
      over configs that were never encrypted, and every redirect is justified. */
  lemma DiscoveryIsSafe(c: Codec, es: seq<Event>, q: Request)
    requires Lawful(c.cipher)
    ensures var t := View(c, Run(Sealed(c), EMPTY, es).tables);
            && Discover(t, q) == Discover(Run(Plain, EMPTY, es).tables, q)
            && (Discover(t, q).Ok? && !Discover(t, q).value.SelectTenant? ==> Justified(t, q, Discover(t, q).value))
  {
    assert ViewState(c, EMPTY) == EMPTY by {
      assert View(c, EMPTY.tables).connections == map[];
    }
    SealedRefinesPlain(c, EMPTY, es);
    EmptyInv();
    RunKeepsInv(Plain, EMPTY, es);
    var s := Run(Plain, EMPTY, es);
    if Discover(s.tables, q).Ok? && !Discover(s.tables, q).value.SelectTenant? {
      RedirectIsJustified(s, q);
    }
  }
}
