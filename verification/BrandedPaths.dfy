/**
  Validation of the nine configurable self-service paths, and what it buys the
  router and the auth middleware. Request paths are read literally.
 */
module BrandedPaths {
  import opened Wrappers
  import opened Text

  const RESERVED_PREFIXES: seq<string> := [
    "/oauth2", "/saml", "/scim", "/callbacks", "/iam", "/.well-known", "/health", "/self-service"]

  datatype SelfServicePaths = SelfServicePaths(
    login: string, registration: string, settings: string, recovery: string, verification: string,
    logout: string, errors: string, oidcCallback: string, webauthnJs: string)

  const OIDC_CALLBACK := 7

  /** The configured paths in the order of their variables. */
  function Vars(p: SelfServicePaths): seq<string> {
    [p.login, p.registration, p.settings, p.recovery, p.verification, p.logout, p.errors, p.oidcCallback, p.webauthnJs]
  }

  /** `path` is `prefix` or lies below it at a segment boundary. */
  predicate Under(path: string, prefix: string) {
    path == prefix || StartsWith(path, prefix + "/")
  }

  predicate UnderReserved(path: string) {
    exists i :: 0 <= i < |RESERVED_PREFIXES| && Under(path, RESERVED_PREFIXES[i])
  }

  /* ---- Validation ---- */

  datatype ConfigError =
    | NotAbsolute(index: nat)
    | NotBare(index: nat)
    | Reserved(index: nat)
    | NotDistinct(index: nat, other: nat)
    | UnderCallback(index: nat)

  predicate Absolute(path: string) {
    path != "" && path[0] == '/' && |path| != 1
  }

  predicate Bare(path: string) {
    path != "" && path[|path| - 1] != '/' && '?' !in path && '#' !in path
  }

  /** The demands on one path alone. */
  predicate WellFormed(path: string) {
    Absolute(path) && Bare(path) && !UnderReserved(path)
  }

  ghost predicate Distinct(all: seq<string>) {
    forall i, j | 0 <= i < j < |all| :: all[i] != all[j]
  }

  /** No other path lives below the callback, which also matches one more segment. */
  ghost predicate CallbackClear(all: seq<string>, callback: string) {
    forall i | 0 <= i < |all| && all[i] != callback :: !StartsWith(all[i], callback + "/")
  }

  ghost predicate Acceptable(p: SelfServicePaths) {
    && (forall i | 0 <= i < 9 :: WellFormed(Vars(p)[i]))
    && Distinct(Vars(p)) && CallbackClear(Vars(p), p.oidcCallback)
  }

  /** The fault that an error reports is really there; faults of form come in the order they are tried. */
  ghost predicate Offends(p: SelfServicePaths, error: ConfigError)
    requires error.index < 9
  {
    var path := Vars(p)[error.index];
    match error
    case NotAbsolute(_) => !Absolute(path)
    case NotBare(_) => Absolute(path) && !Bare(path)
    case Reserved(_) => Absolute(path) && Bare(path) && UnderReserved(path)
    case NotDistinct(index, other) => index < other < 9 && Vars(p)[other] == path
    case UnderCallback(_) => path != p.oidcCallback && StartsWith(path, p.oidcCallback + "/")
  }

  /** No earlier variable has a fault of the same pass, and no variable has one of an earlier pass. */
  ghost predicate First(p: SelfServicePaths, error: ConfigError) {
    var all := Vars(p);
    if error.NotAbsolute? || error.NotBare? || error.Reserved? then
      forall i | 0 <= i < error.index && i < 9 :: WellFormed(all[i])
    else
      && (forall i | 0 <= i < 9 :: WellFormed(all[i]))
      && (forall i, j | 0 <= i < error.index && i < j < 9 :: all[i] != all[j])
      && (forall i | 0 <= i < error.index && i < 9 && all[i] != p.oidcCallback ::
            !StartsWith(all[i], p.oidcCallback + "/"))
      && (error.NotDistinct? ==> forall j | error.index < j < error.other && j < 9 :: all[error.index] != all[j])
      && (error.UnderCallback? ==> forall j | error.index < j < 9 :: all[error.index] != all[j])
  }

  /** Both passes of the check; the error names the first offending variable. */
  method Validate(p: SelfServicePaths) returns (res: Result<(), ConfigError>)
    ensures res.Ok? <==> Acceptable(p)
    ensures res.Err? ==> 0 <= res.error.index < 9
    ensures res.Err? ==> Offends(p, res.error) && First(p, res.error)
  {
    var all := Vars(p);
    for i := 0 to 9
      invariant forall k | 0 <= k < i :: WellFormed(all[k])
    {
      var path := all[i];
      if !StartsWith(path, "/") || |path| == 1 {
        return Err(NotAbsolute(i));
      }
      if path[|path| - 1] == '/' || '?' in path || '#' in path {
        return Err(NotBare(i));
      }
      if UnderReserved(path) {
        return Err(Reserved(i));
      }
    }
    for i := 0 to 9
      invariant forall k, l | 0 <= k < i && k < l < 9 :: all[k] != all[l]
      invariant forall k | 0 <= k < i && all[k] != p.oidcCallback :: !StartsWith(all[k], p.oidcCallback + "/")
    {
      for j := i + 1 to 9
        invariant forall l | i < l < j :: all[i] != all[l]
      {
        if all[i] == all[j] {
          return Err(NotDistinct(i, j));
        }
      }
      if all[i] != p.oidcCallback && StartsWith(all[i], p.oidcCallback + "/") {
        assert !CallbackClear(all, p.oidcCallback);
        return Err(UnderCallback(i));
      }
    }
    return Ok(());
  }

  /* ---- Routing ---- */

  /** The ten branded routes: one per variable, and the callback with a provider segment. */
  datatype Route = Exact(index: nat) | Provider

  predicate Segment(s: string) {
    s != "" && '/' !in s
  }

  ghost predicate Routes(p: SelfServicePaths, route: Route, request: string) {
    match route
    case Exact(i) => i < 9 && request == Vars(p)[i]
    case Provider =>
      && StartsWith(request, p.oidcCallback + "/")
      && Segment(request[|p.oidcCallback| + 1..])
  }

  /** With accepted paths, no request matches two branded routes. */
  lemma RoutesAreExclusive(p: SelfServicePaths, a: Route, b: Route, request: string)
    requires Acceptable(p) && Routes(p, a, request) && Routes(p, b, request)
    ensures a == b
  {
    var all := Vars(p);
    assert all[OIDC_CALLBACK] == p.oidcCallback;
  }

  /** A reserved prefix is one segment. */
  lemma ReservedAreSegments(i: nat)
    requires i < |RESERVED_PREFIXES|
    ensures var prefix := RESERVED_PREFIXES[i];
            |prefix| > 1 && prefix[0] == '/' && '/' !in prefix[1..]
  {
  }

  /** Going below a path that avoids a one-segment prefix still avoids it. */
  lemma BelowStaysOutside(base: string, rest: string, prefix: string)
    requires |prefix| > 1 && prefix[0] == '/' && '/' !in prefix[1..]
    requires base != "" && !Under(base, prefix)
    ensures !Under(base + "/" + rest, prefix)
  {
    var path := base + "/" + rest;
    assert path[|base|] == '/';
    if |base| < |prefix| {
      assert prefix[|base|] == prefix[1..][|base| - 1];
    } else if |base| == |prefix| {
      assert path[..|base|] == base;
    } else {
      assert path[..|prefix| + 1] == base[..|prefix| + 1];
    }
  }

  /** A path equal to or below a branded path; the middleware lets these skip bearer authentication. */
  ghost predicate IsBrowserPath(p: SelfServicePaths, request: string) {
    exists i :: 0 <= i < 9 && Under(request, Vars(p)[i])
  }

  lemma RoutesAreBrowserPaths(p: SelfServicePaths, route: Route, request: string)
    requires Routes(p, route, request)
    ensures IsBrowserPath(p, request)
  {
    assert Vars(p)[OIDC_CALLBACK] == p.oidcCallback;
    var i := if route.Exact? then route.index else OIDC_CALLBACK;
    assert Under(request, Vars(p)[i]);
  }

  /** No browser path, hence no branded route, lies under a reserved prefix. */
  lemma BrowserPathsAvoidReserved(p: SelfServicePaths, request: string)
    requires Acceptable(p) && IsBrowserPath(p, request)
    ensures !UnderReserved(request)
  {
    var i :| 0 <= i < 9 && Under(request, Vars(p)[i]);
    var base := Vars(p)[i];
    assert WellFormed(base);
    forall k | 0 <= k < |RESERVED_PREFIXES| ensures !Under(request, RESERVED_PREFIXES[k]) {
      assert !Under(base, RESERVED_PREFIXES[k]);
      if request != base {
        ReservedAreSegments(k);
        var rest := request[|base| + 1..];
        assert request == base + "/" + rest;
        BelowStaysOutside(base, rest, RESERVED_PREFIXES[k]);
      }
    }
  }

  /* ---- Paths that skip the bearer-token middleware ---- */

  const PUBLIC_PATHS: seq<string> := [
    "/.well-known/openid-configuration", "/.well-known/jwks.json",
    "/oauth2/auth", "/oauth2/token", "/oauth2/revoke", "/oauth2/userinfo", "/userinfo",
    "/oauth2/register", "/oauth2/introspect",
    "/saml/metadata", "/saml/acs", "/saml/sso",
    "/callbacks/oidc", "/callbacks/oauth2",
    "/scim/v2/ServiceProviderConfig", "/scim/v2/ResourceTypes", "/scim/v2/Schemas",
    "/self-service/recovery", "/self-service/verification",
    "/health", "/health/ready", "/health/live"]

  predicate IsPublicPath(path: string) {
    path in PUBLIC_PATHS || StartsWith(path, "/oauth2/device/") || StartsWith(path, "/oauth2/register/")
  }

  /** The reserved prefix that covers each literal public path; `/userinfo` has none. */
  function CoverOf(k: nat): nat {
    if k < 2 then 5 else if k < 9 then 0 else if k < 12 then 1 else if k < 14 then 3
    else if k < 17 then 2 else if k < 19 then 7 else 6
  }

  lemma LiteralIsCovered(k: nat)
    requires k < |PUBLIC_PATHS| && k != 6
    ensures UnderReserved(PUBLIC_PATHS[k])
  {
    assert Under(PUBLIC_PATHS[k], RESERVED_PREFIXES[CoverOf(k)]);
  }

  /** Every public path but one lies under a prefix that branded paths must avoid. */
  lemma PublicIsReservedExceptUserinfo(path: string)
    requires IsPublicPath(path)
    ensures UnderReserved(path) <==> path != "/userinfo"
  {
    if path in PUBLIC_PATHS {
      var k :| 0 <= k < |PUBLIC_PATHS| && PUBLIC_PATHS[k] == path;
      if k != 6 {
        LiteralIsCovered(k);
        UserinfoIsFree();
      } else {
        UserinfoIsFree();
      }
    } else {
      assert Under(path, RESERVED_PREFIXES[0]);
      UserinfoIsFree();
    }
  }

  lemma UserinfoIsFree()
    ensures !UnderReserved("/userinfo")
  {
    forall i | 0 <= i < |RESERVED_PREFIXES| ensures !Under("/userinfo", RESERVED_PREFIXES[i]) {
      var prefix := RESERVED_PREFIXES[i];
      assert prefix[1] != 'u' && (prefix + "/")[1] == prefix[1];
    }
  }

  lemma BelowHasSlash(path: string, base: string)
    requires base != "" && Under(path, base) && path != base
    ensures '/' in path[1..]
  {
    assert path[1..][|base| - 1] == (base + "/")[|base|];
  }

  /** With accepted paths, the branded surface and the public paths can meet only at `/userinfo`,
      and do so exactly when that path itself is configured. */
  lemma BrowserPathsArePublicOnlyAtUserinfo(p: SelfServicePaths, request: string)
    requires Acceptable(p) && IsBrowserPath(p, request)
    ensures IsPublicPath(request) <==> request == "/userinfo"
    ensures request == "/userinfo" ==> request in Vars(p)
  {
    BrowserPathsAvoidReserved(p, request);
    if IsPublicPath(request) {
      PublicIsReservedExceptUserinfo(request);
    }
    if request == "/userinfo" {
      assert PUBLIC_PATHS[6] == request;
      var i :| 0 <= i < 9 && Under(request, Vars(p)[i]);
      var base := Vars(p)[i];
      assert WellFormed(base);
      if request != base {
        BelowHasSlash(request, base);
      }
    }
  }

  /** For requests that a branded route matches: none is reserved, and only `/userinfo` can be public. */
  lemma RoutesAvoidReservedAndPublic(p: SelfServicePaths, route: Route, request: string)
    requires Acceptable(p) && Routes(p, route, request)
    ensures !UnderReserved(request)
    ensures IsPublicPath(request) <==> request == "/userinfo"
    ensures IsPublicPath(request) ==> route.Exact?
  {
    RoutesAreBrowserPaths(p, route, request);
    BrowserPathsAvoidReserved(p, request);
    BrowserPathsArePublicOnlyAtUserinfo(p, request);
    if route.Provider? {
      assert WellFormed(Vars(p)[OIDC_CALLBACK]) && Vars(p)[OIDC_CALLBACK] == p.oidcCallback;
      BelowHasSlash(request, p.oidcCallback);
    }
  }

  lemma ShortIsFree(path: string)
    requires |path| < 4
    ensures !UnderReserved(path)
  {
    forall k | 0 <= k < |RESERVED_PREFIXES| ensures !Under(path, RESERVED_PREFIXES[k]) {
      assert |RESERVED_PREFIXES[k]| >= 4;
    }
  }

  /** The gap is real: a configuration that puts the login page at `/userinfo` is accepted. */
  lemma UserinfoIsAccepted(p: SelfServicePaths)
    requires p == SelfServicePaths("/userinfo", "/b", "/c", "/d", "/e", "/f", "/g", "/h", "/i")
    ensures Acceptable(p) && IsPublicPath(p.login) && Routes(p, Exact(0), p.login)
  {
    assert PUBLIC_PATHS[6] == p.login;
    UserinfoIsFree();
    var all := Vars(p);
    forall i | 0 <= i < 9 ensures WellFormed(all[i]) {
      if i > 0 {
        ShortIsFree(all[i]);
      }
    }
    assert (p.oidcCallback + "/")[1] == 'h';
  }
}
