/**
  Translation between the branded gateway paths and the Kratos self-service
  paths behind them, by one table read in order in both directions.
 */
module KratosPaths {
  import opened Wrappers
  import opened Text
  import opened BrandedPaths

  const KRATOS: seq<string> := [
    "/self-service/login/browser",
    "/self-service/registration/browser",
    "/self-service/settings/browser",
    "/self-service/recovery/browser",
    "/self-service/verification/browser",
    "/self-service/logout/browser",
    "/self-service/recovery",
    "/self-service/verification",
    "/self-service/logout",
    "/self-service/errors",
    "/self-service/methods/oidc/callback",
    "/.well-known/ory/webauthn.js"]

  /** The gateway column of the table. */
  function Gateway(p: SelfServicePaths): (r: seq<string>)
    ensures |r| == |KRATOS| == 12
  {
    [p.login, p.registration, p.settings, p.recovery, p.verification, p.logout,
     p.recovery, p.verification, p.logout, p.errors, p.oidcCallback, p.webauthnJs]
  }

  /** What follows `prefix` in `path`, if `path` is `prefix` or lies below it. */
  function MatchPrefix(path: string, prefix: string): Option<string> {
    if path == prefix then Some("")
    else if StartsWith(path, prefix) && StartsWith(path[|prefix|..], "/") then Some(path[|prefix|..])
    else None
  }

  lemma MatchIsUnder(path: string, prefix: string)
    ensures MatchPrefix(path, prefix).Some? <==> Under(path, prefix)
    ensures forall s :: MatchPrefix(path, prefix) == Some(s) ==> path == prefix + s
  {
    if StartsWith(path, prefix + "/") {
      assert path[..|prefix| + 1] == prefix + "/";
      assert StartsWith(path, prefix) && path[|prefix|] == '/';
    }
  }

  /** Rewrites `path` by the first row at or after `k` whose `from` entry matches. */
  function Translate(from: seq<string>, to: seq<string>, path: string, k: nat): Option<string>
    requires |from| == |to|
    decreases |from| - k
  {
    if k >= |from| then None
    else
      var m := MatchPrefix(path, from[k]);
      if m.Some? then Some(to[k] + m.value) else Translate(from, to, path, k + 1)
  }

  function KratosPathForGateway(p: SelfServicePaths, path: string): Option<string> {
    Translate(Gateway(p), KRATOS, path, 0)
  }

  function GatewayPathForKratos(p: SelfServicePaths, path: string): Option<string> {
    Translate(KRATOS, Gateway(p), path, 0)
  }

  /* ---- The first matching row ---- */

  /** Row `i` is the one a translation of `path` uses. */
  ghost predicate FirstRow(from: seq<string>, path: string, i: nat) {
    && i < |from| && Under(path, from[i])
    && forall j | 0 <= j < i :: !Under(path, from[j])
  }

  lemma {:induction false} TranslateByRow(from: seq<string>, to: seq<string>, path: string, i: nat, k: nat)
    requires |from| == |to| && FirstRow(from, path, i) && k <= i
    ensures StartsWith(path, from[i])
    ensures Translate(from, to, path, k) == Some(to[i] + path[|from[i]|..])
    decreases i - k
  {
    MatchIsUnder(path, from[k]);
    if k < i {
      TranslateByRow(from, to, path, i, k + 1);
    }
  }

  lemma {:induction false} TranslateHasRow(from: seq<string>, to: seq<string>, path: string, k: nat) returns (i: nat)
    requires |from| == |to| && k <= |from|
    requires forall j | 0 <= j < k :: !Under(path, from[j])
    ensures Translate(from, to, path, k).Some? ==> FirstRow(from, path, i)
    ensures Translate(from, to, path, k).None? ==> forall j | 0 <= j < |from| :: !Under(path, from[j])
    decreases |from| - k
  {
    if k == |from| {
      return 0;
    }
    MatchIsUnder(path, from[k]);
    if Under(path, from[k]) {
      return k;
    }
    i := TranslateHasRow(from, to, path, k + 1);
  }

  /** Skipping bearer authentication is decided by this translation: it succeeds on
      exactly the paths at or below a configured one. */
  lemma TranslatesIffBrowserPath(p: SelfServicePaths, path: string)
    ensures KratosPathForGateway(p, path).Some? <==> IsBrowserPath(p, path)
  {
    var g, v := Gateway(p), Vars(p);
    assert forall i | 0 <= i < 6 :: g[i] == v[i];
    assert g[9] == v[6] && g[10] == v[7] && g[11] == v[8];
    assert forall i | 6 <= i < 9 :: g[i] == v[i - 3];
    var i := TranslateHasRow(g, KRATOS, path, 0);
    if IsBrowserPath(p, path) {
      var j :| 0 <= j < 9 && Under(path, v[j]);
      var row := if j < 6 then j else j + 3;
      assert g[row] == v[j];
    }
  }

  /* ---- The Kratos column ---- */

  /** The flow a row belongs to: recovery, verification and logout have two rows each. */
  function Flow(i: nat): nat {
    if 6 <= i < 9 then i - 3 else i
  }

  /** Characters that tell the flows apart. */
  function Mark(s: string): (char, char, char, char)
    requires |s| >= 18
  {
    (s[1], s[14], s[16], s[17])
  }

  function MarkOf(flow: nat): (char, char, char, char) {
    match flow
    case 0 => ('s', 'l', 'g', 'i')
    case 1 => ('s', 'r', 'g', 'i')
    case 2 => ('s', 's', 't', 't')
    case 3 => ('s', 'r', 'c', 'o')
    case 4 => ('s', 'v', 'r', 'i')
    case 5 => ('s', 'l', 'g', 'o')
    case 9 => ('s', 'e', 'r', 'o')
    case 10 => ('s', 'm', 't', 'h')
    case _ => ('.', 'r', '/', 'w')
  }

  lemma KratosMark(i: nat)
    requires i < 12
    ensures |KRATOS[i]| >= 18 && Mark(KRATOS[i]) == MarkOf(Flow(i))
  {
  }

  /** A Kratos path belongs to one flow. */
  lemma OneFlow(path: string, i: nat, j: nat)
    requires i < 12 && j < 12 && Under(path, KRATOS[i]) && Under(path, KRATOS[j])
    ensures Flow(i) == Flow(j)
  {
    KratosMark(i);
    KratosMark(j);
    assert Mark(path) == Mark(KRATOS[i]);
    assert Mark(path) == Mark(KRATOS[j]);
  }

  /* ---- Round trips ---- */

  lemma Rebase(path: string, from: string, to: string)
    requires Under(path, from)
    ensures StartsWith(path, from)
    ensures var moved := to + path[|from|..];
            Under(moved, to) && StartsWith(moved, to) && moved[|to|..] == path[|from|..]
  {
    if path != from {
      assert path[..|from| + 1] == from + "/";
      var moved := to + path[|from|..];
      assert moved[|to|] == path[|from|] == '/';
      assert moved[..|to| + 1] == to + "/";
    } else {
      assert to + path[|from|..] == to;
    }
  }

  /** Gateway to Kratos and back is the identity on the whole branded surface, whatever is configured. */
  lemma GatewayRoundTrip(p: SelfServicePaths, path: string)
    requires IsBrowserPath(p, path)
    ensures var k := KratosPathForGateway(p, path);
            k.Some? && GatewayPathForKratos(p, k.value) == Some(path)
  {
    var g := Gateway(p);
    TranslatesIffBrowserPath(p, path);
    var i := TranslateHasRow(g, KRATOS, path, 0);
    TranslateByRow(g, KRATOS, path, i, 0);
    assert g[6] == g[3] && g[7] == g[4] && g[8] == g[5];
    var k := KRATOS[i] + path[|g[i]|..];
    Rebase(path, g[i], KRATOS[i]);
    forall j | 0 <= j < i ensures !Under(k, KRATOS[j]) {
      if Under(k, KRATOS[j]) {
        OneFlow(k, i, j);
      }
    }
    TranslateByRow(KRATOS, g, k, i, 0);
    assert g[i] + path[|g[i]|..] == path;
  }

  /** Hence two gateway paths never reach the same Kratos path. */
  lemma GatewayIsInjective(p: SelfServicePaths, a: string, b: string)
    requires IsBrowserPath(p, a) && IsBrowserPath(p, b)
    requires KratosPathForGateway(p, a) == KratosPathForGateway(p, b)
    ensures a == b
  {
    GatewayRoundTrip(p, a);
    GatewayRoundTrip(p, b);
  }

  /** Kratos to gateway and back returns the Kratos path exactly when no row above
      its own claims the gateway path it was given. */
  lemma KratosRoundTripIff(p: SelfServicePaths, path: string, i: nat)
    requires FirstRow(KRATOS, path, i)
    ensures var g := GatewayPathForKratos(p, path);
            && g.Some?
            && (KratosPathForGateway(p, g.value) == Some(path) <==>
                forall j | 0 <= j < i :: !Under(g.value, Gateway(p)[j]))
  {
    var col := Gateway(p);
    TranslateByRow(KRATOS, col, path, i, 0);
    var g := col[i] + path[|KRATOS[i]|..];
    Rebase(path, KRATOS[i], col[i]);
    var h := TranslateHasRow(col, KRATOS, g, 0);
    if forall j | 0 <= j < i :: !Under(g, col[j]) {
      TranslateByRow(col, KRATOS, g, i, 0);
      assert KRATOS[i] + path[|KRATOS[i]|..] == path;
    } else {
      assert KratosPathForGateway(p, g).Some? by {
        if KratosPathForGateway(p, g).None? {
          assert Under(g, col[i]);
        }
      }
      TranslateByRow(col, KRATOS, g, h, 0);
      assert h < i;
      Rebase(g, col[h], KRATOS[h]);
      assert !Under(path, KRATOS[h]);
    }
  }

  /** No configured path lies below another one. */
  ghost predicate Flat(p: SelfServicePaths) {
    forall i, j | 0 <= i < 9 && 0 <= j < 9 && i != j :: !StartsWith(Vars(p)[i], Vars(p)[j] + "/")
  }

  lemma UnderBoth(path: string, a: string, b: string)
    requires Under(path, a) && Under(path, b)
    ensures a == b || StartsWith(a, b + "/") || StartsWith(b, a + "/")
  {
    assert a == path[..|a|] && b == path[..|b|];
    if |a| < |b| {
      assert path[..|a| + 1] == a + "/";
      assert b[..|a| + 1] == a + "/";
    } else if |b| < |a| {
      assert path[..|b| + 1] == b + "/";
      assert a[..|b| + 1] == b + "/";
    }
  }

  /** For accepted and flat paths, every Kratos path outside the short forms of recovery,
      verification and logout survives the round trip. */
  lemma FlatPathsRoundTrip(p: SelfServicePaths, path: string, i: nat)
    requires Acceptable(p) && Flat(p) && FirstRow(KRATOS, path, i) && !(6 <= i < 9)
    ensures var g := GatewayPathForKratos(p, path);
            g.Some? && KratosPathForGateway(p, g.value) == Some(path)
  {
    KratosRoundTripIff(p, path, i);
    var col, v := Gateway(p), Vars(p);
    TranslateByRow(KRATOS, col, path, i, 0);
    var g := GatewayPathForKratos(p, path).value;
    Rebase(path, KRATOS[i], col[i]);
    forall j | 0 <= j < i ensures !Under(g, col[j]) {
      var vi := if i < 6 then i else i - 3;
      var vj := Flow(j) - (if j >= 9 then 3 else 0);
      assert col[i] == v[vi] && col[j] == v[vj] && vi != vj;
      if Under(g, col[j]) {
        UnderBoth(g, col[i], col[j]);
      }
    }
  }

  /** The Kratos flow behind each configured variable. */
  function FlowPath(i: nat): string {
    match i
    case 0 => "/self-service/login/browser"
    case 1 => "/self-service/registration/browser"
    case 2 => "/self-service/settings/browser"
    case 3 => "/self-service/recovery/browser"
    case 4 => "/self-service/verification/browser"
    case 5 => "/self-service/logout/browser"
    case 6 => "/self-service/errors"
    case 7 => "/self-service/methods/oidc/callback"
    case _ => "/.well-known/ory/webauthn.js"
  }

  /** For accepted and flat paths, each variable's page reaches its own flow, with what follows the page kept. */
  lemma PagesReachTheirFlows(p: SelfServicePaths, i: nat, suffix: string)
    requires Acceptable(p) && Flat(p) && i < 9 && (suffix == "" || suffix[0] == '/')
    ensures KratosPathForGateway(p, Vars(p)[i] + suffix) == Some(FlowPath(i) + suffix)
  {
    var v, col := Vars(p), Gateway(p);
    var row := if i < 6 then i else i + 3;
    var path := v[i] + suffix;
    assert col[row] == v[i] && KRATOS[row] == FlowPath(i);
    SuffixIsUnder(v[i], suffix);
    forall j | 0 <= j < row ensures !Under(path, col[j]) {
      var vj := Flow(j) - (if j >= 9 then 3 else 0);
      assert col[j] == v[vj] && vj != i;
      if Under(path, col[j]) {
        UnderBoth(path, v[i], col[j]);
      }
    }
    assert FirstRow(col, path, row);
    TranslateByRow(col, KRATOS, path, row, 0);
    assert path[|v[i]|..] == suffix;
  }

  lemma SuffixIsUnder(base: string, suffix: string)
    requires suffix == "" || suffix[0] == '/'
    ensures Under(base + suffix, base)
  {
    if suffix == "" {
      assert base + suffix == base;
    } else {
      assert (base + suffix)[..|base| + 1] == base + "/";
    }
  }

  /** The short forms do not: they come back as the browser form of their flow. */
  lemma ShortFormsChange(p: SelfServicePaths, path: string, i: nat)
    requires FirstRow(KRATOS, path, i) && 6 <= i < 9
    ensures var g := GatewayPathForKratos(p, path);
            g.Some? && KratosPathForGateway(p, g.value) != Some(path)
  {
    KratosRoundTripIff(p, path, i);
    TranslateByRow(KRATOS, Gateway(p), path, i, 0);
    Rebase(path, KRATOS[i], Gateway(p)[i]);
    assert Gateway(p)[i - 3] == Gateway(p)[i];
  }

  /** Accepted paths may nest, and then a page is served by another flow: with the settings
      page below the login page, the settings page reaches Kratos as login. */
  lemma NestedPathsMisroute(p: SelfServicePaths)
    requires StartsWith(p.settings, p.login + "/")
    ensures Routes(p, Exact(2), p.settings)
    ensures KratosPathForGateway(p, p.settings) == Some("/self-service/login/browser" + p.settings[|p.login|..])
  {
    assert FirstRow(Gateway(p), p.settings, 0);
    TranslateByRow(Gateway(p), KRATOS, p.settings, 0, 0);
  }

  lemma NotReserved()
    ensures !UnderReserved("/a/x")
  {
    forall k | 0 <= k < |RESERVED_PREFIXES| ensures !Under("/a/x", RESERVED_PREFIXES[k]) {
      assert |RESERVED_PREFIXES[k]| >= 4 && RESERVED_PREFIXES[k][2] != '/';
    }
  }

  lemma NestedPathsAreAccepted(p: SelfServicePaths)
    requires p == SelfServicePaths("/a", "/b", "/a/x", "/d", "/e", "/f", "/g", "/k", "/m")
    ensures Acceptable(p) && StartsWith(p.settings, p.login + "/")
  {
    var all := Vars(p);
    forall i | 0 <= i < 9 ensures WellFormed(all[i]) {
      if i == 2 {
        NotReserved();
      } else {
        ShortIsFree(all[i]);
      }
    }
    assert (p.oidcCallback + "/")[1] == 'k';
  }
}
