/** Reserved prefixes and public paths told by the segments of a path. */
module PublicPaths {
  import opened Text
  import opened BrandedPaths

  /** The pieces between slashes; an absolute path has an empty first piece. */
  function Pieces(path: string): seq<string> {
    Split(path, '/')
  }

  /** A path is given by its pieces. */
  lemma PathIsItsPieces(path: string, words: seq<string>)
    requires words != [] && forall i | 0 <= i < |words| :: Free(words[i], '/')
    ensures path == Join(words, "/") <==> Pieces(path) == words
  {
    JoinSplit(path, '/');
    SplitJoin(words, '/');
  }

  lemma JoinTwo(a: string)
    ensures Join(["", a], "/") == "/" + a
  {
    assert ["", a][1..] == [a];
  }

  lemma JoinMore(a: string, rest: seq<string>)
    requires rest != []
    ensures Join(["", a] + rest, "/") == "/" + a + "/" + Join(rest, "/")
  {
    assert (["", a] + rest)[1..] == [a] + rest && ([a] + rest)[1..] == rest;
  }

  lemma JoinThree(a: string, b: string)
    ensures Join(["", a, b], "/") == "/" + a + "/" + b
  {
    assert ["", a, b] == ["", a] + [b];
    JoinMore(a, [b]);
  }

  lemma JoinFour(a: string, b: string, c: string)
    ensures Join(["", a, b, c], "/") == "/" + a + "/" + b + "/" + c
  {
    assert ["", a, b, c] == ["", a] + [b, c] && [b, c][1..] == [c];
    JoinMore(a, [b, c]);
  }

  /* ---- Reserved prefixes ---- */

  const RESERVED_NAMES: seq<string> := [
    "oauth2", "saml", "scim", "callbacks", "iam", ".well-known", "health", "self-service"]

  /** A path is at or below a one-segment prefix exactly when its first segment is that one. */
  lemma UnderIsFirstSegment(path: string, name: string)
    requires Free(name, '/')
    ensures Under(path, "/" + name) <==> |Pieces(path)| >= 2 && Pieces(path)[0] == "" && Pieces(path)[1] == name
  {
    var s := Pieces(path);
    if path == "/" + name {
      SplitOfPiece("", name, '/');
      SplitOfPiece(name, "", '/');
      assert path == "" + ['/'] + name;
    } else if StartsWith(path, "/" + name + "/") {
      var rest := path[|name| + 2..];
      assert path == "" + ['/'] + (name + ['/'] + rest);
      SplitOfPiece("", name + ['/'] + rest, '/');
      SplitOfPiece(name, rest, '/');
    }
    if |s| >= 2 && s[0] == "" && s[1] == name {
      JoinSplit(path, '/');
      if |s| == 2 {
        assert s == ["", name];
        JoinTwo(name);
      } else {
        assert s == ["", name] + s[2..];
        JoinMore(name, s[2..]);
        assert path[..|name| + 2] == "/" + name + "/";
      }
    }
  }

  lemma ReservedName(i: nat)
    requires i < 8
    ensures RESERVED_PREFIXES[i] == "/" + RESERVED_NAMES[i] && Free(RESERVED_NAMES[i], '/')
  {
  }

  /** The reserved paths are those whose first segment is one of the eight names. */
  lemma ReservedMeans(path: string)
    ensures UnderReserved(path) <==>
            |Pieces(path)| >= 2 && Pieces(path)[0] == "" && Pieces(path)[1] in RESERVED_NAMES
  {
    forall i | 0 <= i < 8
      ensures Under(path, RESERVED_PREFIXES[i]) <==>
              |Pieces(path)| >= 2 && Pieces(path)[0] == "" && Pieces(path)[1] == RESERVED_NAMES[i]
    {
      ReservedName(i);
      UnderIsFirstSegment(path, RESERVED_NAMES[i]);
    }
    assert |RESERVED_PREFIXES| == 8 == |RESERVED_NAMES|;
  }

  /* ---- Well-formed paths ---- */

  ghost predicate SomePieceHas(pieces: seq<string>, c: char) {
    exists i :: 0 <= i < |pieces| && c in pieces[i]
  }

  lemma FirstOrLater(piece: string, rest: seq<string>, c: char)
    ensures SomePieceHas([piece] + rest, c) <==> c in piece || SomePieceHas(rest, c)
  {
    var all := [piece] + rest;
    if i :| 0 <= i < |rest| && c in rest[i] {
      assert c in all[i + 1];
    }
    if c in piece {
      assert c in all[0];
    }
  }

  /** A character other than the separator is in a text exactly when it is in one of its pieces. */
  lemma {:induction false} PiecesHold(s: string, sep: char, c: char)
    requires c != sep
    ensures c in s <==> SomePieceHas(Split(s, sep), c)
    decreases s
  {
    if s != "" {
      var rest := Split(s[1..], sep);
      PiecesHold(s[1..], sep, c);
      SplitCons(s, sep);
      assert s == [s[0]] + s[1..];
      if s[0] == sep {
        FirstOrLater("", rest, c);
      } else {
        assert rest == [rest[0]] + rest[1..];
        FirstOrLater(rest[0], rest[1..], c);
        FirstOrLater([s[0]] + rest[0], rest[1..], c);
      }
    }
  }

  lemma {:induction false} LastPiece(s: string, sep: char)
    ensures |Split(s, sep)| >= 1
    ensures s != "" ==> (s[|s| - 1] == sep <==> Split(s, sep)[|Split(s, sep)| - 1] == "")
    decreases s
  {
    SplitPieces(s, sep);
    if |s| == 1 {
      SplitCons(s, sep);
      assert Split(s[1..], sep) == [""];
    } else if |s| > 1 {
      SplitCons(s, sep);
      LastPiece(s[1..], sep);
    }
  }

  lemma FirstPiece(s: string, sep: char)
    ensures |Split(s, sep)| >= 1
    ensures s != "" && s[0] == sep <==> |Split(s, sep)| >= 2 && Split(s, sep)[0] == ""
  {
    SplitPieces(s, sep);
    if s != "" {
      SplitCons(s, sep);
    }
  }

  /**
    What validation asks of one path, by its segments: there is one, the first is
    not reserved, the last is not empty, and none has a query or fragment mark.
   */
  lemma WellFormedMeans(path: string)
    ensures WellFormed(path) <==>
            var s := Pieces(path);
            && |s| >= 2 && s[0] == "" && s[|s| - 1] != "" && s[1] !in RESERVED_NAMES
            && forall i | 0 <= i < |s| :: '?' !in s[i] && '#' !in s[i]
  {
    FirstPiece(path, '/');
    LastPiece(path, '/');
    PiecesHold(path, '/', '?');
    PiecesHold(path, '/', '#');
    ReservedMeans(path);
    var s := Pieces(path);
    assert SomePieceHas(s, '?') || SomePieceHas(s, '#') <==> exists i :: 0 <= i < |s| && ('?' in s[i] || '#' in s[i]);
  }

  /* ---- Public paths ---- */

  /** For each area, what may follow it in a public path of exactly three pieces. */
  function PublicLeaves(area: string): set<string> {
    match area
    case ".well-known" => {"openid-configuration", "jwks.json"}
    case "oauth2" => {"auth", "token", "revoke", "userinfo", "register", "introspect"}
    case "saml" => {"metadata", "acs", "sso"}
    case "callbacks" => {"oidc", "oauth2"}
    case "self-service" => {"recovery", "verification"}
    case "health" => {"ready", "live"}
    case _ => {}
  }

  /** Public by segments: a leaf of an area, two bare areas, the SCIM documents, and all below two OAuth2 endpoints. */
  predicate PublicPieces(s: seq<string>) {
    && |s| >= 2 && s[0] == ""
    && (|| (|s| == 2 && s[1] in {"userinfo", "health"})
        || (|s| == 3 && s[2] in PublicLeaves(s[1]))
        || (|s| == 4 && s[1] == "scim" && s[2] == "v2" && s[3] in {"ServiceProviderConfig", "ResourceTypes", "Schemas"})
        || (|s| >= 4 && s[1] == "oauth2" && s[2] in {"device", "register"}))
  }

  /** The pieces of the literal public paths, in order. */
  const PUBLIC_WORDS: seq<seq<string>> := [
    ["", ".well-known", "openid-configuration"], ["", ".well-known", "jwks.json"],
    ["", "oauth2", "auth"], ["", "oauth2", "token"], ["", "oauth2", "revoke"], ["", "oauth2", "userinfo"],
    ["", "userinfo"],
    ["", "oauth2", "register"], ["", "oauth2", "introspect"],
    ["", "saml", "metadata"], ["", "saml", "acs"], ["", "saml", "sso"],
    ["", "callbacks", "oidc"], ["", "callbacks", "oauth2"],
    ["", "scim", "v2", "ServiceProviderConfig"], ["", "scim", "v2", "ResourceTypes"], ["", "scim", "v2", "Schemas"],
    ["", "self-service", "recovery"], ["", "self-service", "verification"],
    ["", "health"], ["", "health", "ready"], ["", "health", "live"]]

  lemma WordsAreFree(k: nat, i: nat)
    requires k < 22 && i < |PUBLIC_WORDS[k]|
    ensures Free(PUBLIC_WORDS[k][i], '/')
  {
  }

  lemma WellKnownSpells()
    ensures Join(PUBLIC_WORDS[0], "/") == PUBLIC_PATHS[0]
    ensures Join(PUBLIC_WORDS[1], "/") == PUBLIC_PATHS[1]
  {
    JoinThree(".well-known", "openid-configuration");
    JoinThree(".well-known", "jwks.json");
  }

  lemma TokenSpells()
    ensures Join(PUBLIC_WORDS[2], "/") == PUBLIC_PATHS[2]
    ensures Join(PUBLIC_WORDS[3], "/") == PUBLIC_PATHS[3]
    ensures Join(PUBLIC_WORDS[4], "/") == PUBLIC_PATHS[4]
  {
    JoinThree("oauth2", "auth");
    JoinThree("oauth2", "token");
    JoinThree("oauth2", "revoke");
  }

  lemma ClientSpells()
    ensures Join(PUBLIC_WORDS[5], "/") == PUBLIC_PATHS[5]
    ensures Join(PUBLIC_WORDS[6], "/") == PUBLIC_PATHS[6]
  {
    JoinThree("oauth2", "userinfo");
    JoinTwo("userinfo");
  }

  lemma RegisterSpells()
    ensures Join(PUBLIC_WORDS[7], "/") == PUBLIC_PATHS[7]
    ensures Join(PUBLIC_WORDS[8], "/") == PUBLIC_PATHS[8]
  {
    JoinThree("oauth2", "register");
    JoinThree("oauth2", "introspect");
  }

  lemma SamlSpells()
    ensures Join(PUBLIC_WORDS[9], "/") == PUBLIC_PATHS[9]
    ensures Join(PUBLIC_WORDS[10], "/") == PUBLIC_PATHS[10]
    ensures Join(PUBLIC_WORDS[11], "/") == PUBLIC_PATHS[11]
  {
    JoinThree("saml", "metadata");
    JoinThree("saml", "acs");
    JoinThree("saml", "sso");
  }

  lemma CallbacksSpell()
    ensures Join(PUBLIC_WORDS[12], "/") == PUBLIC_PATHS[12]
    ensures Join(PUBLIC_WORDS[13], "/") == PUBLIC_PATHS[13]
  {
    JoinThree("callbacks", "oidc");
    JoinThree("callbacks", "oauth2");
  }

  lemma JoinScim(leaf: string)
    ensures Join(["", "scim", "v2", leaf], "/") == "/scim/v2/" + leaf
  {
    JoinFour("scim", "v2", leaf);
    assert "/" + "scim" + "/" + "v2" + "/" == "/scim/v2/";
  }

  lemma ScimConfigSpells()
    ensures Join(PUBLIC_WORDS[14], "/") == PUBLIC_PATHS[14]
  {
    JoinScim("ServiceProviderConfig");
  }

  lemma ScimTypesSpells()
    ensures Join(PUBLIC_WORDS[15], "/") == PUBLIC_PATHS[15]
  {
    JoinScim("ResourceTypes");
  }

  lemma ScimSchemasSpells()
    ensures Join(PUBLIC_WORDS[16], "/") == PUBLIC_PATHS[16]
  {
    JoinScim("Schemas");
  }

  lemma SelfServiceSpells()
    ensures Join(PUBLIC_WORDS[17], "/") == PUBLIC_PATHS[17]
    ensures Join(PUBLIC_WORDS[18], "/") == PUBLIC_PATHS[18]
  {
    JoinThree("self-service", "recovery");
    JoinThree("self-service", "verification");
  }

  lemma HealthSpells()
    ensures Join(PUBLIC_WORDS[19], "/") == PUBLIC_PATHS[19]
    ensures Join(PUBLIC_WORDS[20], "/") == PUBLIC_PATHS[20]
    ensures Join(PUBLIC_WORDS[21], "/") == PUBLIC_PATHS[21]
  {
    JoinTwo("health");
    JoinThree("health", "ready");
    JoinThree("health", "live");
  }

  lemma WordsSpellPath(k: nat)
    requires k < 22
    ensures Join(PUBLIC_WORDS[k], "/") == PUBLIC_PATHS[k]
  {
    WellKnownSpells();
    TokenSpells();
    ClientSpells();
    RegisterSpells();
    SamlSpells();
    CallbacksSpell();
    ScimConfigSpells();
    ScimTypesSpells();
    ScimSchemasSpells();
    SelfServiceSpells();
    HealthSpells();
  }

  lemma LiteralByPieces(path: string, k: nat)
    requires k < 22
    ensures path == PUBLIC_PATHS[k] <==> Pieces(path) == PUBLIC_WORDS[k]
  {
    forall i | 0 <= i < |PUBLIC_WORDS[k]| ensures Free(PUBLIC_WORDS[k][i], '/') {
      WordsAreFree(k, i);
    }
    WordsSpellPath(k);
    PathIsItsPieces(path, PUBLIC_WORDS[k]);
  }

  /** The index of a literal path by its pieces. */
  ghost predicate Literal(s: seq<string>) {
    exists k :: 0 <= k < 22 && s == PUBLIC_WORDS[k]
  }

  lemma LiteralMeans(s: seq<string>)
    ensures Literal(s) <==>
            && |s| >= 2 && s[0] == ""
            && (|| (|s| == 2 && s[1] in {"userinfo", "health"})
                || (|s| == 3 && s[2] in PublicLeaves(s[1]))
                || (|s| == 4 && s[1] == "scim" && s[2] == "v2"
                    && s[3] in {"ServiceProviderConfig", "ResourceTypes", "Schemas"}))
  {
    if |s| == 2 && s[0] == "" && s[1] in {"userinfo", "health"} {
      assert s == PUBLIC_WORDS[6] || s == PUBLIC_WORDS[19];
    } else if |s| == 3 && s[0] == "" && s[2] in PublicLeaves(s[1]) {
      LeafIsLiteral(s[1], s[2]);
      assert s == ["", s[1], s[2]];
    } else if |s| == 4 && s[0] == "" && s[1] == "scim" && s[2] == "v2"
              && s[3] in {"ServiceProviderConfig", "ResourceTypes", "Schemas"} {
      assert s == ["", "scim", "v2", s[3]];
      assert s == PUBLIC_WORDS[14] || s == PUBLIC_WORDS[15] || s == PUBLIC_WORDS[16];
    }
  }

  lemma LeafIsLiteral(area: string, leaf: string)
    requires leaf in PublicLeaves(area)
    ensures Literal(["", area, leaf])
  {
    var s := ["", area, leaf];
    match area
    case ".well-known" => assert s == PUBLIC_WORDS[0] || s == PUBLIC_WORDS[1];
    case "oauth2" =>
      assert s == PUBLIC_WORDS[2] || s == PUBLIC_WORDS[3] || s == PUBLIC_WORDS[4]
          || s == PUBLIC_WORDS[5] || s == PUBLIC_WORDS[7] || s == PUBLIC_WORDS[8];
    case "saml" => assert s == PUBLIC_WORDS[9] || s == PUBLIC_WORDS[10] || s == PUBLIC_WORDS[11];
    case "callbacks" => assert s == PUBLIC_WORDS[12] || s == PUBLIC_WORDS[13];
    case "self-service" => assert s == PUBLIC_WORDS[17] || s == PUBLIC_WORDS[18];
    case "health" => assert s == PUBLIC_WORDS[20] || s == PUBLIC_WORDS[21];
  }

  lemma BelowHasPieces(area: string, leaf: string, rest: string)
    requires Free(area, '/') && Free(leaf, '/')
    ensures Pieces("/" + area + "/" + leaf + "/" + rest) == ["", area, leaf] + Pieces(rest) && |Pieces(rest)| >= 1
  {
    var low := leaf + ['/'] + rest;
    var high := area + ['/'] + low;
    assert "/" + area + "/" + leaf + "/" + rest == "" + ['/'] + high;
    SplitOfPiece("", high, '/');
    SplitOfPiece(area, low, '/');
    SplitOfPiece(leaf, rest, '/');
    SplitPieces(rest, '/');
    assert [""] + ([area] + ([leaf] + Pieces(rest))) == ["", area, leaf] + Pieces(rest);
  }

  lemma PiecesAreBelow(path: string, area: string, leaf: string)
    requires |Pieces(path)| >= 4 && Pieces(path)[..3] == ["", area, leaf]
    ensures StartsWith(path, "/" + area + "/" + leaf + "/")
  {
    var s := Pieces(path);
    var rest := s[3..];
    JoinSplit(path, '/');
    assert s == ["", area] + ([leaf] + rest);
    JoinMore(area, [leaf] + rest);
    assert ([leaf] + rest)[1..] == rest;
    assert path == "/" + area + "/" + leaf + "/" + Join(rest, "/");
  }

  /** Something lies below `/area/leaf` exactly when the first two segments are these and more follows. */
  lemma BelowLeaf(path: string, area: string, leaf: string)
    requires Free(area, '/') && Free(leaf, '/')
    ensures StartsWith(path, "/" + area + "/" + leaf + "/") <==>
            |Pieces(path)| >= 4 && Pieces(path)[..3] == ["", area, leaf]
  {
    var s, prefix := Pieces(path), "/" + area + "/" + leaf + "/";
    if StartsWith(path, prefix) {
      assert path == prefix + path[|prefix|..];
      BelowHasPieces(area, leaf, path[|prefix|..]);
    }
    if |s| >= 4 && s[..3] == ["", area, leaf] {
      PiecesAreBelow(path, area, leaf);
    }
  }

  /** The public paths, segment by segment, and no others. */
  lemma PublicMeans(path: string)
    ensures IsPublicPath(path) <==> PublicPieces(Pieces(path))
  {
    var s := Pieces(path);
    assert path in PUBLIC_PATHS <==> Literal(s) by {
      forall k | 0 <= k < 22 ensures path == PUBLIC_PATHS[k] <==> s == PUBLIC_WORDS[k] {
        LiteralByPieces(path, k);
      }
      if path in PUBLIC_PATHS {
        var k :| 0 <= k < |PUBLIC_PATHS| && PUBLIC_PATHS[k] == path;
        assert s == PUBLIC_WORDS[k];
      }
      if Literal(s) {
        var k :| 0 <= k < 22 && s == PUBLIC_WORDS[k];
        assert path == PUBLIC_PATHS[k];
      }
    }
    LiteralMeans(s);
    BelowPublic(path, "device");
    BelowPublic(path, "register");
    assert "/oauth2/device/" == "/" + "oauth2" + "/" + "device" + "/";
    assert "/oauth2/register/" == "/" + "oauth2" + "/" + "register" + "/";
  }

  lemma BelowPublic(path: string, leaf: string)
    requires leaf == "device" || leaf == "register"
    ensures StartsWith(path, "/" + "oauth2" + "/" + leaf + "/") <==>
            |Pieces(path)| >= 4 && Pieces(path)[0] == "" && Pieces(path)[1] == "oauth2" && Pieces(path)[2] == leaf
  {
    BelowLeaf(path, "oauth2", leaf);
    var s := Pieces(path);
    assert |s| >= 4 ==> s[..3] == [s[0], s[1], s[2]];
  }

  lemma NoIamLeaves()
    ensures PublicLeaves("iam") == {}
    ensures "iam" !in {"userinfo", "health"} && "iam" != "scim" && "iam" != "oauth2"
  {
    assert "iam"[0] == 'i';
  }

  /** So the identity and permission services are never public. */
  lemma ServicesAreNotPublic(path: string)
    requires Under(path, "/" + "iam")
    ensures !IsPublicPath(path)
  {
    UnderIsFirstSegment(path, "iam");
    PublicMeans(path);
    NoIamLeaves();
  }
}
