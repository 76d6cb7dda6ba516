/**
  Reading the gateway's session cookie. A client may spread its cookies over
  several Cookie fields (section 8.1.2.5 of RFC 7540); the gateway joins the
  fields with "; " before parsing them.
 */
module Cookies {
  import opened Wrappers
  import opened Text

  const SESSION_COOKIE_NAME := "__Host-sso_session"

  /** White space that can occur in header text. */
  predicate White(c: char) {
    c == ' ' || c == '\t'
  }

  function TrimStart(s: string): string {
    if s != "" && White(s[0]) then TrimStart(s[1..]) else s
  }

  function TrimEnd(s: string): string {
    if s != "" && White(s[|s| - 1]) then TrimEnd(s[..|s| - 1]) else s
  }

  function Trim(s: string): string {
    TrimEnd(TrimStart(s))
  }

  /** The text before and after the first `sep`. */
  function SplitOnce(s: string, sep: char): Option<(string, string)> {
    if s == "" then None
    else if s[0] == sep then Some(("", s[1..]))
    else
      var rest := SplitOnce(s[1..], sep);
      if rest.None? then None else Some(([s[0]] + rest.value.0, rest.value.1))
  }

  /** A field whose bytes are not visible ASCII is `None` and is skipped. */
  function Texts(fields: seq<Option<string>>): seq<string> {
    if fields == [] then []
    else (if fields[0].Some? then [fields[0].value] else []) + Texts(fields[1..])
  }

  /** The session value carried by one cookie piece. */
  function SessionValue(piece: string): Option<string> {
    var pair := SplitOnce(Trim(piece), '=');
    if pair.Some? && pair.value.0 == SESSION_COOKIE_NAME then Some(pair.value.1) else None
  }

  function FirstSession(pieces: seq<string>): Option<string> {
    if pieces == [] then None
    else
      var v := SessionValue(pieces[0]);
      if v.Some? then v else FirstSession(pieces[1..])
  }

  function SessionCookie(fields: seq<Option<string>>): Option<string> {
    var joined := Join(Texts(fields), "; ");
    if joined == "" then None else FirstSession(Split(joined, ';'))
  }

  /* ---- The reference reading: each field parsed by itself ---- */

  function Pieces(texts: seq<string>): seq<string> {
    if texts == [] then [] else Split(texts[0], ';') + Pieces(texts[1..])
  }

  /* ---- Trimming ---- */

  ghost predicate AllWhite(s: string) {
    forall i | 0 <= i < |s| :: White(s[i])
  }

  lemma {:induction false} TrimStartMeans(s: string) returns (front: string)
    ensures s == front + TrimStart(s) && AllWhite(front)
    ensures TrimStart(s) != "" ==> !White(TrimStart(s)[0])
    decreases s
  {
    if s != "" && White(s[0]) {
      var rest := TrimStartMeans(s[1..]);
      front := [s[0]] + rest;
      assert s == [s[0]] + s[1..];
    } else {
      front := "";
    }
  }

  lemma {:induction false} TrimEndMeans(s: string) returns (back: string)
    ensures s == TrimEnd(s) + back && AllWhite(back) && TrimEnd(s) <= s
    ensures TrimEnd(s) != "" ==> !White(TrimEnd(s)[|TrimEnd(s)| - 1])
    decreases s
  {
    if s != "" && White(s[|s| - 1]) {
      var rest := TrimEndMeans(s[..|s| - 1]);
      back := rest + [s[|s| - 1]];
      assert s == s[..|s| - 1] + [s[|s| - 1]];
    } else {
      back := "";
    }
  }

  /** Trimming removes white space at both ends and nothing else. */
  lemma TrimMeans(s: string) returns (front: string, back: string)
    ensures s == front + Trim(s) + back && AllWhite(front) && AllWhite(back)
    ensures Trim(s) != "" ==> !White(Trim(s)[0]) && !White(Trim(s)[|Trim(s)| - 1])
  {
    front := TrimStartMeans(s);
    back := TrimEndMeans(TrimStart(s));
  }

  /* ---- One piece ---- */

  lemma {:induction false} SplitOnceMeans(s: string, sep: char, a: string, b: string)
    ensures SplitOnce(s, sep) == Some((a, b)) <==> sep !in a && s == a + [sep] + b
    decreases s
  {
    if s == "" {
    } else if s[0] == sep {
      assert s == "" + [sep] + s[1..];
      var t := a + [sep] + b;
      if a == "" {
        assert t[1..] == b;
      } else {
        assert t[0] == a[0];
      }
    } else if a == "" {
      assert a + [sep] + b == [sep] + b;
    } else {
      SplitOnceMeans(s[1..], sep, a[1..], b);
      assert a == [a[0]] + a[1..];
      assert (a + [sep] + b)[1..] == a[1..] + [sep] + b;
      assert s == [s[0]] + s[1..];
    }
  }

  /** A piece carries a session value exactly when it reads name, equals sign, value. */
  lemma SessionValueMeans(piece: string, v: string)
    ensures SessionValue(piece) == Some(v) <==> Trim(piece) == SESSION_COOKIE_NAME + "=" + v
  {
    SplitOnceMeans(Trim(piece), '=', SESSION_COOKIE_NAME, v);
  }

  /** The answer is the value of the first piece that carries one. */
  lemma {:induction false} FirstSessionMeans(pieces: seq<string>, v: string)
    ensures FirstSession(pieces) == Some(v) <==>
            exists i :: 0 <= i < |pieces| && SessionValue(pieces[i]) == Some(v)
                        && forall j | 0 <= j < i :: SessionValue(pieces[j]) == None
    decreases pieces
  {
    if pieces != [] {
      FirstSessionMeans(pieces[1..], v);
      var tail := pieces[1..];
      if SessionValue(pieces[0]) == None {
        if FirstSession(tail) == Some(v) {
          var i :| 0 <= i < |tail| && SessionValue(tail[i]) == Some(v)
                   && forall j | 0 <= j < i :: SessionValue(tail[j]) == None;
          assert pieces[i + 1] == tail[i];
          assert forall j | 0 < j < i + 1 :: pieces[j] == tail[j - 1];
        }
        if i :| 0 <= i < |pieces| && SessionValue(pieces[i]) == Some(v)
                && forall j | 0 <= j < i :: SessionValue(pieces[j]) == None {
          assert tail[i - 1] == pieces[i];
          assert forall j | 0 <= j < i - 1 :: tail[j] == pieces[j + 1];
        }
      }
    }
  }

  /* ---- Joining ---- */

  /** The blank that the join puts in front of a field is trimmed away. */
  lemma LeadingBlank(piece: string)
    ensures SessionValue(" " + piece) == SessionValue(piece)
  {
    assert (" " + piece)[1..] == piece;
  }

  lemma SplitLeadingBlank(s: string)
    ensures |Split(s, ';')| >= 1
    ensures Split(" " + s, ';') == [" " + Split(s, ';')[0]] + Split(s, ';')[1..]
  {
    SplitPieces(s, ';');
    assert (" " + s)[1..] == s;
  }

  lemma {:induction false} FirstSessionConcat(a: seq<string>, b: seq<string>)
    ensures FirstSession(a + b) == if FirstSession(a).Some? then FirstSession(a) else FirstSession(b)
    decreases a
  {
    if a == [] {
      assert a + b == b;
    } else {
      assert (a + b)[1..] == a[1..] + b;
      FirstSessionConcat(a[1..], b);
    }
  }

  lemma BlankField(s: string)
    ensures FirstSession(Split(" " + s, ';')) == FirstSession(Split(s, ';'))
  {
    SplitLeadingBlank(s);
    var pieces := Split(s, ';');
    var blanked := Split(" " + s, ';');
    assert blanked[1..] == pieces[1..];
    LeadingBlank(pieces[0]);
  }

  lemma {:induction false} JoinReads(texts: seq<string>)
    ensures FirstSession(Split(Join(texts, "; "), ';')) == FirstSession(Pieces(texts))
    decreases texts
  {
    if texts == [] {
      assert Split("", ';') == [""];
      assert FirstSession([""]) == None;
    } else if |texts| == 1 {
      assert Pieces(texts[1..]) == [];
      assert Pieces(texts) == Split(texts[0], ';');
    } else {
      var rest := Join(texts[1..], "; ");
      JoinReads(texts[1..]);
      assert Join(texts, "; ") == texts[0] + [';'] + (" " + rest);
      SplitConcat(texts[0], " " + rest, ';');
      BlankField(rest);
      FirstSessionConcat(Split(texts[0], ';'), Split(" " + rest, ';'));
      FirstSessionConcat(Split(texts[0], ';'), Pieces(texts[1..]));
    }
  }

  /** The answer is the first match among the pieces of the fields, each field taken alone. */
  lemma SessionCookieReadsPieces(fields: seq<Option<string>>)
    ensures SessionCookie(fields) == FirstSession(Pieces(Texts(fields)))
  {
    JoinReads(Texts(fields));
    assert Split("", ';') == [""];
    assert FirstSession([""]) == None;
  }

  /** Stated outright: the value `v` is found exactly when some piece reads
      `name=v` and no piece before it carries the name. */
  lemma SessionCookieMeans(fields: seq<Option<string>>, v: string)
    ensures var pieces := Pieces(Texts(fields));
            SessionCookie(fields) == Some(v) <==>
            exists i :: 0 <= i < |pieces| && Trim(pieces[i]) == SESSION_COOKIE_NAME + "=" + v
                        && forall j, u | 0 <= j < i :: Trim(pieces[j]) != SESSION_COOKIE_NAME + "=" + u
  {
    var pieces := Pieces(Texts(fields));
    SessionCookieReadsPieces(fields);
    FirstSessionMeans(pieces, v);
    forall i, u | 0 <= i < |pieces|
      ensures SessionValue(pieces[i]) == Some(u) <==> Trim(pieces[i]) == SESSION_COOKIE_NAME + "=" + u
    {
      SessionValueMeans(pieces[i], u);
    }
    forall j | 0 <= j < |pieces|
      ensures SessionValue(pieces[j]) == None <==> forall u :: Trim(pieces[j]) != SESSION_COOKIE_NAME + "=" + u
    {
      if SessionValue(pieces[j]).Some? {
        assert Trim(pieces[j]) == SESSION_COOKIE_NAME + "=" + SessionValue(pieces[j]).value;
      }
    }
  }

  /* ---- Regrouping ---- */

  lemma {:induction false} TextsConcat(a: seq<Option<string>>, b: seq<Option<string>>)
    ensures Texts(a + b) == Texts(a) + Texts(b)
    decreases a
  {
    if a == [] {
      assert a + b == b;
    } else {
      assert (a + b)[1..] == a[1..] + b;
      TextsConcat(a[1..], b);
    }
  }

  lemma {:induction false} PiecesConcat(a: seq<string>, b: seq<string>)
    ensures Pieces(a + b) == Pieces(a) + Pieces(b)
    decreases a
  {
    if a == [] {
      assert a + b == b;
    } else {
      assert (a + b)[1..] == a[1..] + b;
      PiecesConcat(a[1..], b);
    }
  }

  /** Answers of a field list depend on its parts only through their own answers. */
  lemma SessionCookieConcat(a: seq<Option<string>>, b: seq<Option<string>>)
    ensures SessionCookie(a + b) == if SessionCookie(a).Some? then SessionCookie(a) else SessionCookie(b)
  {
    TextsConcat(a, b);
    PiecesConcat(Texts(a), Texts(b));
    FirstSessionConcat(Pieces(Texts(a)), Pieces(Texts(b)));
    SessionCookieReadsPieces(a);
    SessionCookieReadsPieces(b);
    SessionCookieReadsPieces(a + b);
  }

  lemma CutField(x: string, y: string)
    ensures SessionCookie([Some(x + "; " + y)]) == SessionCookie([Some(x), Some(y)])
  {
    var whole, cut := [Some(x + "; " + y)], [Some(x), Some(y)];
    assert Texts(whole) == [x + "; " + y];
    assert cut[1..] == [Some(y)] && Texts([Some(y)]) == [y];
    assert Texts(cut) == [x, y] && [x, y][1..] == [y];
    assert Join([x, y], "; ") == x + "; " + y;
  }

  /** Cutting a field in two at any "; ", anywhere in the list, never changes the answer. */
  lemma RegroupingIsInvisible(before: seq<Option<string>>, x: string, y: string, after: seq<Option<string>>)
    ensures SessionCookie(before + [Some(x + "; " + y)] + after) == SessionCookie(before + [Some(x), Some(y)] + after)
  {
    CutField(x, y);
    SessionCookieConcat(before, [Some(x + "; " + y)]);
    SessionCookieConcat(before, [Some(x), Some(y)]);
    SessionCookieConcat(before + [Some(x + "; " + y)], after);
    SessionCookieConcat(before + [Some(x), Some(y)], after);
  }

  /** A field that is not visible ASCII changes nothing, wherever it stands. */
  lemma UndecodableIsSkipped(before: seq<Option<string>>, after: seq<Option<string>>)
    ensures SessionCookie(before + [None] + after) == SessionCookie(before + after)
  {
    var none: seq<Option<string>> := [None];
    assert none[1..] == [] && Texts(none) == [];
    TextsConcat(before, none);
    assert Texts(before + none) == Texts(before);
    TextsConcat(before + none, after);
    TextsConcat(before, after);
  }
}
