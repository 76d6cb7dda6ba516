/** Strings as the gateway handles them: splitting, joining, prefixes and ordering. */
module Text {

  /* ---- Split on one character, join with a separator ---- */

  /** All pieces between separators; never empty, as for Rust's `str::split`. */
  function Split(s: string, sep: char): seq<string> {
    if s == "" then [""]
    else if s[0] == sep then [""] + Split(s[1..], sep)
    else
      var rest := Split(s[1..], sep);
      if rest == [] then [[s[0]]] else [[s[0]] + rest[0]] + rest[1..]
  }

  function Join(parts: seq<string>, sep: string): string {
    if parts == [] then ""
    else if |parts| == 1 then parts[0]
    else parts[0] + sep + Join(parts[1..], sep)
  }

  ghost predicate Free(s: string, sep: char) { sep !in s }

  /** The pieces of a split are never empty as a list and never contain the separator. */
  lemma {:induction false} SplitPieces(s: string, sep: char)
    ensures |Split(s, sep)| >= 1
    ensures forall i | 0 <= i < |Split(s, sep)| :: Free(Split(s, sep)[i], sep)
    decreases s
  {
    if s != "" {
      SplitPieces(s[1..], sep);
    }
  }

  lemma {:induction false} SplitOfPiece(p: string, rest: string, sep: char)
    requires Free(p, sep)
    ensures Split(p + [sep] + rest, sep) == [p] + Split(rest, sep)
    ensures Split(p, sep) == [p]
    decreases p
  {
    var s := p + [sep] + rest;
    if p == "" {
      assert s[1..] == rest;
    } else {
      assert s[1..] == p[1..] + [sep] + rest;
      assert Free(p[1..], sep);
      SplitOfPiece(p[1..], rest, sep);
      assert p == [p[0]] + p[1..];
    }
  }

  /** Splitting undoes joining on every non-empty list of pieces without the separator. */
  lemma {:induction false} SplitJoin(parts: seq<string>, sep: char)
    requires parts != [] && forall i | 0 <= i < |parts| :: Free(parts[i], sep)
    ensures Split(Join(parts, [sep]), sep) == parts
    decreases parts
  {
    if |parts| == 1 {
      SplitOfPiece(parts[0], "", sep);
    } else {
      SplitJoin(parts[1..], sep);
      SplitOfPiece(parts[0], Join(parts[1..], [sep]), sep);
    }
  }

  /** Joining undoes splitting on every text. */
  lemma {:induction false} JoinSplit(s: string, sep: char)
    ensures Join(Split(s, sep), [sep]) == s
    decreases s
  {
    if s != "" {
      SplitPieces(s[1..], sep);
      JoinSplit(s[1..], sep);
      var rest := Split(s[1..], sep);
      if s[0] == sep {
        assert Split(s, sep)[1..] == rest;
        assert s == "" + [sep] + s[1..];
      } else {
        assert Split(s, sep)[1..] == rest[1..];
        assert s == [s[0]] + s[1..];
      }
    }
  }

  /** Splitting a concatenation around a separator concatenates the pieces. */
  lemma {:induction false} SplitConcat(a: string, b: string, sep: char)
    ensures Split(a + [sep] + b, sep) == Split(a, sep) + Split(b, sep)
    decreases a
  {
    var s := a + [sep] + b;
    if a == "" {
      assert s[1..] == b;
    } else {
      assert s[1..] == a[1..] + [sep] + b;
      SplitConcat(a[1..], b, sep);
      SplitPieces(a[1..], sep);
      SplitCons(s, sep);
      SplitCons(a, sep);
      FirstOfConcat(Split(a[1..], sep), Split(b, sep), a[0]);
    }
  }

  lemma FirstOfConcat(left: seq<string>, right: seq<string>, c: char)
    requires left != []
    ensures [""] + (left + right) == [""] + left + right
    ensures [[c] + (left + right)[0]] + (left + right)[1..] == [[c] + left[0]] + left[1..] + right
  {
    assert (left + right)[1..] == left[1..] + right;
  }

  /** A split by its first character. */
  lemma SplitCons(s: string, sep: char)
    requires s != ""
    ensures |Split(s[1..], sep)| >= 1
    ensures var rest := Split(s[1..], sep);
            Split(s, sep) == if s[0] == sep then [""] + rest else [[s[0]] + rest[0]] + rest[1..]
  {
    SplitPieces(s[1..], sep);
  }

  /* ---- Prefixes ---- */

  predicate StartsWith(s: string, prefix: string) {
    prefix <= s
  }

  /* ---- Lexicographic order ---- */

  predicate Less(a: string, b: string) {
    b != "" && (a == "" || a[0] < b[0] || (a[0] == b[0] && Less(a[1..], b[1..])))
  }

  /** One text is less than another if it is a proper prefix of it, or smaller where they first differ. */
  lemma {:induction false} LessMeans(a: string, b: string)
    ensures Less(a, b) <==>
            exists i :: 0 <= i <= |a| && i < |b| && a[..i] == b[..i] && (i == |a| || a[i] < b[i])
    decreases a
  {
    if a != "" && b != "" && a[0] == b[0] {
      LessMeans(a[1..], b[1..]);
      if i :| 0 <= i <= |a[1..]| && i < |b[1..]| && a[1..][..i] == b[1..][..i]
              && (i == |a[1..]| || a[1..][i] < b[1..][i]) {
        assert a[..i + 1] == [a[0]] + a[1..][..i] && b[..i + 1] == [b[0]] + b[1..][..i];
      }
      if i :| 0 <= i <= |a| && i < |b| && a[..i] == b[..i] && (i == |a| || a[i] < b[i]) {
        assert i > 0;
        assert a[1..][..i - 1] == a[..i][1..] && b[1..][..i - 1] == b[..i][1..];
      }
    } else if a == "" {
      assert b != "" ==> a[..0] == b[..0];
    } else if b != "" {
      assert a[..0] == b[..0];
      forall i | 0 < i <= |a| && i < |b| ensures a[..i] != b[..i] {
        assert a[..i][0] != b[..i][0];
      }
    }
  }

  lemma {:induction false} LessIsTotal(a: string, b: string)
    ensures Less(a, b) || a == b || Less(b, a)
    decreases a
  {
    if a != "" && b != "" && a[0] == b[0] {
      LessIsTotal(a[1..], b[1..]);
      assert a == [a[0]] + a[1..] && b == [b[0]] + b[1..];
    }
  }

  lemma {:induction false} LessIsTransitive(a: string, b: string, c: string)
    requires Less(a, b) && Less(b, c)
    ensures Less(a, c)
    decreases a
  {
    if a != "" && a[0] == b[0] && b[0] == c[0] {
      LessIsTransitive(a[1..], b[1..], c[1..]);
    }
  }

  lemma {:induction false} LessIsIrreflexive(a: string)
    ensures !Less(a, a)
    decreases a
  {
    if a != "" {
      LessIsIrreflexive(a[1..]);
    }
  }
}
