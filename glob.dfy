/** Glob-style patterns, as Redis uses them for `KEYS`/`SCAN` and for
    pattern subscriptions (`PSUBSCRIBE`): `*` matches any run of characters
    and `?` matches one character. */
module Glob {
  import opened KeyCodec

  predicate Matches(pattern: string, s: string)
    decreases |pattern| + |s|
  {
    if pattern == [] then s == []
    else if pattern[0] == '*' then Matches(pattern[1..], s) || (s != [] && Matches(pattern, s[1..]))
    else s != [] && (pattern[0] == '?' || pattern[0] == s[0]) && Matches(pattern[1..], s[1..])
  }

  /** No character of `p` is special to a Redis glob. */
  predicate Literal(p: string) {
    forall i :: 0 <= i < |p| ==> p[i] !in "*?[\\"
  }

  lemma {:induction false} StarMatchesEverything(s: string)
    ensures Matches("*", s)
  {
    if s != [] {
      StarMatchesEverything(s[1..]);
    }
  }

  /** For a literal `p`, the pattern `p*` matches exactly the strings that
      start with `p`. */
  lemma {:induction false} LiteralThenStar(p: string, s: string)
    requires Literal(p)
    ensures Matches(p + "*", s) <==> StartsWith(s, p)
  {
    if p == [] {
      assert p + "*" == "*";
      StarMatchesEverything(s);
    } else {
      var q := p + "*";
      assert q[0] == p[0] && q[1..] == p[1..] + "*";
      assert p[0] !in "*?[\\";
      if s != [] {
        assert Literal(p[1..]) by {
          forall i | 0 <= i < |p[1..]| ensures p[1..][i] !in "*?[\\" {
            assert p[1..][i] == p[i + 1];
          }
        }
        LiteralThenStar(p[1..], s[1..]);
        assert StartsWith(s, p) <==> s[0] == p[0] && StartsWith(s[1..], p[1..]) by {
          if |p| <= |s| {
            assert s[..|p|] == [s[0]] + s[1..][..|p| - 1];
            assert p == [p[0]] + p[1..];
          }
        }
      }
    }
  }
}
