/** Small operations on strings (sequences of characters) shared by the renderer and the reader. */
module Strings {
  import opened Wrappers

  predicate StartsWith(s: string, p: string) {
    |p| <= |s| && s[..|p|] == p
  }

  predicate EndsWith(s: string, q: string) {
    |q| <= |s| && s[|s| - |q|..] == q
  }

  /** Python's `''.join(parts)`: the parts concatenated in order, with no separator. */
  function Join(parts: seq<string>): (s: string) {
    if parts == [] then "" else Join(parts[..|parts| - 1]) + parts[|parts| - 1]
  }

  lemma {:induction false} JoinAppend(a: seq<string>, b: seq<string>)
    ensures Join(a + b) == Join(a) + Join(b)
  {
    if b != [] {
      JoinAppend(a, b[..|b| - 1]);
      assert (a + b)[..|a + b| - 1] == a + b[..|b| - 1];
    } else {
      assert a + b == a;
    }
  }

  lemma JoinCons(parts: seq<string>)
    requires parts != []
    ensures Join(parts) == parts[0] + Join(parts[1..])
  {
    JoinAppend([parts[0]], parts[1..]);
    assert [parts[0]] + parts[1..] == parts;
    assert Join([parts[0]]) == Join([]) + parts[0];
  }

  /** Regrouping a concatenation of five pieces to the right. */
  lemma Regroup5(a: string, b: string, c: string, d: string, e: string)
    ensures a + b + c + d + e == a + (b + (c + (d + e)))
  {
  }

  /** Regrouping a concatenation of three pieces to the right. */
  lemma Regroup3(a: string, b: string, c: string)
    ensures a + b + c == a + (b + c)
  {
  }

  /** Regrouping a concatenation of four pieces to the right. */
  lemma Regroup4(a: string, b: string, c: string, d: string)
    ensures a + b + c + d == a + (b + (c + d))
  {
  }

  /** Regrouping a concatenation of seven pieces to the right. */
  lemma Regroup7(a: string, b: string, c: string, d: string, e: string, f: string, g: string)
    ensures a + b + c + d + e + f + g == a + (b + (c + (d + (e + (f + g)))))
  {
  }

  /** A text that differs from `p` at some position within both does not start with `p`. */
  lemma NotStartsWith(s: string, p: string, k: nat)
    requires k < |p| && k < |s| && s[k] != p[k]
    ensures !StartsWith(s, p)
  {
    if |p| <= |s| {
      assert s[..|p|][k] == s[k];
    }
  }

  /** Removes the literal `p` from the front of `s`, if `s` starts with it. */
  function StripPrefix(p: string, s: string): (r: Option<string>)
    ensures r.Some? <==> StartsWith(s, p)
    ensures r.Some? ==> s == p + r.value
  {
    if StartsWith(s, p) then
      assert s == s[..|p|] + s[|p|..];
      Some(s[|p|..])
    else None
  }

  lemma StripPrefixOf(p: string, x: string)
    ensures StripPrefix(p, p + x) == Some(x)
  {
    assert (p + x)[..|p|] == p;
    assert (p + x)[|p|..] == x;
  }

  /** Splits `s` before the first occurrence of `c` (or at its end when there is none). */
  function ReadUntil(c: char, s: string): (r: (string, string))
    ensures r.0 + r.1 == s
    ensures c !in r.0
    ensures r.1 == [] || r.1[0] == c
  {
    if s == [] || s[0] == c then ([], s)
    else
      var (t, u) := ReadUntil(c, s[1..]);
      var head := [s[0]] + t;
      assert head + u == s by {
        assert head + u == [s[0]] + (t + u);
        assert s == [s[0]] + s[1..];
      }
      assert c !in head by {
        assert forall x :: x in head ==> x == s[0] || x in t;
      }
      (head, u)
  }

  /** ReadUntil stops exactly at the boundary of a field that does not contain `c`. */
  lemma {:induction false} ReadUntilSplit(c: char, t: string, u: string)
    requires c !in t
    requires u == [] || u[0] == c
    ensures ReadUntil(c, t + u) == (t, u)
  {
    if t == [] {
      assert t + u == u;
    } else {
      assert t[0] in t;
      assert (t + u)[0] == t[0] != c;
      assert (t + u)[1..] == t[1..] + u;
      ReadUntilSplit(c, t[1..], u);
      assert [t[0]] + t[1..] == t;
    }
  }
}
