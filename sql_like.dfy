/**
 * The SQL `LIKE` operator as PostgreSQL evaluates the filter builder's patterns:
 * `%` matches any run of characters, `_` matches exactly one, `\` is the escape
 * character even though the query declares none (a character after it matches
 * itself literally), and every other character matches itself.
 */
module SqlLike {
  import opened Text

  /** Every character of the pattern is `%`. */
  predicate AllPercent(p: string)
  {
    forall i :: 0 <= i < |p| ==> p[i] == '%'
  }

  /** A pattern without wildcard or escape characters. */
  predicate Literal(q: string)
  {
    forall i :: 0 <= i < |q| ==> q[i] != '%' && q[i] != '_' && q[i] != '\\'
  }

  /**
   * `s LIKE p`. A pattern that ends in a lone escape character is an error in
   * the database; here it matches nothing (see `EscapesClosed`).
   */
  function Like(s: string, p: string): (r: bool)
    ensures p != [] && AllPercent(p) ==> r
    ensures Literal(p) ==> (r <==> s == p)
    decreases |s| + |p|
  {
    if p == [] then s == []
    else if p[0] == '\\' then |p| >= 2 && s != [] && s[0] == p[1] && Like(s[1..], p[2..])
    else if p[0] == '%' then Like(s, p[1..]) || (s != [] && Like(s[1..], p))
    else s != [] && (p[0] == '_' || p[0] == s[0]) && Like(s[1..], p[1..])
  }

  /** Every escape character of the pattern has a character after it to escape. */
  predicate EscapesClosed(p: string)
    decreases |p|
  {
    if p == [] then true
    else if p[0] == '\\' then |p| >= 2 && EscapesClosed(p[2..])
    else EscapesClosed(p[1..])
  }

  /** A pattern whose last character is not the escape character is never left with a lone escape. */
  lemma {:induction false} ClosedUnlessEndsInEscape(p: string)
    requires p != [] && p[|p| - 1] != '\\'
    ensures EscapesClosed(p)
    decreases |p|
  {
    if p[0] == '\\' {
      if |p| > 2 {
        ClosedUnlessEndsInEscape(p[2..]);
      }
    } else if |p| > 1 {
      ClosedUnlessEndsInEscape(p[1..]);
    }
  }

  /** An escaped character matches itself and nothing else. */
  lemma EscapedCharacter(s: string, c: char, p: string)
    ensures Like(s, ['\\', c] + p) <==> s != [] && s[0] == c && Like(s[1..], p)
  {
    assert (['\\', c] + p)[2..] == p;
  }

  /** A lone `%` matches every string, including the empty one. */
  lemma {:induction false} PercentMatchesAll(s: string)
    ensures Like(s, "%")
    decreases |s|
  {
    if s != [] {
      PercentMatchesAll(s[1..]);
    }
  }

  /** A leading `%` lets the rest of the pattern match any suffix. */
  lemma {:induction false} LeadingPercent(s: string, p: string)
    ensures Like(s, ['%'] + p) <==> exists k :: 0 <= k <= |s| && Like(s[k..], p)
    decreases |s|
  {
    var pp := ['%'] + p;
    assert pp[1..] == p;
    if s == [] {
      assert s[0..] == s;
    } else {
      LeadingPercent(s[1..], p);
      if Like(s, pp) {
        if Like(s, p) {
          assert s[0..] == s;
        } else {
          var k :| 0 <= k <= |s[1..]| && Like(s[1..][k..], p);
          assert s[1..][k..] == s[k + 1..];
        }
      }
      if k :| 0 <= k <= |s| && Like(s[k..], p) {
        if k == 0 {
          assert s[0..] == s;
        } else {
          assert s[1..][k - 1..] == s[k..];
        }
      }
    }
  }

  /** A literal followed by `%` is a prefix test. */
  lemma {:induction false} LiteralThenPercent(s: string, q: string)
    requires Literal(q)
    ensures Like(s, q + "%") <==> StartsWith(s, q)
    decreases |q|
  {
    if q == [] {
      assert q + "%" == "%";
      PercentMatchesAll(s);
    } else {
      var p := q + "%";
      assert p[0] == q[0] && p[1..] == q[1..] + "%";
      LiteralThenPercent(if s == [] then s else s[1..], q[1..]);
      if s != [] && StartsWith(s[1..], q[1..]) && q[0] == s[0] {
        assert s[..|q|] == [s[0]] + s[1..][..|q| - 1];
      }
      if StartsWith(s, q) {
        assert s[1..][..|q| - 1] == s[..|q|][1..];
      }
    }
  }

  /**
   * `LIKE '%q%'` with a literal `q` is exactly a substring test.
   */
  lemma SurroundedLiteral(s: string, q: string)
    requires Literal(q)
    ensures Like(s, "%" + q + "%") <==> Contains(s, q)
  {
    var p := "%" + q + "%";
    assert p == ['%'] + (q + "%");
    LeadingPercent(s, q + "%");
    if Like(s, p) {
      var k :| 0 <= k <= |s| && Like(s[k..], q + "%");
      LiteralThenPercent(s[k..], q);
      assert s[k..][..|q|] == s[k..k + |q|];
      assert OccursAt(s, q, k);
    }
    if Contains(s, q) {
      var k :| 0 <= k <= |s| && OccursAt(s, q, k);
      assert s[k..][..|q|] == s[k..k + |q|];
      LiteralThenPercent(s[k..], q);
    }
  }
}
