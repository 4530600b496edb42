/** The SQL `LIKE` operator as the Android contacts provider's SQLite
    evaluates it without an ESCAPE clause: '%' matches any run of characters,
    '_' matches exactly one, and every other pattern character matches the
    same character up to ASCII case. */
module SqlLike {
  import opened Text

  predicate Like(pattern: string, s: string)
    decreases |pattern| + |s|
  {
    if |pattern| == 0 then |s| == 0
    else if pattern[0] == '%' then Like(pattern[1..], s) || (|s| > 0 && Like(pattern, s[1..]))
    else
      && |s| > 0
      && (pattern[0] == '_' || LowerChar(pattern[0]) == LowerChar(s[0]))
      && Like(pattern[1..], s[1..])
  }

  predicate NoWildcards(q: string) {
    forall i :: 0 <= i < |q| ==> q[i] != '%' && q[i] != '_'
  }

  /** Equal up to ASCII case. */
  predicate SameIgnoringCase(a: string, b: string) {
    |a| == |b| && forall i :: 0 <= i < |a| ==> LowerChar(a[i]) == LowerChar(b[i])
  }

  predicate OccursAt(s: string, q: string, i: nat)
    requires i + |q| <= |s|
  {
    SameIgnoringCase(s[i..i + |q|], q)
  }

  /** `q` occurs somewhere in `s`, ignoring ASCII case. */
  predicate ContainsIgnoringCase(s: string, q: string) {
    exists i: nat :: i + |q| <= |s| && OccursAt(s, q, i)
  }

  /** A lone '%' matches every string. */
  lemma {:induction false} LikeAnyRun(s: string)
    ensures Like("%", s)
  {
    assert "%"[1..] == "";
    if |s| > 0 {
      LikeAnyRun(s[1..]);
    }
  }

  /** A leading '%' lets the rest of the pattern match any suffix. */
  lemma {:induction false} LikeLeadingPercent(r: string, s: string)
    ensures Like("%" + r, s) <==> exists i: nat :: i <= |s| && Like(r, s[i..])
  {
    var p := "%" + r;
    assert p[0] == '%' && p[1..] == r;
    if Like(p, s) {
      if Like(r, s) {
        assert s[0..] == s;
      } else {
        assert |s| > 0 && Like(p, s[1..]);
        LikeLeadingPercent(r, s[1..]);
        var j: nat :| j <= |s[1..]| && Like(r, s[1..][j..]);
        assert s[1..][j..] == s[j + 1..];
      }
    }
    if exists i: nat :: i <= |s| && Like(r, s[i..]) {
      var i: nat :| i <= |s| && Like(r, s[i..]);
      if i == 0 {
        assert s[0..] == s;
      } else {
        assert s[1..][i - 1..] == s[i..];
        LikeLeadingPercent(r, s[1..]);
      }
    }
  }

  /** A wildcard-free pattern followed by '%' matches exactly the strings
      that start with the pattern, up to case. */
  lemma {:induction false} LikeLiteralPrefix(q: string, s: string)
    requires NoWildcards(q)
    ensures Like(q + "%", s) <==> |q| <= |s| && SameIgnoringCase(s[..|q|], q)
  {
    var p := q + "%";
    if |q| == 0 {
      assert p == "%";
      LikeAnyRun(s);
    } else {
      assert p[0] == q[0] && p[1..] == q[1..] + "%";
      if |s| > 0 {
        LikeLiteralPrefix(q[1..], s[1..]);
      }
      if |s| > 0 && |q| <= |s| {
        assert s[..|q|][0] == s[0];
        assert forall i :: 1 <= i < |q| ==> s[..|q|][i] == s[1..][..|q[1..]|][i - 1];
        if SameIgnoringCase(s[..|q|], q) {
          assert LowerChar(s[0]) == LowerChar(q[0]);
          assert SameIgnoringCase(s[1..][..|q[1..]|], q[1..]);
        }
      }
    }
  }

  /** The search pattern `%query%` selects exactly the names that contain a
      wildcard-free query, ignoring ASCII case. */
  lemma LikeContains(q: string, s: string)
    requires NoWildcards(q)
    ensures Like("%" + q + "%", s) <==> ContainsIgnoringCase(s, q)
  {
    assert "%" + q + "%" == "%" + (q + "%");
    LikeLeadingPercent(q + "%", s);
    if Like("%" + q + "%", s) {
      var i: nat :| i <= |s| && Like(q + "%", s[i..]);
      LikeLiteralPrefix(q, s[i..]);
      assert s[i..][..|q|] == s[i..i + |q|];
      assert OccursAt(s, q, i);
    }
    if ContainsIgnoringCase(s, q) {
      var i: nat :| i + |q| <= |s| && OccursAt(s, q, i);
      assert s[i..][..|q|] == s[i..i + |q|];
      LikeLiteralPrefix(q, s[i..]);
      assert Like(q + "%", s[i..]);
    }
  }

  /** An empty query gives the pattern "%%", which matches every string. */
  lemma LikeEmptyQuery(s: string)
    ensures Like("%" + "" + "%", s)
  {
    assert "%" + "" + "%" == "%" + "%";
    LikeLeadingPercent("%", s);
    assert s[0..] == s;
    LikeAnyRun(s);
  }

  /** Without an ESCAPE clause a query holding '_' is a pattern, not text: "J_n"
      matches "Jan", which does not contain it. */
  lemma UnderscoreIsAWildcard()
    ensures Like("%J_n%", "Jan") && !ContainsIgnoringCase("Jan", "J_n")
  {
    LikeAnyRun("");
    assert "%J_n%"[1..] == "J_n%" && "J_n%"[1..] == "_n%" && "_n%"[1..] == "n%" && "n%"[1..] == "%";
    assert "Jan"[1..] == "an" && "an"[1..] == "n" && "n"[1..] == "";
    assert Like("%", "");
    assert Like("n%", "n");
    assert Like("_n%", "an");
    assert Like("J_n%", "Jan");
  }
}
