/** String operations the queries and the exception handler rely on: ASCII
    lower-casing, Java's `String.contains`, and the SQL `LIKE` operator. */
module Text {

  /** SQL `LOWER` on one character, restricted to ASCII letters. */
  function LowerChar(c: char): (d: char)
    ensures 'A' <= c <= 'Z' ==> d as int == c as int + 32
    ensures !('A' <= c <= 'Z') ==> d == c
    ensures !('A' <= d <= 'Z')
  {
    if 'A' <= c <= 'Z' then (c as int + 32) as char else c
  }

  /** SQL `LOWER` on a string: character by character. */
  function Lower(s: string): (r: string)
    ensures |r| == |s|
    ensures forall i :: 0 <= i < |s| ==> r[i] == LowerChar(s[i])
  {
    seq(|s|, i requires 0 <= i < |s| => LowerChar(s[i]))
  }

  lemma LowerConcat(a: string, b: string)
    ensures Lower(a + b) == Lower(a) + Lower(b)
  {
    assert forall i :: 0 <= i < |a + b| ==> Lower(a + b)[i] == (Lower(a) + Lower(b))[i];
  }

  predicate IsPrefix(p: string, s: string)
  {
    |p| <= |s| && s[..|p|] == p
  }

  /** Java's `s.contains(sub)`: `sub` occurs in `s` at some position. */
  predicate Contains(s: string, sub: string)
  {
    exists i :: 0 <= i <= |s| && IsPrefix(sub, s[i..])
  }

  lemma ContainsItself(s: string)
    ensures Contains(s, s)
  {
    assert s[0..] == s;
  }

  lemma ContainsAtStart(s: string, sub: string)
    requires IsPrefix(sub, s)
    ensures Contains(s, sub)
  {
    assert s[0..] == s;
  }

  /** A string that never holds the first character of `sub` cannot contain it. */
  lemma NotContainsWithoutFirstChar(s: string, sub: string)
    requires sub != [] && sub[0] !in s
    ensures !Contains(s, sub)
  {
  }

  /** The characters `LIKE` treats specially: the two wildcards and the
      default escape character. */
  predicate IsLikeMeta(c: char)
  {
    c == '%' || c == '_' || c == '\\'
  }

  /** A pattern fragment with no wildcard and no escape character. */
  predicate Plain(k: string)
  {
    forall i :: 0 <= i < |k| ==> !IsLikeMeta(k[i])
  }

  /** SQL `s LIKE p`: `%` matches any run of characters, `_` any single
      character, a backslash makes the next character literal, and every other
      character matches itself. A pattern ending in a lone backslash matches
      nothing (the database rejects it). */
  function Like(s: string, p: string): bool
    decreases |s| + |p|
  {
    if p == [] then s == []
    else if p[0] == '%' then Like(s, p[1..]) || (s != [] && Like(s[1..], p))
    else if p[0] == '_' then s != [] && Like(s[1..], p[1..])
    else if p[0] == '\\' then |p| >= 2 && s != [] && s[0] == p[1] && Like(s[1..], p[2..])
    else s != [] && s[0] == p[0] && Like(s[1..], p[1..])
  }

  /** `%` alone matches every string. */
  lemma {:induction false} LikePercentMatchesAll(s: string)
    ensures Like(s, "%")
  {
    if s != [] {
      LikePercentMatchesAll(s[1..]);
    }
  }

  /** A plain fragment followed by `%` matches exactly the strings it prefixes. */
  lemma {:induction false} LikePlainPrefix(s: string, k: string)
    requires Plain(k)
    ensures Like(s, k + "%") <==> IsPrefix(k, s)
  {
    if k == [] {
      assert k + "%" == "%";
      LikePercentMatchesAll(s);
    } else {
      var p := k + "%";
      assert p[0] == k[0] && p[1..] == k[1..] + "%";
      assert !IsLikeMeta(k[0]);
      if s != [] {
        LikePlainPrefix(s[1..], k[1..]);
        if IsPrefix(k, s) {
          assert s[1..][..|k| - 1] == s[..|k|][1..];
        }
        if s[0] == k[0] && IsPrefix(k[1..], s[1..]) {
          assert s[..|k|] == [s[0]] + s[1..][..|k| - 1];
        }
      }
    }
  }

  /** A leading `%` lets the rest of the pattern match any suffix. */
  lemma {:induction false} LikeLeadingPercent(s: string, q: string)
    ensures Like(s, "%" + q) <==> exists i :: 0 <= i <= |s| && Like(s[i..], q)
  {
    var p := "%" + q;
    assert p[0] == '%' && p[1..] == q;
    assert s[0..] == s;
    if s != [] {
      LikeLeadingPercent(s[1..], q);
      if exists i :: 0 <= i <= |s| && Like(s[i..], q) {
        var i :| 0 <= i <= |s| && Like(s[i..], q);
        if i > 0 {
          assert s[1..][i - 1..] == s[i..];
        }
      }
      if exists j :: 0 <= j <= |s[1..]| && Like(s[1..][j..], q) {
        var j :| 0 <= j <= |s[1..]| && Like(s[1..][j..], q);
        assert s[1..][j..] == s[j + 1..];
      }
    }
  }

  /** `'%' + k + '%'` with a plain `k` is exactly a substring test. */
  lemma LikeSubstring(s: string, k: string)
    requires Plain(k)
    ensures Like(s, "%" + k + "%") <==> Contains(s, k)
  {
    assert "%" + k + "%" == "%" + (k + "%");
    LikeLeadingPercent(s, k + "%");
    forall i | 0 <= i <= |s|
      ensures Like(s[i..], k + "%") <==> IsPrefix(k, s[i..])
    {
      LikePlainPrefix(s[i..], k);
    }
  }

  /** Lower-casing neither creates nor removes `LIKE` metacharacters. */
  lemma LowerKeepsPlain(k: string)
    ensures Plain(Lower(k)) <==> Plain(k)
  {
  }

  /** The search patterns `LOWER('%' || k || '%')` are `'%' || LOWER(k) || '%'`. */
  lemma LowerPattern(k: string)
    ensures Lower("%" + k + "%") == "%" + Lower(k) + "%"
  {
    LowerConcat("%" + k, "%");
    LowerConcat("%", k);
  }
}
