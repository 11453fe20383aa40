/** The text filter that PostgresStore.QueryLogs builds, "%" + text + "%", under the rules of LIKE
    (ILIKE compares lower-cased texts by the same rules), against plain substring search
    (cmd/server/main.go). */
module SqlLike {
  import opened Strings

  /** LIKE: % is any run of characters, _ any one, and a backslash makes the next character plain. */
  predicate Like(p: string, s: string)
    decreases |p|, |s|
  {
    if p == "" then s == ""
    else if p[0] == '%' then Like(p[1..], s) || (s != "" && Like(p, s[1..]))
    else if p[0] == '_' then s != "" && Like(p[1..], s[1..])
    else if p[0] == '\\' then |p| > 1 && s != "" && s[0] == p[1] && Like(p[2..], s[1..])
    else s != "" && s[0] == p[0] && Like(p[1..], s[1..])
  }

  predicate Plain(c: char) { c != '%' && c != '_' && c != '\\' }

  predicate AllPlain(t: string) { forall i :: 0 <= i < |t| ==> Plain(t[i]) }

  lemma {:induction false} AnyTail(s: string)
    ensures Like("%", s)
  {
    if s != "" {
      AnyTail(s[1..]);
    }
  }

  /** A plain text followed by % matches exactly the strings that begin with it. */
  lemma {:induction false} PlainPrefix(t: string, s: string)
    requires AllPlain(t)
    ensures Like(t + "%", s) <==> t <= s
  {
    if t == "" {
      AnyTail(s);
      assert t + "%" == "%";
    } else {
      assert (t + "%")[1..] == t[1..] + "%" && Plain((t + "%")[0]);
      if s != "" {
        PlainPrefix(t[1..], s[1..]);
        assert t <= s <==> t[0] == s[0] && t[1..] <= s[1..];
      }
    }
  }

  /** A leading % lets the rest match from anywhere. */
  lemma {:induction false} FromAnywhere(p: string, s: string)
    ensures Like("%" + p, s) <==> exists i :: 0 <= i <= |s| && Like(p, s[i..])
  {
    assert ("%" + p)[1..] == p && s[0..] == s;
    if s != "" {
      FromAnywhere(p, s[1..]);
      assert forall i :: 1 <= i <= |s| ==> s[1..][i - 1..] == s[i..];
      if i :| 0 <= i <= |s| && Like(p, s[i..]) {
        if i > 0 {
          assert s[1..][i - 1..] == s[i..];
        }
      }
      if Like("%" + p, s[1..]) {
        var i :| 0 <= i <= |s[1..]| && Like(p, s[1..][i..]);
        assert s[1..][i..] == s[i + 1..];
      }
    }
  }

  lemma PlainTextIsSubstring(t: string, s: string)
    requires AllPlain(t)
    ensures Like("%" + t + "%", s) <==> Contains(s, t)
  {
    assert "%" + t + "%" == "%" + (t + "%");
    FromAnywhere(t + "%", s);
    forall i | 0 <= i <= |s| ensures Like(t + "%", s[i..]) <==> t <= s[i..] {
      PlainPrefix(t, s[i..]);
    }
  }

  /** A string that the text matches as a pattern: runs empty, single characters x, escapes dropped. */
  function Reading(t: string): string {
    if t == "" then ""
    else if t[0] == '%' then Reading(t[1..])
    else if t[0] == '_' then ['x'] + Reading(t[1..])
    else if t[0] == '\\' then if |t| == 1 then "%" else [t[1]] + Reading(t[2..])
    else [t[0]] + Reading(t[1..])
  }

  lemma {:induction false} ReadingMatches(t: string)
    ensures Like(t + "%", Reading(t))
  {
    if t == "" {
      assert t + "%" == "%";
      AnyTail("");
    } else if t[0] == '\\' {
      if |t| == 1 {
        assert (t + "%")[2..] == "" && "%"[1..] == "";
      } else {
        ReadingMatches(t[2..]);
        assert (t + "%")[2..] == t[2..] + "%" && Reading(t)[1..] == Reading(t[2..]);
      }
    } else {
      ReadingMatches(t[1..]);
      assert (t + "%")[1..] == t[1..] + "%";
      assert t[0] != '%' ==> Reading(t)[1..] == Reading(t[1..]);
    }
  }

  /** Unless the text is plain, that string is shorter than it or differs from it. */
  lemma {:induction false} ReadingDiffers(t: string)
    ensures |Reading(t)| <= |t|
    ensures !AllPlain(t) ==> Reading(t) != t
  {
    if t == "" {
    } else if t[0] == '\\' {
      if |t| > 1 {
        ReadingDiffers(t[2..]);
      }
    } else {
      ReadingDiffers(t[1..]);
      if t[0] != '%' && t[0] != '_' {
        assert Reading(t)[1..] == Reading(t[1..]);
      }
    }
  }

  /** Exactly when the SQL text filter is substring search: if and only if the text holds no percent
      sign, underscore or backslash. */
  lemma LikeIsSubstringIff(t: string)
    ensures (forall s :: Like("%" + t + "%", s) <==> Contains(s, t)) <==> AllPlain(t)
  {
    if AllPlain(t) {
      forall s ensures Like("%" + t + "%", s) <==> Contains(s, t) {
        PlainTextIsSubstring(t, s);
      }
    } else {
      var s := Reading(t);
      ReadingMatches(t);
      ReadingDiffers(t);
      assert "%" + t + "%" == "%" + (t + "%");
      FromAnywhere(t + "%", s);
      assert s[0..] == s;
      assert Like("%" + t + "%", s) && !Contains(s, t);
    }
  }
}
