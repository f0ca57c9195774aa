/** SQL LIKE with `%`, `_` and the escape `\`, and when `%term%` means "contains the term". */
module Like {

  predicate Like(s: string, pattern: string)
    decreases |pattern|, |s|
  {
    if pattern == "" then s == ""
    else if pattern[0] == '%' then Like(s, pattern[1..]) || (s != "" && Like(s[1..], pattern))
    else if pattern[0] == '_' then s != "" && Like(s[1..], pattern[1..])
    else if pattern[0] == '\\' && |pattern| > 1 then s != "" && s[0] == pattern[1] && Like(s[1..], pattern[2..])
    else s != "" && s[0] == pattern[0] && Like(s[1..], pattern[1..])
  }

  predicate Special(c: char) { c == '%' || c == '_' || c == '\\' }

  predicate Plain(term: string) { forall i :: 0 <= i < |term| ==> !Special(term[i]) }

  ghost predicate Contains(s: string, term: string) {
    exists i :: 0 <= i <= |s| && term <= s[i..]
  }

  lemma {:induction false} PercentMatchesAll(s: string)
    ensures Like(s, "%")
    decreases |s|
  {
    assert "%"[1..] == "";
    if s != "" {
      PercentMatchesAll(s[1..]);
    }
  }

  /** A plain term followed by `%` matches what starts with the term. */
  lemma {:induction false} PlainMatchesPrefix(s: string, term: string)
    requires Plain(term)
    ensures Like(s, term + "%") <==> term <= s
    decreases |term|
  {
    if term == "" {
      assert term + "%" == "%";
      PercentMatchesAll(s);
    } else {
      assert (term + "%")[1..] == term[1..] + "%";
      if s != "" {
        PlainMatchesPrefix(s[1..], term[1..]);
        assert term <= s <==> term[0] == s[0] && term[1..] <= s[1..];
      }
    }
  }

  /** A leading `%` tries every suffix. */
  lemma {:induction false} LeadingPercent(s: string, rest: string)
    ensures Like(s, "%" + rest) <==> exists i :: 0 <= i <= |s| && Like(s[i..], rest)
    decreases |s|
  {
    assert ("%" + rest)[1..] == rest && s[0..] == s;
    if s != "" {
      var t := s[1..];
      LeadingPercent(t, rest);
      assert forall i :: 0 <= i <= |t| ==> t[i..] == s[i + 1..];
      if i :| 0 <= i <= |s| && Like(s[i..], rest) {
        assert i > 0 ==> t[i - 1..] == s[i..];
      }
    }
  }

  lemma PlainSearchIsContainment(s: string, term: string)
    requires Plain(term)
    ensures Like(s, "%" + (term + "%")) <==> Contains(s, term)
  {
    LeadingPercent(s, term + "%");
    forall i | 0 <= i <= |s| ensures Like(s[i..], term + "%") <==> term <= s[i..] {
      PlainMatchesPrefix(s[i..], term);
    }
  }

  /** Some text that `term%` matches: wildcards match nothing or an `x`, escapes what they escape. */
  function Sample(term: string): (s: string)
    ensures |s| <= |term|
  {
    if term == "" then ""
    else if term[0] == '%' then Sample(term[1..])
    else if term[0] == '_' then "x" + Sample(term[1..])
    else if term[0] == '\\' then (if |term| == 1 then "%" else [term[1]] + Sample(term[2..]))
    else [term[0]] + Sample(term[1..])
  }

  lemma {:induction false} SampleMatches(term: string)
    ensures Like(Sample(term), term + "%")
    decreases |term|
  {
    var p := term + "%";
    if term == "" {
      assert p == "%";
      PercentMatchesAll("");
    } else {
      assert p[1..] == term[1..] + "%";
      if term[0] == '\\' {
        if |term| == 1 {
          assert p[2..] == "" && "%"[1..] == "";
        } else {
          SampleMatches(term[2..]);
          assert p[2..] == term[2..] + "%";
        }
      } else {
        SampleMatches(term[1..]);
      }
    }
  }

  lemma {:induction false} SampleDiffers(term: string)
    ensures Sample(term) == term ==> Plain(term)
    decreases |term|
  {
    if term != "" && Sample(term) == term {
      assert !Special(term[0]);
      assert term == [term[0]] + term[1..];
      SampleDiffers(term[1..]);
    }
  }

  lemma ShorterOrEqualContains(s: string, term: string)
    requires |s| <= |term| && Contains(s, term)
    ensures s == term
  {
    var i :| 0 <= i <= |s| && term <= s[i..];
    assert s[0..] == s;
  }

  /**
   Searching with `%term%` finds exactly the texts that contain the term if and only if the
   term has none of the characters `%`, `_` and `\`.
   */
  lemma SearchIsContainmentIff(term: string)
    ensures (forall s :: Like(s, "%" + (term + "%")) <==> Contains(s, term)) <==> Plain(term)
  {
    if Plain(term) {
      forall s ensures Like(s, "%" + (term + "%")) <==> Contains(s, term) {
        PlainSearchIsContainment(s, term);
      }
    } else {
      WildcardFindsTooMuch(term);
    }
  }

  /** A term with one of these characters also finds a text that does not contain it. */
  lemma WildcardFindsTooMuch(term: string)
    requires !Plain(term)
    ensures Like(Sample(term), "%" + (term + "%")) && !Contains(Sample(term), term)
  {
    var s := Sample(term);
    SampleMatches(term);
    LeadingPercent(s, term + "%");
    assert s[0..] == s;
    SampleDiffers(term);
    if Contains(s, term) {
      ShorterOrEqualContains(s, term);
    }
  }

  /** Searching for "a_b" finds "axb". */
  lemma UnderscoreFindsTooMuch()
    ensures Like("axb", "%" + ("a_b" + "%")) && !Contains("axb", "a_b")
  {
    assert Special("a_b"[1]);
    assert "a_b"[1..] == "_b" && "_b"[1..] == "b" && "b"[1..] == "";
    assert Sample("b") == "b" && Sample("_b") == "xb" && Sample("a_b") == "axb";
    WildcardFindsTooMuch("a_b");
  }
}
