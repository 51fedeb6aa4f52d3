/** The `ilike(column, `%${search}%`)` filter exactly as the handlers build
    it: the search text is put into a SQL LIKE pattern without escaping, so
    `%`, `_` and `\` in it keep their pattern meaning. When the search text
    holds none of them, the filter is plain case-insensitive containment
    (Text.Matches), which is what the rest of the model uses. */
module Like {
  import opened Wrappers
  import opened Text

  /** SQL LIKE: `%` matches any run of characters, `_` any one character,
      `\` makes the next character literal. */
  predicate Like(s: string, p: string)
    decreases |s| + |p|
  {
    if p == [] then s == []
    else if p[0] == '%' then Like(s, p[1..]) || (s != [] && Like(s[1..], p))
    else if p[0] == '\\' && |p| >= 2 then s != [] && s[0] == p[1] && Like(s[1..], p[2..])
    else if p[0] == '_' then s != [] && Like(s[1..], p[1..])
    else s != [] && s[0] == p[0] && Like(s[1..], p[1..])
  }

  /** The pattern the handlers interpolate: `%${search}%`. */
  function Pattern(search: string): string
  {
    "%" + search + "%"
  }

  /** `ilike`: LIKE after lower-casing both sides. */
  predicate ILike(s: string, p: string)
  {
    Like(Lower(s), Lower(p))
  }

  /** The filter of get-users.ts:45 and get-courses.ts:39 as written. */
  predicate MatchesAsWritten(text: string, search: Option<string>)
  {
    !Truthy(search) || ILike(text, Pattern(search.value))
  }

  /** The text holds no LIKE metacharacter. */
  predicate Plain(q: string)
  {
    forall i | 0 <= i < |q| :: q[i] != '%' && q[i] != '_' && q[i] != '\\'
  }

  /** A trailing `%` matches everything. */
  lemma {:induction false} PercentMatchesAll(s: string)
    ensures Like(s, "%")
    decreases s
  {
    if s != [] {
      PercentMatchesAll(s[1..]);
    }
  }

  /** A plain text followed by `%` matches exactly the strings it starts. */
  lemma {:induction false} PlainThenPercent(s: string, q: string)
    requires Plain(q)
    ensures Like(s, q + "%") <==> StartsWith(s, q)
    decreases q
  {
    if q == [] {
      assert q + "%" == "%";
      PercentMatchesAll(s);
    } else {
      assert (q + "%")[0] == q[0];
      assert (q + "%")[1..] == q[1..] + "%";
      assert Plain(q[1..]) by {
        forall i | 0 <= i < |q[1..]|
          ensures q[1..][i] != '%' && q[1..][i] != '_' && q[1..][i] != '\\'
        {
          assert q[1..][i] == q[i + 1];
        }
      }
      if s != [] {
        PlainThenPercent(s[1..], q[1..]);
      }
    }
  }

  /** For a plain search text, the LIKE pattern is containment. */
  lemma {:induction false} PlainPatternIsContainment(s: string, q: string)
    requires Plain(q)
    ensures Like(s, Pattern(q)) <==> Contains(s, q)
    decreases s
  {
    assert Pattern(q)[0] == '%';
    assert Pattern(q)[1..] == q + "%";
    PlainThenPercent(s, q);
    if s != [] {
      PlainPatternIsContainment(s[1..], q);
    }
  }

  lemma LowerKeepsPlain(q: string)
    requires Plain(q)
    ensures Plain(Lower(q))
  {
  }

  /** Where the search text has no metacharacter, the filter as written and
      the containment filter the model uses agree. */
  lemma {:induction false} AsWrittenAgreesOnPlainSearch(text: string, search: Option<string>)
    requires search.Some? ==> Plain(search.value)
    ensures MatchesAsWritten(text, search) <==> Matches(text, search)
  {
    if Truthy(search) {
      var q := search.value;
      assert Lower(Pattern(q)) == Pattern(Lower(q));
      LowerKeepsPlain(q);
      PlainPatternIsContainment(Lower(text), Lower(q));
    }
  }

  /** The discrepancy: the search `_` keeps the name `Ann`, which does not
      contain an underscore. */
  lemma UnderscoreSearchMatchesAnyName()
    ensures MatchesAsWritten("Ann", Some("_"))
    ensures !Matches("Ann", Some("_"))
  {
  }
}
