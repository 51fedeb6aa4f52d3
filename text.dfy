/** The string operations the handlers rely on: JavaScript's `startsWith`,
    JavaScript truthiness of an optional string, and the case-insensitive
    substring search the database performs for `ilike '%search%'`. */
module Text {
  import opened Wrappers

  /** `s.startsWith(prefix)`, compared character by character (so the
      comparison is case-sensitive). */
  predicate StartsWith(s: string, prefix: string)
    decreases prefix
  {
    prefix == [] || (s != [] && s[0] == prefix[0] && StartsWith(s[1..], prefix[1..]))
  }

  /** `startsWith` is exactly Dafny's prefix relation on sequences. */
  lemma {:induction false} StartsWithIsPrefix(s: string, prefix: string)
    ensures StartsWith(s, prefix) <==> prefix <= s
    decreases prefix
  {
    if prefix != [] && s != [] {
      StartsWithIsPrefix(s[1..], prefix[1..]);
      assert s == [s[0]] + s[1..];
      assert prefix == [prefix[0]] + prefix[1..];
    }
  }

  /** `needle` occurs somewhere in `hay`. */
  predicate Contains(hay: string, needle: string)
    decreases hay
  {
    StartsWith(hay, needle) || (hay != [] && Contains(hay[1..], needle))
  }

  /** Containment means an occurrence at some position of `hay`. */
  lemma {:induction false} ContainsAt(hay: string, needle: string)
    ensures Contains(hay, needle) <==> exists i :: 0 <= i <= |hay| && needle <= hay[i..]
    decreases hay
  {
    StartsWithIsPrefix(hay, needle);
    assert hay[0..] == hay;
    if hay != [] {
      ContainsAt(hay[1..], needle);
      if Contains(hay[1..], needle) {
        var i :| 0 <= i <= |hay[1..]| && needle <= hay[1..][i..];
        assert hay[1..][i..] == hay[i + 1..];
      }
      if exists i :: 0 <= i <= |hay| && needle <= hay[i..] {
        var i :| 0 <= i <= |hay| && needle <= hay[i..];
        if i > 0 {
          assert hay[1..][i - 1..] == hay[i..];
        }
      }
    }
  }

  /** Lower-casing of one character (ASCII letters only). */
  function LowerChar(c: char): char
  {
    if 'A' <= c <= 'Z' then (c as int + 32) as char else c
  }

  /** Lower-casing of a string, character by character. */
  function Lower(s: string): string
  {
    seq(|s|, i requires 0 <= i < |s| => LowerChar(s[i]))
  }

  /** Case-insensitive containment: both sides are lowered first. */
  predicate ContainsIgnoringCase(hay: string, needle: string)
  {
    Contains(Lower(hay), Lower(needle))
  }

  /** JavaScript truthiness of an optional string: present and not empty. */
  predicate Truthy(s: Option<string>)
  {
    s.Some? && s.value != ""
  }

  /** The filter `search ? ilike(column, `%${search}%`) : undefined`, with
      `ilike` read as case-insensitive containment: a falsy search keeps
      every row. */
  predicate Matches(text: string, search: Option<string>)
  {
    !Truthy(search) || ContainsIgnoringCase(text, search.value)
  }

  /** A falsy search (absent or empty) filters nothing out; a truthy one
      keeps exactly the texts that contain it somewhere, ignoring case. */
  lemma MatchesMeaning(text: string, search: Option<string>)
    ensures !Truthy(search) ==> Matches(text, search)
    ensures Truthy(search) ==>
      (Matches(text, search) <==>
         exists i :: 0 <= i <= |text| && Lower(search.value) <= Lower(text)[i..])
  {
    if Truthy(search) {
      ContainsAt(Lower(text), Lower(search.value));
    }
  }

  /** Lower-casing twice is lower-casing once. */
  lemma LowerIdempotent(s: string)
    ensures Lower(Lower(s)) == Lower(s)
  {
  }

  /** The search ignores the case of the search text itself. */
  lemma MatchesIgnoresSearchCase(text: string, q: string)
    ensures Matches(text, Some(q)) <==> Matches(text, Some(Lower(q)))
  {
    LowerIdempotent(q);
    assert (q == "") <==> (Lower(q) == "");
  }
}
