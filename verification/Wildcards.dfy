/** Patterns with one wildcard for any run of characters and one for any single character: IAM's and SQL `LIKE`'s. */
module Wildcards {

  datatype Syntax = Syntax(many: char, one: char)

  const GLOB := Syntax('*', '?')
  const LIKE := Syntax('%', '_')

  predicate Matches(w: Syntax, pattern: string, s: string)
    decreases |pattern| + |s|
  {
    if pattern == "" then s == ""
    else if pattern[0] == w.many then Matches(w, pattern[1..], s) || (s != "" && Matches(w, pattern, s[1..]))
    else s != "" && (pattern[0] == w.one || pattern[0] == s[0]) && Matches(w, pattern[1..], s[1..])
  }

  /** No character of the pattern is a wildcard. */
  predicate Plain(w: Syntax, s: string) {
    w.many !in s && w.one !in s
  }

  lemma {:induction false} PlainPrefix(w: Syntax, literal: string, pattern: string, s: string)
    requires Plain(w, literal)
    ensures Matches(w, literal + pattern, s) <==> literal <= s && Matches(w, pattern, s[|literal|..])
  {
    if literal == "" {
      assert literal + pattern == pattern;
    } else {
      assert literal[0] in literal;
      assert (literal + pattern)[1..] == literal[1..] + pattern;
      if s != "" {
        PlainPrefix(w, literal[1..], pattern, s[1..]);
        if literal[0] == s[0] && literal[1..] <= s[1..] {
          assert literal == [s[0]] + literal[1..] && s == [s[0]] + s[1..];
        }
      }
    }
  }

  lemma {:induction false} ManyMatchesAll(w: Syntax, s: string)
    ensures Matches(w, [w.many], s)
  {
    if s != "" { ManyMatchesAll(w, s[1..]); }
  }

  /** A plain pattern matches itself; followed by the any-run wildcard it matches what it is a prefix of. */
  lemma PlainMatches(w: Syntax, literal: string, s: string)
    requires Plain(w, literal)
    ensures Matches(w, literal, s) <==> s == literal
    ensures Matches(w, literal + [w.many], s) <==> literal <= s
  {
    PlainPrefix(w, literal, "", s);
    assert literal + "" == literal;
    PlainPrefix(w, literal, [w.many], s);
    if literal <= s { ManyMatchesAll(w, s[|literal|..]); }
  }

  /** The string agrees with the literal wherever the literal has no wildcard. */
  predicate Covers(w: Syntax, literal: string, s: string) {
    |literal| <= |s| &&
    forall i :: 0 <= i < |literal| ==> s[i] == literal[i] || literal[i] == w.many || literal[i] == w.one
  }

  lemma {:induction false} CoveredMatches(w: Syntax, literal: string, s: string)
    requires Covers(w, literal, s)
    ensures Matches(w, literal + [w.many], s)
  {
    if literal == "" {
      assert literal + [w.many] == [w.many];
      ManyMatchesAll(w, s);
    } else {
      assert (literal + [w.many])[1..] == literal[1..] + [w.many];
      CoveredMatches(w, literal[1..], s[1..]);
      if literal[0] == w.many {
        assert literal + [w.many] == [w.many] + (literal[1..] + [w.many]);
        AnyRunExtends(w, literal[1..] + [w.many], s[1..], s);
      }
    }
  }

  /** After the any-run wildcard, whatever matches a suffix of a string matches the string. */
  lemma AnyRunExtends(w: Syntax, rest: string, tail: string, s: string)
    requires s != "" && tail == s[1..] && Matches(w, rest, tail)
    ensures Matches(w, [w.many] + rest, s)
  {
  }

  /** A literal with a wildcard in it, used as a prefix pattern, also matches a string it is not a prefix of. */
  lemma WildcardOverreaches(w: Syntax, literal: string) returns (s: string, i: nat)
    requires !Plain(w, literal)
    ensures Matches(w, literal + [w.many], s) && !(literal <= s)
    ensures i < |literal| && (literal[i] == w.many || literal[i] == w.one)
    ensures |s| == |literal| && s[i] == (if literal[i] == 'a' then 'b' else 'a')
    ensures forall j :: 0 <= j < |literal| && j != i ==> s[j] == literal[j]
  {
    i :| 0 <= i < |literal| && (literal[i] == w.many || literal[i] == w.one);
    s := literal[i := if literal[i] == 'a' then 'b' else 'a'];
    CoveredMatches(w, literal, s);
  }

  /** A prefix pattern means "starts with" exactly when the prefix is free of wildcards. */
  lemma PrefixPatternIsExact(w: Syntax, literal: string)
    ensures (forall s :: Matches(w, literal + [w.many], s) <==> literal <= s) <==> Plain(w, literal)
  {
    if Plain(w, literal) {
      forall s ensures Matches(w, literal + [w.many], s) <==> literal <= s { PlainMatches(w, literal, s); }
    } else {
      var s, i := WildcardOverreaches(w, literal);
      assert !(Matches(w, literal + [w.many], s) <==> literal <= s);
    }
  }
}
