/** Shell-style matching as Python's `fnmatch.fnmatch` does it on POSIX (no case folding):
    `*` matches any run of characters, `/` included, `?` any one character, and every
    other pattern character itself. */
module Glob {

  /** `fnmatch.fnmatch(name, pattern)`. */
  predicate Match(pattern: string, name: string)
    decreases |pattern| + |name|
  {
    if pattern == [] then name == []
    else if pattern[0] == '*' then
      Match(pattern[1..], name) || (name != [] && Match(pattern, name[1..]))
    else if pattern[0] == '?' then
      name != [] && Match(pattern[1..], name[1..])
    else
      name != [] && name[0] == pattern[0] && Match(pattern[1..], name[1..])
  }

  /** A pattern with no wildcard characters. */
  predicate Literal(s: string) {
    forall i :: 0 <= i < |s| ==> s[i] != '*' && s[i] != '?'
  }

  /** A pattern made only of stars matches every name. */
  lemma {:induction false} StarsMatchAll(stars: string, name: string)
    requires stars != [] && forall i :: 0 <= i < |stars| ==> stars[i] == '*'
    ensures Match(stars, name)
    decreases |stars| + |name|
  {
    if name != [] {
      StarsMatchAll(stars, name[1..]);
    } else if |stars| > 1 {
      StarsMatchAll(stars[1..], name);
    }
  }

  /** A literal prefix of the pattern matches that same prefix of the name. */
  lemma {:induction false} LiteralPrefixMatches(lit: string, rest: string, tail: string)
    requires Literal(lit)
    requires Match(rest, tail)
    ensures Match(lit + rest, lit + tail)
    decreases |lit|
  {
    if lit != [] {
      assert (lit + rest)[1..] == lit[1..] + rest;
      assert (lit + tail)[1..] == lit[1..] + tail;
      LiteralPrefixMatches(lit[1..], rest, tail);
    } else {
      assert lit + rest == rest && lit + tail == tail;
    }
  }

  /** A name matched by a pattern that starts with a literal starts with that literal. */
  lemma {:induction false} LiteralPrefixRequired(lit: string, rest: string, name: string)
    requires Literal(lit)
    requires Match(lit + rest, name)
    ensures |lit| <= |name| && name[..|lit|] == lit
    decreases |lit|
  {
    if lit != [] {
      assert (lit + rest)[0] == lit[0];
      assert (lit + rest)[1..] == lit[1..] + rest;
      LiteralPrefixRequired(lit[1..], rest, name[1..]);
    }
  }

  /** A pattern without wildcards matches only itself. */
  lemma LiteralMatchesOnlyItself(lit: string, name: string)
    requires Literal(lit)
    ensures Match(lit, name) <==> name == lit
  {
    assert lit + [] == lit;
    if Match(lit, name) {
      LiteralPrefixRequired(lit, [], name);
      LiteralAllConsumed(lit, name);
    }
    if name == lit {
      LiteralPrefixMatches(lit, [], []);
      assert lit + [] == lit;
    }
  }

  lemma {:induction false} LiteralAllConsumed(lit: string, name: string)
    requires Literal(lit) && Match(lit, name)
    ensures |name| == |lit|
    decreases |lit|
  {
    if lit != [] {
      LiteralAllConsumed(lit[1..], name[1..]);
    }
  }
}
