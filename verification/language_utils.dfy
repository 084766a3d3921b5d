/**
 * C++ symbol handling: splitting a qualified name into identifier tokens,
 * matching a symbol against the trailing tokens of another, and recognising a
 * bare identifier.
 */
module LanguageUtils {
  import opened Wrappers
  import opened PyStrings

  /** The character class `TOKEN_BOUNDARIES`: punctuation and the space character. */
  const Boundaries: set<char> :=
    {'-', '!', '"', '#', '%', '&', '\'', '(', ')', '*', '+', ',', '.', '/', ':', ';',
     '<', '=', '>', '?', '[', '\\', ']', '^', '{', '|', '}', '~', ' '}

  /** The pieces that are not empty, in order (the `if token` filter). */
  function NonEmpty(parts: seq<string>): (r: seq<string>)
    ensures |r| <= |parts|
    ensures forall j :: 0 <= j < |r| ==> r[j] != [] && r[j] in parts
  {
    if parts == [] then []
    else if parts[0] == [] then NonEmpty(parts[1..])
    else [parts[0]] + NonEmpty(parts[1..])
  }

  lemma {:induction false} NonEmptyAppend(a: seq<string>, b: seq<string>)
    ensures NonEmpty(a + b) == NonEmpty(a) + NonEmpty(b)
  {
    if a != [] {
      NonEmptyAppend(a[1..], b);
      assert (a + b)[1..] == a[1..] + b;
    } else {
      assert a + b == b;
    }
  }

  lemma {:induction false} NonEmptyKeepsAll(parts: seq<string>)
    requires forall j :: 0 <= j < |parts| ==> parts[j] != []
    ensures NonEmpty(parts) == parts
  {
    if parts != [] {
      NonEmptyKeepsAll(parts[1..]);
    }
  }

  /**
   * The identifier tokens of `s`: the non-empty runs of characters between
   * boundary characters. Every token is non-empty and holds no boundary.
   */
  function CppIdentifierTokens(s: string): (r: seq<string>)
    ensures forall j :: 0 <= j < |r| ==> r[j] != [] && NoneIn(r[j], Boundaries)
  {
    SplitOnPiecesFree(s, Boundaries);
    NonEmpty(SplitOn(s, Boundaries))
  }

  /** A non-empty run of non-boundary characters is a single token. */
  lemma TokensOfWord(s: string)
    ensures s != [] && NoneIn(s, Boundaries) ==> CppIdentifierTokens(s) == [s]
  {
    if s != [] && NoneIn(s, Boundaries) {
      SplitOnNoSeparator(s, Boundaries);
    }
  }

  /** A boundary character separates the tokens of what precedes it from those of what follows. */
  lemma TokensAround(a: string, c: char, b: string)
    requires c in Boundaries
    ensures CppIdentifierTokens(a + [c] + b) == CppIdentifierTokens(a) + CppIdentifierTokens(b)
  {
    SplitOnAround(a, c, b, Boundaries);
    NonEmptyAppend(SplitOn(a, Boundaries), SplitOn(b, Boundaries));
  }

  /** A string made of boundary characters only has no tokens, and it is the only kind that has none. */
  lemma {:induction false} TokensEmptyIff(s: string)
    ensures CppIdentifierTokens(s) == [] <==> forall i :: 0 <= i < |s| ==> s[i] in Boundaries
  {
    if s != [] {
      TokensEmptyIff(s[1..]);
      var rest := SplitOn(s[1..], Boundaries);
      if s[0] in Boundaries {
        assert SplitOn(s, Boundaries) == [[]] + rest;
        assert NonEmpty([[]] + rest) == NonEmpty(rest) by {
          assert ([[]] + rest)[1..] == rest;
        }
        if forall i :: 0 <= i < |s[1..]| ==> s[1..][i] in Boundaries {
          forall i | 0 <= i < |s| ensures s[i] in Boundaries {
            if i > 0 { assert s[i] == s[1..][i - 1]; }
          }
        }
      } else {
        var first := [s[0]] + rest[0];
        assert SplitOn(s, Boundaries) == [first] + rest[1..];
        assert NonEmpty([first] + rest[1..]) == [first] + NonEmpty(rest[1..]);
      }
    }
  }

  /** Tokenizing names joined by spaces gives back the names. */
  lemma TokensOfJoin(names: seq<string>)
    requires forall j :: 0 <= j < |names| ==> names[j] != [] && NoneIn(names[j], Boundaries)
    ensures CppIdentifierTokens(Join(" ", names)) == names
  {
    if names != [] {
      SplitJoin(names, ' ', Boundaries);
      NonEmptyKeepsAll(names);
    }
  }

  /** `H[-len(N):] == N` on token lists, as Python evaluates it. */
  function SuffixMatches(hay: seq<string>, needle: seq<string>): (r: bool)
    ensures r <==> ((|needle| == 0 && |hay| == 0)
                    || (0 < |needle| <= |hay| && hay[|hay| - |needle|..] == needle))
  {
    SliceFrom(hay, -|needle|) == needle
  }

  /**
   * True when the tokens of `haystack` end with the tokens of `needle`. A
   * needle with no tokens matches only a haystack with no tokens, because
   * `H[-0:]` is all of `H`.
   */
  function MatchSymbolSuffix(haystack: string, needle: string): (r: bool)
    ensures r <==> var h, n := CppIdentifierTokens(haystack), CppIdentifierTokens(needle);
                   (|n| == 0 && |h| == 0) || (0 < |n| <= |h| && h[|h| - |n|..] == n)
  {
    SuffixMatches(CppIdentifierTokens(haystack), CppIdentifierTokens(needle))
  }

  /** A symbol matches itself. */
  lemma MatchSymbolSuffixReflexive(s: string)
    ensures MatchSymbolSuffix(s, s)
  {
  }

  /** A name with at least one token matches any qualification of it by `::`. */
  lemma QualifiedNameMatches(scope: string, name: string)
    requires CppIdentifierTokens(name) != []
    ensures MatchSymbolSuffix(scope + "::" + name, name)
  {
    TokensAround([], ':', name);
    assert [] + [':'] + name == [':'] + name;
    TokensAround(scope, ':', [':'] + name);
    assert scope + "::" + name == scope + [':'] + ([':'] + name);
  }

  /** A matcher holds the tokens of its needle, computed once. */
  datatype SymbolSuffixMatcher = SymbolSuffixMatcher(needle: seq<string>)
  {
    /** Whether the tokens of `haystack` end with the cached needle tokens. */
    function Match(haystack: string): (r: bool)
      ensures r <==> var h := CppIdentifierTokens(haystack);
                     (|needle| == 0 && |h| == 0) || (0 < |needle| <= |h| && h[|h| - |needle|..] == needle)
    {
      SuffixMatches(CppIdentifierTokens(haystack), needle)
    }
  }

  /** `SymbolSuffixMatcher(needle)`: tokenizes the needle once. */
  function NewSymbolSuffixMatcher(needle: string): (m: SymbolSuffixMatcher)
    ensures forall j :: 0 <= j < |m.needle| ==> m.needle[j] != [] && NoneIn(m.needle[j], Boundaries)
  {
    SymbolSuffixMatcher(CppIdentifierTokens(needle))
  }

  /** Caching the needle does not change the answer. */
  lemma MatcherAgrees(needle: string, haystack: string)
    ensures NewSymbolSuffixMatcher(needle).Match(haystack) == MatchSymbolSuffix(haystack, needle)
  {
  }

  /**
   * `IsIdentifier` as written: compares the first token with `s`, and raises
   * IndexError when `s` has no token at all (the empty string, or `"::"`).
   */
  function IsIdentifier(s: string): (r: Result<bool>)
    ensures r.Err? <==> forall i :: 0 <= i < |s| ==> s[i] in Boundaries
    ensures r.Err? ==> r.error == IndexError
    ensures r == Ok(true) <==> s != [] && NoneIn(s, Boundaries)
  {
    TokensEmptyIff(s);
    TokensOfWord(s);
    var tokens := CppIdentifierTokens(s);
    if |tokens| == 0 then Err(IndexError) else Ok(tokens[0] == s)
  }

  /** The empty string makes `IsIdentifier` raise instead of answering false. */
  lemma IsIdentifierRaisesOnEmpty()
    ensures IsIdentifier("") == Err(IndexError)
    ensures IsIdentifier("::") == Err(IndexError)
  {
  }

  /** The intended test: `s` is a non-empty run of non-boundary characters; no input raises. */
  function IsCppIdentifier(s: string): (r: bool)
    ensures r <==> s != [] && NoneIn(s, Boundaries)
    ensures IsIdentifier(s).Ok? ==> r == IsIdentifier(s).value
  {
    TokensOfWord(s);
    var tokens := CppIdentifierTokens(s);
    |tokens| > 0 && tokens[0] == s
  }

  /** A run of boundary characters separates tokens the same way a single one does. */
  lemma {:induction false} TokensSeparated(a: string, sep: string, b: string)
    requires sep != [] && forall i :: 0 <= i < |sep| ==> sep[i] in Boundaries
    ensures CppIdentifierTokens(a + sep + b) == CppIdentifierTokens(a) + CppIdentifierTokens(b)
    decreases |sep|
  {
    TokensAround(a, sep[0], sep[1..] + b);
    assert a + sep + b == a + [sep[0]] + (sep[1..] + b);
    if |sep| > 1 {
      TokensSeparated([], sep[1..], b);
      assert [] + sep[1..] + b == sep[1..] + b;
    } else {
      assert sep[1..] + b == b;
    }
  }

  // The examples of the doc comments.

  lemma TokensExample()
    ensures CppIdentifierTokens("abc::def") == ["abc", "def"]
  {
    assert NoneIn("abc", Boundaries) && NoneIn("def", Boundaries);
    TokensOfWord("abc");
    TokensOfWord("def");
    TokensSeparated("abc", "::", "def");
    assert "abc" + "::" + "def" == "abc::def";
  }

  predicate IsWord(s: string)
  {
    s != [] && NoneIn(s, Boundaries)
  }

  // The shapes of the doc-comment examples, for any identifiers: the spelling
  // of the separators does not matter, and only trailing tokens are compared.

  lemma SeparatorSpellingIrrelevant(scope: string, name: string)
    requires IsWord(scope) && IsWord(name)
    ensures MatchSymbolSuffix(scope + "::" + name, scope + ":" + name)
    ensures MatchSymbolSuffix(scope + "::" + name, scope + " " + name)
  {
    TokensOfWord(scope);
    TokensOfWord(name);
    TokensSeparated(scope, "::", name);
    TokensSeparated(scope, ":", name);
    TokensSeparated(scope, " ", name);
  }

  lemma DifferentScopeDoesNotMatch(scope: string, name: string, other: string)
    requires IsWord(scope) && IsWord(name) && IsWord(other) && other != scope
    ensures !MatchSymbolSuffix(other + "::" + name, scope + ":" + name)
  {
    TokensOfWord(scope);
    TokensOfWord(name);
    TokensOfWord(other);
    TokensSeparated(scope, ":", name);
    TokensSeparated(other, "::", name);
    var h := CppIdentifierTokens(other + "::" + name);
    assert h == [other, name] && h[0..] == h && h[0] != scope;
  }

  lemma LongerHaystackMatches(scope: string, name: string, other: string)
    requires IsWord(scope) && IsWord(name) && IsWord(other)
    ensures MatchSymbolSuffix(other + "|" + scope + "::" + name, scope + " " + name)
  {
    TokensOfWord(scope);
    TokensOfWord(name);
    TokensOfWord(other);
    TokensSeparated(scope, " ", name);
    TokensSeparated(scope, "::", name);
    TokensSeparated(other, "|", scope + "::" + name);
    assert other + "|" + scope + "::" + name == other + "|" + (scope + "::" + name);
  }

  lemma TrailingTokenDoesNotMatch(scope: string, name: string, other: string)
    requires IsWord(scope) && IsWord(name) && IsWord(other) && other != scope
    ensures !MatchSymbolSuffix(scope + "::" + name + "|" + other, scope + " " + name)
  {
    TokensOfWord(scope);
    TokensOfWord(name);
    TokensOfWord(other);
    TokensSeparated(scope, " ", name);
    TokensSeparated(name, "|", other);
    TokensSeparated(scope, "::", name + "|" + other);
    assert scope + "::" + name + "|" + other == scope + "::" + (name + "|" + other);
    var h := CppIdentifierTokens(scope + "::" + name + "|" + other);
    assert h == [scope, name, other] && h[1..] == [name, other];
    assert other != name || name != scope;
    assert [name, other][0] != [scope, name][0] || [name, other][1] != [scope, name][1];
  }

  lemma IsIdentifierExamples()
    ensures IsIdentifier("abc") == Ok(true)
    ensures IsIdentifier("abc ") == Ok(false)
    ensures IsIdentifier("abc:") == Ok(false)
  {
    assert 'a' !in Boundaries && 'b' !in Boundaries && 'c' !in Boundaries;
    assert NoneIn("abc", Boundaries);
    RejectsTrailingBoundary("abc", ' ');
    RejectsTrailingBoundary("abc", ':');
  }

  /** A word followed by a boundary character is not an identifier, and does not raise. */
  lemma RejectsTrailingBoundary(w: string, c: char)
    requires w != [] && w[0] !in Boundaries && c in Boundaries
    ensures IsIdentifier(w + [c]) == Ok(false)
  {
    var s := w + [c];
    assert s[0] == w[0] && s[|s| - 1] == c;
  }
}
