/**
 * The few Python `str` and slicing operations the library relies on, with the
 * exact Python semantics: `str.split(sep)`, `sep.join(parts)`,
 * `str.splitlines()`, `s[i:j]` with negative and out-of-range indices,
 * `str(n)` and `int(s)` on integers, string ordering and `sub in s`.
 */
module PyStrings {
  import opened Wrappers

  // ---------------------------------------------------------------------------
  // Splitting and joining

  /**
   * `re.split` on a one-character class, and `s.split(sep)` when `seps == {sep}`:
   * the pieces between separators, empty pieces included, so there is always
   * one more piece than there are separators.
   */
  function SplitOn(s: string, seps: set<char>): (r: seq<string>)
    ensures |r| >= 1
  {
    if s == [] then [[]]
    else
      var rest := SplitOn(s[1..], seps);
      if s[0] in seps then [[]] + rest
      else [[s[0]] + rest[0]] + rest[1..]
  }

  /** `s.split(sep)` for a one-character separator. */
  function Split(s: string, sep: char): (r: seq<string>)
    ensures |r| >= 1
  {
    SplitOn(s, {sep})
  }

  /** `sep.join(parts)`. */
  function Join(sep: string, parts: seq<string>): string
  {
    if |parts| == 0 then []
    else if |parts| == 1 then parts[0]
    else parts[0] + sep + Join(sep, parts[1..])
  }

  predicate NoneIn(s: string, seps: set<char>)
  {
    forall i :: 0 <= i < |s| ==> s[i] !in seps
  }

  /** No piece of a split contains a separator. */
  lemma {:induction false} SplitOnPiecesFree(s: string, seps: set<char>)
    ensures forall j :: 0 <= j < |SplitOn(s, seps)| ==> NoneIn(SplitOn(s, seps)[j], seps)
  {
    if s != [] {
      SplitOnPiecesFree(s[1..], seps);
      var rest := SplitOn(s[1..], seps);
      if s[0] !in seps {
        var first := [s[0]] + rest[0];
        assert NoneIn(rest[0], seps);
        assert NoneIn(first, seps) by {
          forall i | 0 <= i < |first| ensures first[i] !in seps {
            if i > 0 { assert first[i] == rest[0][i - 1]; }
          }
        }
      }
    }
  }

  /** A string without separators is a single piece. */
  lemma {:induction false} SplitOnNoSeparator(s: string, seps: set<char>)
    requires NoneIn(s, seps)
    ensures SplitOn(s, seps) == [s]
  {
    if s != [] {
      SplitOnNoSeparator(s[1..], seps);
      assert [s[0]] + s[1..] == s;
    }
  }

  lemma SeqAppendAssociates<T>(a: seq<T>, b: seq<T>, c: seq<T>)
    ensures (a + b) + c == a + (b + c)
  {
  }

  /** A separator cuts the split in two: the pieces of the left part, then those of the right. */
  lemma {:induction false} SplitOnAround(a: string, c: char, b: string, seps: set<char>)
    requires c in seps
    ensures SplitOn(a + [c] + b, seps) == SplitOn(a, seps) + SplitOn(b, seps)
  {
    if a == [] {
      assert a + [c] + b == [c] + b;
      assert ([c] + b)[1..] == b;
    } else {
      SplitOnAround(a[1..], c, b, seps);
      var whole := a + [c] + b;
      assert whole[1..] == a[1..] + [c] + b;
      assert whole[0] == a[0];
      var left := SplitOn(a[1..], seps);
      var rest := SplitOn(whole[1..], seps);
      assert rest == left + SplitOn(b, seps);
      var right := SplitOn(b, seps);
      if a[0] in seps {
        assert SplitOn(whole, seps) == [[]] + (left + right);
        assert SplitOn(a, seps) == [[]] + left;
        SeqAppendAssociates([[]], left, right);
      } else {
        var x := [a[0]] + left[0];
        assert rest[0] == left[0];
        assert rest[1..] == left[1..] + right;
        assert SplitOn(whole, seps) == [x] + (left[1..] + right);
        assert SplitOn(a, seps) == [x] + left[1..];
        SeqAppendAssociates([x], left[1..], right);
      }
    }
  }

  /** Joining the pieces of `s.split(sep)` with `sep` gives back `s`. */
  lemma {:induction false} JoinSplit(s: string, sep: char)
    ensures Join([sep], Split(s, sep)) == s
  {
    if s != [] {
      JoinSplit(s[1..], sep);
      var rest := Split(s[1..], sep);
      if s[0] == sep {
        assert Split(s, sep) == [[]] + rest;
        assert ([[]] + rest)[1..] == rest;
        assert Join([sep], Split(s, sep)) == [] + [sep] + Join([sep], rest);
      } else {
        var parts := Split(s, sep);
        assert parts == [[s[0]] + rest[0]] + rest[1..];
        if |rest| == 1 {
          assert Join([sep], rest) == rest[0];
        } else {
          assert parts[1..] == rest[1..];
          assert Join([sep], rest) == rest[0] + [sep] + Join([sep], rest[1..]);
        }
      }
    }
  }

  /** Splitting a join of separator-free pieces, joined by a separator, gives back the pieces. */
  lemma {:induction false} SplitJoin(parts: seq<string>, c: char, seps: set<char>)
    requires c in seps
    requires |parts| >= 1
    requires forall j :: 0 <= j < |parts| ==> NoneIn(parts[j], seps)
    ensures SplitOn(Join([c], parts), seps) == parts
  {
    SplitOnNoSeparator(parts[0], seps);
    if |parts| > 1 {
      SplitJoin(parts[1..], c, seps);
      SplitOnAround(parts[0], c, Join([c], parts[1..]), seps);
      assert [parts[0]] + parts[1..] == parts;
    }
  }

  /** The number of separators in `s`. */
  function CountIn(s: string, seps: set<char>): nat
  {
    if s == [] then 0 else (if s[0] in seps then 1 else 0) + CountIn(s[1..], seps)
  }

  /** `s.split(sep)` has one more piece than `s` has separators. */
  lemma {:induction false} SplitOnCount(s: string, seps: set<char>)
    ensures |SplitOn(s, seps)| == CountIn(s, seps) + 1
  {
    if s != [] {
      SplitOnCount(s[1..], seps);
    }
  }

  // ---------------------------------------------------------------------------
  // str.splitlines()

  /** The characters `str.splitlines()` treats as line boundaries. */
  predicate IsLineBreak(c: char)
  {
    c == '\n' || c == '\r' || c == '\U{000B}' || c == '\U{000C}' || c == '\U{001C}' ||
    c == '\U{001D}' || c == '\U{001E}' || c == '\U{0085}' || c == '\U{2028}' || c == '\U{2029}'
  }

  /** The index of the first line boundary in `s`, or `|s|` when there is none. */
  function FirstBreak(s: string): (n: nat)
    ensures n <= |s|
    ensures n < |s| ==> IsLineBreak(s[n])
    ensures forall i :: 0 <= i < n ==> !IsLineBreak(s[i])
  {
    if s == [] then 0
    else if IsLineBreak(s[0]) then 0
    else 1 + FirstBreak(s[1..])
  }

  /**
   * `s.splitlines()`: the lines of `s` without their line boundaries; `\r\n`
   * is one boundary, and a boundary at the very end does not start a new line.
   */
  function SplitLines(s: string): (r: seq<string>)
    ensures forall j :: 0 <= j < |r| ==> forall i :: 0 <= i < |r[j]| ==> !IsLineBreak(r[j][i])
    decreases |s|
  {
    if s == [] then []
    else
      var n := FirstBreak(s);
      if n == |s| then [s]
      else
        var skip := if s[n] == '\r' && n + 1 < |s| && s[n + 1] == '\n' then 2 else 1;
        [s[..n]] + SplitLines(s[n + skip..])
  }

  /**
   * On text whose only line boundary is `\n` and that does not end with one,
   * `splitlines()` and `split('\n')` agree.
   */
  lemma {:induction false} SplitLinesIsSplit(s: string)
    requires s != [] && s[|s| - 1] != '\n'
    requires forall i :: 0 <= i < |s| ==> IsLineBreak(s[i]) ==> s[i] == '\n'
    ensures SplitLines(s) == Split(s, '\n')
    decreases |s|
  {
    var n := FirstBreak(s);
    if n == |s| {
      SplitOnNoSeparator(s, {'\n'});
    } else {
      var rest := s[n + 1..];
      assert s == s[..n] + ['\n'] + rest;
      SplitOnAround(s[..n], '\n', rest, {'\n'});
      SplitOnNoSeparator(s[..n], {'\n'});
      assert rest != [];
      SplitLinesIsSplit(rest);
    }
  }

  // ---------------------------------------------------------------------------
  // Slicing

  /** Python's normalisation of a slice bound against a sequence of length `n`. */
  function SliceIndex(i: int, n: nat): (k: nat)
    ensures k <= n
  {
    if i < 0 then (if n + i < 0 then 0 else n + i)
    else if i > n then n
    else i
  }

  /** `s[i:j]`. */
  function Slice<T>(s: seq<T>, i: int, j: int): (r: seq<T>)
    ensures |r| <= |s|
  {
    var lo, hi := SliceIndex(i, |s|), SliceIndex(j, |s|);
    if lo < hi then s[lo..hi] else []
  }

  /** `s[i:]`. */
  function SliceFrom<T>(s: seq<T>, i: int): (r: seq<T>)
    ensures r == s[SliceIndex(i, |s|)..]
  {
    Slice(s, i, |s|)
  }

  /** `s[:j]`. */
  function SliceTo<T>(s: seq<T>, j: int): (r: seq<T>)
    ensures r == s[..SliceIndex(j, |s|)]
  {
    Slice(s, 0, j)
  }

  // ---------------------------------------------------------------------------
  // Searching

  /**
   * The position of the first `x` in `s`, or `|s|` when there is none:
   * `str.find` and `list.index`, whose ValueError their callers raise.
   */
  function IndexOf<T(==)>(s: seq<T>, x: T): (n: nat)
    ensures n <= |s|
    ensures n < |s| ==> s[n] == x
    ensures forall j :: 0 <= j < n ==> s[j] != x
  {
    if s == [] then 0 else if s[0] == x then 0 else 1 + IndexOf(s[1..], x)
  }

  /** A position with `x` and no `x` before it is the one `IndexOf` finds. */
  lemma {:induction false} IndexOfAt<T>(s: seq<T>, x: T, n: nat)
    requires n <= |s| && (n < |s| ==> s[n] == x)
    requires forall j :: 0 <= j < n ==> s[j] != x
    ensures IndexOf(s, x) == n
  {
    if n > 0 {
      IndexOfAt(s[1..], x, n - 1);
    }
  }

  // ---------------------------------------------------------------------------
  // Integers and strings

  function DigitChar(d: nat): char
    requires d < 10
  {
    ('0' as int + d) as char
  }

  function NatToString(n: nat): (r: string)
    ensures |r| >= 1
    ensures forall i :: 0 <= i < |r| ==> '0' <= r[i] <= '9'
    ensures r[0] == '0' ==> n == 0
  {
    if n < 10 then [DigitChar(n)] else NatToString(n / 10) + [DigitChar(n % 10)]
  }

  /** `str(i)` for an integer. */
  function IntToString(i: int): string
  {
    if i < 0 then "-" + NatToString(-i) else NatToString(i)
  }

  function DigitsValue(s: string): nat
    requires forall i :: 0 <= i < |s| ==> '0' <= s[i] <= '9'
  {
    if s == [] then 0 else 10 * DigitsValue(s[..|s| - 1]) + (s[|s| - 1] - '0') as nat
  }

  predicate AllDigits(s: string)
  {
    |s| >= 1 && forall i :: 0 <= i < |s| ==> '0' <= s[i] <= '9'
  }

  /**
   * `int(s)` for a string: an optional sign and one or more ASCII digits.
   * Python's int() also accepts surrounding whitespace, `_` between digits
   * and non-ASCII digits; those forms are reported as ValueError here.
   */
  function ParseInt(s: string): (r: Result<int>)
    ensures r.Err? ==> r.error.ValueError?
  {
    if |s| >= 1 && (s[0] == '-' || s[0] == '+') && AllDigits(s[1..]) then
      Ok(if s[0] == '-' then -(DigitsValue(s[1..]) as int) else DigitsValue(s[1..]))
    else if AllDigits(s) then Ok(DigitsValue(s))
    else Err(ValueError("invalid literal for int() with base 10"))
  }

  /** A digit character stands for its own value. */
  lemma DigitCharValue(d: nat)
    requires d < 10
    ensures '0' <= DigitChar(d) <= '9' && (DigitChar(d) - '0') as nat == d
  {
  }

  lemma {:induction false} DigitsValueOfNat(n: nat)
    ensures DigitsValue(NatToString(n)) == n
  {
    if n < 10 {
      DigitCharValue(n);
      assert NatToString(n) == [DigitChar(n)];
      assert NatToString(n)[..0] == [];
    } else {
      DigitsValueOfNat(n / 10);
      DigitCharValue(n % 10);
      var s := NatToString(n);
      assert s == NatToString(n / 10) + [DigitChar(n % 10)];
      assert s[..|s| - 1] == NatToString(n / 10);
      assert s[|s| - 1] == DigitChar(n % 10);
      assert DigitsValue(s) == 10 * (n / 10) + n % 10;
    }
  }

  /** `int(str(i)) == i`. */
  lemma IntStringRoundTrip(i: int)
    ensures ParseInt(IntToString(i)) == Ok(i)
  {
    if i < 0 {
      var t := NatToString(-i);
      var s := IntToString(i);
      assert s == "-" + t;
      assert s[0] == '-' && s[1..] == t;
      assert AllDigits(s[1..]);
      DigitsValueOfNat(-i);
    } else {
      var t := NatToString(i);
      assert IntToString(i) == t;
      assert AllDigits(t) && t[0] != '-' && t[0] != '+';
      DigitsValueOfNat(i);
    }
  }

  /** Python's `<=` on strings: lexicographic by code point. */
  predicate LexLeq(a: string, b: string)
  {
    if a == [] then true
    else if b == [] then false
    else if a[0] != b[0] then a[0] < b[0]
    else LexLeq(a[1..], b[1..])
  }

  lemma {:induction false} LexLeqTotal(a: string, b: string)
    ensures LexLeq(a, b) || LexLeq(b, a)
  {
    if a != [] && b != [] && a[0] == b[0] {
      LexLeqTotal(a[1..], b[1..]);
    }
  }

  lemma {:induction false} LexLeqTransitive(a: string, b: string, c: string)
    requires LexLeq(a, b) && LexLeq(b, c)
    ensures LexLeq(a, c)
  {
    if a != [] && b != [] && c != [] && a[0] == b[0] && b[0] == c[0] {
      LexLeqTransitive(a[1..], b[1..], c[1..]);
    }
  }

  lemma {:induction false} LexLeqAntisymmetric(a: string, b: string)
    requires LexLeq(a, b) && LexLeq(b, a)
    ensures a == b
  {
    if a != [] && b != [] {
      LexLeqAntisymmetric(a[1..], b[1..]);
      assert a == [a[0]] + a[1..];
      assert b == [b[0]] + b[1..];
    }
  }

  /** Python's `sub in s` on strings. */
  predicate IsSubstring(sub: string, s: string)
  {
    sub <= s || (s != [] && IsSubstring(sub, s[1..]))
  }
}
