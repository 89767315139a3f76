/**
 * The JavaScript string operations the dashboard relies on: `trim`, `toLowerCase` (ASCII letters),
 * `toUpperCase` (ASCII letters and the two letters whose upper case is ASCII), `includes`, `split` and `join` with a string separator, and the literal
 * substitution that `replaceAll` performs when its replacement contains no `$`.
 */
module Strings {

  /** The code points `String.prototype.trim` strips: ECMAScript WhiteSpace and LineTerminator. */
  predicate IsWhitespace(c: char) {
    var n := c as int;
    n == 0x09 || n == 0x0A || n == 0x0B || n == 0x0C || n == 0x0D || n == 0x20 || n == 0xA0
    || n == 0x1680 || (0x2000 <= n <= 0x200A) || n == 0x2028 || n == 0x2029 || n == 0x202F
    || n == 0x205F || n == 0x3000 || n == 0xFEFF
  }

  /** No whitespace at either end. */
  predicate IsTrimmed(s: string) {
    s == [] || (!IsWhitespace(s[0]) && !IsWhitespace(s[|s| - 1]))
  }

  /** The number of whitespace characters `s` starts with. */
  function LeadingBlanks(s: string): (n: nat)
    ensures n <= |s|
    ensures forall i :: 0 <= i < n ==> IsWhitespace(s[i])
    ensures n == |s| || !IsWhitespace(s[n])
  {
    if s != [] && IsWhitespace(s[0]) then 1 + LeadingBlanks(s[1..]) else 0
  }

  /** Where the text of `s[lo..hi]` ends once the whitespace it ends with is dropped. */
  function BlankTailStart(s: string, lo: nat, hi: nat): (n: nat)
    requires lo <= hi <= |s|
    ensures lo <= n <= hi
    ensures forall i :: n <= i < hi ==> IsWhitespace(s[i])
    ensures n == lo || !IsWhitespace(s[n - 1])
    decreases hi
  {
    if hi > lo && IsWhitespace(s[hi - 1]) then BlankTailStart(s, lo, hi - 1) else hi
  }

  /** `s.trim()`: the longest infix of `s` with no whitespace at either end. */
  function Trim(s: string): (r: string)
    ensures IsTrimmed(r)
    ensures IsTrimmed(s) ==> r == s
    ensures r == [] <==> forall i :: 0 <= i < |s| ==> IsWhitespace(s[i])
    ensures forall c :: c in r ==> c in s
  {
    var lo := LeadingBlanks(s);
    var hi := BlankTailStart(s, lo, |s|);
    assert lo < hi ==> s[lo..hi][0] == s[lo] && s[lo..hi][hi - lo - 1] == s[hi - 1];
    assert IsTrimmed(s) && s != [] ==> lo == 0 && hi == |s| && s[0..|s|] == s;
    s[lo..hi]
  }

  function LowerChar(c: char): char {
    if 'A' <= c <= 'Z' then (c as int + 32) as char else c
  }

  /**
   * The upper case of `c` where it is a single ASCII letter: the ASCII letters, and the two
   * non-ASCII letters whose upper case is one (dotless i, U+0131, and long s, U+017F). Every other
   * character is kept; JavaScript maps it to non-ASCII text or to one of the ASCII pairs SS, FF, FI,
   * FL, ST, FFI, FFL, none of which occurs in the upper-case words the dashboard compares against.
   */
  function UpperChar(c: char): char {
    if 'a' <= c <= 'z' then (c as int - 32) as char
    else if c == '\U{131}' then 'I'
    else if c == '\U{17F}' then 'S'
    else c
  }

  /** `s.toLowerCase()` on ASCII letters; every other character is kept. */
  function ToLower(s: string): (r: string)
    ensures |r| == |s|
    ensures forall i :: 0 <= i < |s| ==> !('A' <= r[i] <= 'Z')
  {
    seq(|s|, i requires 0 <= i < |s| => LowerChar(s[i]))
  }

  /** `s.toUpperCase()`, character by character as `UpperChar` states it. */
  function ToUpper(s: string): (r: string)
    ensures |r| == |s|
    ensures forall i :: 0 <= i < |s| ==> !('a' <= r[i] <= 'z')
  {
    seq(|s|, i requires 0 <= i < |s| => UpperChar(s[i]))
  }

  /**
   * `trim` removes exactly the whitespace at the two ends: the result sits in `s` at some position
   * `lo` with only whitespace before and after it, and since it is trimmed no shorter or longer
   * infix would do.
   */
  lemma TrimIsInfix(s: string)
    ensures var r := Trim(s);
      exists lo ::
        && 0 <= lo <= |s| - |r| && s[lo..][..|r|] == r
        && (forall i :: 0 <= i < lo ==> IsWhitespace(s[i]))
        && (forall i :: lo + |r| <= i < |s| ==> IsWhitespace(s[i]))
  {
    var lo := LeadingBlanks(s);
    var hi := BlankTailStart(s, lo, |s|);
    assert s[lo..][..|s[lo..hi]|] == s[lo..hi];
  }

  /** `toLowerCase` lowers each ASCII capital by 32 code points and keeps every other character. */
  lemma ToLowerByCharacter(s: string)
    ensures var r := ToLower(s);
      && (forall i :: 0 <= i < |s| && 'A' <= s[i] <= 'Z' ==> r[i] as int == s[i] as int + 32)
      && (forall i :: 0 <= i < |s| && !('A' <= s[i] <= 'Z') ==> r[i] == s[i])
  {
  }

  /**
   * `toUpperCase` raises each ASCII small letter by 32 code points, maps U+0131 to `I` and U+017F to
   * `S`, and keeps every other character.
   */
  lemma ToUpperByCharacter(s: string)
    ensures var r := ToUpper(s);
      && (forall i :: 0 <= i < |s| && 'a' <= s[i] <= 'z' ==> r[i] as int == s[i] as int - 32)
      && (forall i :: 0 <= i < |s| && s[i] == '\U{131}' ==> r[i] == 'I')
      && (forall i :: 0 <= i < |s| && s[i] == '\U{17F}' ==> r[i] == 'S')
      && (forall i :: 0 <= i < |s| && !('a' <= s[i] <= 'z') && s[i] != '\U{131}' && s[i] != '\U{17F}' ==> r[i] == s[i])
  {
  }

  lemma ToUpperIdempotent(s: string)
    ensures ToUpper(ToUpper(s)) == ToUpper(s)
  {
    assert forall i :: 0 <= i < |s| ==> ToUpper(ToUpper(s))[i] == ToUpper(s)[i];
  }

  /** `toLowerCase` changes no whitespace, so trimmed text stays trimmed; a second application changes nothing. */
  lemma LowerKeepsTrimmed(s: string)
    ensures IsTrimmed(s) ==> IsTrimmed(ToLower(s))
    ensures ToLower(ToLower(s)) == ToLower(s)
  {
    assert forall i :: 0 <= i < |s| ==> ToLower(ToLower(s))[i] == ToLower(s)[i];
  }

  /** `toLowerCase` keeps every character that is not an ASCII capital, `@` among them. */
  lemma LowerKeepsAt(s: string)
    ensures '@' in ToLower(s) <==> '@' in s
  {
    if '@' in s {
      var i :| 0 <= i < |s| && s[i] == '@';
      assert ToLower(s)[i] == '@';
    }
    if '@' in ToLower(s) {
      var i :| 0 <= i < |s| && ToLower(s)[i] == '@';
      assert s[i] == '@';
    }
  }

  /** `s.includes(p)`: `p` occurs in `s` as a contiguous infix. */
  predicate Contains(s: string, p: string)
    decreases |s|
  {
    p <= s || (s != [] && Contains(s[1..], p))
  }

  lemma {:induction false} ContainsIsInfix(s: string, p: string, i: nat)
    requires i + |p| <= |s| && s[i..i + |p|] == p
    ensures Contains(s, p)
    decreases i
  {
    if i > 0 {
      assert s[1..][i - 1..i - 1 + |p|] == s[i..i + |p|];
      ContainsIsInfix(s[1..], p, i - 1);
    }
  }

  /**
   * `s.split(sep)` for a non-empty separator: scan left to right, cutting at each leftmost
   * non-overlapping occurrence of `sep`.
   */
  function SplitOn(s: string, sep: string): (parts: seq<string>)
    requires |sep| > 0
    ensures |parts| >= 1
    decreases |s|
  {
    if |s| < |sep| then [s]
    else if s[..|sep|] == sep then [""] + SplitOn(s[|sep|..], sep)
    else
      var rest := SplitOn(s[1..], sep);
      [[s[0]] + rest[0]] + rest[1..]
  }

  /** `parts.join(sep)`. */
  function JoinWith(parts: seq<string>, sep: string): string
  {
    if |parts| == 0 then ""
    else if |parts| == 1 then parts[0]
    else parts[0] + sep + JoinWith(parts[1..], sep)
  }

  /**
   * `s.replaceAll(p, r)` with the replacement inserted literally: every leftmost non-overlapping
   * occurrence of `p` is replaced, and inserted text is not scanned again.
   */
  function ReplaceAll(s: string, p: string, r: string): (out: string)
    requires |p| > 0
    ensures !Contains(s, p) ==> out == s
    decreases |s|
  {
    if |s| < |p| then s
    else if s[..|p|] == p then r + ReplaceAll(s[|p|..], p, r)
    else
      assert s == [s[0]] + s[1..];
      [s[0]] + ReplaceAll(s[1..], p, r)
  }

  /** Splitting on a one-character separator never leaves the separator inside a piece. */
  lemma {:induction false} SplitOnCharPieces(s: string, sep: char)
    ensures forall k :: 0 <= k < |SplitOn(s, [sep])| ==> sep !in SplitOn(s, [sep])[k]
    decreases |s|
  {
    if |s| >= 1 {
      SplitOnCharPieces(s[1..], sep);
      if s[..1] != [sep] {
        assert s[0] != sep;
      }
    }
  }

  lemma {:induction false} SplitOnNoSeparator(s: string, sep: char)
    requires sep !in s
    ensures SplitOn(s, [sep]) == [s]
    decreases |s|
  {
    if |s| >= 1 {
      assert s[..1] != [sep] by { assert s[0] != sep; }
      assert sep !in s[1..];
      SplitOnNoSeparator(s[1..], sep);
      assert [s[0]] + s[1..] == s;
    }
  }

  lemma {:induction false} SplitOnPrefixThenSeparator(x: string, sep: char, rest: string)
    requires sep !in x
    ensures SplitOn(x + [sep] + rest, [sep]) == [x] + SplitOn(rest, [sep])
    decreases |x|
  {
    var s := x + [sep] + rest;
    if x == [] {
      assert s[..1] == [sep];
      assert s[1..] == rest;
    } else {
      assert s[..1] != [sep] by { assert s[0] == x[0]; }
      assert s[1..] == x[1..] + [sep] + rest;
      assert sep !in x[1..];
      SplitOnPrefixThenSeparator(x[1..], sep, rest);
      assert [x[0]] + x[1..] == x;
    }
  }

  /** Joining with a one-character separator that no piece contains, then splitting on it, is the identity. */
  lemma {:induction false} SplitJoinRoundTrip(parts: seq<string>, sep: char)
    requires |parts| >= 1
    requires forall k :: 0 <= k < |parts| ==> sep !in parts[k]
    ensures SplitOn(JoinWith(parts, [sep]), [sep]) == parts
    decreases |parts|
  {
    if |parts| == 1 {
      SplitOnNoSeparator(parts[0], sep);
    } else {
      SplitJoinRoundTrip(parts[1..], sep);
      SplitOnPrefixThenSeparator(parts[0], sep, JoinWith(parts[1..], [sep]));
      assert [parts[0]] + parts[1..] == parts;
    }
  }

  /** `s.replaceAll(p, r)` agrees with `s.split(p).join(r)`: an independent definition of the substitution. */
  lemma {:induction false} ReplaceAllIsSplitJoin(s: string, p: string, r: string)
    requires |p| > 0
    ensures ReplaceAll(s, p, r) == JoinWith(SplitOn(s, p), r)
    decreases |s|
  {
    if |s| < |p| {
    } else if s[..|p|] == p {
      ReplaceAllIsSplitJoin(s[|p|..], p, r);
    } else {
      ReplaceAllIsSplitJoin(s[1..], p, r);
      var rest := SplitOn(s[1..], p);
      if |rest| == 1 {
        assert JoinWith([[s[0]] + rest[0]] + rest[1..], r) == [s[0]] + rest[0];
      } else {
        var parts := [[s[0]] + rest[0]] + rest[1..];
        assert parts[1..] == rest[1..];
        assert JoinWith(parts, r) == [s[0]] + rest[0] + r + JoinWith(rest[1..], r);
      }
    }
  }
}
