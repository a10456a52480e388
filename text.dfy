/** The JavaScript string operations the sources rely on, written out:
    `trim`, `toUpperCase`/`toLowerCase`, `split(sep)[0]`, `includes` and
    `indexOf`. */
module Text {

  /** The characters `String.prototype.trim` removes: the ECMAScript
      WhiteSpace and LineTerminator code points. */
  predicate IsSpace(c: char) {
    var n := c as int;
    || 0x09 <= n <= 0x0D || n == 0x20 || n == 0xA0 || n == 0x1680
    || 0x2000 <= n <= 0x200A || n == 0x2028 || n == 0x2029 || n == 0x202F
    || n == 0x205F || n == 0x3000 || n == 0xFEFF
  }

  predicate AllSpace(s: string) {
    forall i :: 0 <= i < |s| ==> IsSpace(s[i])
  }

  /** How many white-space characters `s` starts with. */
  function LeadingSpace(s: string): (n: nat)
    ensures n <= |s|
  {
    if s != [] && IsSpace(s[0]) then 1 + LeadingSpace(s[1..]) else 0
  }

  /** How many white-space characters `s` ends with. */
  function TrailingSpace(s: string): (n: nat)
    ensures n <= |s|
  {
    if s != [] && IsSpace(s[|s| - 1]) then 1 + TrailingSpace(s[..|s| - 1]) else 0
  }

  /** Drops the leading white space. */
  function TrimStart(s: string): string {
    s[LeadingSpace(s)..]
  }

  /** `s.trim()`: nothing when `s` is all white space, otherwise the text
      between the leading and the trailing white space. */
  function Trim(s: string): (r: string)
    ensures |r| <= |s|
  {
    var i := LeadingSpace(s);
    if i == |s| then []
    else
      LeadingSpaceIsSpace(s);
      TrailingSpaceBefore(s, i);
      s[i..|s| - TrailingSpace(s)]
  }

  /** The leading run is white space and is maximal. */
  lemma {:induction false} LeadingSpaceIsSpace(s: string)
    ensures AllSpace(s[..LeadingSpace(s)])
    ensures LeadingSpace(s) < |s| ==> !IsSpace(s[LeadingSpace(s)])
  {
    if s != [] && IsSpace(s[0]) {
      LeadingSpaceIsSpace(s[1..]);
      var n := LeadingSpace(s[1..]);
      var run := s[..n + 1];
      forall k | 0 <= k < n + 1 ensures IsSpace(run[k]) {
        if k > 0 { assert run[k] == s[1..][..n][k - 1]; }
      }
    }
  }

  /** The trailing run is white space and is maximal. */
  lemma {:induction false} TrailingSpaceIsSpace(s: string)
    ensures AllSpace(s[|s| - TrailingSpace(s)..])
    ensures TrailingSpace(s) < |s| ==> !IsSpace(s[|s| - TrailingSpace(s) - 1])
  {
    if s != [] && IsSpace(s[|s| - 1]) {
      var p := s[..|s| - 1];
      TrailingSpaceIsSpace(p);
      var n := TrailingSpace(p);
      var run := s[|s| - (n + 1)..];
      forall k | 0 <= k < n + 1 ensures IsSpace(run[k]) {
        if k < n { assert run[k] == p[|p| - n..][k]; }
      }
      if n + 1 < |s| {
        assert s[|s| - n - 2] == p[|p| - n - 1];
      }
    }
  }

  /** The trailing run stops after any character that is not white space. */
  lemma {:induction false} TrailingSpaceBefore(s: string, i: nat)
    requires i < |s| && !IsSpace(s[i])
    ensures TrailingSpace(s) <= |s| - 1 - i
  {
    if IsSpace(s[|s| - 1]) {
      var p := s[..|s| - 1];
      assert p[i] == s[i];
      TrailingSpaceBefore(p, i);
    }
  }

  /** `s.trim()` is the slice of `s` between its leading and its trailing
      white space, all of which is removed: what is left neither starts nor
      ends with white space. */
  lemma TrimIsSlice(s: string)
    ensures var i := LeadingSpace(s);
            var j := if i == |s| then i else |s| - TrailingSpace(s);
            && i <= j <= |s| && Trim(s) == s[i..j]
            && AllSpace(s[..i]) && AllSpace(s[j..])
            && (Trim(s) != [] ==> !IsSpace(Trim(s)[0]) && !IsSpace(Trim(s)[|Trim(s)| - 1]))
  {
    TrimBounds(s);
    TrimDropsSpace(s);
    TrimEnds(s);
  }

  /** Where the trimmed text sits in `s`. */
  lemma TrimBounds(s: string)
    ensures var i := LeadingSpace(s);
            var j := if i == |s| then i else |s| - TrailingSpace(s);
            i <= j <= |s| && Trim(s) == s[i..j]
  {
    var i := LeadingSpace(s);
    if i < |s| {
      LeadingSpaceIsSpace(s);
      TrailingSpaceBefore(s, i);
    }
  }

  /** What trimming drops is white space. */
  lemma TrimDropsSpace(s: string)
    ensures var i := LeadingSpace(s);
            var j := if i == |s| then i else |s| - TrailingSpace(s);
            AllSpace(s[..i]) && AllSpace(s[j..])
  {
    LeadingSpaceIsSpace(s);
    TrailingSpaceIsSpace(s);
  }

  /** What trimming keeps neither starts nor ends with white space. */
  lemma TrimEnds(s: string)
    ensures Trim(s) != [] ==> !IsSpace(Trim(s)[0]) && !IsSpace(Trim(s)[|Trim(s)| - 1])
  {
    var i, m := LeadingSpace(s), TrailingSpace(s);
    if i < |s| {
      LeadingSpaceIsSpace(s);
      TrailingSpaceBefore(s, i);
      TrailingSpaceIsSpace(s);
      var r := Trim(s);
      assert r[0] == s[i];
      assert r[|r| - 1] == s[|s| - m - 1];
    }
  }

  /** A string that neither starts nor ends with white space trims to itself. */
  lemma TrimUnpadded(s: string)
    requires s != [] ==> !IsSpace(s[0]) && !IsSpace(s[|s| - 1])
    ensures Trim(s) == s
  {
    assert LeadingSpace(s) == 0 && TrailingSpace(s) == 0;
  }

  /** Trimming only removes characters: one absent from `s` is absent
      from `s.trim()`. */
  lemma TrimAvoids(s: string, c: char)
    requires c !in s
    ensures c !in Trim(s)
  {
    TrimIsSlice(s);
    var r, i := Trim(s), LeadingSpace(s);
    forall k | 0 <= k < |r| ensures r[k] != c {
      assert r[k] == s[i + k];
    }
  }

  /** A string trims to nothing exactly when it is all white space. */
  lemma TrimEmptyIffAllSpace(s: string)
    ensures Trim(s) == "" <==> AllSpace(s)
  {
    TrimIsSlice(s);
    var i := LeadingSpace(s);
    var j := if i == |s| then i else |s| - TrailingSpace(s);
    if Trim(s) == "" {
      forall k | 0 <= k < |s| ensures IsSpace(s[k]) {
        if k < i { assert s[..i][k] == s[k]; }
        else { assert s[j..][k - j] == s[k]; }
      }
    } else {
      assert Trim(s)[0] == s[i];
    }
  }

  /** `toUpperCase` on one character: ASCII letters, plus U+0131 (dotless i),
      whose upper case is the ASCII `I`. */
  function UpperChar(c: char): char {
    if 'a' <= c <= 'z' then (c as int - 32) as char
    else if c == '\U{0131}' then 'I'
    else c
  }

  /** `toLowerCase` on one character, for ASCII letters. */
  function LowerChar(c: char): char {
    if 'A' <= c <= 'Z' then (c as int + 32) as char else c
  }

  function ToUpper(s: string): (r: string)
    ensures |r| == |s|
    ensures forall i :: 0 <= i < |s| ==> r[i] == UpperChar(s[i])
  {
    seq(|s|, i requires 0 <= i < |s| => UpperChar(s[i]))
  }

  function ToLower(s: string): (r: string)
    ensures |r| == |s|
    ensures forall i :: 0 <= i < |s| ==> r[i] == LowerChar(s[i])
  {
    seq(|s|, i requires 0 <= i < |s| => LowerChar(s[i]))
  }

  /** Upper-casing twice changes nothing more than upper-casing once. */
  lemma ToUpperIdempotent(s: string)
    ensures ToUpper(ToUpper(s)) == ToUpper(s)
  {
    forall i | 0 <= i < |s| ensures UpperChar(UpperChar(s[i])) == UpperChar(s[i]) {
      var c := s[i];
      if 'a' <= c <= 'z' { assert 'A' <= UpperChar(c) <= 'Z'; }
    }
  }

  /** `s.split(sep)[0]`: the longest prefix of `s` without `sep`. */
  function FirstSegment(s: string, sep: char): (r: string)
    ensures r <= s
    ensures sep !in r
    ensures |r| < |s| ==> s[|r|] == sep
  {
    if s == [] || s[0] == sep then [] else [s[0]] + FirstSegment(s[1..], sep)
  }

  /** `s.includes(sub)`. */
  function Includes(s: string, sub: string): (b: bool)
    ensures b <==> exists i :: 0 <= i <= |s| && sub <= s[i..]
    decreases |s|
  {
    if sub <= s then
      assert s[0..] == s;
      true
    else if s == [] then false
    else
      var b := Includes(s[1..], sub);
      if b then
        var i :| 0 <= i <= |s| - 1 && sub <= s[1..][i..];
        assert s[1..][i..] == s[i + 1..];
        b
      else
        assert forall i :: 1 <= i <= |s| ==> s[i..] == s[1..][i - 1..];
        b
  }

  /** `xs.indexOf(x)`: the first position holding `x`, or -1. */
  function IndexOf<T(==)>(xs: seq<T>, x: T): (r: int)
    ensures -1 <= r < |xs|
    ensures r == -1 <==> x !in xs
    ensures r >= 0 ==> xs[r] == x && x !in xs[..r]
  {
    if xs == [] then -1
    else if xs[0] == x then 0
    else
      var k := IndexOf(xs[1..], x);
      if k == -1 then -1
      else
        assert xs[..k + 1] == [xs[0]] + xs[1..][..k];
        k + 1
  }
}
