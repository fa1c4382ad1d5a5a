/**
 * The few Python `str` operations the program relies on: `strip()`,
 * `lower()` followed by `endswith()`, slicing `s[0:n]`, and `"\n".join(...)`.
 * Strings are sequences of Unicode code points, as in Python 3.
 */
module PyStr {
  import opened Base

  /** Python's `str.isspace` on one code point (the characters `str.strip()` removes). */
  predicate IsSpace(c: char)
  {
    var n := c as int;
    n == 0x20 || 0x09 <= n <= 0x0D || 0x1C <= n <= 0x1F || n == 0x85 || n == 0xA0
    || n == 0x1680 || 0x2000 <= n <= 0x200A || n == 0x2028 || n == 0x2029
    || n == 0x202F || n == 0x205F || n == 0x3000
  }

  predicate AllSpace(s: string)
  {
    forall k :: 0 <= k < |s| ==> IsSpace(s[k])
  }

  function TrimStart(s: string): string
  {
    if |s| > 0 && IsSpace(s[0]) then TrimStart(s[1..]) else s
  }

  function TrimEnd(s: string): string
  {
    if |s| > 0 && IsSpace(s[|s| - 1]) then TrimEnd(s[..|s| - 1]) else s
  }

  /** `s.strip()`: leading and trailing whitespace removed. */
  function Strip(s: string): string
  {
    TrimEnd(TrimStart(s))
  }

  /** `[x.strip() for x in lines]` */
  function StripAll(lines: seq<string>): (r: seq<string>)
    ensures |r| == |lines|
    ensures forall k :: 0 <= k < |r| ==> r[k] == Strip(lines[k])
  {
    seq(|lines|, k requires 0 <= k < |lines| => Strip(lines[k]))
  }

  lemma {:induction false} TrimStartBounds(s: string) returns (i: nat)
    ensures i <= |s| && TrimStart(s) == s[i..]
    ensures AllSpace(s[..i])
    ensures i < |s| ==> !IsSpace(s[i])
    decreases |s|
  {
    if |s| > 0 && IsSpace(s[0]) {
      var i' := TrimStartBounds(s[1..]);
      i := i' + 1;
      assert s[1..][i'..] == s[i..];
      forall k | 0 <= k < i ensures IsSpace(s[..i][k]) {
        if k > 0 { assert s[..i][k] == s[1..][..i'][k - 1]; }
      }
    } else {
      i := 0;
    }
  }

  lemma {:induction false} TrimEndBounds(s: string) returns (j: nat)
    ensures j <= |s| && TrimEnd(s) == s[..j]
    ensures AllSpace(s[j..])
    ensures j > 0 ==> !IsSpace(s[j - 1])
    decreases |s|
  {
    if |s| > 0 && IsSpace(s[|s| - 1]) {
      var s' := s[..|s| - 1];
      j := TrimEndBounds(s');
      assert s'[..j] == s[..j];
      forall k | 0 <= k < |s| - j ensures IsSpace(s[j..][k]) {
        if j + k < |s| - 1 { assert s[j..][k] == s'[j..][k]; }
      }
    } else {
      j := |s|;
    }
  }

  /**
   * `Strip(s)` is the infix of `s` left once the whitespace runs at both ends
   * are cut off: what is cut is whitespace, and what is kept neither starts
   * nor ends with whitespace.
   */
  lemma StripBounds(s: string) returns (i: nat, j: nat)
    ensures i <= j <= |s| && Strip(s) == s[i..j]
    ensures AllSpace(s[..i]) && AllSpace(s[j..])
    ensures i < j ==> !IsSpace(s[i]) && !IsSpace(s[j - 1])
    ensures i == j ==> AllSpace(s)
  {
    i := TrimStartBounds(s);
    var t := s[i..];
    var j' := TrimEndBounds(t);
    j := i + j';
    assert t[..j'] == s[i..j];
    assert t[j'..] == s[j..];
    if i == j {
      assert s[..i] == s;
    } else {
      assert s[j - 1] == t[j' - 1];
    }
  }

  /** Stripping twice is stripping once. */
  lemma StripIdempotent(s: string)
    ensures Strip(Strip(s)) == Strip(s)
  {
    var i, j := StripBounds(s);
    var t := s[i..j];
    if i < j {
      assert t[0] == s[i] && t[|t| - 1] == s[j - 1];
      assert TrimStart(t) == t;
    }
  }

  /** ASCII `str.lower()`; see the README for why that is enough here. */
  function LowerChar(c: char): char
  {
    if 'A' <= c <= 'Z' then (c as int + 32) as char else c
  }

  function Lower(s: string): (r: string)
    ensures |r| == |s|
    ensures forall k :: 0 <= k < |s| ==> r[k] == LowerChar(s[k])
  {
    seq(|s|, k requires 0 <= k < |s| => LowerChar(s[k]))
  }

  predicate EndsWith(s: string, suffix: string)
  {
    |suffix| <= |s| && s[|s| - |suffix|..] == suffix
  }

  /** `full_file.lower().endswith('.txt')`: the test that sends a file to the text renderer. */
  predicate IsTextName(path: string)
  {
    EndsWith(Lower(path), ".txt")
  }

  /**
   * The `.txt` test read character by character: the name ends in a dot
   * followed by t, x, t in either case.
   */
  lemma IsTextNameChars(path: string)
    ensures IsTextName(path) <==>
      (|path| >= 4 && path[|path| - 4] == '.'
       && path[|path| - 3] in "tT" && path[|path| - 2] in "xX" && path[|path| - 1] in "tT")
  {
    if |path| >= 4 {
      var n := |path|;
      var low := Lower(path)[n - 4..];
      assert low == [LowerChar(path[n - 4]), LowerChar(path[n - 3]), LowerChar(path[n - 2]), LowerChar(path[n - 1])];
    }
  }

  /** Python's `s[0:n]` for `n >= 0`: the first `n` characters, or all of `s`. */
  function Prefix(s: string, n: nat): (r: string)
    ensures |r| == Min(n, |s|)
    ensures r <= s
    ensures |s| <= n ==> r == s
  {
    if n <= |s| then s[..n] else s
  }

  /** `"\n".join(lines)` */
  function Join(lines: seq<string>): string
  {
    if |lines| == 0 then ""
    else if |lines| == 1 then lines[0]
    else lines[0] + "\n" + Join(lines[1..])
  }

  /** `s.split("\n")`: the pieces between newlines (always at least one). */
  function Split(s: string): (r: seq<string>)
    ensures |r| >= 1
  {
    if |s| == 0 then [""]
    else if s[0] == '\n' then [""] + Split(s[1..])
    else var t := Split(s[1..]); [[s[0]] + t[0]] + t[1..]
  }

  lemma {:induction false} SplitNoNewline(a: string, rest: string)
    requires '\n' !in a
    ensures Split(a) == [a]
    ensures Split(a + "\n" + rest) == [a] + Split(rest)
  {
    if |a| > 0 {
      assert '\n' !in a[1..] by {
        forall k | 0 <= k < |a[1..]| ensures a[1..][k] != '\n' { assert a[1..][k] == a[k + 1]; }
      }
      SplitNoNewline(a[1..], rest);
      assert (a + "\n" + rest)[1..] == a[1..] + "\n" + rest;
      assert [a[0]] + a[1..] == a;
    } else {
      assert a + "\n" + rest == "\n" + rest;
      assert ("\n" + rest)[1..] == rest;
    }
  }

  /**
   * Joining lines that hold no newline and splitting the result again gives
   * back the lines: the popup shows every line, whole, in order.
   */
  lemma {:induction false} SplitJoin(lines: seq<string>)
    requires |lines| > 0
    requires forall k :: 0 <= k < |lines| ==> '\n' !in lines[k]
    ensures Split(Join(lines)) == lines
  {
    if |lines| == 1 {
      SplitNoNewline(lines[0], "");
    } else {
      SplitJoin(lines[1..]);
      SplitNoNewline(lines[0], Join(lines[1..]));
    }
  }
}
