/**
 * The string primitives the services rely on, with Python's meaning:
 * `str.strip()`, `str.lower()` on file suffixes, `str(i)` on chunk
 * ordinals, and the `suffix` / `stem` of a `pathlib.Path`.
 */
module Text {

  function Max(a: int, b: int): int {
    if a >= b then a else b
  }

  function Min(a: int, b: int): int {
    if a <= b then a else b
  }

  /** Python's `str.isspace` for one character: the set `str.strip()` removes. */
  predicate IsSpace(c: char) {
    var n := c as int;
    (9 <= n <= 13) || (28 <= n <= 32) || n == 0x85 || n == 0xA0 || n == 0x1680
    || (0x2000 <= n <= 0x200A) || n == 0x2028 || n == 0x2029 || n == 0x202F
    || n == 0x205F || n == 0x3000
  }

  /** True when `s` holds no character other than whitespace (including `s == ""`). */
  predicate IsBlank(s: string) {
    forall k :: 0 <= k < |s| ==> IsSpace(s[k])
  }

  /** Index of the first non-whitespace character of `s` at or after `i`, or `|s|` (SkipSpaceFacts). */
  function SkipSpace(s: string, i: nat): (j: nat)
    requires i <= |s|
    ensures i <= j <= |s|
    decreases |s| - i
  {
    if i < |s| && IsSpace(s[i]) then SkipSpace(s, i + 1) else i
  }

  /** SkipSpace stops at a non-space (or the end) and passes only whitespace. */
  lemma {:induction false} SkipSpaceFacts(s: string, i: nat)
    requires i <= |s|
    ensures var j := SkipSpace(s, i);
      (j < |s| ==> !IsSpace(s[j])) && IsBlank(s[i..j])
    decreases |s| - i
  {
    if i < |s| && IsSpace(s[i]) {
      SkipSpaceFacts(s, i + 1);
      var j := SkipSpace(s, i);
      assert s[i..j] == [s[i]] + s[i + 1..j];
    }
  }

  /** One past the last non-whitespace character of `s` in `[lo, hi)`, or `lo` (SkipSpaceBackFacts). */
  function SkipSpaceBack(s: string, lo: nat, hi: nat): (j: nat)
    requires lo <= hi <= |s|
    ensures lo <= j <= hi
    decreases hi - lo
  {
    if lo < hi && IsSpace(s[hi - 1]) then SkipSpaceBack(s, lo, hi - 1) else hi
  }

  /** SkipSpaceBack stops after a non-space (or at `lo`) and passes only whitespace. */
  lemma {:induction false} SkipSpaceBackFacts(s: string, lo: nat, hi: nat)
    requires lo <= hi <= |s|
    ensures var j := SkipSpaceBack(s, lo, hi);
      (lo < j ==> !IsSpace(s[j - 1])) && IsBlank(s[j..hi])
    decreases hi - lo
  {
    if lo < hi && IsSpace(s[hi - 1]) {
      SkipSpaceBackFacts(s, lo, hi - 1);
      var j := SkipSpaceBack(s, lo, hi);
      assert s[j..hi] == s[j..hi - 1] + [s[hi - 1]];
    }
  }

  /** Index in `s` of the first character `s.strip()` keeps. */
  function StripStart(s: string): (lo: nat)
    ensures lo <= |s|
  {
    SkipSpace(s, 0)
  }

  /** Index in `s` one past the last character `s.strip()` keeps. */
  function StripEnd(s: string): (hi: nat)
    ensures StripStart(s) <= hi <= |s|
  {
    SkipSpaceBack(s, StripStart(s), |s|)
  }

  /** `s.strip()`: `s` without leading and trailing whitespace (StripFacts). */
  function Strip(s: string): (r: string)
    ensures |r| <= |s|
  {
    s[StripStart(s)..StripEnd(s)]
  }

  /**
   * What `strip` promises: only whitespace is cut on either side, and a
   * non-empty result starts and ends with a non-space.
   */
  lemma StripFacts(s: string)
    ensures IsBlank(s[..StripStart(s)]) && IsBlank(s[StripEnd(s)..])
    ensures var r := Strip(s); r != [] ==> !IsSpace(r[0]) && !IsSpace(r[|r| - 1])
  {
    var lo, hi := StripStart(s), StripEnd(s);
    SkipSpaceFacts(s, 0);
    SkipSpaceBackFacts(s, lo, |s|);
    assert s[0..lo] == s[..lo];
    assert IsBlank(s[..lo]);
    if lo < hi {
      var r := Strip(s);
      assert r == s[lo..hi];
      assert r[0] == s[lo] && r[|r| - 1] == s[hi - 1];
    }
  }

  /** `s.strip()` is empty exactly when `s` is blank. */
  lemma StripEmptyIffBlank(s: string)
    ensures Strip(s) == [] <==> IsBlank(s)
  {
    var lo, hi := StripStart(s), StripEnd(s);
    SkipSpaceFacts(s, 0);
    if lo == hi {
      SkipSpaceBackFacts(s, lo, |s|);
      assert s[0..lo] == s[..lo];
      BlankJoin(s, lo);
    } else {
      assert !IsSpace(s[lo]);
    }
  }

  /** A string whose two sides of a cut are blank is blank. */
  lemma BlankJoin(s: string, m: nat)
    requires m <= |s| && IsBlank(s[..m]) && IsBlank(s[m..])
    ensures IsBlank(s)
  {
    forall k | 0 <= k < |s| ensures IsSpace(s[k]) {
      if k < m {
        assert s[..m][k] == s[k];
      } else {
        assert s[m..][k - m] == s[k];
      }
    }
  }

  /** Python's `str.lower()` restricted to ASCII letters. */
  function LowerChar(c: char): char {
    if 'A' <= c <= 'Z' then (c as int + 32) as char else c
  }

  function Lower(s: string): (r: string)
    ensures |r| == |s|
    ensures forall k :: 0 <= k < |s| ==> r[k] == LowerChar(s[k])
  {
    seq(|s|, k requires 0 <= k < |s| => LowerChar(s[k]))
  }

  predicate IsDigit(c: char) {
    '0' <= c <= '9'
  }

  predicate AllDigits(s: string) {
    forall k :: 0 <= k < |s| ==> IsDigit(s[k])
  }

  function DigitChar(d: nat): (c: char)
    requires d < 10
    ensures IsDigit(c)
  {
    ('0' as int + d) as char
  }

  function DigitValue(c: char): (d: nat)
    requires IsDigit(c)
    ensures d < 10
  {
    c as int - '0' as int
  }

  /** Python's `str(n)` for a non-negative integer: its decimal digits, no leading zero. */
  function NatToString(n: nat): (r: string)
    ensures r != [] && AllDigits(r)
  {
    if n < 10 then [DigitChar(n)] else NatToString(n / 10) + [DigitChar(n % 10)]
  }

  /** Python's `int(s)` on a string of decimal digits. */
  function ParseNat(s: string): nat
    requires AllDigits(s)
  {
    if s == [] then 0 else ParseNat(s[..|s| - 1]) * 10 + DigitValue(s[|s| - 1])
  }

  /** `int(str(n)) == n`: reading back a printed ordinal recovers it. */
  lemma {:induction false} ParseNatToString(n: nat)
    ensures ParseNat(NatToString(n)) == n
  {
    var s := NatToString(n);
    if n >= 10 {
      ParseNatToString(n / 10);
      assert s[..|s| - 1] == NatToString(n / 10);
    }
  }

  /** Distinct ordinals print differently. */
  lemma NatToStringInjective(a: nat, b: nat)
    requires NatToString(a) == NatToString(b)
    ensures a == b
  {
    ParseNatToString(a);
    ParseNatToString(b);
  }

  /** Python's `s.rfind(c)`: the last index of `c` in `s`, or -1. */
  function RFind(s: string, c: char): (i: int)
    ensures -1 <= i < |s|
    ensures i >= 0 ==> s[i] == c
    ensures forall k :: i < k < |s| ==> s[k] != c
  {
    if s == [] then -1
    else if s[|s| - 1] == c then |s| - 1
    else RFind(s[..|s| - 1], c)
  }

  /** The path ends in a real component: not a separator, not a "." component. */
  predicate EndsInComponent(path: string) {
    path != [] && path[|path| - 1] != '/'
    && !(path[|path| - 1] == '.' && (|path| == 1 || path[|path| - 2] == '/'))
  }

  /**
   * The path as pathlib keeps it before taking its name: trailing separators
   * and trailing "." components are dropped, so "a/b.pdf/", "a/b.pdf/." and
   * "a/b.pdf" all end in the component "b.pdf"; ".." is kept.
   */
  function Trimmed(path: string): (r: string)
    ensures r <= path
    ensures r == [] || EndsInComponent(r)
    decreases |path|
  {
    if path == [] then []
    else if EndsInComponent(path) then path
    else Trimmed(path[..|path| - 1])
  }

  /** Trimming stops at the longest prefix that ends in a component. */
  lemma {:induction false} TrimmedIsLongest(path: string, n: nat)
    requires |Trimmed(path)| < n <= |path|
    ensures !EndsInComponent(path[..n])
    decreases |path|
  {
    if n < |path| {
      assert path[..|path| - 1][..n] == path[..n];
      TrimmedIsLongest(path[..|path| - 1], n);
    } else {
      assert path[..n] == path;
    }
  }

  /** `Path(p).name`: the last component of the trimmed path. */
  function Name(path: string): (r: string)
    ensures '/' !in r && r != "."
    ensures var t := Trimmed(path); |r| <= |t| && r == t[|t| - |r|..]
  {
    var t := Trimmed(path);
    var i := RFind(t, '/');
    t[i + 1..]
  }

  /** The name is the whole last component: it starts the trimmed path or follows a separator. */
  lemma NameIsLastComponent(path: string)
    ensures var t, r := Trimmed(path), Name(path); |r| == |t| || t[|t| - |r| - 1] == '/'
  {
  }

  /** A trailing separator changes neither the name, the suffix nor the stem. */
  lemma TrailingSeparatorIgnored(path: string)
    ensures Name(path + "/") == Name(path)
    ensures Suffix(path + "/") == Suffix(path) && Stem(path + "/") == Stem(path)
  {
    assert (path + "/")[..|path|] == path;
  }

  /** `Path(p).suffix`: the name's last '.'-part, unless that dot leads or ends the name. */
  function Suffix(path: string): (r: string)
  {
    var name := Name(path);
    var i := RFind(name, '.');
    if 0 < i < |name| - 1 then name[i..] else ""
  }

  /** `Path(p).stem`: the name without its suffix. */
  function Stem(path: string): (r: string)
  {
    var name := Name(path);
    var i := RFind(name, '.');
    if 0 < i < |name| - 1 then name[..i] else name
  }

  /**
   * A non-empty suffix is a dot followed by at least one character, none of
   * them a dot or a slash, and it ends the name.
   */
  lemma SuffixShape(path: string)
    ensures var s := Suffix(path);
      s != "" ==> (|s| >= 2 && s[0] == '.' && '.' !in s[1..] && '/' !in s
                   && s == Name(path)[|Name(path)| - |s|..])
  {
    var name := Name(path);
    var i := RFind(name, '.');
    if 0 < i < |name| - 1 {
      var s := name[i..];
      assert forall k :: 1 <= k < |s| ==> s[k] == name[i + k];
    }
  }

  /** The name splits into stem and suffix: `p.name == p.stem + p.suffix`. */
  lemma {:induction false} NameIsStemPlusSuffix(path: string)
    ensures Name(path) == Stem(path) + Suffix(path)
  {
    var name := Name(path);
    var i := RFind(name, '.');
    if 0 < i < |name| - 1 {
      assert name == name[..i] + name[i..];
    } else {
      assert name == name + "";
    }
  }
}
