/** The string operations the plugin borrows from Ruby: ASCII case mapping,
    `File.basename`/`File.dirname` (also behind `Pathname#basename` and
    `Pathname#dirname`) on POSIX paths, and decimal rendering of integers. */
module Strings {
  import opened Wrappers

  predicate IsUpper(c: char) { 'A' <= c <= 'Z' }
  predicate IsLower(c: char) { 'a' <= c <= 'z' }
  predicate IsDigit(c: char) { '0' <= c <= '9' }

  /** `downcase` of one character; only the ASCII letters have a case here. */
  function LowerChar(c: char): (d: char)
    ensures !IsUpper(d)
    ensures IsUpper(c) ==> IsLower(d) && d as int == c as int + 32
    ensures !IsUpper(c) ==> d == c
  {
    if IsUpper(c) then (c as int + 32) as char else c
  }

  /** `String#downcase` (ASCII). */
  function Lower(s: string): (r: string)
    ensures |r| == |s|
    ensures forall i :: 0 <= i < |s| ==> r[i] == LowerChar(s[i])
  {
    seq(|s|, i requires 0 <= i < |s| => LowerChar(s[i]))
  }

  /** Lower-casing leaves a string without capitals as it is. */
  lemma LowerPlain(s: string)
    requires forall i :: 0 <= i < |s| ==> !IsUpper(s[i])
    ensures Lower(s) == s
  {
  }

  /** The position of the last occurrence of `c` in `s`. */
  function LastIndexOf(s: string, c: char): (r: Option<nat>)
    ensures r.None? <==> c !in s
    ensures r.Some? ==> r.value < |s| && s[r.value] == c && c !in s[r.value + 1..]
  {
    if s == [] then None
    else if s[|s| - 1] == c then Some(|s| - 1)
    else
      assert s == s[..|s| - 1] + [s[|s| - 1]];
      LastIndexOf(s[..|s| - 1], c)
  }

  function TrimTrailingSlashes(s: string): (r: string)
    ensures |r| <= |s| && r == s[..|r|]
    ensures r == [] || r[|r| - 1] != '/'
    ensures forall i :: |r| <= i < |s| ==> s[i] == '/'
  {
    if s != [] && s[|s| - 1] == '/' then TrimTrailingSlashes(s[..|s| - 1]) else s
  }

  /** `File.basename(path)`: the last component, ignoring trailing slashes;
      "/" for a path made only of slashes and "" for "". */
  function Basename(path: string): (b: string)
    ensures b == "/" || '/' !in b
    ensures path != [] ==> b != []
  {
    var t := TrimTrailingSlashes(path);
    if t == [] then (if path == [] then "" else "/")
    else match LastIndexOf(t, '/')
      case None => t
      case Some(i) => t[i + 1..]
  }

  /** `File.dirname(path)`: everything before the last component, without
      trailing slashes; "/" when that is empty and "." for a path with no slash. */
  function Dirname(path: string): (d: string)
    ensures d != []
    ensures d != "/" ==> d[|d| - 1] != '/'
  {
    var t := TrimTrailingSlashes(path);
    if t == [] then (if path == [] then "." else "/")
    else match LastIndexOf(t, '/')
      case None => "."
      case Some(i) =>
        var d := TrimTrailingSlashes(t[..i]);
        if d == [] then "/" else d
  }

  /** The one occurrence of `c` with no other after it is the last one. */
  lemma LastIndexOfAt(s: string, c: char, k: nat)
    requires k < |s| && s[k] == c && c !in s[k + 1..]
    ensures LastIndexOf(s, c) == Some(k)
  {
    assert c in s;
  }

  /** A string that does not end in a slash has no trailing slashes to trim. */
  lemma NoTrailingSlash(s: string)
    requires s == [] || s[|s| - 1] != '/'
    ensures TrimTrailingSlashes(s) == s
  {
  }

  /** The pieces `File.basename` and `File.dirname` find in `<dir>/<base>`. */
  lemma SplitPathParts(dir: string, base: string)
    requires base != [] && '/' !in base
    ensures var p := dir + "/" + base;
            TrimTrailingSlashes(p) == p && LastIndexOf(p, '/') == Some(|dir|) &&
            p[..|dir|] == dir && p[|dir| + 1..] == base
  {
    var p := dir + "/" + base;
    assert p[|p| - 1] != '/' by {
      assert p[|p| - 1] == base[|base| - 1];
      assert base[|base| - 1] in base;
    }
    NoTrailingSlash(p);
    assert p[|dir| + 1..] == base;
    LastIndexOfAt(p, '/', |dir|);
    assert p[..|dir|] == dir;
  }

  /** A path that ends in a plain component splits back into its directory
      and that component. */
  lemma SplitPath(dir: string, base: string)
    requires base != [] && '/' !in base
    requires dir == [] || dir[|dir| - 1] != '/'
    ensures Basename(dir + "/" + base) == base
    ensures Dirname(dir + "/" + base) == if dir == [] then "/" else dir
  {
    SplitPathParts(dir, base);
    NoTrailingSlash(dir);
  }

  function DigitChar(d: nat): (c: char)
    requires d < 10
    ensures IsDigit(c)
  {
    ('0' as int + d) as char
  }

  function DigitValue(c: char): nat
    requires IsDigit(c)
  {
    c as int - '0' as int
  }

  /** `Integer#to_s` for a non-negative integer. */
  function NatToString(n: nat): (r: string)
    ensures r != [] && forall i :: 0 <= i < |r| ==> IsDigit(r[i])
  {
    if n < 10 then [DigitChar(n)] else NatToString(n / 10) + [DigitChar(n % 10)]
  }

  /** `Integer#to_s`. */
  function IntToString(i: int): string
  {
    if i < 0 then "-" + NatToString(-i) else NatToString(i)
  }

  /** The number of decimal digits `s` starts with. */
  function DigitRun(s: string): (k: nat)
    ensures k <= |s| && forall i :: 0 <= i < k ==> IsDigit(s[i])
    ensures k < |s| ==> !IsDigit(s[k])
  {
    if s != [] && IsDigit(s[0]) then 1 + DigitRun(s[1..]) else 0
  }

  function DigitsValue(ds: string): nat
    requires forall i :: 0 <= i < |ds| ==> IsDigit(ds[i])
  {
    if ds == [] then 0 else DigitsValue(ds[..|ds| - 1]) * 10 + DigitValue(ds[|ds| - 1])
  }

  /** The decimal number `s` starts with, if it starts with a digit. */
  function LeadingNat(s: string): Option<nat>
  {
    var k := DigitRun(s);
    if k == 0 then None else Some(DigitsValue(s[..k]))
  }

  lemma {:induction false} DigitRunOfDigits(ds: string, rest: string)
    requires forall i :: 0 <= i < |ds| ==> IsDigit(ds[i])
    ensures DigitRun(ds + rest) == |ds| + DigitRun(rest)
  {
    if ds == [] {
      assert ds + rest == rest;
    } else {
      assert (ds + rest)[0] == ds[0];
      assert (ds + rest)[1..] == ds[1..] + rest;
      DigitRunOfDigits(ds[1..], rest);
    }
  }

  lemma {:induction false} DigitsValueOfNatToString(n: nat)
    ensures DigitsValue(NatToString(n)) == n
  {
    var ds := NatToString(n);
    if n < 10 {
      assert ds[..0] == [];
    } else {
      assert ds[..|ds| - 1] == NatToString(n / 10);
      DigitsValueOfNatToString(n / 10);
    }
  }

  /** Rendering a number in decimal and reading it back gives the number,
      whatever non-digit text follows it. */
  lemma {:induction false} LeadingNatOfNatToString(n: nat, rest: string)
    requires rest == [] || !IsDigit(rest[0])
    ensures LeadingNat(NatToString(n) + rest) == Some(n)
  {
    var ds := NatToString(n);
    DigitRunOfDigits(ds, rest);
    assert (ds + rest)[..|ds|] == ds;
    DigitsValueOfNatToString(n);
  }

  /** `Array#join(sep)` on strings. */
  function Join(parts: seq<string>, sep: string): string
  {
    if parts == [] then ""
    else if |parts| == 1 then parts[0]
    else parts[0] + sep + Join(parts[1..], sep)
  }
}
