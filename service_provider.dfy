/** The `rest_client` provider of `fme_service`: `String#underscore`, the
    listing of services, and the setters, each of which updates one field of
    the service on the server and then one key of the cache. */
module ServiceProvider {
  import opened Wrappers
  import opened Strings
  import opened Values
  import opened Rest

  /** First substitution of `underscore`: every `::`, from the left, becomes `/`. */
  function ReplaceColons(s: string): (r: string)
    ensures |r| <= |s|
  {
    if |s| >= 2 && s[0] == ':' && s[1] == ':' then "/" + ReplaceColons(s[2..])
    else if s == [] then []
    else [s[0]] + ReplaceColons(s[1..])
  }

  /** The length of the run of capitals `s` starts with. */
  function UpperRun(s: string): (n: nat)
    ensures n <= |s|
    ensures forall i :: 0 <= i < n ==> IsUpper(s[i])
    ensures n < |s| ==> !IsUpper(s[n])
  {
    if s != [] && IsUpper(s[0]) then 1 + UpperRun(s[1..]) else 0
  }

  /** Second substitution, `([A-Z]+)([A-Z][a-z])` to `\1_\2`: a run of two or
      more capitals followed by a small letter is split before its last
      capital ("HTMLParser" gives "HTML_Parser"); matching resumes after the
      small letter. */
  function SplitAcronyms(s: string): string
    decreases |s|
  {
    if s == [] then []
    else
      var n := UpperRun(s);
      if n >= 2 && n < |s| && IsLower(s[n]) then
        s[..n - 1] + "_" + s[n - 1..n + 1] + SplitAcronyms(s[n + 1..])
      else if n == 0 then [s[0]] + SplitAcronyms(s[1..])
      else s[..n] + SplitAcronyms(s[n..])
  }

  /** The second substitution only inserts, so it never shortens its input. */
  lemma {:induction false} SplitAcronymsLengthens(s: string)
    ensures |SplitAcronyms(s)| >= |s|
    decreases |s|
  {
    if s != [] {
      var n := UpperRun(s);
      if n >= 2 && n < |s| && IsLower(s[n]) {
        var rest := s[n + 1..];
        SplitAcronymsLengthens(rest);
        SplitAcronymsStep(s, n);
      } else if n == 0 {
        var rest := s[1..];
        SplitAcronymsLengthens(rest);
        assert SplitAcronyms(s) == [s[0]] + SplitAcronyms(rest);
      } else {
        var rest := s[n..];
        SplitAcronymsLengthens(rest);
        assert SplitAcronyms(s) == s[..n] + SplitAcronyms(rest);
        assert |s[..n]| == n && |rest| == |s| - n;
      }
    }
  }

  /** Third substitution, `([a-z\d])([A-Z])` to `\1_\2`: a small letter or
      digit followed by a capital gets a `_` between them. */
  function CamelBreak(s: string): string
  {
    if |s| >= 2 && (IsLower(s[0]) || IsDigit(s[0])) && IsUpper(s[1]) then [s[0], '_', s[1]] + CamelBreak(s[2..])
    else if s == [] then []
    else [s[0]] + CamelBreak(s[1..])
  }

  /** The third substitution only inserts, so it never shortens its input. */
  lemma {:induction false} CamelBreakLengthens(s: string)
    ensures |CamelBreak(s)| >= |s|
  {
    if |s| >= 2 && (IsLower(s[0]) || IsDigit(s[0])) && IsUpper(s[1]) {
      CamelBreakLengthens(s[2..]);
    } else if s != [] {
      CamelBreakLengthens(s[1..]);
    }
  }

  /** `tr('-', '_')`. */
  function Dashes(s: string): (r: string)
    ensures |r| == |s| && '-' !in r
    ensures forall i :: 0 <= i < |s| ==> r[i] == if s[i] == '-' then '_' else s[i]
  {
    seq(|s|, i requires 0 <= i < |s| => if s[i] == '-' then '_' else s[i])
  }

  /** `String#underscore`: camelCase to snake_case. */
  function Underscore(s: string): (r: string)
    ensures forall i :: 0 <= i < |r| ==> !IsUpper(r[i]) && r[i] != '-'
  {
    var d := Dashes(CamelBreak(SplitAcronyms(ReplaceColons(s))));
    var r := Lower(d);
    assert forall i :: 0 <= i < |r| ==> r[i] != '-' by {
      forall i | 0 <= i < |r| ensures r[i] != '-' {
        assert d[i] != '-';
      }
    }
    r
  }

  /** A string with no capital, no `-` and no `::` is already in snake case. */
  predicate Snake(s: string)
  {
    forall i :: 0 <= i < |s| ==> !IsUpper(s[i]) && s[i] != '-' && !(i + 1 < |s| && s[i] == ':' && s[i + 1] == ':')
  }

  lemma {:induction false} ReplaceColonsPlain(s: string)
    requires Snake(s)
    ensures ReplaceColons(s) == s
    decreases |s|
  {
    if s != [] {
      assert !(s[0] == ':' && |s| >= 2 && s[1] == ':');
      ReplaceColonsPlain(s[1..]);
    }
  }

  lemma {:induction false} SplitAcronymsPlain(s: string)
    requires forall i :: 0 <= i < |s| ==> !IsUpper(s[i])
    ensures SplitAcronyms(s) == s
    decreases |s|
  {
    if s != [] {
      assert UpperRun(s) == 0;
      SplitAcronymsPlain(s[1..]);
    }
  }

  lemma {:induction false} CamelBreakPlain(s: string)
    requires forall i :: 0 <= i < |s| ==> !IsUpper(s[i])
    ensures CamelBreak(s) == s
    decreases |s|
  {
    if s != [] {
      CamelBreakPlain(s[1..]);
    }
  }

  /** `underscore` leaves a snake-case string as it is. */
  lemma UnderscorePlain(s: string)
    requires Snake(s)
    ensures Underscore(s) == s
  {
    ReplaceColonsPlain(s);
    SplitAcronymsPlain(s);
    CamelBreakPlain(s);
    assert Dashes(s) == s;
    LowerPlain(s);
  }

  /** No `::` survives the first substitution, and the result starts with the
      input's first character unless that begins a `::`. */
  lemma {:induction false} ReplaceColonsNoPair(s: string)
    ensures var r := ReplaceColons(s);
            forall i :: 0 <= i < |r| - 1 ==> !(r[i] == ':' && r[i + 1] == ':')
    ensures var r := ReplaceColons(s);
            s != [] && !(|s| >= 2 && s[0] == ':' && s[1] == ':') ==> r != [] && r[0] == s[0]
    ensures ReplaceColons(s) == [] <==> s == []
    decreases |s|
  {
    if |s| >= 2 && s[0] == ':' && s[1] == ':' {
      ReplaceColonsNoPair(s[2..]);
    } else if s != [] {
      ReplaceColonsNoPair(s[1..]);
      var rest := ReplaceColons(s[1..]);
      var r := [s[0]] + rest;
      assert ReplaceColons(s) == r;
      forall i | 0 <= i < |r| - 1 ensures !(r[i] == ':' && r[i + 1] == ':') {
        if i == 0 && s[0] == ':' {
          assert |s| >= 2 && s[1] != ':';
          assert r[1] == rest[0] == s[1];
        } else if i > 0 {
          assert r[i] == rest[i - 1] && r[i + 1] == rest[i];
        }
      }
    }
  }

  /** No `::` in `s`. */
  predicate NoColonPair(s: string)
  {
    forall i :: 0 <= i < |s| - 1 ==> !(s[i] == ':' && s[i + 1] == ':')
  }

  lemma NoColonPairAppend(a: string, b: string)
    requires NoColonPair(a) && NoColonPair(b)
    requires a != [] && b != [] ==> !(a[|a| - 1] == ':' && b[0] == ':')
    ensures NoColonPair(a + b)
  {
    var ab := a + b;
    forall i | 0 <= i < |ab| - 1 ensures !(ab[i] == ':' && ab[i + 1] == ':') {
      if i + 1 < |a| {
        assert ab[i] == a[i] && ab[i + 1] == a[i + 1];
      } else if i >= |a| {
        assert ab[i] == b[i - |a|] && ab[i + 1] == b[i + 1 - |a|];
      } else {
        assert ab[i] == a[|a| - 1] && ab[i + 1] == b[0];
      }
    }
  }

  lemma NoColonPairSlice(s: string, lo: nat, hi: nat)
    requires NoColonPair(s) && lo <= hi <= |s|
    ensures NoColonPair(s[lo..hi])
  {
    var t := s[lo..hi];
    forall i | 0 <= i < |t| - 1 ensures !(t[i] == ':' && t[i + 1] == ':') {
      assert t[i] == s[lo + i] && t[i + 1] == s[lo + i + 1];
    }
  }

  /** One step of the second substitution: the split acronym and its small
      letter, with no colon among them. */
  lemma SplitAcronymsStep(s: string, n: nat)
    requires n == UpperRun(s) && n >= 2 && n < |s| && IsLower(s[n])
    ensures var head := s[..n - 1] + "_" + s[n - 1..n + 1];
            SplitAcronyms(s) == head + SplitAcronyms(s[n + 1..]) &&
            head[0] == s[0] && forall i :: 0 <= i < |head| ==> head[i] != ':'
  {
    SplitAcronymsSplits(s, n);
    SplitHeadNoColon(s, n);
  }

  /** The second substitution's split case, unfolded once. */
  lemma SplitAcronymsSplits(s: string, n: nat)
    requires n == UpperRun(s) && n >= 2 && n < |s| && IsLower(s[n])
    ensures SplitAcronyms(s) == s[..n - 1] + "_" + s[n - 1..n + 1] + SplitAcronyms(s[n + 1..])
  {
  }

  /** The split acronym and its small letter hold no colon. */
  lemma SplitHeadNoColon(s: string, n: nat)
    requires 2 <= n < |s| && IsLower(s[n])
    requires forall i :: 0 <= i < n ==> IsUpper(s[i])
    ensures var head := s[..n - 1] + "_" + s[n - 1..n + 1];
            head[0] == s[0] && forall i :: 0 <= i < |head| ==> head[i] != ':'
  {
    var head := s[..n - 1] + "_" + s[n - 1..n + 1];
    forall i | 0 <= i < |head| ensures head[i] != ':' {
      if i < n - 1 {
        assert head[i] == s[i] && IsUpper(s[i]);
      } else if i > n - 1 {
        assert head[i] == s[i - 1];
      }
    }
  }

  /** The second substitution keeps the first character and adds no `::`. */
  lemma {:induction false} SplitAcronymsNoColonPair(s: string)
    requires NoColonPair(s)
    ensures s != [] ==> SplitAcronyms(s) != [] && SplitAcronyms(s)[0] == s[0]
    ensures NoColonPair(SplitAcronyms(s))
    decreases |s|
  {
    if s != [] {
      var n := UpperRun(s);
      if n >= 2 && n < |s| && IsLower(s[n]) {
        NoColonPairSlice(s, n + 1, |s|);
        assert s[n + 1..|s|] == s[n + 1..];
        SplitAcronymsNoColonPair(s[n + 1..]);
        SplitAcronymsSplitStep(s, n);
      } else {
        var k := if n == 0 then 1 else n;
        NoColonPairSlice(s, k, |s|);
        assert s[k..|s|] == s[k..];
        SplitAcronymsNoColonPair(s[k..]);
        SplitAcronymsCopyStep(s, k);
      }
    }
  }

  /** The step of SplitAcronymsNoColonPair where an acronym is split. */
  lemma SplitAcronymsSplitStep(s: string, n: nat)
    requires n == UpperRun(s) && n >= 2 && n < |s| && IsLower(s[n])
    requires NoColonPair(SplitAcronyms(s[n + 1..]))
    ensures SplitAcronyms(s) != [] && SplitAcronyms(s)[0] == s[0]
    ensures NoColonPair(SplitAcronyms(s))
  {
    SplitAcronymsStep(s, n);
    NoColonPairAppend(s[..n - 1] + "_" + s[n - 1..n + 1], SplitAcronyms(s[n + 1..]));
  }

  /** The step of SplitAcronymsNoColonPair where a prefix of `s` is copied. */
  lemma SplitAcronymsCopyStep(s: string, k: nat)
    requires NoColonPair(s) && 1 <= k <= |s|
    requires k == (if UpperRun(s) == 0 then 1 else UpperRun(s))
    requires !(UpperRun(s) >= 2 && UpperRun(s) < |s| && IsLower(s[UpperRun(s)]))
    requires NoColonPair(SplitAcronyms(s[k..]))
    requires s[k..] != [] ==> SplitAcronyms(s[k..]) != [] && SplitAcronyms(s[k..])[0] == s[k]
    ensures SplitAcronyms(s) != [] && SplitAcronyms(s)[0] == s[0]
    ensures NoColonPair(SplitAcronyms(s))
  {
    var rest := s[k..];
    var head := s[..k];
    NoColonPairSlice(s, 0, k);
    assert s[0..k] == head;
    assert rest != [] && head[|head| - 1] == ':' ==> rest[0] != ':' by {
      if rest != [] && head[|head| - 1] == ':' {
        assert head[|head| - 1] == s[k - 1] && rest[0] == s[k];
      }
    }
    NoColonPairAppend(head, SplitAcronyms(rest));
    if UpperRun(s) == 0 {
      assert head == [s[0]];
    }
    assert SplitAcronyms(s) == head + SplitAcronyms(rest);
  }

  /** The third substitution keeps the first character and adds no `::`. */
  lemma {:induction false} CamelBreakNoColonPair(s: string)
    requires NoColonPair(s)
    ensures s != [] ==> CamelBreak(s) != [] && CamelBreak(s)[0] == s[0]
    ensures NoColonPair(CamelBreak(s))
    decreases |s|
  {
    if s != [] {
      var k := if |s| >= 2 && (IsLower(s[0]) || IsDigit(s[0])) && IsUpper(s[1]) then 2 else 1;
      var rest := s[k..];
      NoColonPairSlice(s, k, |s|);
      assert s[k..|s|] == rest;
      CamelBreakNoColonPair(rest);
      var head := if k == 2 then [s[0], '_', s[1]] else [s[0]];
      assert rest != [] && head[|head| - 1] == ':' ==> rest[0] != ':' by {
        if rest != [] && head[|head| - 1] == ':' {
          assert k == 1 && rest[0] == s[1];
        }
      }
      NoColonPairAppend(head, CamelBreak(rest));
      assert CamelBreak(s) == head + CamelBreak(rest);
    }
  }

  /** `underscore` output is snake case, so applying it again changes nothing. */
  lemma UnderscoreIdempotent(s: string)
    ensures Snake(Underscore(s))
    ensures Underscore(Underscore(s)) == Underscore(s)
  {
    ReplaceColonsNoPair(s);
    var c := ReplaceColons(s);
    SplitAcronymsNoColonPair(c);
    var a := SplitAcronyms(c);
    CamelBreakNoColonPair(a);
    var b := CamelBreak(a);
    var d := Dashes(b);
    var r := Lower(d);
    assert forall i :: 0 <= i < |r| - 1 ==> !(r[i] == ':' && r[i + 1] == ':') by {
      forall i | 0 <= i < |r| - 1 ensures !(r[i] == ':' && r[i + 1] == ':') {
        assert r[i] == ':' ==> d[i] == ':' && b[i] == ':';
        assert r[i + 1] == ':' ==> d[i + 1] == ':' && b[i + 1] == ':';
      }
    }
    assert r == Underscore(s);
    UnderscorePlain(r);
  }

  /** The lower-case pieces of `displayName`. */
  lemma LowerCaseWords()
    ensures forall i :: 0 <= i < |"display"| ==> !IsUpper("display"[i])
    ensures forall i :: 0 <= i < |"displa"| ==> !IsUpper("displa"[i])
    ensures forall i :: 0 <= i < |"ame"| ==> !IsUpper("ame"[i])
    ensures forall i :: 0 <= i < |"displayName"| ==> "displayName"[i] != ':'
  {
  }

  /** The steps of `underscore` on `displayName`. */
  lemma DisplayNameColons()
    ensures ReplaceColons("displayName") == "displayName"
  {
    LowerCaseWords();
    ReplaceColonsColonFree("displayName");
  }

  lemma DisplayNameAcronyms()
    ensures SplitAcronyms("displayName") == "displayName"
  {
    var a, c, t := "display", 'N', "ame";
    assert a + ([c] + t) == "displayName";
    LowerCaseWords();
    SplitAcronymsOneCapital(a, c, t);
  }

  lemma DisplayNameBreak()
    ensures CamelBreak("displayName") == "display_Name"
  {
    var a, x, c, t := "displa", 'y', 'N', "ame";
    assert a + ([x, c] + t) == "displayName";
    assert a + ([x, '_', c] + t) == "display_Name";
    LowerCaseWords();
    CamelBreakOneCapital(a, x, c, t);
  }

  /** A string without colons passes through the first substitution. */
  lemma ReplaceColonsColonFree(s: string)
    requires forall i :: 0 <= i < |s| ==> s[i] != ':'
    ensures ReplaceColons(s) == s
  {
    ReplaceColonsAppend(s, []);
    assert s + [] == s;
  }

  /** A single capital between plain text is not an acronym. */
  lemma SplitAcronymsOneCapital(a: string, c: char, t: string)
    requires forall i :: 0 <= i < |a| ==> !IsUpper(a[i])
    requires IsUpper(c)
    requires forall i :: 0 <= i < |t| ==> !IsUpper(t[i])
    ensures SplitAcronyms(a + ([c] + t)) == a + ([c] + t)
  {
    var b := [c] + t;
    SplitAcronymsPlainPrefix(a, b);
    assert b[1..] == t;
    assert UpperRun(b) == 1 by {
      if t != [] { assert b[1] == t[0]; }
      assert UpperRun(b) == 1 + UpperRun(t);
    }
    assert SplitAcronyms(b) == b[..1] + SplitAcronyms(t);
    SplitAcronymsPlain(t);
    assert b[..1] + t == b;
  }

  /** A small letter followed by a capital, between plain text, gets one `_`. */
  lemma CamelBreakOneCapital(a: string, x: char, c: char, t: string)
    requires forall i :: 0 <= i < |a| ==> !IsUpper(a[i])
    requires IsLower(x) && IsUpper(c)
    requires forall i :: 0 <= i < |t| ==> !IsUpper(t[i])
    ensures CamelBreak(a + ([x, c] + t)) == a + ([x, '_', c] + t)
  {
    var b := [x, c] + t;
    CamelBreakPlainPrefix(a, b);
    assert b[0] == x && b[1] == c && b[2..] == t;
    assert CamelBreak(b) == [x, '_', c] + CamelBreak(t);
    CamelBreakPlain(t);
  }

  /** `::` pairs never straddle a boundary before a string without colons. */
  lemma {:induction false} ReplaceColonsAppend(a: string, b: string)
    requires forall i :: 0 <= i < |a| ==> a[i] != ':'
    ensures ReplaceColons(a + b) == a + ReplaceColons(b)
    decreases |a|
  {
    if a == [] {
      assert a + b == b;
    } else {
      var ab := a + b;
      assert ab[0] == a[0] && ab[1..] == a[1..] + b;
      ReplaceColonsAppend(a[1..], b);
      assert ReplaceColons(ab) == [a[0]] + ReplaceColons(ab[1..]);
      assert ReplaceColons(ab) == [a[0]] + (a[1..] + ReplaceColons(b));
      assert a == [a[0]] + a[1..];
    }
  }

  /** The first `::` of a string becomes `/`, and what follows it is
      substituted in turn. */
  lemma ColonsBecomeSlash(a: string, b: string)
    requires forall i :: 0 <= i < |a| ==> a[i] != ':'
    ensures ReplaceColons(a + "::" + b) == a + "/" + ReplaceColons(b)
  {
    assert a + "::" + b == a + ("::" + b);
    ReplaceColonsAppend(a, "::" + b);
    assert ("::" + b)[2..] == b;
  }

  /** A prefix with no capitals passes through the second substitution. */
  lemma {:induction false} SplitAcronymsPlainPrefix(a: string, b: string)
    requires forall i :: 0 <= i < |a| ==> !IsUpper(a[i])
    ensures SplitAcronyms(a + b) == a + SplitAcronyms(b)
    decreases |a|
  {
    if a == [] {
      assert a + b == b;
    } else {
      var ab := a + b;
      assert ab[0] == a[0] && ab[1..] == a[1..] + b;
      assert UpperRun(ab) == 0;
      SplitAcronymsPlainPrefix(a[1..], b);
      assert SplitAcronyms(ab) == [a[0]] + SplitAcronyms(ab[1..]);
      assert SplitAcronyms(ab) == [a[0]] + (a[1..] + SplitAcronyms(b));
      assert a == [a[0]] + a[1..];
    }
  }

  /** A first character that does not start a small-then-capital pair is kept. */
  lemma CamelBreakKeeps(s: string)
    requires s != [] && !(|s| >= 2 && (IsLower(s[0]) || IsDigit(s[0])) && IsUpper(s[1]))
    ensures CamelBreak(s) == [s[0]] + CamelBreak(s[1..])
  {
  }

  /** One character of a prefix with no capitals passes through unchanged. */
  lemma CamelBreakPlainStep(a: string, b: string)
    requires a != [] && forall i :: 0 <= i < |a| ==> !IsUpper(a[i])
    requires b != [] ==> !IsUpper(b[0])
    ensures CamelBreak(a + b) == [a[0]] + CamelBreak(a[1..] + b)
  {
    PlainJoin(a, b);
    CamelBreakKeeps(a + b);
  }

  /** How `a + b` starts when `a` has no capitals and `b` does not start with one. */
  lemma PlainJoin(a: string, b: string)
    requires a != [] && forall i :: 0 <= i < |a| ==> !IsUpper(a[i])
    requires b != [] ==> !IsUpper(b[0])
    ensures (a + b)[0] == a[0] && (a + b)[1..] == a[1..] + b
    ensures |a + b| >= 2 ==> !IsUpper((a + b)[1])
  {
    var ab := a + b;
    assert ab[1..] == a[1..] + b;
    if |ab| >= 2 {
      if |a| >= 2 { assert ab[1] == a[1]; } else { assert ab[1] == b[0]; }
    }
  }

  lemma NoUpperTail(a: string)
    requires a != [] && forall i :: 0 <= i < |a| ==> !IsUpper(a[i])
    ensures forall i :: 0 <= i < |a[1..]| ==> !IsUpper(a[1..][i])
  {
    forall i | 0 <= i < |a[1..]| ensures !IsUpper(a[1..][i]) {
      assert a[1..][i] == a[i + 1];
    }
  }

  /** A prefix with no capitals passes through the third substitution. */
  lemma {:induction false} CamelBreakPlainPrefix(a: string, b: string)
    requires forall i :: 0 <= i < |a| ==> !IsUpper(a[i])
    requires b != [] ==> !IsUpper(b[0])
    ensures CamelBreak(a + b) == a + CamelBreak(b)
    decreases |a|
  {
    if a == [] {
      assert a + b == b;
    } else {
      CamelBreakPlainStep(a, b);
      NoUpperTail(a);
      CamelBreakPlainPrefix(a[1..], b);
      assert a == [a[0]] + a[1..];
    }
  }

  lemma UrlSteps()
    ensures ReplaceColons("URL") == "URL"
    ensures SplitAcronyms("URL") == "URL"
    ensures CamelBreak("URL") == "URL"
  {
    assert ReplaceColons("URL") == "U" + ReplaceColons("RL");
    assert ReplaceColons("RL") == "R" + ReplaceColons("L");
    assert ReplaceColons("L") == "L" + ReplaceColons("");
    assert UpperRun("URL") == 3;
    assert "URL"[3..] == [];
    assert CamelBreak("URL") == "U" + CamelBreak("RL");
    assert CamelBreak("RL") == "R" + CamelBreak("L");
    assert CamelBreak("L") == "L" + CamelBreak("");
  }

  lemma LowerAppend(a: string, b: string)
    ensures Lower(a + b) == Lower(a) + Lower(b)
  {
    assert forall i :: 0 <= i < |a + b| ==> (a + b)[i] == if i < |a| then a[i] else b[i - |a|];
  }

  lemma DisplayNameSubstituted()
    ensures Underscore("displayName") == Lower(Dashes("display_Name"))
  {
    DisplayNameColons();
    DisplayNameAcronyms();
    DisplayNameBreak();
  }

  lemma DisplayNameLowered()
    ensures Lower("display_Name") == "display_name"
  {
    LowerAppend("display_", "Name");
    LowerPlain("display_");
    assert Lower("Name") == "name";
  }

  lemma DisplayNameDashes()
    ensures Dashes("display_Name") == "display_Name"
  {
    assert '-' !in "display_Name";
  }

  lemma UnderscoreDisplayName()
    ensures Underscore("displayName") == "display_name"
  {
    DisplayNameSubstituted();
    DisplayNameDashes();
    DisplayNameLowered();
  }

  lemma UnderscoreUrl()
    ensures Underscore("URL") == "url"
  {
    UrlSteps();
    assert Dashes("URL") == "URL";
    assert Lower("URL") == "url";
  }

  lemma UnderscoreDescription()
    ensures Underscore("description") == "description"
  {
    UnderscorePlain("description");
  }

  lemma UnderscoreEnabled()
    ensures Underscore("enabled") == "enabled"
  {
    UnderscorePlain("enabled");
  }

  /** The four setters and the service field each updates. */
  datatype Setter = SetUrl | SetDescription | SetDisplayName | SetEnabled

  /** The API field a setter writes: a camel-case name, so `URL` and
      `displayName` are not already cache keys. */
  function ApiProperty(setter: Setter): (a: string)
    ensures a != [] && (Snake(a) <==> setter == SetDescription || setter == SetEnabled)
  {
    match setter
    case SetUrl => assert IsUpper("URL"[0]); "URL"
    case SetDescription => "description"
    case SetDisplayName => assert IsUpper("displayName"[7]); "displayName"
    case SetEnabled => "enabled"
  }

  /** The cache key of the Puppet property a setter is for: a snake-case name. */
  function PuppetProperty(setter: Setter): (p: string)
    ensures p != [] && Snake(p)
  {
    match setter
    case SetUrl => "url"
    case SetDescription => "description"
    case SetDisplayName => "display_name"
    case SetEnabled => "enabled"
  }

  /** Each setter's API field underscores to the cache key of its own
      property, so a successful update is visible under that property, and
      no other setter writes that key. */
  lemma SetterKeysMatch(setter: Setter)
    ensures Underscore(ApiProperty(setter)) == PuppetProperty(setter)
    ensures forall other: Setter :: other != setter ==> PuppetProperty(other) != PuppetProperty(setter)
  {
    match setter
    case SetUrl => UnderscoreUrl();
    case SetDescription => UnderscoreDescription();
    case SetDisplayName => UnderscoreDisplayName();
    case SetEnabled => UnderscoreEnabled();
  }

  /** The property hash of one listed service. */
  function ServiceProperties(service: JsonObject): (h: PropertyHash)
    ensures h.Keys == {"ensure", "provider", "name", "url", "description", "display_name", "enabled"}
    ensures h["ensure"] == PRESENT && h["provider"] == REST_CLIENT
    ensures h["name"] == Field(service, "name") && h["url"] == Field(service, "url")
    ensures h["description"] == Field(service, "description")
    ensures h["display_name"] == Field(service, "displayName") && h["enabled"] == Field(service, "enabled")
  {
    map["ensure" := PRESENT,
        "provider" := REST_CLIENT,
        "name" := Field(service, "name"),
        "url" := Field(service, "url"),
        "description" := Field(service, "description"),
        "display_name" := Field(service, "displayName"),
        "enabled" := Field(service, "enabled")]
  }

  /** `instances`: one provider per service of the parsed listing. */
  function ServiceInstances(services: seq<Value>): (r: seq<PropertyHash>)
    ensures |r| == |services|
    ensures forall k :: 0 <= k < |services| ==> r[k] == ServiceProperties(Fields(services[k]))
  {
    seq(|services|, k requires 0 <= k < |services| => ServiceProperties(Fields(services[k])))
  }

  /** The listing request (`retrieve_all_services` with its default detail). */
  function ListRequest(baseUrl: string): (r: Request)
    ensures r.Get? && baseUrl <= r.url && ("detail", Str("low")) in r.params
  {
    Get(baseUrl + SERVICES, [("detail", Str("low"))])
  }

  const SERVICES := "/services"

  /** The request `update_property` sends. */
  function UpdateRequest(baseUrl: string, name: string, property: string, value: Value): (r: Request)
    ensures r.Put? && ListRequest(baseUrl).url <= r.url
    ensures ("detail", Str("low")) in r.params && ("value", value) in r.params
  {
    Put(baseUrl + SERVICES + "/" + name + "/" + property, [("detail", Str("low")), ("value", value)])
  }

  /** The result of `update_property` for the server's answer. */
  function UpdateOutcome(name: string, property: string, response: Response): (o: Outcome)
    ensures o.Pass? <==> response.code == 200
    ensures o.Fail? ==> ReportedCode(o.error) == Some(response.code)
  {
    if response.code == 200 then Pass
    else
      ApiErrorReportsCode(response.code, "modifying " + name + " " + property, response.body);
      Fail(ApiError(response.code, "modifying " + name + " " + property, response.body))
  }

  /** A failed update names the service and the property. */
  lemma UpdateFailureNamesProperty(name: string, property: string, response: Response)
    requires response.code != 200
    ensures var msg := UpdateOutcome(name, property, response).error;
            var at := |API_ERROR_PREFIX| + |NatToString(response.code)| + |" when modifying "|;
            msg[at..at + |name| + 1 + |property|] == name + " " + property
  {
    assert "modifying " + name + " " + property == "modifying " + (name + " " + property);
    ApiErrorNamesSubject(response.code, "modifying ", name + " " + property, response.body);
  }

  class ServiceProvider {
    const baseUrl: string
    const name: string
    var propertyHash: PropertyHash
    var requests: seq<Request>

    constructor (baseUrl: string, name: string, propertyHash: PropertyHash)
      ensures this.baseUrl == baseUrl && this.name == name
      ensures this.propertyHash == propertyHash && requests == []
    {
      this.baseUrl := baseUrl;
      this.name := name;
      this.propertyHash := propertyHash;
      requests := [];
    }

    /** `update_property`: on a 200 answer exactly one cache key, the
        underscored property, takes the value. */
    method UpdateProperty(property: string, value: Value, response: Response) returns (o: Outcome)
      modifies this
      ensures o == UpdateOutcome(name, property, response)
      ensures requests == old(requests) + [UpdateRequest(baseUrl, name, property, value)]
      ensures propertyHash == if o.Pass? then old(propertyHash)[Underscore(property) := value] else old(propertyHash)
    {
      requests := requests + [UpdateRequest(baseUrl, name, property, value)];
      if response.code == 200 {
        propertyHash := propertyHash[Underscore(property) := value];
      }
      o := UpdateOutcome(name, property, response);
    }

    /** `url=`, `description=`, `display_name=` and `enabled=`. */
    method Set(setter: Setter, should: Value, response: Response) returns (o: Outcome)
      modifies this
      ensures o == UpdateOutcome(name, ApiProperty(setter), response)
      ensures requests == old(requests) + [UpdateRequest(baseUrl, name, ApiProperty(setter), should)]
      ensures o.Pass? ==> propertyHash == old(propertyHash)[PuppetProperty(setter) := should]
      ensures o.Fail? ==> propertyHash == old(propertyHash)
    {
      SetterKeysMatch(setter);
      o := UpdateProperty(ApiProperty(setter), should, response);
    }
  }
}
