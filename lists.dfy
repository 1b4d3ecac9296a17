/** The list-valued properties (`roles` of fme_user, `services` of
    fme_repository_item): their `insync?`, which compares sorted copies, and the
    validation of each entry. */
module ListProperty {
  import opened Wrappers
  import opened Values

  /** `a <=> b` is at most zero: lexicographic order by character code. */
  predicate Leq(a: string, b: string)
    decreases |a|
  {
    a == [] || (b != [] && (a[0] < b[0] || (a[0] == b[0] && Leq(a[1..], b[1..]))))
  }

  lemma {:induction false} LeqReflexive(a: string)
    ensures Leq(a, a)
    decreases |a|
  {
    if a != [] {
      LeqReflexive(a[1..]);
    }
  }

  lemma {:induction false} LeqTotal(a: string, b: string)
    ensures Leq(a, b) || Leq(b, a)
    decreases |a|
  {
    if a != [] && b != [] && a[0] == b[0] {
      LeqTotal(a[1..], b[1..]);
    }
  }

  lemma {:induction false} LeqAntisymmetric(a: string, b: string)
    requires Leq(a, b) && Leq(b, a)
    ensures a == b
    decreases |a|
  {
    if a != [] {
      LeqAntisymmetric(a[1..], b[1..]);
      assert a == [a[0]] + a[1..] && b == [b[0]] + b[1..];
    }
  }

  lemma {:induction false} LeqTransitive(a: string, b: string, c: string)
    requires Leq(a, b) && Leq(b, c)
    ensures Leq(a, c)
    decreases |a|
  {
    if a != [] && a[0] == b[0] && b[0] == c[0] {
      LeqTransitive(a[1..], b[1..], c[1..]);
    }
  }

  predicate Sorted(s: seq<string>)
  {
    forall i, j :: 0 <= i < j < |s| ==> Leq(s[i], s[j])
  }

  /** A head that comes before every entry of a sorted tail keeps the list sorted. */
  lemma ConsSorted(y: string, t: seq<string>)
    requires Sorted(t)
    requires forall j :: 0 <= j < |t| ==> Leq(y, t[j])
    ensures Sorted([y] + t)
  {
    var r := [y] + t;
    forall i, j | 0 <= i < j < |r| ensures Leq(r[i], r[j]) {
      assert r[j] == t[j - 1];
      if i > 0 { assert r[i] == t[i - 1]; }
    }
  }

  /** A lower bound of `x` and of every entry of `u` bounds every entry of a
      list holding exactly those. */
  lemma BoundedByMultiset(y: string, t: seq<string>, u: seq<string>, x: string)
    requires multiset(t) == multiset(u) + multiset{x}
    requires Leq(y, x) && forall k :: 0 <= k < |u| ==> Leq(y, u[k])
    ensures forall j :: 0 <= j < |t| ==> Leq(y, t[j])
  {
    forall j | 0 <= j < |t| ensures Leq(y, t[j]) {
      assert t[j] in multiset(t);
      if t[j] != x {
        assert t[j] in multiset(u);
        var k :| 0 <= k < |u| && u[k] == t[j];
      }
    }
  }

  /** Inserts `x` into a sorted list before the first entry it does not exceed. */
  function Insert(x: string, s: seq<string>): (r: seq<string>)
    requires Sorted(s)
    ensures multiset(r) == multiset(s) + multiset{x}
    ensures Sorted(r)
  {
    if s == [] then [x]
    else if Leq(x, s[0]) then
      assert forall j :: 0 <= j < |s| ==> Leq(x, s[j]) by {
        forall j | 0 <= j < |s| ensures Leq(x, s[j]) {
          if j > 0 { LeqTransitive(x, s[0], s[j]); }
        }
      }
      ConsSorted(x, s);
      [x] + s
    else
      var u := s[1..];
      TailSorted(s);
      var t := Insert(x, u);
      assert s == [s[0]] + u;
      LeqTotal(x, s[0]);
      assert forall k :: 0 <= k < |u| ==> Leq(s[0], u[k]) by {
        forall k | 0 <= k < |u| ensures Leq(s[0], u[k]) {
          assert u[k] == s[k + 1];
        }
      }
      BoundedByMultiset(s[0], t, u, x);
      ConsSorted(s[0], t);
      [s[0]] + t
  }

  /** `Array#sort` on strings. */
  function Sort(s: seq<string>): (r: seq<string>)
    ensures Sorted(r) && multiset(r) == multiset(s)
  {
    if s == [] then []
    else
      assert s == [s[0]] + s[1..];
      Insert(s[0], Sort(s[1..]))
  }

  /** The head of a sorted list comes before everything in it. */
  lemma HeadIsLeast(s: seq<string>, x: string)
    requires Sorted(s) && x in multiset(s)
    ensures s != [] && Leq(s[0], x)
  {
    var k :| 0 <= k < |s| && s[k] == x;
    if k == 0 { LeqReflexive(x); }
  }

  lemma TailSorted(s: seq<string>)
    requires s != [] && Sorted(s)
    ensures Sorted(s[1..])
  {
    var u := s[1..];
    forall i, j | 0 <= i < j < |u| ensures Leq(u[i], u[j]) {
      assert u[i] == s[i + 1] && u[j] == s[j + 1];
    }
  }

  lemma TailMultiset(s: seq<string>)
    requires s != []
    ensures multiset(s[1..]) == multiset(s) - multiset{s[0]}
  {
    assert s == [s[0]] + s[1..];
  }

  /** Two sorted arrangements of one collection start with the same entry. */
  lemma SortedSameHead(a: seq<string>, b: seq<string>)
    requires Sorted(a) && Sorted(b) && multiset(a) == multiset(b) && a != []
    ensures b != [] && a[0] == b[0]
  {
    assert a[0] in multiset(a);
    HeadIsLeast(b, a[0]);
    assert b[0] in multiset(b);
    HeadIsLeast(a, b[0]);
    LeqAntisymmetric(a[0], b[0]);
  }

  /** There is only one sorted arrangement of a collection of strings. */
  lemma {:induction false} SortedUnique(a: seq<string>, b: seq<string>)
    requires Sorted(a) && Sorted(b) && multiset(a) == multiset(b)
    ensures a == b
    decreases |a|
  {
    if a == [] {
      assert |b| == |multiset(b)| == 0;
    } else {
      SortedSameHead(a, b);
      TailMultiset(a);
      TailMultiset(b);
      TailSorted(a);
      TailSorted(b);
      SortedUnique(a[1..], b[1..]);
      assert a == [a[0]] + a[1..] && b == [b[0]] + b[1..];
    }
  }

  /** `is.sort == should.sort`, with `current` for `is` */
  predicate InSync(current: seq<string>, should: seq<string>)
    ensures InSync(current, should) ==> |current| == |should|
  {
    Sort(current) == Sort(should)
  }

  /** A list property is in sync exactly when both lists hold the same entries
      the same number of times: order is ignored, multiplicity is not. */
  lemma InSyncIffSameEntries(current: seq<string>, should: seq<string>)
    ensures InSync(current, should) <==> multiset(current) == multiset(should)
  {
    if multiset(current) == multiset(should) {
      SortedUnique(Sort(current), Sort(should));
    }
  }

  /** Reordering a list never takes it out of sync. */
  lemma InSyncIgnoresOrder(current: seq<string>, should: seq<string>, i: nat, j: nat)
    requires i < j < |should|
    ensures InSync(current, should) <==>
            InSync(current, should[..i] + [should[j]] + should[i + 1..j] + [should[i]] + should[j + 1..])
  {
    var swapped := should[..i] + [should[j]] + should[i + 1..j] + [should[i]] + should[j + 1..];
    assert should == should[..i] + [should[i]] + should[i + 1..j] + [should[j]] + should[j + 1..];
    assert multiset(swapped) == multiset(should);
    InSyncIffSameEntries(current, should);
    InSyncIffSameEntries(current, swapped);
  }

  /** A duplicated entry is a difference. */
  lemma InSyncCountsDuplicates(x: string)
    ensures !InSync([x], [x, x])
  {
    InSyncIffSameEntries([x], [x, x]);
    assert multiset([x])[x] == 1;
    assert multiset([x, x])[x] == 2;
  }

  /** The `validate` block of a list property named `what` ("Roles",
      "Services"), applied to one entry. */
  function ValidateEntry(what: string, entry: Value): (o: Outcome)
    ensures o.Fail? ==> what <= o.error
  {
    if !entry.Str? then Fail(what + " must be array of strings.")
    else if ',' in entry.s then Fail(what + " cannot include ','.")
    else if ' ' in entry.s then Fail(what + " cannot include ' '.")
    else Pass
  }

  /** An entry is accepted exactly when it is a string with no comma and no
      space, and each rejection names the first rule broken. */
  lemma ValidateEntryAccepts(what: string, entry: Value)
    ensures ValidateEntry(what, entry).Pass? <==>
            entry.Str? && ',' !in entry.s && ' ' !in entry.s
    ensures !entry.Str? ==> ValidateEntry(what, entry) == Fail(what + " must be array of strings.")
    ensures entry.Str? && ',' in entry.s ==>
            ValidateEntry(what, entry) == Fail(what + " cannot include ','.")
    ensures entry.Str? && ',' !in entry.s && ' ' in entry.s ==>
            ValidateEntry(what, entry) == Fail(what + " cannot include ' '.")
  {
  }
}
