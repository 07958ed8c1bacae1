/**
  Python's ordering of `str` values (code point by code point, a proper prefix first)
  and `sorted` over a list of names.
 */
module Order {

  /** `a <= b` on Python strings. */
  predicate LexLe(a: string, b: string)
    decreases |a|
  {
    if a == [] then true
    else if b == [] then false
    else if a[0] != b[0] then a[0] < b[0]
    else LexLe(a[1..], b[1..])
  }

  lemma {:induction false} LexLeReflexive(a: string)
    ensures LexLe(a, a)
  {
    if a != [] {
      LexLeReflexive(a[1..]);
    }
  }

  lemma {:induction false} LexLeTotal(a: string, b: string)
    ensures LexLe(a, b) || LexLe(b, a)
  {
    if a != [] && b != [] && a[0] == b[0] {
      LexLeTotal(a[1..], b[1..]);
    }
  }

  lemma {:induction false} LexLeAntisymmetric(a: string, b: string)
    requires LexLe(a, b) && LexLe(b, a)
    ensures a == b
  {
    if a != [] && b != [] {
      LexLeAntisymmetric(a[1..], b[1..]);
      assert a == [a[0]] + a[1..] && b == [b[0]] + b[1..];
    }
  }

  lemma {:induction false} LexLeTransitive(a: string, b: string, c: string)
    requires LexLe(a, b) && LexLe(b, c)
    ensures LexLe(a, c)
  {
    if a != [] && b != [] && c != [] && a[0] == b[0] == c[0] {
      LexLeTransitive(a[1..], b[1..], c[1..]);
    }
  }

  /** A common leading part does not change how two strings compare. */
  lemma {:induction false} LexLeCommonPrefix(p: string, a: string, b: string)
    ensures LexLe(p + a, p + b) == LexLe(a, b)
  {
    if p != [] {
      assert (p + a)[1..] == p[1..] + a;
      assert (p + b)[1..] == p[1..] + b;
      LexLeCommonPrefix(p[1..], a, b);
    } else {
      assert p + a == a && p + b == b;
    }
  }

  predicate Ascending(s: seq<string>) {
    forall i, j :: 0 <= i < j < |s| ==> LexLe(s[i], s[j])
  }

  /** Puts `x` into a list in front of the first element not below it. */
  function Insert(x: string, s: seq<string>): seq<string> {
    if s == [] then [x]
    else if LexLe(x, s[0]) then [x] + s
    else [s[0]] + Insert(x, s[1..])
  }

  /** Inserting adds exactly `x`. */
  lemma {:induction false} InsertCount(x: string, s: seq<string>)
    ensures multiset(Insert(x, s)) == multiset(s) + multiset{x}
  {
    if s != [] {
      assert s == [s[0]] + s[1..];
      if !LexLe(x, s[0]) {
        InsertCount(x, s[1..]);
      }
    }
  }

  /** Everything in an ascending list is at least its head. */
  lemma HeadBelowTail(s: seq<string>, y: string)
    requires Ascending(s) && s != [] && y in s[1..]
    ensures LexLe(s[0], y)
  {
    var j :| 0 <= j < |s[1..]| && s[1..][j] == y;
    assert s[j + 1] == y;
  }

  /** A list whose head is below everything in an ascending tail is ascending. */
  lemma AscendingCons(y: string, t: seq<string>)
    requires Ascending(t)
    requires forall z :: z in t ==> LexLe(y, z)
    ensures Ascending([y] + t)
  {
    var r := [y] + t;
    forall i, j | 0 <= i < j < |r| ensures LexLe(r[i], r[j]) {
      if i == 0 {
        assert r[j] == t[j - 1] && r[j] in t;
      } else {
        assert r[i] == t[i - 1] && r[j] == t[j - 1];
      }
    }
  }

  /** Inserting into an ascending list keeps it ascending and adds exactly `x`. */
  lemma {:induction false} InsertSpec(x: string, s: seq<string>)
    requires Ascending(s)
    ensures Ascending(Insert(x, s))
    ensures multiset(Insert(x, s)) == multiset(s) + multiset{x}
  {
    InsertCount(x, s);
    if s == [] {
    } else if LexLe(x, s[0]) {
      forall z | z in s ensures LexLe(x, z) {
        if z == s[0] {
          LexLeReflexive(z);
        } else {
          assert s == [s[0]] + s[1..];
          HeadBelowTail(s, z);
        }
        LexLeTransitive(x, s[0], z);
      }
      AscendingCons(x, s);
    } else {
      var rest := Insert(x, s[1..]);
      InsertSpec(x, s[1..]);
      LexLeTotal(x, s[0]);
      assert Ascending(s[1..]) by {
        forall i, j | 0 <= i < j < |s[1..]| ensures LexLe(s[1..][i], s[1..][j]) {
          assert s[1..][i] == s[i + 1] && s[1..][j] == s[j + 1];
        }
      }
      forall z | z in rest ensures LexLe(s[0], z) {
        assert z in multiset(rest);
        if z != x {
          assert z in multiset(s[1..]);
          HeadBelowTail(s, z);
        }
      }
      AscendingCons(s[0], rest);
    }
  }

  /** Python's `sorted` on a list of names, by insertion. */
  function Sort(s: seq<string>): seq<string> {
    if s == [] then [] else Insert(s[0], Sort(s[1..]))
  }

  /** `Sort` gives an ascending permutation of its input. */
  lemma {:induction false} SortSpec(s: seq<string>)
    ensures Ascending(Sort(s))
    ensures multiset(Sort(s)) == multiset(s)
  {
    if s != [] {
      SortSpec(s[1..]);
      InsertSpec(s[0], Sort(s[1..]));
      assert s == [s[0]] + s[1..];
    }
  }

  /** Sorting keeps the length (also a consequence of `SortSpec`, but without its ordering facts). */
  lemma {:induction false} SortLength(s: seq<string>)
    ensures |Sort(s)| == |s|
  {
    if s != [] {
      SortLength(s[1..]);
      InsertLength(s[0], Sort(s[1..]));
    }
  }

  lemma {:induction false} InsertLength(x: string, s: seq<string>)
    ensures |Insert(x, s)| == |s| + 1
  {
    if s != [] && !LexLe(x, s[0]) {
      InsertLength(x, s[1..]);
    }
  }

  /** The head of an ascending list is below every element of the list. */
  lemma AscendingHeadLeast(s: seq<string>, y: string)
    requires Ascending(s) && y in multiset(s)
    ensures LexLe(s[0], y)
  {
    var i :| 0 <= i < |s| && s[i] == y;
    if i == 0 { LexLeReflexive(y); }
  }

  lemma AscendingTail(s: seq<string>)
    requires Ascending(s) && s != []
    ensures Ascending(s[1..])
  {
    forall i, j | 0 <= i < j < |s[1..]| ensures LexLe(s[1..][i], s[1..][j]) {
      assert s[1..][i] == s[i + 1] && s[1..][j] == s[j + 1];
    }
  }

  /** Two ascending arrangements of one non-empty list start with the same element. */
  lemma AscendingSameHead(a: seq<string>, b: seq<string>)
    requires Ascending(a) && Ascending(b) && a != [] && b != []
    requires multiset(a) == multiset(b)
    ensures a[0] == b[0]
  {
    assert a[0] in multiset(b) && b[0] in multiset(a) by {
      assert a[0] in a && b[0] in b;
    }
    AscendingHeadLeast(a, b[0]);
    AscendingHeadLeast(b, a[0]);
    LexLeAntisymmetric(a[0], b[0]);
  }

  lemma SameRest(a: seq<string>, b: seq<string>)
    requires a != [] && b != [] && a[0] == b[0] && multiset(a) == multiset(b)
    ensures multiset(a[1..]) == multiset(b[1..])
  {
    assert a == [a[0]] + a[1..] && b == [b[0]] + b[1..];
    assert multiset(a[1..]) == multiset(a) - multiset{a[0]};
    assert multiset(b[1..]) == multiset(b) - multiset{b[0]};
  }

  /** There is only one ascending arrangement of a list, so `Sort` is `sorted` whatever algorithm computes it. */
  lemma {:induction false} AscendingUnique(a: seq<string>, b: seq<string>)
    requires Ascending(a) && Ascending(b)
    requires multiset(a) == multiset(b)
    ensures a == b
  {
    if a == [] || b == [] {
      assert |multiset(a)| == |a| && |multiset(b)| == |b|;
    } else {
      AscendingSameHead(a, b);
      SameRest(a, b);
      AscendingTail(a);
      AscendingTail(b);
      AscendingUnique(a[1..], b[1..]);
      assert a == [a[0]] + a[1..] && b == [b[0]] + b[1..];
    }
  }

  /** Every element of `s` with `p` in front. */
  function Prefixed(p: string, s: seq<string>): (r: seq<string>)
    ensures |r| == |s|
    ensures forall i :: 0 <= i < |s| ==> r[i] == p + s[i]
  {
    if s == [] then [] else [p + s[0]] + Prefixed(p, s[1..])
  }

  lemma {:induction false} InsertPrefixed(p: string, x: string, s: seq<string>)
    ensures Insert(p + x, Prefixed(p, s)) == Prefixed(p, Insert(x, s))
  {
    if s != [] {
      LexLeCommonPrefix(p, x, s[0]);
      if !LexLe(x, s[0]) {
        InsertPrefixed(p, x, s[1..]);
        assert Prefixed(p, s)[1..] == Prefixed(p, s[1..]);
      }
    }
  }

  /**
    Sorting names that all share one leading part gives the sorted bare names with that
    part in front: the leading part never decides the order.
   */
  lemma {:induction false} SortPrefixed(p: string, s: seq<string>)
    ensures Sort(Prefixed(p, s)) == Prefixed(p, Sort(s))
  {
    if s != [] {
      SortPrefixed(p, s[1..]);
      assert Prefixed(p, s)[1..] == Prefixed(p, s[1..]);
      InsertPrefixed(p, s[0], Sort(s[1..]));
    }
  }
}
