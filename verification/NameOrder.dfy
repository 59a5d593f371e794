/** Names in the order the generator sorts them. */
module NameOrder {
  import opened IncludeGraph

  /** Lexicographic comparison of strings, a proper prefix first. */
  predicate Before(a: Name, b: Name) {
    if a == [] then b != [] else b != [] && (a[0] < b[0] || (a[0] == b[0] && Before(a[1..], b[1..])))
  }

  /** At the first place where two names differ the smaller character decides, or one of them has ended. */
  lemma {:induction false} BeforeIff(a: Name, b: Name)
    ensures Before(a, b) <==> exists k :: DecidedAt(a, b, k)
  {
    if a != [] && b != [] && a[0] == b[0] {
      BeforeIff(a[1..], b[1..]);
      if k :| DecidedAt(a[1..], b[1..], k) {
        assert a[..k + 1] == [a[0]] + a[1..][..k] && b[..k + 1] == [b[0]] + b[1..][..k];
        assert DecidedAt(a, b, k + 1);
      }
      if k :| DecidedAt(a, b, k) {
        assert a[1..][..k - 1] == a[..k][1..] && b[1..][..k - 1] == b[..k][1..];
        assert DecidedAt(a[1..], b[1..], k - 1);
      }
    } else {
      if Before(a, b) {
        assert DecidedAt(a, b, 0);
      }
      if k :| DecidedAt(a, b, k) {
        if k > 0 {
          SameHeads(a, b, k);
        }
      }
    }
  }

  lemma SameHeads(a: Name, b: Name, k: int)
    requires DecidedAt(a, b, k) && k > 0
    ensures a[0] == b[0]
  {
    assert a[0] == a[..k][0] && b[0] == b[..k][0];
  }

  /** The names agree on their first k characters; then `a` ends or has the smaller character. */
  predicate DecidedAt(a: Name, b: Name, k: int) {
    0 <= k <= |a| && k < |b| && a[..k] == b[..k] && (k == |a| || a[k] < b[k])
  }

  lemma {:induction false} BeforeTotal(a: Name, b: Name)
    ensures a == b || Before(a, b) || Before(b, a)
    ensures !(Before(a, b) && Before(b, a)) && !Before(a, a)
  {
    if a != [] {
      BeforeTotal(a[1..], a[1..]);
      if b != [] && a[0] == b[0] {
        BeforeTotal(a[1..], b[1..]);
        assert a == [a[0]] + a[1..] && b == [b[0]] + b[1..];
      }
    }
  }

  lemma {:induction false} BeforeTransitive(a: Name, b: Name, c: Name)
    requires Before(a, b) && Before(b, c)
    ensures Before(a, c)
  {
    if a != [] && a[0] == b[0] == c[0] {
      BeforeTransitive(a[1..], b[1..], c[1..]);
    }
  }

  predicate Ascending(s: seq<Name>) {
    forall i, j :: 0 <= i < j < |s| ==> Before(s[i], s[j])
  }

  function Insert(n: Name, s: seq<Name>): seq<Name> {
    if s == [] || Before(n, s[0]) then [n] + s else [s[0]] + Insert(n, s[1..])
  }

  lemma {:induction false} InsertHolds(n: Name, s: seq<Name>, x: Name)
    ensures x in Insert(n, s) <==> x == n || x in s
  {
    if s != [] && !Before(n, s[0]) {
      InsertHolds(n, s[1..], x);
      assert s == [s[0]] + s[1..];
    }
  }

  lemma {:induction false} InsertAscends(n: Name, s: seq<Name>)
    requires Ascending(s) && n !in s
    ensures Ascending(Insert(n, s))
  {
    if s != [] {
      BeforeTotal(n, s[0]);
      if Before(n, s[0]) {
        forall k | 0 <= k < |s| ensures Before(n, s[k]) {
          if k > 0 {
            BeforeTransitive(n, s[0], s[k]);
          }
        }
      } else {
        InsertAscends(n, s[1..]);
        var rest := Insert(n, s[1..]);
        forall k | 0 <= k < |rest| ensures Before(s[0], rest[k]) {
          InsertHolds(n, s[1..], rest[k]);
          assert rest[k] in rest;
          if rest[k] != n {
            var i :| 0 <= i < |s[1..]| && s[1..][i] == rest[k];
            assert Before(s[0], s[i + 1]);
          }
        }
      }
    }
  }

  lemma HeadShared(s: seq<Name>, t: seq<Name>)
    requires forall x :: x in s <==> x in t
    ensures (s == [] <==> t == []) && (s != [] ==> s[0] in t && t[0] in s)
  {
    assert s != [] ==> s[0] in s;
    assert t != [] ==> t[0] in t;
  }

  /** An ascending list is determined by its elements, whatever order the set was walked in. */
  lemma {:induction false} AscendingUnique(s: seq<Name>, t: seq<Name>)
    requires Ascending(s) && Ascending(t) && forall x :: x in s <==> x in t
    ensures s == t
    decreases |s|
  {
    HeadShared(s, t);
    if s != [] {
      HeadsEqual(s, t);
      forall x ensures x in s[1..] <==> x in t[1..] {
        TailHolds(s, x);
        TailHolds(t, x);
      }
      AscendingUnique(s[1..], t[1..]);
      assert s == [s[0]] + s[1..] && t == [t[0]] + t[1..];
    }
  }

  lemma TailHolds(s: seq<Name>, x: Name)
    requires Ascending(s) && s != []
    ensures x in s[1..] <==> x in s && x != s[0]
  {
    BeforeTotal(s[0], s[0]);
    if x in s[1..] {
      var i :| 0 <= i < |s[1..]| && s[1..][i] == x;
      assert Before(s[0], s[i + 1]);
    } else if x in s {
      assert s == [s[0]] + s[1..];
    }
  }

  /** The head of an ascending list comes before every other element. */
  lemma HeadFirst(s: seq<Name>, x: Name)
    requires Ascending(s) && x in s
    ensures x == s[0] || Before(s[0], x)
  {
    var i :| 0 <= i < |s| && s[i] == x;
    assert i > 0 ==> Before(s[0], s[i]);
  }

  lemma HeadsEqual(s: seq<Name>, t: seq<Name>)
    requires Ascending(s) && Ascending(t) && s != [] && t != [] && s[0] in t && t[0] in s
    ensures s[0] == t[0]
  {
    HeadFirst(s, t[0]);
    HeadFirst(t, s[0]);
    BeforeTotal(s[0], t[0]);
  }

  predicate IsCHeader(n: Name) {
    |n| >= 2 && n[|n| - 2..] == ".h"
  }

  lemma CHeaderIff(n: Name)
    ensures IsCHeader(n) <==> exists stem: Name :: n == stem + ".h"
  {
    if IsCHeader(n) {
      assert n == n[..|n| - 2] + ".h";
    }
    if stem: Name :| n == stem + ".h" {
      assert n[|n| - 2..] == ".h";
    }
  }

  /** sort_system_includes: the C headers and the others, each sorted. */
  method SortSystemIncludes(items: set<Name>) returns (c: seq<Name>, cxx: seq<Name>)
    ensures Ascending(c) && Ascending(cxx)
    ensures forall x :: x in c <==> x in items && IsCHeader(x)
    ensures forall x :: x in cxx <==> x in items && !IsCHeader(x)
  {
    c, cxx := [], [];
    var rest := items;
    while rest != {}
      invariant rest <= items && Ascending(c) && Ascending(cxx)
      invariant forall x :: x in c <==> x in items && x !in rest && IsCHeader(x)
      invariant forall x :: x in cxx <==> x in items && x !in rest && !IsCHeader(x)
      decreases rest
    {
      var n :| n in rest;
      forall x ensures (x in Insert(n, c) <==> x == n || x in c) && (x in Insert(n, cxx) <==> x == n || x in cxx) {
        InsertHolds(n, c, x);
        InsertHolds(n, cxx, x);
      }
      if IsCHeader(n) {
        InsertAscends(n, c);
        c := Insert(n, c);
      } else {
        InsertAscends(n, cxx);
        cxx := Insert(n, cxx);
      }
      rest := rest - {n};
    }
  }
}
