/** The order in which the timezone list is sorted. The source compares
    with `localeCompare`; this model uses plain lexicographic order on
    character codes, a strict total order. */
module StringOrder {

  /** `a` sorts strictly before `b`: `a` is a proper prefix of `b`, or at
      the first position where they differ `a` has the smaller character. */
  predicate Below(a: string, b: string): (r: bool)
    ensures r ==> a != b
  {
    if a == [] then b != []
    else b != [] && (a[0] < b[0] || (a[0] == b[0] && Below(a[1..], b[1..])))
  }

  /** `a` sorts before `b` or equals it. */
  predicate AtMost(a: string, b: string) {
    a == b || Below(a, b)
  }

  lemma {:induction false} BelowIrreflexive(a: string)
    ensures !Below(a, a)
  {
    if a != [] {
      BelowIrreflexive(a[1..]);
    }
  }

  lemma {:induction false} BelowAsymmetric(a: string, b: string)
    requires Below(a, b)
    ensures !Below(b, a)
  {
    if a != [] && b != [] && a[0] == b[0] {
      BelowAsymmetric(a[1..], b[1..]);
    }
  }

  lemma {:induction false} BelowTransitive(a: string, b: string, c: string)
    requires Below(a, b) && Below(b, c)
    ensures Below(a, c)
  {
    if a != [] && a[0] == b[0] && b[0] == c[0] {
      BelowTransitive(a[1..], b[1..], c[1..]);
    }
  }

  /** Any two different strings are ordered one way or the other. */
  lemma {:induction false} BelowTotal(a: string, b: string)
    ensures a == b || Below(a, b) || Below(b, a)
  {
    if a != [] && b != [] && a[0] == b[0] {
      BelowTotal(a[1..], b[1..]);
      if a[1..] == b[1..] {
        assert a == [a[0]] + a[1..] && b == [b[0]] + b[1..];
      }
    }
  }

  lemma AtMostTransitive(a: string, b: string, c: string)
    requires AtMost(a, b) && AtMost(b, c)
    ensures AtMost(a, c)
  {
    if a != b && b != c {
      BelowTransitive(a, b, c);
    }
  }

  /** Each element is at most every later one. */
  predicate Sorted(s: seq<string>) {
    forall i, j :: 0 <= i < j < |s| ==> AtMost(s[i], s[j])
  }

  /** Each element is strictly below every later one. */
  predicate StrictlySorted(s: seq<string>) {
    forall i, j :: 0 <= i < j < |s| ==> Below(s[i], s[j])
  }

  /** No element appears twice. */
  predicate Distinct(s: seq<string>) {
    forall i, j :: 0 <= i < j < |s| ==> s[i] != s[j]
  }

  /** A sorted sequence without repeats is strictly sorted, and the other
      way round. */
  lemma SortedDistinctIsStrict(s: seq<string>)
    ensures Sorted(s) && Distinct(s) <==> StrictlySorted(s)
  {
    if StrictlySorted(s) {
      forall i, j | 0 <= i < j < |s| ensures s[i] != s[j] {
        BelowIrreflexive(s[i]);
      }
    }
  }

  /** Two strictly sorted sequences with the same elements are equal: the
      sorted list of a set of strings is unique. */
  lemma {:induction false} StrictlySortedUnique(s: seq<string>, t: seq<string>)
    requires StrictlySorted(s) && StrictlySorted(t)
    requires forall x :: x in s <==> x in t
    ensures s == t
  {
    assert s != [] ==> s[0] in t;
    assert t != [] ==> t[0] in s;
    if s != [] && t != [] {
      var a, b := s[0], t[0];
      if a != b {
        assert a in t;
        var j :| 0 <= j < |t| && t[j] == a;
        assert Below(b, a);
        assert b in s;
        var i :| 0 <= i < |s| && s[i] == b;
        assert Below(a, b);
        BelowAsymmetric(a, b);
        assert false;
      }
      assert s == [a] + s[1..] && t == [b] + t[1..];
      forall x ensures x in s[1..] <==> x in t[1..] {
        if x in s[1..] {
          var i :| 1 <= i < |s| && s[i] == x;
          assert Below(a, x);
          BelowIrreflexive(a);
          assert x in s && x != b;
          assert x in t;
        }
        if x in t[1..] {
          var j :| 1 <= j < |t| && t[j] == x;
          assert Below(b, x);
          BelowIrreflexive(b);
          assert x in t && x != a;
          assert x in s;
        }
      }
      StrictlySortedUnique(s[1..], t[1..]);
    }
  }
}
