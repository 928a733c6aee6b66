/** The order JavaScript's default `Array.prototype.sort` puts strings in:
    lexicographic comparison of UTF-16 code units, a proper prefix first. */
module Order {
  import opened Text

  /** `a` sorts strictly before `b`. */
  predicate Below(a: Str, b: Str)
  {
    if a == [] then b != []
    else if b == [] then false
    else a[0] < b[0] || (a[0] == b[0] && Below(a[1..], b[1..]))
  }

  lemma {:induction false} BelowIrreflexive(a: Str)
    ensures !Below(a, a)
  {
    if a != [] {
      BelowIrreflexive(a[1..]);
    }
  }

  lemma {:induction false} BelowTransitive(a: Str, b: Str, c: Str)
    requires Below(a, b) && Below(b, c)
    ensures Below(a, c)
  {
    if a != [] && a[0] == b[0] && b[0] == c[0] {
      BelowTransitive(a[1..], b[1..], c[1..]);
    }
  }

  /** Any two different strings are ordered one way or the other. */
  lemma {:induction false} BelowTotal(a: Str, b: Str)
    requires a != b
    ensures Below(a, b) || Below(b, a)
  {
    if a != [] && b != [] && a[0] == b[0] {
      assert a == [a[0]] + a[1..] && b == [b[0]] + b[1..];
      BelowTotal(a[1..], b[1..]);
    }
  }

  lemma {:induction false} BelowAsymmetric(a: Str, b: Str)
    requires Below(a, b)
    ensures !Below(b, a)
  {
    if a != [] && a[0] == b[0] {
      BelowAsymmetric(a[1..], b[1..]);
    }
  }

  /** Ascending, each element at or below the next one. */
  predicate Sorted(s: seq<Str>)
  {
    forall i, j :: 0 <= i < j < |s| ==> s[i] == s[j] || Below(s[i], s[j])
  }

  /** Strictly ascending: sorted and free of duplicates. */
  predicate StrictlySorted(s: seq<Str>)
  {
    forall i, j :: 0 <= i < j < |s| ==> Below(s[i], s[j])
  }

  /** Places `x` in front of the first element it does not sort after. */
  function Insert(x: Str, s: seq<Str>): seq<Str>
  {
    if s == [] then [x]
    else if x == s[0] || Below(x, s[0]) then [x] + s
    else [s[0]] + Insert(x, s[1..])
  }

  lemma {:induction false} InsertContents(x: Str, s: seq<Str>)
    ensures multiset(Insert(x, s)) == multiset(s) + multiset{x}
  {
    if s != [] && !(x == s[0] || Below(x, s[0])) {
      InsertContents(x, s[1..]);
      assert s == [s[0]] + s[1..];
    }
  }

  lemma {:induction false} InsertSorted(x: Str, s: seq<Str>)
    requires Sorted(s)
    ensures Sorted(Insert(x, s))
  {
    if s == [] {
    } else if x == s[0] || Below(x, s[0]) {
      forall j | 0 < j < |s| ensures x == s[j] || Below(x, s[j]) {
        if x != s[j] && x != s[0] && s[0] != s[j] {
          BelowTransitive(x, s[0], s[j]);
        }
      }
    } else {
      BelowTotal(x, s[0]);
      var t := Insert(x, s[1..]);
      InsertSorted(x, s[1..]);
      InsertContents(x, s[1..]);
      assert s == [s[0]] + s[1..];
      forall j | 0 <= j < |t| ensures s[0] == t[j] || Below(s[0], t[j]) {
        assert t[j] in multiset(t);
        assert t[j] == x || t[j] in s[1..];
      }
    }
  }

  /** Insertion sort: JavaScript's default `sort()` on an array of strings.
      The result is in ascending order and is a permutation of the input. */
  function Sort(s: seq<Str>): (r: seq<Str>)
    ensures Sorted(r)
    ensures multiset(r) == multiset(s)
    decreases |s|
  {
    if s == [] then []
    else
      var t := Sort(s[1..]);
      InsertSorted(s[0], t);
      InsertContents(s[0], t);
      assert s == [s[0]] + s[1..];
      Insert(s[0], t)
  }

  /** A sequence whose neighbours are in order is strictly sorted. */
  lemma {:induction false} ChainStrictlySorted(s: seq<Str>)
    requires forall i :: 0 <= i < |s| - 1 ==> Below(s[i], s[i + 1])
    ensures StrictlySorted(s)
  {
    if |s| > 1 {
      ChainStrictlySorted(s[1..]);
      forall j | 1 < j < |s| ensures Below(s[0], s[j]) {
        assert Below(s[1..][0], s[1..][j - 1]);
        BelowTransitive(s[0], s[1], s[j]);
      }
    }
  }

  /** A sorted sequence without duplicates is strictly sorted. */
  lemma SortedDistinct(s: seq<Str>)
    requires Sorted(s)
    requires forall i, j :: 0 <= i < j < |s| ==> s[i] != s[j]
    ensures StrictlySorted(s)
  {
  }

  /** Two strictly sorted sequences holding the same strings are equal: the
      sorted, de-duplicated form of a collection is unique. */
  lemma {:induction false} StrictlySortedUnique(a: seq<Str>, b: seq<Str>)
    requires StrictlySorted(a) && StrictlySorted(b)
    requires forall x :: x in a <==> x in b
    ensures a == b
    decreases |a|
  {
    if a != [] {
      assert a[0] in a;
    }
    if b != [] {
      assert b[0] in b;
    }
    if a != [] && b != [] {
      assert a[0] in b && b[0] in a;
      var j :| 0 <= j < |b| && b[j] == a[0];
      var i :| 0 <= i < |a| && a[i] == b[0];
      if i > 0 && j > 0 {
        BelowAsymmetric(a[0], b[0]);
      }
      forall x | x in a[1..] ensures x in b[1..] {
        var i :| 0 <= i < |a| - 1 && a[1..][i] == x;
        assert Below(a[0], a[i + 1]);
        BelowIrreflexive(x);
        assert x in b && x != b[0];
      }
      forall x | x in b[1..] ensures x in a[1..] {
        var j :| 0 <= j < |b| - 1 && b[1..][j] == x;
        assert Below(b[0], b[j + 1]);
        BelowIrreflexive(x);
        assert x in a && x != a[0];
      }
      StrictlySortedUnique(a[1..], b[1..]);
      assert a == [a[0]] + a[1..] && b == [b[0]] + b[1..];
    }
  }
}
