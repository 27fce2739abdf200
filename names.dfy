/**
 * The order in which span names are listed. Go orders strings byte by byte;
 * for UTF-8 that is the order of code points, which is the order of Dafny's
 * `char`. `sort.Strings` is modelled by an insertion sort: only its result
 * (a sorted permutation, which is unique) is observable.
 */
module Names {

  /** Lexicographic `a <= b`. */
  predicate LessEq(a: string, b: string)
  {
    a == [] || (b != [] && (a[0] < b[0] || (a[0] == b[0] && LessEq(a[1..], b[1..]))))
  }

  lemma {:induction false} LessEqTotal(a: string, b: string)
    ensures LessEq(a, b) || LessEq(b, a)
  {
    if a != [] && b != [] && a[0] == b[0] {
      LessEqTotal(a[1..], b[1..]);
    }
  }

  lemma {:induction false} LessEqAntisymmetric(a: string, b: string)
    requires LessEq(a, b) && LessEq(b, a)
    ensures a == b
  {
    if a != [] && b != [] {
      LessEqAntisymmetric(a[1..], b[1..]);
      assert a == [a[0]] + a[1..];
      assert b == [b[0]] + b[1..];
    }
  }

  lemma {:induction false} LessEqTransitive(a: string, b: string, c: string)
    requires LessEq(a, b) && LessEq(b, c)
    ensures LessEq(a, c)
  {
    if a != [] && b != [] && c != [] && a[0] == b[0] && b[0] == c[0] {
      LessEqTransitive(a[1..], b[1..], c[1..]);
    }
  }

  predicate Sorted(s: seq<string>)
  {
    forall i, j :: 0 <= i < j < |s| ==> LessEq(s[i], s[j])
  }

  /** Inserts `x` before the first element it does not exceed. */
  function Insert(x: string, s: seq<string>): seq<string>
  {
    if s == [] || LessEq(x, s[0]) then [x] + s else [s[0]] + Insert(x, s[1..])
  }

  /** Returns a sorted permutation of `s`. */
  function Sort(s: seq<string>): (r: seq<string>)
    ensures Sorted(r)
    ensures multiset(r) == multiset(s)
  {
    if s == [] then []
    else
      var sorted := Sort(s[..|s| - 1]);
      InsertCorrect(s[|s| - 1], sorted);
      assert s == s[..|s| - 1] + [s[|s| - 1]];
      Insert(s[|s| - 1], sorted)
  }

  lemma {:induction false} InsertCorrect(x: string, s: seq<string>)
    requires Sorted(s)
    ensures multiset(Insert(x, s)) == multiset(s) + multiset{x}
    ensures Sorted(Insert(x, s))
  {
    if s == [] || LessEq(x, s[0]) {
      assert Insert(x, s) == [x] + s;
      forall j | 0 < j < |[x] + s|
        ensures LessEq(x, ([x] + s)[j])
      {
        if j > 1 { LessEqTransitive(x, s[0], s[j - 1]); }
      }
    } else {
      var rest := Insert(x, s[1..]);
      assert Sorted(s[1..]);
      InsertCorrect(x, s[1..]);
      LessEqTotal(x, s[0]);
      assert s == [s[0]] + s[1..];
      forall j | 0 <= j < |rest|
        ensures LessEq(s[0], rest[j])
      {
        assert rest[j] in multiset(rest);
        if rest[j] != x {
          assert rest[j] in multiset(s[1..]);
          var k :| 0 <= k < |s[1..]| && s[1..][k] == rest[j];
          assert s[k + 1] == rest[j];
        }
      }
      assert Insert(x, s) == [s[0]] + rest;
    }
  }

  /**
   * Two sorted lists holding the same names are equal: the listing does not
   * depend on the order in which the names were collected.
   */
  lemma {:induction false} SortedUnique(a: seq<string>, b: seq<string>)
    requires Sorted(a) && Sorted(b)
    requires multiset(a) == multiset(b)
    ensures a == b
  {
    if a != [] && b != [] {
      assert a[0] in multiset(b);
      var k :| 0 <= k < |b| && b[k] == a[0];
      assert b[0] in multiset(a);
      var l :| 0 <= l < |a| && a[l] == b[0];
      if a[0] != b[0] {
        assert LessEq(b[0], b[k]) && LessEq(a[0], a[l]);
        LessEqAntisymmetric(a[0], b[0]);
      }
      assert a == [a[0]] + a[1..];
      assert b == [b[0]] + b[1..];
      assert multiset(a) == multiset{a[0]} + multiset(a[1..]);
      assert multiset(b) == multiset{b[0]} + multiset(b[1..]);
      assert a[0] == b[0];
      assert multiset(a[1..]) == multiset(a) - multiset{a[0]};
      assert multiset(b[1..]) == multiset(b) - multiset{b[0]};
      SortedUnique(a[1..], b[1..]);
    }
  }
}
