/** Byte-wise string order, which is the iteration order of the store, and sorted iteration. */
module Text {

  predicate Less(a: string, b: string) {
    |b| > 0 && (|a| == 0 || a[0] < b[0] || (a[0] == b[0] && Less(a[1..], b[1..])))
  }

  lemma {:induction false} LessIsStrict(a: string, b: string)
    ensures !(Less(a, b) && Less(b, a))
    ensures !Less(a, a)
  {
    if |a| > 0 {
      LessIsStrict(a[1..], if |b| > 0 then b[1..] else b);
    }
  }

  lemma {:induction false} LessIsTotal(a: string, b: string)
    ensures Less(a, b) || a == b || Less(b, a)
  {
    if |a| > 0 && |b| > 0 && a[0] == b[0] {
      LessIsTotal(a[1..], b[1..]);
      assert a == [a[0]] + a[1..] && b == [b[0]] + b[1..];
    }
  }

  lemma {:induction false} LessIsTransitive(a: string, b: string, c: string)
    requires Less(a, b) && Less(b, c)
    ensures Less(a, c)
  {
    if |a| > 0 && a[0] == b[0] && b[0] == c[0] {
      LessIsTransitive(a[1..], b[1..], c[1..]);
    }
  }

  /** The first difference decides. */
  lemma {:induction false} LessAt(a: string, b: string, p: nat)
    requires p < |a| && p < |b|
    requires forall q :: 0 <= q < p ==> a[q] == b[q]
    requires a[p] < b[p]
    ensures Less(a, b)
    decreases p
  {
    if p > 0 {
      LessAt(a[1..], b[1..], p - 1);
    }
  }

  predicate IsFirst(x: string, s: set<string>) {
    x in s && forall y :: y in s ==> y == x || Less(x, y)
  }

  lemma {:induction false} FirstExists(s: set<string>)
    requires s != {}
    ensures exists x :: IsFirst(x, s)
    decreases |s|
  {
    var x :| x in s;
    var rest := s - {x};
    if rest == {} {
      assert s == {x};
      assert IsFirst(x, s);
    } else {
      FirstExists(rest);
      var m :| IsFirst(m, rest);
      LessIsTotal(x, m);
      var first := if Less(x, m) then x else m;
      forall y | y in s ensures y == first || Less(first, y) {
        if y != x && y != m && first == x { LessIsTransitive(x, m, y); }
      }
      assert IsFirst(first, s);
    }
  }

  lemma FirstIsUnique(x: string, y: string, s: set<string>)
    requires IsFirst(x, s) && IsFirst(y, s)
    ensures x == y
  {
    LessIsStrict(x, y);
  }

  function First(s: set<string>): (x: string)
    requires s != {}
    ensures IsFirst(x, s)
  {
    FirstExists(s);
    assert forall x, y :: IsFirst(x, s) && IsFirst(y, s) ==> x == y by {
      forall x, y | IsFirst(x, s) && IsFirst(y, s) ensures x == y { FirstIsUnique(x, y, s); }
    }
    var x :| x in s && IsFirst(x, s);
    x
  }

  ghost predicate Increasing(q: seq<string>) {
    forall i, j :: 0 <= i < j < |q| ==> Less(q[i], q[j])
  }

  /** The elements of a set in ascending order, as a store iterator yields them. */
  function Sorted(s: set<string>): (q: seq<string>)
    ensures forall x :: x in q <==> x in s
    ensures Increasing(q)
    ensures |q| == |s|
    decreases |s|
  {
    if s == {} then []
    else
      var x := First(s);
      var rest := Sorted(s - {x});
      assert forall y :: y in rest ==> y in s && y != x;
      [x] + rest
  }

  lemma IncreasingIsDistinct(q: seq<string>)
    requires Increasing(q)
    ensures forall i, j :: 0 <= i < j < |q| ==> q[i] != q[j]
  {
    forall i, j | 0 <= i < j < |q| ensures q[i] != q[j] { LessIsStrict(q[i], q[j]); }
  }

  /** An ascending list is determined by its elements. */
  lemma {:induction false} IncreasingIsUnique(a: seq<string>, b: seq<string>)
    requires Increasing(a) && Increasing(b) && forall x :: x in a <==> x in b
    ensures a == b
    decreases |a|
  {
    assert b != [] ==> b[0] in b;
    if a != [] {
      assert a[0] in a;
      LessIsStrict(a[0], b[0]);
      assert a[0] == b[0];
      IncreasingIsDistinct(a);
      IncreasingIsDistinct(b);
      assert forall x :: x in a <==> x == a[0] || x in a[1..];
      assert forall x :: x in b <==> x == b[0] || x in b[1..];
      IncreasingIsUnique(a[1..], b[1..]);
    }
  }

  /** The elements of a list that are in the set, in order. */
  function Filtered(q: seq<string>, s: set<string>): seq<string> {
    if q == [] then []
    else if q[|q| - 1] in s then Filtered(q[..|q| - 1], s) + [q[|q| - 1]]
    else Filtered(q[..|q| - 1], s)
  }

  lemma FilteredNone(s: set<string>)
    ensures Filtered([], s) == []
  {
  }

  lemma FilteredNext(q: seq<string>, s: set<string>, i: nat)
    requires i < |q|
    ensures Filtered(q[..i + 1], s) == Filtered(q[..i], s) + if q[i] in s then [q[i]] else []
  {
    assert q[..i + 1][..i] == q[..i];
  }

  lemma {:induction false} FilteredKeeps(q: seq<string>, s: set<string>)
    requires Increasing(q)
    ensures Increasing(Filtered(q, s)) && forall x :: x in Filtered(q, s) <==> x in q && x in s
    decreases |q|
  {
    if q != [] {
      var n := |q| - 1;
      FilteredKeeps(q[..n], s);
      assert forall x :: x in q[..n] ==> Less(x, q[n]);
      assert forall x :: x in q <==> x in q[..n] || x == q[n];
    }
  }

  /** Iterating over a larger set and skipping gives the sorted smaller set. */
  lemma FilteredIsSorted(all: set<string>, s: set<string>)
    requires s <= all
    ensures Filtered(Sorted(all), s) == Sorted(s)
  {
    hide Increasing;
    FilteredKeeps(Sorted(all), s);
    IncreasingIsUnique(Filtered(Sorted(all), s), Sorted(s));
  }

  lemma {:induction false} FilteredPrefix(q: seq<string>, s: set<string>, i: nat)
    requires i <= |q|
    ensures Filtered(q[..i], s) <= Filtered(q, s)
    decreases |q|
  {
    if i < |q| {
      FilteredPrefix(q[..|q| - 1], s, i);
      assert q[..|q| - 1][..i] == q[..i];
    } else {
      assert q[..i] == q;
    }
  }

  // ---------------------------------------------------------------- ranks

  lemma {:induction false} SetOfDistinct(q: seq<string>)
    requires forall i, j :: 0 <= i < j < |q| ==> q[i] != q[j]
    ensures |set v | v in q| == |q|
    decreases |q|
  {
    if q != [] {
      var n := |q| - 1;
      SetOfDistinct(q[..n]);
      assert (set v | v in q) == (set v | v in q[..n]) + {q[n]};
    }
  }

  /** The elements before `u`. */
  function Below(s: set<string>, u: string): set<string> { set v | v in s && Less(v, u) }

  function Take<T>(q: seq<T>, n: nat): seq<T> { if |q| <= n then q else q[..n] }

  lemma BelowIsPrefix(s: set<string>, q: seq<string>, i: nat)
    requires Increasing(q) && i < |q| && forall x :: x in q <==> x in s
    ensures Below(s, q[i]) == set v | v in q[..i]
  {
    hide Less;
    forall v ensures v in Below(s, q[i]) <==> v in q[..i] {
      if v in q {
        var j :| 0 <= j < |q| && q[j] == v;
        LessIsStrict(v, q[i]);
        assert j < i ==> q[..i][j] == v;
        if v in q[..i] {
          var k :| 0 <= k < i && q[k] == v;
        }
      }
    }
  }

  lemma TakenIffEarly<T>(q: seq<T>, n: nat, i: nat)
    requires i < |q| && forall j, k :: 0 <= j < k < |q| ==> q[j] != q[k]
    ensures q[i] in Take(q, n) <==> i < n
  {
    assert i < n ==> Take(q, n)[i] == q[i];
  }

  lemma TakenIsThere<T>(q: seq<T>, n: nat, x: T)
    ensures x in Take(q, n) ==> x in q
  {
  }

  lemma RankedAt(s: set<string>, q: seq<string>, n: nat, i: nat)
    requires Increasing(q) && i < |q| && forall x :: x in q <==> x in s
    ensures q[i] in Take(q, n) <==> |Below(s, q[i])| < n
  {
    hide Less, Below, Take;
    BelowIsPrefix(s, q, i);
    IncreasingIsDistinct(q);
    hide Increasing;
    SetOfDistinct(q[..i]);
    TakenIffEarly(q, n, i);
  }

  /** Who is among the first `n`: those with fewer than `n` before them. */
  lemma TakenIffRanked(s: set<string>, n: nat, u: string)
    ensures u in Take(Sorted(s), n) <==> u in s && |Below(s, u)| < n
  {
    hide Less, Below, Take, Increasing;
    var q := Sorted(s);
    TakenIsThere(q, n, u);
    if u in s {
      var i :| 0 <= i < |q| && q[i] == u;
      RankedAt(s, q, n, i);
    }
  }
}
