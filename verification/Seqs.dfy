/** Lists of windows: the std::deque, std::vector and QList operations the window manager
    relies on, with the facts about membership, multiplicity and order the proofs use. */
module Seqs {

  datatype Option<+T> = None | Some(value: T)

  function Elems<T>(s: seq<T>): set<T> {
    set x | x in s
  }

  ghost predicate NoDup<T>(s: seq<T>) {
    forall i, j :: 0 <= i < j < |s| ==> s[i] != s[j]
  }

  /** The elements of `s` that are in `xs` (when `keep`) or not in `xs` (otherwise), in order. */
  function Sift<T(==, !new)>(s: seq<T>, xs: set<T>, keep: bool): (r: seq<T>)
    ensures forall x :: x in r <==> x in s && (x in xs) == keep
  {
    if s == [] then []
    else
      var last := s[|s| - 1];
      var r := Sift(s[..|s| - 1], xs, keep);
      if (last in xs) == keep then r + [last] else r
  }

  function Only<T(==, !new)>(s: seq<T>, xs: set<T>): seq<T> {
    Sift(s, xs, true)
  }

  function Without<T(==, !new)>(s: seq<T>, xs: set<T>): seq<T> {
    Sift(s, xs, false)
  }

  /** Keeps the last (topmost) occurrence of every element. */
  function Topmost<T(==, !new)>(s: seq<T>): (r: seq<T>)
    ensures forall x :: x in r <==> x in s
  {
    if s == [] then []
    else Without(Topmost(s[..|s| - 1]), {s[|s| - 1]}) + [s[|s| - 1]]
  }

  /** The first position of `x`, or `|s|` when it does not occur. */
  function IndexOf<T(==)>(s: seq<T>, x: T): (i: nat)
    ensures i <= |s|
    ensures i < |s| ==> s[i] == x
    ensures forall j :: 0 <= j < i ==> s[j] != x
    ensures i < |s| <==> x in s
  {
    if s == [] then 0
    else if s[0] == x then 0
    else 1 + IndexOf(s[1..], x)
  }

  function InsertAt<T>(s: seq<T>, i: nat, x: T): seq<T>
    requires i <= |s|
  {
    s[..i] + [x] + s[i..]
  }

  /** Every occurrence of `low` has an occurrence of `high` above it (at a greater index). */
  ghost predicate Above<T>(s: seq<T>, high: T, low: T) {
    forall i :: 0 <= i < |s| && s[i] == low ==> exists j :: i < j < |s| && s[j] == high
  }

  /** Some occurrence of `a` comes before some occurrence of `b`. */
  ghost predicate Before<T>(s: seq<T>, a: T, b: T) {
    exists i, j :: 0 <= i < j < |s| && s[i] == a && s[j] == b
  }

  lemma Assoc<T>(a: seq<T>, b: seq<T>, c: seq<T>)
    ensures a + (b + c) == (a + b) + c
  {
  }

  lemma SplitLast<T>(s: seq<T>)
    requires s != []
    ensures s == s[..|s| - 1] + [s[|s| - 1]]
  {
  }

  // ----- Sift -----

  lemma SiftSnoc<T(!new)>(s: seq<T>, x: T, xs: set<T>, keep: bool)
    ensures Sift(s + [x], xs, keep) == Sift(s, xs, keep) + if (x in xs) == keep then [x] else []
  {
    assert (s + [x])[..|s|] == s;
    assert Sift(s, xs, keep) + [] == Sift(s, xs, keep);
  }

  lemma {:induction false} SiftConcat<T(!new)>(a: seq<T>, b: seq<T>, xs: set<T>, keep: bool)
    ensures Sift(a + b, xs, keep) == Sift(a, xs, keep) + Sift(b, xs, keep)
    decreases |b|
  {
    if b == [] {
      assert a + b == a;
      assert Sift(a, xs, keep) + [] == Sift(a, xs, keep);
    } else {
      var b', last := b[..|b| - 1], b[|b| - 1];
      SplitLast(b);
      Assoc(a, b', [last]);
      SiftConcat(a, b', xs, keep);
      SiftSnoc(a + b', last, xs, keep);
      SiftSnoc(b', last, xs, keep);
      Assoc(Sift(a, xs, keep), Sift(b', xs, keep), if (last in xs) == keep then [last] else []);
    }
  }

  /** Two selections that agree on the elements of `s` give the same list. */
  lemma {:induction false} SiftAgree<T(!new)>(s: seq<T>, xs: set<T>, keep: bool, ys: set<T>, keep': bool)
    requires forall x :: x in s ==> ((x in xs) == keep <==> (x in ys) == keep')
    ensures Sift(s, xs, keep) == Sift(s, ys, keep')
  {
    if s != [] {
      SiftAgree(s[..|s| - 1], xs, keep, ys, keep');
    }
  }

  lemma {:induction false} SiftAll<T(!new)>(s: seq<T>, xs: set<T>, keep: bool)
    requires forall x :: x in s ==> (x in xs) == keep
    ensures Sift(s, xs, keep) == s
  {
    if s != [] {
      SiftAll(s[..|s| - 1], xs, keep);
      assert s == s[..|s| - 1] + [s[|s| - 1]];
    }
  }

  lemma {:induction false} SiftNone<T(!new)>(s: seq<T>, xs: set<T>, keep: bool)
    requires forall x :: x in s ==> (x in xs) != keep
    ensures Sift(s, xs, keep) == []
  {
    if s != [] {
      SiftNone(s[..|s| - 1], xs, keep);
    }
  }

  /** Selecting twice is selecting once, for any selection that agrees with the conjunction. */
  lemma {:induction false} SiftSift<T(!new)>(s: seq<T>, xs: set<T>, keep: bool, ys: set<T>, keep': bool,
                                             zs: set<T>, keep'': bool)
    requires forall x :: x in s ==>
               ((x in zs) == keep'' <==> (x in xs) == keep && (x in ys) == keep')
    ensures Sift(Sift(s, xs, keep), ys, keep') == Sift(s, zs, keep'')
  {
    if s != [] {
      var last, r := s[|s| - 1], Sift(s[..|s| - 1], xs, keep);
      SiftSift(s[..|s| - 1], xs, keep, ys, keep', zs, keep'');
      SiftConcat(r, [last], ys, keep');
    }
  }

  lemma {:induction false} SiftCount<T(!new)>(s: seq<T>, xs: set<T>, keep: bool, x: T)
    ensures multiset(Sift(s, xs, keep))[x] == if (x in xs) == keep then multiset(s)[x] else 0
  {
    if s != [] {
      SiftCount(s[..|s| - 1], xs, keep, x);
      assert s == s[..|s| - 1] + [s[|s| - 1]];
    }
  }

  lemma SiftNoDup<T(!new)>(s: seq<T>, xs: set<T>, keep: bool)
    requires NoDup(s)
    ensures NoDup(Sift(s, xs, keep))
  {
    forall x ensures multiset(Sift(s, xs, keep))[x] <= 1 {
      SiftCount(s, xs, keep, x);
      NoDupCount(s);
    }
    NoDupCount(Sift(s, xs, keep));
  }

  /** Selection keeps the order of what it keeps. */
  lemma {:induction false} SiftBefore<T(!new)>(s: seq<T>, xs: set<T>, keep: bool, a: T, b: T)
    requires Before(s, a, b) && (a in xs) == keep && (b in xs) == keep
    ensures Before(Sift(s, xs, keep), a, b)
  {
    var i, j :| 0 <= i < j < |s| && s[i] == a && s[j] == b;
    var s', r' := s[..|s| - 1], Sift(s[..|s| - 1], xs, keep);
    if j == |s| - 1 {
      assert s'[i] == a;
      var k :| 0 <= k < |r'| && r'[k] == a;
      var r := Sift(s, xs, keep);
      assert r[k] == a && r[|r| - 1] == b;
    } else {
      assert s'[i] == a && s'[j] == b;
      SiftBefore(s', xs, keep, a, b);
      var k, l :| 0 <= k < l < |r'| && r'[k] == a && r'[l] == b;
      var r := Sift(s, xs, keep);
      assert r[k] == a && r[l] == b;
    }
  }

  lemma {:induction false} BeforeSift<T(!new)>(s: seq<T>, xs: set<T>, keep: bool, a: T, b: T)
    requires Before(Sift(s, xs, keep), a, b)
    ensures Before(s, a, b)
  {
    var s', r' := s[..|s| - 1], Sift(s[..|s| - 1], xs, keep);
    var r, last := Sift(s, xs, keep), s[|s| - 1];
    var i, j :| 0 <= i < j < |r| && r[i] == a && r[j] == b;
    if j < |r'| {
      assert r'[i] == a && r'[j] == b;
      BeforeSift(s', xs, keep, a, b);
      var k, l :| 0 <= k < l < |s'| && s'[k] == a && s'[l] == b;
      assert s[k] == a && s[l] == b;
    } else {
      assert r'[i] in s';
      var k :| 0 <= k < |s'| && s'[k] == a;
      assert s[k] == a && last == b;
    }
  }

  // ----- multiplicity -----

  lemma CountConcat<T>(a: seq<T>, b: seq<T>, x: T)
    ensures multiset(a + b)[x] == multiset(a)[x] + multiset(b)[x]
  {
  }

  lemma {:induction false} CountPositions<T>(s: seq<T>, i: int, j: int)
    requires 0 <= i < j < |s| && s[i] == s[j]
    ensures multiset(s)[s[i]] >= 2
  {
    assert s == s[..j] + s[j..];
    assert s[..j][i] in multiset(s[..j]) && s[j..][0] in multiset(s[j..]);
  }

  lemma {:induction false} NoDupCount<T(!new)>(s: seq<T>)
    ensures NoDup(s) <==> forall x :: multiset(s)[x] <= 1
  {
    if NoDup(s) {
      forall x ensures multiset(s)[x] <= 1 {
        NoDupCountOne(s, x);
      }
    } else {
      var i, j :| 0 <= i < j < |s| && s[i] == s[j];
      CountPositions(s, i, j);
    }
  }

  lemma {:induction false} NoDupCountOne<T>(s: seq<T>, x: T)
    requires NoDup(s)
    ensures multiset(s)[x] <= 1
  {
    if s != [] {
      var s' := s[..|s| - 1];
      NoDupCountOne(s', x);
      assert s == s' + [s[|s| - 1]];
      if s[|s| - 1] == x {
        assert x !in s';
        assert x !in multiset(s');
      }
    }
  }

  /** Repeat-free lists with the same elements are permutations of each other. */
  lemma SameElemsPermute<T(!new)>(a: seq<T>, b: seq<T>)
    requires NoDup(a) && NoDup(b)
    requires forall x :: x in a <==> x in b
    ensures multiset(a) == multiset(b)
  {
    NoDupCount(a);
    NoDupCount(b);
    forall x ensures multiset(a)[x] == multiset(b)[x] {
      assert x in multiset(a) <==> x in a;
      assert x in multiset(b) <==> x in b;
    }
  }

  lemma NoDupConcat<T(!new)>(a: seq<T>, b: seq<T>)
    requires NoDup(a) && NoDup(b)
    requires forall x :: x in a ==> x !in b
    ensures NoDup(a + b)
  {
    forall i, j | 0 <= i < j < |a + b| ensures (a + b)[i] != (a + b)[j] {
      if i < |a| <= j {
        assert a[i] in a && b[j - |a|] in b;
      }
    }
  }

  lemma InsertParts<T(!new)>(s: seq<T>, i: nat, x: T)
    requires NoDup(s) && x !in s && i <= |s|
    ensures NoDup(s[..i] + [x]) && NoDup(s[i..]) && forall y :: y in s[..i] + [x] ==> y !in s[i..]
    ensures forall y :: y in s <==> y in s[..i] || y in s[i..]
  {
    assert s == s[..i] + s[i..];
    NoDupConcat(s[..i], [x]);
    forall y | y in s[..i] ensures y !in s[i..] {
      var j :| 0 <= j < i && s[j] == y;
      assert forall k :: 0 <= k < |s| - i ==> s[i..][k] == s[i + k];
    }
  }

  lemma InsertWithout<T(!new)>(s: seq<T>, i: nat, x: T)
    requires x !in s && i <= |s|
    ensures Without(InsertAt(s, i, x), {x}) == s
  {
    var a, b := s[..i], s[i..];
    assert s == a + b;
    SiftConcat(a + [x], b, {x}, false);
    SiftSnoc(a, x, {x}, false);
    SiftAll(a, {x}, false);
    SiftAll(b, {x}, false);
    assert a + [] == a;
  }

  /** A new element comes in once, and the others stay as they are. */
  lemma InsertFresh<T(!new)>(s: seq<T>, i: nat, x: T)
    requires NoDup(s) && x !in s && i <= |s|
    ensures NoDup(InsertAt(s, i, x)) && Without(InsertAt(s, i, x), {x}) == s
    ensures forall y :: y in InsertAt(s, i, x) <==> y in s || y == x
  {
    InsertParts(s, i, x);
    NoDupConcat(s[..i] + [x], s[i..]);
    InsertWithout(s, i, x);
  }

  lemma PermutationNoDup<T(!new)>(a: seq<T>, b: seq<T>)
    requires multiset(a) == multiset(b) && NoDup(a)
    ensures NoDup(b) && forall x :: x in a <==> x in b
  {
    NoDupCount(a);
    NoDupCount(b);
    forall x ensures x in a <==> x in b {
      assert x in multiset(a) <==> x in a;
      assert x in multiset(b) <==> x in b;
    }
  }

  lemma {:induction false} TopmostNoDup<T(!new)>(s: seq<T>)
    ensures NoDup(Topmost(s))
    ensures NoDup(s) ==> Topmost(s) == s
  {
    if s != [] {
      var s', last := s[..|s| - 1], s[|s| - 1];
      var low := Without(Topmost(s'), {last});
      TopmostNoDup(s');
      SiftNoDup(Topmost(s'), {last}, false);
      NoDupConcat(low, [last]);
      if NoDup(s) {
        SplitLast(s);
        assert last !in s';
        SiftAll(Topmost(s'), {last}, false);
      }
    }
  }

  // ----- order -----

  lemma AboveConcat<T>(a: seq<T>, b: seq<T>, high: T, low: T)
    requires Above(b, high, low)
    requires high in b || Above(a, high, low)
    ensures Above(a + b, high, low)
  {
    var s := a + b;
    forall i | 0 <= i < |s| && s[i] == low
      ensures exists j :: i < j < |s| && s[j] == high
    {
      if i >= |a| {
        var j :| i - |a| < j < |b| && b[j] == high;
        assert s[j + |a|] == high;
      } else if high in b {
        var j :| 0 <= j < |b| && b[j] == high;
        assert s[j + |a|] == high;
      } else {
        var j :| i < j < |a| && a[j] == high;
        assert s[j] == high;
      }
    }
  }

  lemma {:induction false} AboveWithout<T(!new)>(s: seq<T>, xs: set<T>, high: T, low: T)
    requires Above(s, high, low) && high !in xs && high != low
    ensures Above(Without(s, xs), high, low)
  {
    if s != [] {
      var s', last := s[..|s| - 1], s[|s| - 1];
      assert s == s' + [last];
      var r' := Without(s', xs);
      if last == high {
        assert Without(s, xs) == r' + [high];
        forall i | 0 <= i < |r'| + 1 && (r' + [high])[i] == low
          ensures exists j :: i < j < |r'| + 1 && (r' + [high])[j] == high
        {
          assert (r' + [high])[|r'|] == high;
        }
      } else {
        forall i | 0 <= i < |s'| && s'[i] == low
          ensures exists j :: i < j < |s'| && s'[j] == high
        {
          var j :| i < j < |s| && s[j] == high;
          assert s'[j] == high;
        }
        AboveWithout(s', xs, high, low);
        if last !in xs {
          assert last != low;
          AboveSnoc(r', last, high, low);
        }
      }
    }
  }

  lemma AboveSnoc<T>(s: seq<T>, x: T, high: T, low: T)
    requires Above(s, high, low) && x != low
    ensures Above(s + [x], high, low)
  {
    AboveConcat(s, [x], high, low);
  }

  lemma BeforeAt<T>(r: seq<T>, i: int, j: int)
    requires 0 <= i < j < |r|
    ensures Before(r, r[i], r[j])
  {
  }

  lemma BeforeAcross<T>(a: seq<T>, b: seq<T>, x: T, y: T)
    requires x in a && y in b
    ensures Before(a + b, x, y)
  {
    var i :| 0 <= i < |a| && a[i] == x;
    var j :| 0 <= j < |b| && b[j] == y;
    assert (a + b)[i] == x && (a + b)[|a| + j] == y;
  }

  lemma BeforeWithin<T>(a: seq<T>, b: seq<T>, c: seq<T>, x: T, y: T)
    requires Before(b, x, y)
    ensures Before(a + b + c, x, y)
  {
    var i, j :| 0 <= i < j < |b| && b[i] == x && b[j] == y;
    assert (a + b + c)[|a| + i] == x && (a + b + c)[|a| + j] == y;
  }

  lemma BeforeTrans<T>(u: seq<T>, a: T, b: T, c: T)
    requires NoDup(u) && Before(u, a, b) && Before(u, b, c)
    ensures Before(u, a, c)
  {
    var i, j :| 0 <= i < j < |u| && u[i] == a && u[j] == b;
    var k, l :| 0 <= k < l < |u| && u[k] == b && u[l] == c;
    BeforeAt(u, i, l);
  }

  lemma BeforeAsym<T>(u: seq<T>, a: T, b: T)
    requires NoDup(u) && Before(u, a, b)
    ensures !Before(u, b, a)
  {
    if Before(u, b, a) {
      BeforeTrans(u, a, b, a);
    }
  }
}
