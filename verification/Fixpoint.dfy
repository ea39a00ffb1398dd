/** Restacking is idempotent: although siblings are ordered by the previous stacking order,
    running the re-attachment again on its own result changes nothing (tidy lead graphs). */
module Fixpoint {
  import opened Seqs
  import opened Windows
  import opened Transients
  import opened Trees

  ghost predicate Roots(s: Scene, ws: seq<Window>) {
    NoDup(ws) && forall w :: w in ws ==> Loose(s, w)
  }

  /** Each window of `xs` is a restacked child of a loose window that is not in `ws`. */
  ghost predicate Claimed(s: Scene, ws: seq<Window>, xs: set<Window>) {
    forall x :: x in xs ==> exists q :: q !in ws && Loose(s, q) && x in Restacked(s, q)
  }

  lemma NextUpEmpty(s: Scene, stack: seq<Window>, w: Window)
    requires Restacked(s, w) == {}
    ensures NextUp(s, stack, w) == [] && Walk(s, stack, NextUp(s, stack, w)) == []
  {
    SiftNone(InStackingOrder(stack, Children(s, w)), Restacked(s, w), true);
  }

  // ----- the pile over loose windows, block by block -----

  /** One block per loose window: its walk without the shared children that `xs` or a later
      loose window claims. */
  function Blocks(s: Scene, stack: seq<Window>, ws: seq<Window>, xs: set<Window>): seq<Window>
    decreases |ws|
  {
    if ws == [] then []
    else
      var last := ws[|ws| - 1];
      Blocks(s, stack, ws[..|ws| - 1], xs + Restacked(s, last))
      + ([last] + Walk(s, stack, Without(NextUp(s, stack, last), xs)))
  }

  /** A window under a lead that is not loose is claimed by no one else. */
  lemma UnclaimedInside(s: Scene, v: Window, p: Window, ws: seq<Window>, xs: set<Window>, x: Window)
    requires Tidy(s) && v in Restacked(s, p) && Claimed(s, ws, xs)
    requires Reaches(s, v, x) && x != v
    ensures x !in xs
  {
    if x in xs {
      var q :| q !in ws && Loose(s, q) && x in Restacked(s, q);
      var lead := LastStep(s, v, x);
      LooseMeansUnclaimed(s, v);
      if lead == q {
        LooseReached(s, v, q);
      } else {
        assert TidyAt(s, x);
        LooseReached(s, v, lead);
      }
      assert false;
    }
  }

  lemma ClaimedIsLeaf(s: Scene, v: Window, p: Window, ws: seq<Window>, xs: set<Window>)
    requires Tidy(s) && p in ws && Claimed(s, ws, xs) && v in Restacked(s, p) && v in xs
    ensures Restacked(s, v) == {}
  {
    var q :| q !in ws && Loose(s, q) && v in Restacked(s, q);
    assert TidyAt(s, v);
  }

  lemma UnclaimedAbove(s: Scene, stack: seq<Window>, v: Window, p: Window, ws: seq<Window>, xs: set<Window>)
    requires Tidy(s) && Claimed(s, ws, xs) && v in Restacked(s, p)
    ensures var above := Walk(s, stack, NextUp(s, stack, v)); Without(above, xs) == above
  {
    var above := Walk(s, stack, NextUp(s, stack, v));
    forall x | x in above ensures x !in xs {
      WalkElems(s, stack, NextUp(s, stack, v), x);
      var c :| c in NextUp(s, stack, v) && Reaches(s, c, x);
      ReachesDown(s, c, x);
      UnclaimedInside(s, v, p, ws, xs, x);
    }
    SiftAll(above, xs, false);
  }

  lemma WithoutHead(v: Window, above: seq<Window>, xs: set<Window>)
    requires Without(above, xs) == above && (v in xs ==> above == [])
    ensures Without([v] + above, xs) == if v in xs then [] else [v] + above
  {
    SiftConcat([v], above, xs, false);
  }

  lemma WithoutTree(s: Scene, stack: seq<Window>, v: Window, p: Window, ws: seq<Window>, xs: set<Window>)
    requires Tidy(s) && p in ws && Claimed(s, ws, xs) && v in Restacked(s, p)
    ensures var tree := [v] + Walk(s, stack, NextUp(s, stack, v));
            Without(tree, xs) == if v in xs then [] else tree
  {
    if v in xs {
      ClaimedIsLeaf(s, v, p, ws, xs);
      NextUpEmpty(s, stack, v);
    }
    UnclaimedAbove(s, stack, v, p, ws, xs);
    WithoutHead(v, Walk(s, stack, NextUp(s, stack, v)), xs);
  }

  lemma {:induction false} WithoutWalk(s: Scene, stack: seq<Window>, vs: seq<Window>, p: Window,
                                       ws: seq<Window>, xs: set<Window>)
    requires Tidy(s) && p in ws && Claimed(s, ws, xs)
    requires forall v :: v in vs ==> v in Restacked(s, p)
    ensures Without(Walk(s, stack, vs), xs) == Walk(s, stack, Without(vs, xs))
    decreases |vs|
  {
    if vs == [] {
      assert Walk(s, stack, vs) == [];
    } else {
      var front, v := vs[..|vs| - 1], vs[|vs| - 1];
      WithoutWalk(s, stack, front, p, ws, xs);
      WithoutTree(s, stack, v, p, ws, xs);
      var low, tree := Walk(s, stack, front), [v] + Walk(s, stack, NextUp(s, stack, v));
      SplitLast(vs);
      WalkSnoc(s, stack, front, v);
      SiftConcat(low, tree, xs, false);
      NothingAfter(Without(low, xs));
      if v !in xs {
        WalkSnoc(s, stack, Without(front, xs), v);
      }
    }
  }

  lemma NothingAfter(r: seq<Window>)
    ensures r + [] == r
  {
  }

  lemma {:induction false} PileBlocks(s: Scene, stack: seq<Window>, ws: seq<Window>, xs: set<Window>)
    requires Tidy(s) && Roots(s, ws) && Claimed(s, ws, xs)
    ensures Without(Pile(s, stack, ws), xs) == Blocks(s, stack, ws, xs)
    decreases |ws|
  {
    if ws != [] {
      var front, last := ws[..|ws| - 1], ws[|ws| - 1];
      var r, next := Restacked(s, last), NextUp(s, stack, last);
      var low := Pile(s, stack, front);
      RootsFront(s, ws, xs);
      PileBlocks(s, stack, front, xs + r);
      NextUpParted(s, stack, last);
      PileIsWalk(s, stack, next);
      WithoutWalk(s, stack, next, last, ws, xs);
      assert last !in xs by { LooseMeansUnclaimed(s, last); }
      SiftConcat(Without(low, r) + [last], Walk(s, stack, next), xs, false);
      SiftConcat(Without(low, r), [last], xs, false);
      SiftSift(low, r, false, xs, false, xs + r, false);
      Assoc(Blocks(s, stack, front, xs + r), [last], Walk(s, stack, Without(next, xs)));
    }
  }

  lemma RootsFront(s: Scene, ws: seq<Window>, xs: set<Window>)
    requires Roots(s, ws) && ws != [] && Claimed(s, ws, xs)
    ensures var front, last := ws[..|ws| - 1], ws[|ws| - 1];
            Roots(s, front) && last !in front && Loose(s, last) && Claimed(s, front, xs + Restacked(s, last))
  {
    var front, last := ws[..|ws| - 1], ws[|ws| - 1];
    assert forall w :: w in front ==> w in ws;
    forall x | x in xs + Restacked(s, last)
      ensures exists q :: q !in front && Loose(s, q) && x in Restacked(s, q)
    {
      if x in xs {
        var q :| q !in ws && Loose(s, q) && x in Restacked(s, q);
        assert q !in front;
      } else {
        assert last !in front && Loose(s, last);
      }
    }
  }

  // ----- the order of siblings in the result -----

  /** In the walks over the restacked children of `p`, these keep their order. */
  lemma {:induction false} WalkOrder(s: Scene, stack: seq<Window>, vs: seq<Window>, p: Window)
    requires Tidy(s) && forall v :: v in vs ==> v in Restacked(s, p)
    ensures Only(Walk(s, stack, vs), Restacked(s, p)) == vs
    decreases |vs|
  {
    if vs != [] {
      var front, v := vs[..|vs| - 1], vs[|vs| - 1];
      var above := Walk(s, stack, NextUp(s, stack, v));
      WalkOrder(s, stack, front, p);
      forall x | x in above ensures x !in Restacked(s, p) {
        WalkElems(s, stack, NextUp(s, stack, v), x);
        var c :| c in NextUp(s, stack, v) && Reaches(s, c, x);
        ReachesDown(s, c, x);
        NotSibling(s, v, p, x);
      }
      SiftNone(above, Restacked(s, p), true);
      SiftConcat([v], above, Restacked(s, p), true);
      SiftConcat(Walk(s, stack, front), [v] + above, Restacked(s, p), true);
      SplitLast(vs);
      assert Only([v], Restacked(s, p)) == [v];
      assert [v] + [] == [v];
    }
  }

  lemma NotSibling(s: Scene, v: Window, p: Window, x: Window)
    requires Tidy(s) && v in Restacked(s, p) && Reaches(s, v, x) && x != v
    ensures x !in Restacked(s, p)
  {
    if x in Restacked(s, p) {
      var lead := LastStep(s, v, x);
      ReachesDown(s, v, lead);
      assert TidyAt(s, x);
      LooseReached(s, v, lead);
      LooseMeansUnclaimed(s, v);
      assert false;
    }
  }

  /** A window that reaches a child of `w` above itself reaches `w`, if `w` is not loose. */
  lemma ThroughLead(s: Scene, a: Window, w: Window, x: Window)
    requires Tidy(s) && !Loose(s, w) && x in Restacked(s, w) && Reaches(s, a, x) && a != x
    ensures Reaches(s, a, w)
  {
    var lead := LastStep(s, a, x);
    OnlyLead(s, w, lead, x);
  }

  /** Children of a window that is not loose keep their order in the walk that holds it. */
  lemma {:induction false} WalkOrderInside(s: Scene, stack: seq<Window>, vs: seq<Window>, p: Window, w: Window)
    requires Tidy(s) && Siblings(s, vs) && forall v :: v in vs ==> v in Restacked(s, p)
    requires !Loose(s, w) && AnyReaches(s, vs, w)
    ensures Only(Walk(s, stack, vs), Restacked(s, w)) == NextUp(s, stack, w)
    decreases Height(s, vs), |vs|
  {
    var front, v := vs[..|vs| - 1], vs[|vs| - 1];
    var low, above := Walk(s, stack, front), Walk(s, stack, NextUp(s, stack, v));
    SiblingsFront(s, vs);
    SplitLast(vs);
    SiftConcat([v], above, Restacked(s, w), true);
    SiftConcat(low, [v] + above, Restacked(s, w), true);
    if Reaches(s, v, w) {
      forall x | x in low ensures x !in Restacked(s, w) {
        if x in Restacked(s, w) {
          WalkElems(s, stack, front, x);
          var f :| f in front && Reaches(s, f, x);
          MeetingChild(s, vs, f, v, w, x);
        }
      }
      SiftNone(low, Restacked(s, w), true);
      ReachesDown(s, v, w);
      assert v !in Restacked(s, w);
      assert Only([v], Restacked(s, w)) == [];
      if v == w {
        WalkOrder(s, stack, NextUp(s, stack, w), w);
      } else {
        assert AnyReaches(s, NextUp(s, stack, v), w);
        NextUpSiblings(s, stack, v);
        WalkOrderInside(s, stack, NextUp(s, stack, v), v, w);
      }
      Prefixes(Only(above, Restacked(s, w)));
    } else {
      forall x | x in [v] + above ensures x !in Restacked(s, w) {
        if x in Restacked(s, w) {
          AboveIsReached(s, stack, v, x);
          SeparateChild(s, vs, v, p, w, x);
        }
      }
      SiftNone([v] + above, Restacked(s, w), true);
      assert AnyReaches(s, front, w);
      WalkOrderInside(s, stack, front, p, w);
      assert Only(low, Restacked(s, w)) + [] == Only(low, Restacked(s, w));
    }
  }

  lemma Prefixes(r: seq<Window>)
    ensures [] + ([] + r) == r
  {
  }

  lemma AboveIsReached(s: Scene, stack: seq<Window>, v: Window, x: Window)
    requires x in [v] + Walk(s, stack, NextUp(s, stack, v))
    ensures Reaches(s, v, x)
  {
    if x != v {
      WalkElems(s, stack, NextUp(s, stack, v), x);
    }
  }

  /** Two siblings cannot have `w` and a child of `w` above them. */
  lemma MeetingChild(s: Scene, vs: seq<Window>, f: Window, v: Window, w: Window, x: Window)
    requires Tidy(s) && Siblings(s, vs) && f in vs && v in vs && f != v && !Loose(s, w)
    requires x in Restacked(s, w)
    ensures !(Reaches(s, v, w) && Reaches(s, f, x))
  {
    if Reaches(s, v, w) && Reaches(s, f, x) {
      if f == x {
        ReachesChild(s, w, x);
        ReachesTrans(s, v, w, x);
        SiblingsApart(s, vs, f, v);
      } else {
        ThroughLead(s, f, w, x);
        assert TidyAt(s, w);
        SiblingsMeet(s, vs, f, v, w);
      }
      assert false;
    }
  }

  lemma SeparateChild(s: Scene, vs: seq<Window>, v: Window, p: Window, w: Window, x: Window)
    requires Tidy(s) && Siblings(s, vs) && v in vs && v in Restacked(s, p) && !Loose(s, w)
    requires AnyReaches(s, vs, w) && !Reaches(s, v, w) && x in Restacked(s, w)
    ensures !Reaches(s, v, x)
  {
    if Reaches(s, v, x) {
      if x == v {
        var f :| f in vs && Reaches(s, f, w);
        ReachesChild(s, w, x);
        ReachesTrans(s, f, w, x);
        SiblingsApart(s, vs, v, f);
      } else {
        ThroughLead(s, v, w, x);
      }
      assert false;
    }
  }

  // ----- the order of siblings after a whole pass -----

  /** What the loose windows after `w` in `ws` claim. */
  function Later(s: Scene, ws: seq<Window>, w: Window): set<Window> {
    if ws == [] || ws[|ws| - 1] == w then {}
    else Restacked(s, ws[|ws| - 1]) + Later(s, ws[..|ws| - 1], w)
  }

  lemma BlocksElems(s: Scene, stack: seq<Window>, ws: seq<Window>, xs: set<Window>, x: Window)
    requires Tidy(s) && Roots(s, ws) && Claimed(s, ws, xs)
    ensures x in Blocks(s, stack, ws, xs) <==> x !in xs && AnyReaches(s, ws, x)
  {
    PileBlocks(s, stack, ws, xs);
    PileElems(s, stack, ws, x);
  }

  lemma BlockTop(s: Scene, stack: seq<Window>, w: Window, xs: set<Window>, x: Window)
    requires x in [w] + Walk(s, stack, Without(NextUp(s, stack, w), xs))
    ensures Reaches(s, w, x) && (x in Restacked(s, w) ==> x in Without(NextUp(s, stack, w), xs) || !Tidy(s))
  {
    var vs := Without(NextUp(s, stack, w), xs);
    if x != w {
      WalkElems(s, stack, vs, x);
      var c :| c in vs && Reaches(s, c, x);
      if x in Restacked(s, w) && Tidy(s) && x != c {
        NotSibling(s, c, w, x);
      }
    }
  }

  /** A loose window reaches the restacked child of another loose one only as its own child. */
  lemma SharedChild(s: Scene, a: Window, w: Window, x: Window)
    requires Tidy(s) && Loose(s, a) && Loose(s, w) && a != w && x in Restacked(s, w) && Reaches(s, a, x)
    ensures x in Restacked(s, a)
  {
    LooseMeansUnclaimed(s, a);
    var lead := LastStep(s, a, x);
    if lead == w {
      LooseReached(s, a, w);
    } else {
      assert TidyAt(s, x);
      LooseReached(s, a, lead);
    }
  }

  /** The children of a loose window that no later one claims keep their order. */
  lemma {:induction false} RootOrder(s: Scene, stack: seq<Window>, ws: seq<Window>, xs: set<Window>, w: Window)
    requires Tidy(s) && Roots(s, ws) && Claimed(s, ws, xs) && w in ws
    ensures Only(Blocks(s, stack, ws, xs), Restacked(s, w) - (xs + Later(s, ws, w)))
         == Without(NextUp(s, stack, w), xs + Later(s, ws, w))
    decreases |ws|
  {
    var front, last := ws[..|ws| - 1], ws[|ws| - 1];
    var r, vs := Restacked(s, last), Without(NextUp(s, stack, last), xs);
    var low, block := Blocks(s, stack, front, xs + r), [last] + Walk(s, stack, vs);
    var ys := Restacked(s, w) - (xs + Later(s, ws, w));
    SplitLast(ws);
    RootsFront(s, ws, xs);
    SiftConcat(low, block, ys, true);
    if w == last {
      assert xs + Later(s, ws, w) == xs;
      forall x | x in low ensures x !in ys {
        BlocksElems(s, stack, front, xs + r, x);
      }
      SiftNone(low, ys, true);
      OwnBlock(s, stack, w, xs);
      assert [] + vs == vs;
    } else {
      RootOrder(s, stack, front, xs + r, w);
      assert xs + Later(s, ws, w) == (xs + r) + Later(s, front, w);
      forall x | x in block ensures x !in ys {
        BlockTop(s, stack, last, xs, x);
        if x in ys {
          SharedChild(s, last, w, x);
        }
      }
      SiftNone(block, ys, true);
      NothingAfter(Only(low, ys));
    }
  }

  lemma OwnBlock(s: Scene, stack: seq<Window>, w: Window, xs: set<Window>)
    requires Tidy(s)
    ensures var vs := Without(NextUp(s, stack, w), xs);
            Only([w] + Walk(s, stack, vs), Restacked(s, w) - xs) == vs
  {
    var vs := Without(NextUp(s, stack, w), xs);
    var walk := Walk(s, stack, vs);
    var ys := Restacked(s, w) - xs;
    SiftConcat([w], walk, ys, true);
    assert Only([w], ys) == [];
    forall x | x in walk && x in Restacked(s, w) ensures x in ys {
      BlockTop(s, stack, w, xs, x);
    }
    SiftAgree(walk, ys, true, Restacked(s, w), true);
    WalkOrder(s, stack, vs, w);
    assert [] + vs == vs;
  }

  /** The restacked children of a window that is not loose keep their order. */
  lemma {:induction false} InnerOrder(s: Scene, stack: seq<Window>, ws: seq<Window>, xs: set<Window>, w: Window)
    requires Tidy(s) && Roots(s, ws) && Claimed(s, ws, xs) && AnyReaches(s, ws, w) && !Loose(s, w)
    requires Restacked(s, w) != {}
    ensures Only(Blocks(s, stack, ws, xs), Restacked(s, w)) == NextUp(s, stack, w)
    decreases |ws|
  {
    var front, last := ws[..|ws| - 1], ws[|ws| - 1];
    var r, vs := Restacked(s, last), Without(NextUp(s, stack, last), xs);
    var low, block := Blocks(s, stack, front, xs + r), [last] + Walk(s, stack, vs);
    var ys := Restacked(s, w);
    SplitLast(ws);
    RootsFront(s, ws, xs);
    SiftConcat(low, block, ys, true);
    if Reaches(s, last, w) {
      forall x | x in low ensures x !in ys {
        BlocksElems(s, stack, front, xs + r, x);
        if x in ys {
          var f :| f in front && Reaches(s, f, x);
          MeetingChild(s, ws, f, last, w, x);
        }
      }
      SiftNone(low, ys, true);
      InnerBlock(s, stack, ws, xs, last, w);
      assert [] + NextUp(s, stack, w) == NextUp(s, stack, w);
    } else {
      forall x | x in block ensures x !in ys {
        BlockTop(s, stack, last, xs, x);
        if x in ys {
          LooseMeansUnclaimed(s, last);
          ThroughLead(s, last, w, x);
        }
      }
      SiftNone(block, ys, true);
      assert AnyReaches(s, front, w);
      InnerOrder(s, stack, front, xs + r, w);
      NothingAfter(Only(low, ys));
    }
  }

  lemma InnerBlock(s: Scene, stack: seq<Window>, ws: seq<Window>, xs: set<Window>, last: Window, w: Window)
    requires Tidy(s) && Roots(s, ws) && Claimed(s, ws, xs) && last in ws
    requires Reaches(s, last, w) && !Loose(s, w) && Restacked(s, w) != {}
    ensures Only([last] + Walk(s, stack, Without(NextUp(s, stack, last), xs)), Restacked(s, w))
         == NextUp(s, stack, w)
  {
    var next := NextUp(s, stack, last);
    var vs := Without(next, xs);
    SiftConcat([last], Walk(s, stack, vs), Restacked(s, w), true);
    LooseMeansUnclaimed(s, last);
    assert Only([last], Restacked(s, w)) == [];
    NextUpNoDup(s, stack, last);
    SiftNoDup(next, xs, false);
    var c :| c in Restacked(s, last) && Reaches(s, c, w);
    if c in xs {
      ClaimedIsLeaf(s, c, last, ws, xs);
    }
    assert AnyReaches(s, vs, w);
    WalkOrderInside(s, stack, vs, last, w);
    assert [] + NextUp(s, stack, w) == NextUp(s, stack, w);
  }

  // ----- two passes -----

  lemma {:induction false} WalkCongruent(s: Scene, stack: seq<Window>, stack': seq<Window>, vs: seq<Window>)
    requires forall w :: AnyReaches(s, vs, w) ==> NextUp(s, stack', w) == NextUp(s, stack, w)
    ensures Walk(s, stack', vs) == Walk(s, stack, vs)
    decreases Height(s, vs), |vs|
  {
    if vs != [] {
      var front, v := vs[..|vs| - 1], vs[|vs| - 1];
      SplitLast(vs);
      forall w | AnyReaches(s, front, w) ensures AnyReaches(s, vs, w) {}
      WalkCongruent(s, stack, stack', front);
      assert Reaches(s, v, v);
      forall w | AnyReaches(s, NextUp(s, stack, v), w) ensures AnyReaches(s, vs, w) {
        assert Reaches(s, v, w);
      }
      WalkCongruent(s, stack, stack', NextUp(s, stack, v));
    }
  }

  /** Under `w`, both previous orders agree on the children that `xs` does not claim. */
  ghost predicate SameKept(s: Scene, stack: seq<Window>, stack': seq<Window>, w: Window, xs: set<Window>) {
    Without(NextUp(s, stack', w), xs) == Without(NextUp(s, stack, w), xs)
  }

  lemma {:induction false} BlocksCongruent(s: Scene, stack: seq<Window>, stack': seq<Window>, ws: seq<Window>,
                                           xs: set<Window>)
    requires Tidy(s) && Roots(s, ws)
    requires forall w :: AnyReaches(s, ws, w) && !Loose(s, w) ==> NextUp(s, stack', w) == NextUp(s, stack, w)
    requires forall w :: w in ws ==> SameKept(s, stack, stack', w, xs + Later(s, ws, w))
    ensures Blocks(s, stack', ws, xs) == Blocks(s, stack, ws, xs)
    decreases |ws|
  {
    if ws != [] {
      var front, last := ws[..|ws| - 1], ws[|ws| - 1];
      var r := Restacked(s, last);
      SplitLast(ws);
      forall w | AnyReaches(s, front, w) ensures AnyReaches(s, ws, w) {}
      forall w | w in front ensures SameKept(s, stack, stack', w, xs + r + Later(s, front, w)) {
        assert xs + Later(s, ws, w) == xs + r + Later(s, front, w);
      }
      BlocksCongruent(s, stack, stack', front, xs + r);
      assert SameKept(s, stack, stack', last, xs + Later(s, ws, last)) && xs + Later(s, ws, last) == xs;
      var vs := Without(NextUp(s, stack, last), xs);
      forall w | AnyReaches(s, vs, w) ensures NextUp(s, stack', w) == NextUp(s, stack, w) {
        var c :| c in vs && Reaches(s, c, w);
        assert Reaches(s, last, w);
        LooseMeansUnclaimed(s, c);
        if Loose(s, w) {
          LooseReached(s, c, w);
        }
      }
      WalkCongruent(s, stack, stack', vs);
    }
  }

  /** Ordering the restacked children by the outcome of a pass. */
  lemma NextUpAfter(s: Scene, p: seq<Window>, w: Window)
    requires NoDup(p) && forall c :: c in Children(s, w) ==> c in p
    ensures NextUp(s, p, w) == Only(p, Restacked(s, w))
  {
    InStackingOrderKnown(p, Children(s, w));
    SiftSift(p, Elems(Children(s, w)), true, Restacked(s, w), true, Restacked(s, w), true);
  }

  /** A second pass over the same loose windows, ordering siblings by the first, repeats it. */
  lemma PileTwice(s: Scene, stack: seq<Window>, ws: seq<Window>)
    requires Tidy(s) && Roots(s, ws)
    requires forall w, c :: AnyReaches(s, ws, w) && c in Children(s, w) ==> AnyReaches(s, ws, c)
    ensures var p := Pile(s, stack, ws); Pile(s, p, ws) == p
  {
    var p := Pile(s, stack, ws);
    assert Siblings(s, ws);
    TidyPileNoDup(s, stack, ws);
    PileIsBlocks(s, stack, ws);
    PileIsBlocks(s, p, ws);
    forall w | AnyReaches(s, ws, w) ensures NextUp(s, p, w) == Only(p, Restacked(s, w)) {
      forall c | c in Children(s, w) ensures c in p {
        PileElems(s, stack, ws, c);
      }
      NextUpAfter(s, p, w);
    }
    forall w | AnyReaches(s, ws, w) && !Loose(s, w) ensures NextUp(s, p, w) == NextUp(s, stack, w) {
      if Restacked(s, w) == {} {
        NextUpEmpty(s, p, w);
        NextUpEmpty(s, stack, w);
      } else {
        InnerOrder(s, stack, ws, {}, w);
      }
    }
    forall w | w in ws ensures SameKept(s, stack, p, w, {} + Later(s, ws, w)) {
      assert Reaches(s, w, w);
      var xs := {} + Later(s, ws, w);
      RootOrder(s, stack, ws, {}, w);
      SiftSift(p, Restacked(s, w), true, xs, false, Restacked(s, w) - xs, true);
    }
    BlocksCongruent(s, stack, p, ws, {});
  }

  lemma PileIsBlocks(s: Scene, stack: seq<Window>, ws: seq<Window>)
    requires Tidy(s) && Roots(s, ws)
    ensures Pile(s, stack, ws) == Blocks(s, stack, ws, {})
  {
    PileBlocks(s, stack, ws, {});
    SiftAll(Pile(s, stack, ws), {}, false);
  }
}
