/** Lead graphs on which re-attaching transients is well behaved: trees of transients, where in
    addition a window without restacked children may be shared by several loose windows. */
module Trees {
  import opened Seqs
  import opened Windows
  import opened Transients

  /** At most one lead restacks `x`. */
  ghost predicate OneLead(s: Scene, x: Window) {
    forall a, b :: x in Restacked(s, a) && x in Restacked(s, b) ==> a == b
  }

  ghost predicate Forest(s: Scene) {
    forall x :: OneLead(s, x)
  }

  /** If several leads restack `x`, these are loose and `x` has no restacked children. */
  ghost predicate TidyAt(s: Scene, x: Window) {
    forall a, b :: x in Restacked(s, a) && x in Restacked(s, b) && a != b ==>
      Loose(s, a) && Loose(s, b) && Restacked(s, x) == {}
  }

  ghost predicate Tidy(s: Scene) {
    forall x :: TidyAt(s, x)
  }

  lemma ForestIsTidy(s: Scene)
    requires Forest(s)
    ensures Tidy(s)
  {
    forall x ensures TidyAt(s, x) {
      assert OneLead(s, x);
    }
  }

  lemma Shared(s: Scene, x: Window, a: Window, b: Window)
    requires Tidy(s) && x in Restacked(s, a) && x in Restacked(s, b) && a != b
    ensures Loose(s, a) && Loose(s, b) && Restacked(s, x) == {}
  {
    assert TidyAt(s, x);
  }

  /** On a tidy graph a window restacked by a lead that is not loose has no other such lead. */
  lemma OnlyLead(s: Scene, w: Window, lead: Window, x: Window)
    requires Tidy(s) && x in Restacked(s, w) && x in Restacked(s, lead)
    requires !Loose(s, w) || !Loose(s, lead) || Restacked(s, x) != {}
    ensures lead == w
  {
    assert TidyAt(s, x);
  }

  /** Loose windows, or children of one lead. */
  ghost predicate Siblings(s: Scene, ws: seq<Window>) {
    NoDup(ws) &&
    ((forall w :: w in ws ==> Loose(s, w)) || (exists p :: forall w :: w in ws ==> w in Restacked(s, p)))
  }

  lemma NextUpSiblings(s: Scene, stack: seq<Window>, w: Window)
    ensures Siblings(s, NextUp(s, stack, w))
  {
    NextUpNoDup(s, stack, w);
  }

  lemma SiblingsFront(s: Scene, ws: seq<Window>)
    requires Siblings(s, ws) && ws != []
    ensures Siblings(s, ws[..|ws| - 1]) && ws[|ws| - 1] !in ws[..|ws| - 1]
  {
    var front := ws[..|ws| - 1];
    assert forall w :: w in front ==> w in ws;
    if p :| forall w :: w in ws ==> w in Restacked(s, p) {
      assert forall w :: w in front ==> w in Restacked(s, p);
    }
  }

  /** No sibling stands above another one. */
  lemma SiblingsApart(s: Scene, ws: seq<Window>, a: Window, b: Window)
    requires Tidy(s) && Siblings(s, ws) && a in ws && b in ws && a != b
    ensures !Reaches(s, b, a)
  {
    if Reaches(s, b, a) {
      var lead := LastStep(s, b, a);
      LooseMeansUnclaimed(s, a);
      var p :| forall w :: w in ws ==> w in Restacked(s, p);
      ReachesDown(s, b, lead);
      Shared(s, a, lead, p);
      LooseReached(s, b, lead);
      LooseMeansUnclaimed(s, b);
      assert false;
    }
  }

  /** Siblings have no window in common above them but shared children. */
  lemma {:induction false} SiblingsMeet(s: Scene, ws: seq<Window>, a: Window, b: Window, x: Window)
    requires Tidy(s) && Siblings(s, ws) && a in ws && b in ws && a != b
    requires Reaches(s, a, x) && Reaches(s, b, x)
    ensures x in Restacked(s, a) && x in Restacked(s, b) && Loose(s, a)
    decreases s.top - s.rank(x)
  {
    SiblingsApart(s, ws, a, b);
    SiblingsApart(s, ws, b, a);
    var la := LastStep(s, a, x);
    var lb := LastStep(s, b, x);
    if la == lb {
      Family(s, la, x);
      SiblingsMeet(s, ws, a, b, la);
      Shared(s, la, a, b);
      assert false;
    } else {
      Shared(s, x, la, lb);
      LooseReached(s, a, la);
      LooseReached(s, b, lb);
    }
  }

  // ----- the previous order does not matter -----

  /** What `a` and `b` both reach, `a` restacks itself. */
  ghost predicate MeetDirectly(s: Scene, a: Window, b: Window) {
    forall x :: Reaches(s, a, x) && Reaches(s, b, x) ==> x in Restacked(s, a)
  }

  ghost predicate ShallowAt(s: Scene, p: Window) {
    forall a, b :: a in Restacked(s, p) && b in Restacked(s, p) && a != b ==> MeetDirectly(s, a, b)
  }

  /** What two restacked children of one lead both reach, both of them restack. */
  ghost predicate Shallow(s: Scene) {
    forall p :: ShallowAt(s, p)
  }

  lemma {:induction false} ShallowSingleUse(s: Scene, stack: seq<Window>, ws: seq<Window>, x: Window)
    requires Shallow(s) && NoDup(ws)
    requires forall a, b :: a in ws && b in ws && a != b ==> MeetDirectly(s, a, b)
    ensures SingleUse(s, stack, ws, x)
    decreases Height(s, ws), |ws|
  {
    if ws != [] {
      var front, last := ws[..|ws| - 1], ws[|ws| - 1];
      if !Reaches(s, last, x) {
        ShallowSingleUse(s, stack, front, x);
      } else {
        if f :| f in front && Reaches(s, f, x) {
          assert MeetDirectly(s, last, f);
        }
        var next := NextUp(s, stack, last);
        NextUpNoDup(s, stack, last);
        assert ShallowAt(s, last);
        ShallowSingleUse(s, stack, next, x);
      }
    }
  }

  lemma PairOnTop(list: seq<Window>, a: Window, b: Window)
    requires a in list && b in list && a != b
    ensures InStackingOrder([b, a], list) == Without(list, {a, b}) + [b, a]
  {
    assert Elems([b, a]) == {a, b};
    SiftAll([b, a], Elems(list), true);
    TopmostNoDup([b, a]);
  }

  /** Two restacked children of `p`, moved to the top of the previous order. */
  lemma TwoOnTop(s: Scene, p: Window, a: Window, b: Window) returns (low: seq<Window>)
    requires a in Restacked(s, p) && b in Restacked(s, p) && a != b
    ensures NextUp(s, [b, a], p) == low + [b] + [a]
  {
    PairOnTop(Children(s, p), a, b);
    var rest := Without(Children(s, p), {a, b});
    SiftConcat(rest, [b, a], Restacked(s, p), true);
    SiftAll([b, a], Restacked(s, p), true);
    low := Only(rest, Restacked(s, p));
    Assoc(low, [b], [a]);
  }

  lemma PiledTwice(s: Scene, stack: seq<Window>, ws: seq<Window>, x: Window)
    requires ws != [] && x !in Restacked(s, ws[|ws| - 1])
    requires AnyReaches(s, ws[..|ws| - 1], x) && Reaches(s, ws[|ws| - 1], x)
    ensures multiset(Pile(s, stack, ws))[x] >= 2
  {
    var front, last := ws[..|ws| - 1], ws[|ws| - 1];
    PileCountStep(s, stack, ws, x);
    PileElems(s, stack, front, x);
    CountIn(Pile(s, stack, front), x);
    ReachesUnfold(s, stack, last, x);
    PileElems(s, stack, NextUp(s, stack, last), x);
    CountIn(Pile(s, stack, NextUp(s, stack, last)), x);
  }

  /** If `a` does not restack `x`, then `a` piled up after `b` puts `x` on the pile again. */
  lemma MeetTwice(s: Scene, p: Window, a: Window, b: Window, x: Window)
    requires a in Restacked(s, p) && b in Restacked(s, p) && a != b
    requires Reaches(s, a, x) && Reaches(s, b, x) && x !in Restacked(s, a)
    ensures !NoDup(Pile(s, [b, a], [p]))
  {
    var stack := [b, a];
    var low := TwoOnTop(s, p, a, b);
    var next := NextUp(s, stack, p);
    assert next[..|next| - 1] == low + [b] && (low + [b])[|low|] == b;
    PiledTwice(s, stack, next, x);
    assert [p][..0] == [];
    PileCountStep(s, stack, [p], x);
    NoDupCount(Pile(s, stack, [p]));
  }

  /** For the tree of any window and any previous order the pile repeats no window exactly on shallow
      lead graphs. */
  lemma ShallowCondition(s: Scene)
    ensures Shallow(s) <==> forall w, stack :: NoDup(Pile(s, stack, [w]))
  {
    if Shallow(s) {
      forall w, stack ensures NoDup(Pile(s, stack, [w])) {
        forall x ensures SingleUse(s, stack, [w], x) {
          ShallowSingleUse(s, stack, [w], x);
        }
        PileNoDup(s, stack, [w]);
      }
    } else {
      var p :| !ShallowAt(s, p);
      var a, b :| a in Restacked(s, p) && b in Restacked(s, p) && a != b && !MeetDirectly(s, a, b);
      var x :| Reaches(s, a, x) && Reaches(s, b, x) && x !in Restacked(s, a);
      MeetTwice(s, p, a, b, x);
    }
  }

  lemma TidyMeetsDirectly(s: Scene, ws: seq<Window>, a: Window, b: Window)
    requires Tidy(s) && Siblings(s, ws) && a in ws && b in ws && a != b
    ensures MeetDirectly(s, a, b)
  {
    forall x | Reaches(s, a, x) && Reaches(s, b, x) ensures x in Restacked(s, a) {
      SiblingsMeet(s, ws, a, b, x);
    }
  }

  lemma TidyIsShallow(s: Scene)
    requires Tidy(s)
    ensures Shallow(s)
  {
    forall p, a, b | a in Restacked(s, p) && b in Restacked(s, p) && a != b ensures MeetDirectly(s, a, b) {
      NextUpSiblings(s, [], p);
      TidyMeetsDirectly(s, NextUp(s, [], p), a, b);
    }
  }

  /** On a tidy lead graph the pile above siblings repeats no window. */
  lemma TidySingleUse(s: Scene, stack: seq<Window>, ws: seq<Window>, x: Window)
    requires Tidy(s) && Siblings(s, ws)
    ensures SingleUse(s, stack, ws, x)
  {
    TidyIsShallow(s);
    forall a, b | a in ws && b in ws && a != b ensures MeetDirectly(s, a, b) {
      TidyMeetsDirectly(s, ws, a, b);
    }
    ShallowSingleUse(s, stack, ws, x);
  }

  lemma TidyPileNoDup(s: Scene, stack: seq<Window>, ws: seq<Window>)
    requires Tidy(s) && Siblings(s, ws)
    ensures NoDup(Pile(s, stack, ws))
  {
    forall x ensures SingleUse(s, stack, ws, x) {
      TidySingleUse(s, stack, ws, x);
    }
    PileNoDup(s, stack, ws);
  }

  // ----- preorder walks -----

  /** The preorder walks of the trees of `ws`, one after the other. */
  function Walk(s: Scene, stack: seq<Window>, ws: seq<Window>): seq<Window>
    decreases Height(s, ws), |ws|
  {
    if ws == [] then []
    else
      var last := ws[|ws| - 1];
      Walk(s, stack, ws[..|ws| - 1]) + ([last] + Walk(s, stack, NextUp(s, stack, last)))
  }

  lemma WalkSnoc(s: Scene, stack: seq<Window>, ws: seq<Window>, w: Window)
    ensures Walk(s, stack, ws + [w]) == Walk(s, stack, ws) + ([w] + Walk(s, stack, NextUp(s, stack, w)))
  {
    assert (ws + [w])[..|ws + [w]| - 1] == ws;
  }

  lemma WalkSingle(s: Scene, stack: seq<Window>, w: Window)
    ensures Walk(s, stack, [w]) == [w] + Walk(s, stack, NextUp(s, stack, w))
  {
    WalkSnoc(s, stack, [], w);
    assert [] + [w] == [w];
    assert Walk(s, stack, []) == [];
  }

  lemma {:induction false} WalkConcat(s: Scene, stack: seq<Window>, a: seq<Window>, b: seq<Window>)
    ensures Walk(s, stack, a + b) == Walk(s, stack, a) + Walk(s, stack, b)
    decreases |b|
  {
    if b == [] {
      assert a + b == a;
      assert Walk(s, stack, b) == [];
    } else {
      var b', last := b[..|b| - 1], b[|b| - 1];
      WalkConcat(s, stack, a, b');
      WalkSnoc(s, stack, a + b', last);
      WalkSnoc(s, stack, b', last);
      SplitLast(b);
      Assoc(a, b', [last]);
      Assoc(Walk(s, stack, a), Walk(s, stack, b'), [last] + Walk(s, stack, NextUp(s, stack, last)));
    }
  }

  lemma {:induction false} WalkElems(s: Scene, stack: seq<Window>, ws: seq<Window>, x: Window)
    ensures x in Walk(s, stack, ws) <==> AnyReaches(s, ws, x)
    decreases Height(s, ws), |ws|
  {
    if ws != [] {
      var last := ws[|ws| - 1];
      WalkElems(s, stack, ws[..|ws| - 1], x);
      WalkElems(s, stack, NextUp(s, stack, last), x);
      AnyReachesSplit(s, ws, x);
      ReachesUnfold(s, stack, last, x);
    }
  }

  /** The windows of one tree are next to each other, for the trees at every depth. */
  lemma {:induction false} WalkBlock(s: Scene, stack: seq<Window>, ws: seq<Window>, w: Window)
    returns (below: seq<Window>, above: seq<Window>)
    requires AnyReaches(s, ws, w)
    ensures Walk(s, stack, ws) == below + Walk(s, stack, [w]) + above
    decreases Height(s, ws), |ws|
  {
    var front, last := ws[..|ws| - 1], ws[|ws| - 1];
    SplitLast(ws);
    WalkSnoc(s, stack, front, last);
    var low, top := Walk(s, stack, front), Walk(s, stack, NextUp(s, stack, last));
    if w == last {
      WalkSingle(s, stack, last);
      below, above := low, [];
      assert low + Walk(s, stack, [w]) + [] == low + Walk(s, stack, [w]);
    } else if AnyReaches(s, front, w) {
      var b, a := WalkBlock(s, stack, front, w);
      below, above := b, a + ([last] + top);
      Assoc(b + Walk(s, stack, [w]), a, [last] + top);
    } else {
      assert AnyReaches(s, NextUp(s, stack, last), w);
      var b, a := WalkBlock(s, stack, NextUp(s, stack, last), w);
      below, above := low + ([last] + b), a;
      Regroup(low, [last], b, Walk(s, stack, [w]), a);
    }
  }

  lemma Regroup(a: seq<Window>, b: seq<Window>, c: seq<Window>, d: seq<Window>, e: seq<Window>)
    ensures a + (b + (c + d + e)) == (a + (b + c)) + d + e
  {
  }

  /** All windows have one lead at most that restacks them, or `ws` are children of one lead. */
  ghost predicate Parted(s: Scene, ws: seq<Window>) {
    Forest(s) || exists p :: forall w :: w in ws ==> w in Restacked(s, p)
  }

  lemma PartedFront(s: Scene, ws: seq<Window>)
    requires ws != [] && Parted(s, ws)
    ensures Parted(s, ws[..|ws| - 1])
  {
    if !Forest(s) {
      var p :| forall w :: w in ws ==> w in Restacked(s, p);
      assert forall w :: w in ws[..|ws| - 1] ==> w in Restacked(s, p);
    }
  }

  lemma PartedMeet(s: Scene, ws: seq<Window>, a: Window, b: Window, x: Window)
    requires Tidy(s) && Siblings(s, ws) && Parted(s, ws) && a in ws && b in ws && a != b
    ensures !(Reaches(s, a, x) && Reaches(s, b, x))
  {
    if Reaches(s, a, x) && Reaches(s, b, x) {
      if Forest(s) {
        assert OneLead(s, x);
      }
      SiblingsMeet(s, ws, a, b, x);
      LooseMeansUnclaimed(s, a);
      assert false;
    }
  }

  lemma PartedPile(s: Scene, stack: seq<Window>, ws: seq<Window>)
    requires Tidy(s) && Siblings(s, ws) && Parted(s, ws) && ws != []
    ensures var low := Pile(s, stack, ws[..|ws| - 1]);
            Without(low, Restacked(s, ws[|ws| - 1])) == low
  {
    var front, last := ws[..|ws| - 1], ws[|ws| - 1];
    SiblingsFront(s, ws);
    forall x | x in Pile(s, stack, front) ensures x !in Restacked(s, last) {
      PileElems(s, stack, front, x);
      var f :| f in front && Reaches(s, f, x);
      PartedMeet(s, ws, f, last, x);
      if x in Restacked(s, last) {
        ReachesChild(s, last, x);
      }
    }
    SiftAll(Pile(s, stack, front), Restacked(s, last), false);
  }

  /** A pile whose siblings have nothing in common is a sequence of preorder walks. */
  lemma {:induction false} PileIsWalk(s: Scene, stack: seq<Window>, ws: seq<Window>)
    requires Tidy(s) && Siblings(s, ws) && Parted(s, ws)
    ensures Pile(s, stack, ws) == Walk(s, stack, ws)
    decreases Height(s, ws), |ws|
  {
    if ws != [] {
      var front, last := ws[..|ws| - 1], ws[|ws| - 1];
      SiblingsFront(s, ws);
      PartedFront(s, ws);
      PileIsWalk(s, stack, front);
      NextUpParted(s, stack, last);
      PileIsWalk(s, stack, NextUp(s, stack, last));
      PartedPile(s, stack, ws);
      Assoc(Pile(s, stack, front), [last], Pile(s, stack, NextUp(s, stack, last)));
    }
  }

  lemma NextUpParted(s: Scene, stack: seq<Window>, w: Window)
    ensures Siblings(s, NextUp(s, stack, w)) && Parted(s, NextUp(s, stack, w))
  {
    NextUpSiblings(s, stack, w);
  }
}
