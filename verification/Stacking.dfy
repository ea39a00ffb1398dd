/** Workspace::constrainedStackingOrder as a whole: what the stacking order built from the
    unconstrained one holds, and how it is ordered. */
module Stacking {
  import opened Seqs
  import opened Windows
  import opened Transients
  import opened Trees
  import Fixpoint
  import opened Layers

  /** The windows that find their place by their layer alone, from bottom to top. */
  function RootsOf(s: Scene, u: seq<Window>): seq<Window> {
    Only(Preliminary(s, u), set w | w in u && Loose(s, w))
  }

  function Constrained(s: Scene, u: seq<Window>, stack: seq<Window>): seq<Window> {
    Pile(s, stack, RootsOf(s, u))
  }

  lemma RootsOfElems(s: Scene, u: seq<Window>)
    ensures forall w :: w in RootsOf(s, u) <==> w in u && Loose(s, w)
    ensures NoDup(u) ==> Fixpoint.Roots(s, RootsOf(s, u)) && Siblings(s, RootsOf(s, u))
  {
    PreliminaryPermutes(s, u);
    forall w ensures w in RootsOf(s, u) <==> w in u && Loose(s, w) {
      assert w in multiset(u) <==> w in u;
      assert w in multiset(Preliminary(s, u)) <==> w in Preliminary(s, u);
    }
    if NoDup(u) {
      PermutationNoDup(u, Preliminary(s, u));
      SiftNoDup(Preliminary(s, u), set w | w in u && Loose(s, w), true);
    }
  }

  /** The assertion in the last loop, that no loose window is in the stack yet, cannot fail. */
  method ConstrainedStackingOrder(s: Scene, u: seq<Window>, stackingOrder: seq<Window>)
    returns (stack: seq<Window>)
    requires NoDup(u)
    ensures stack == Constrained(s, u, stackingOrder)
  {
    var preliminary := SortIntoLayers(s, u);
    stack := [];
    ghost var roots: seq<Window> := [];
    ghost var loose := set w | w in u && Loose(s, w);
    PreliminaryPermutes(s, u);
    PermutationNoDup(u, preliminary);
    for i := 0 to |preliminary|
      invariant roots == Only(preliminary[..i], loose)
      invariant stack == Pile(s, stackingOrder, roots)
    {
      var window := preliminary[i];
      OnlySnoc(preliminary, i, loose);
      if exists lead :: lead in Leads(s, window) && ChildRestack(s, lead, window) {
        continue;
      }
      NotYet(s, stackingOrder, roots, window);
      assert window !in stack;
      PileSnoc(s, stackingOrder, roots, window);
      stack := stack + [window];
      stack := AppendChildren(s, stackingOrder, window, stack);
      roots := roots + [window];
    }
    assert preliminary[..|preliminary|] == preliminary;
  }

  lemma NotYet(s: Scene, stack: seq<Window>, roots: seq<Window>, w: Window)
    requires Loose(s, w) && w !in roots
    ensures w !in Pile(s, stack, roots)
  {
    PileElems(s, stack, roots, w);
    if AnyReaches(s, roots, w) {
      var r :| r in roots && Reaches(s, r, w);
      LooseReached(s, r, w);
    }
  }

  // ----- the same windows -----

  /** On every acyclic lead graph no window is lost and none is added. */
  lemma SameWindows(s: Scene, u: seq<Window>, stack: seq<Window>, x: Window)
    requires Closed(s, u)
    ensures x in Constrained(s, u, stack) <==> x in u
  {
    RootsOfElems(s, u);
    PileElems(s, stack, RootsOf(s, u), x);
    if x in u {
      var root := LooseRoot(s, u, x);
    }
    if r :| r in RootsOf(s, u) && Reaches(s, r, x) {
      ReachesInside(s, u, r, x);
    }
  }

  /** The stacking order is a permutation of the unconstrained one exactly when every window has a
      single use among the loose windows, a condition on the lead graph and sibling order. */
  lemma PermutationCondition(s: Scene, u: seq<Window>, stack: seq<Window>)
    requires NoDup(u) && Closed(s, u)
    ensures multiset(Constrained(s, u, stack)) == multiset(u)
       <==> forall x :: SingleUse(s, stack, RootsOf(s, u), x)
  {
    var r := Constrained(s, u, stack);
    PileNoDup(s, stack, RootsOf(s, u));
    if NoDup(r) {
      forall x ensures x in r <==> x in u {
        SameWindows(s, u, stack, x);
      }
      SameElemsPermute(r, u);
    } else if multiset(r) == multiset(u) {
      PermutationNoDup(u, r);
    }
  }

  lemma TidyPermutation(s: Scene, u: seq<Window>, stack: seq<Window>)
    requires NoDup(u) && Closed(s, u) && Tidy(s)
    ensures multiset(Constrained(s, u, stack)) == multiset(u) && NoDup(Constrained(s, u, stack))
  {
    RootsOfElems(s, u);
    forall x ensures SingleUse(s, stack, RootsOf(s, u), x) {
      TidySingleUse(s, stack, RootsOf(s, u), x);
    }
    PermutationCondition(s, u, stack);
    PileNoDup(s, stack, RootsOf(s, u));
  }

  /** A condition on the lead graph alone that makes it one for every previous order. */
  lemma ShallowPermutation(s: Scene, u: seq<Window>, stack: seq<Window>)
    requires NoDup(u) && Closed(s, u) && Shallow(s)
    requires forall a, b :: a in u && b in u && a != b && Loose(s, a) && Loose(s, b) ==> MeetDirectly(s, a, b)
    ensures multiset(Constrained(s, u, stack)) == multiset(u)
  {
    RootsOfElems(s, u);
    forall x ensures SingleUse(s, stack, RootsOf(s, u), x) {
      ShallowSingleUse(s, stack, RootsOf(s, u), x);
    }
    PermutationCondition(s, u, stack);
  }

  /** Beyond tidy graphs the permutation can fail: `root` restacks `a` and `b`, and `a` restacks `b`
      too. Whenever `a` comes before `b` in the previous order, `b` is put on the stack twice. */
  lemma DiamondRepeats(s: Scene, u: seq<Window>, stack: seq<Window>, root: Window, a: Window, b: Window)
    requires Restacked(s, root) == {a, b} && Restacked(s, a) == {b} && Restacked(s, b) == {}
    requires NoDup(u) && forall w :: w in u && Loose(s, w) <==> w == root
    requires NoDup(stack) && Before(stack, a, b)
    requires forall c :: c in Children(s, root) ==> c in stack
    ensures Constrained(s, u, stack) == [root, a, b, b]
  {
    OneRoot(s, u, root);
    DiamondOrder(s, stack, root, a, b);
    NextUpLeaf(s, stack, b);
    NextUpOne(s, stack, a, b);
    DiamondTop(s, stack, a, b);
    PileOne(s, stack, root);
    FourInRow(root, a, b);
  }

  lemma FourInRow(root: Window, a: Window, b: Window)
    ensures [root] + [a, b, b] == [root, a, b, b]
  {
  }

  lemma OneRoot(s: Scene, u: seq<Window>, root: Window)
    requires NoDup(u) && forall w :: w in u && Loose(s, w) <==> w == root
    ensures RootsOf(s, u) == [root]
  {
    RootsOfElems(s, u);
    SingleOrder(RootsOf(s, u), root);
  }

  lemma LeafPile(s: Scene, stack: seq<Window>, w: Window)
    requires NextUp(s, stack, w) == []
    ensures Pile(s, stack, NextUp(s, stack, w)) == [] && Pile(s, stack, [w]) == [w]
  {
    PileOne(s, stack, w);
  }

  lemma DiamondTop(s: Scene, stack: seq<Window>, a: Window, b: Window)
    requires NextUp(s, stack, a) == [b] && NextUp(s, stack, b) == [] && Restacked(s, b) == {}
    ensures Pile(s, stack, [a, b]) == [a, b, b]
  {
    LeafPile(s, stack, b);
    PileOne(s, stack, a);
    PileTwo(s, stack, a, b);
    SiftAll([a] + [b], {}, false);
    ThreeInRow(a, b);
  }

  lemma ThreeInRow(a: Window, b: Window)
    ensures [a] + [b] + [b] + [] == [a, b, b]
  {
  }

  /** Such a scene: window 0 is the lead of 1 and 2, and 1 is a lead of 2 as well. */
  function DiamondAttributes(w: Window): Attributes {
    if w == 0 then PLAIN.(children := [1, 2])
    else if w == 1 then PLAIN.(leads := [0], children := [2])
    else if w == 2 then PLAIN.(leads := [0, 1])
    else PLAIN
  }

  function Diamond(): RawScene {
    RawScene(DiamondAttributes, (a, b) => a == b, g => [], w => if w < 2 then 2 - w else 0, 2)
  }

  lemma DiamondIsScene()
    ensures Acyclic(Diamond())
  {
    forall w ensures Linked(Diamond(), w) {
    }
  }

  lemma DiamondFails()
    ensures Acyclic(Diamond()) && Constrained(Diamond(), [0, 1, 2], [0, 1, 2]) == [0, 1, 2, 2]
  {
    DiamondIsScene();
    var s: Scene := Diamond();
    assert Restacked(s, 0) == {1, 2} && Restacked(s, 1) == {2} && Restacked(s, 2) == {};
    assert Leads(s, 1)[0] == 0 && Leads(s, 2)[0] == 0;
    assert [0, 1, 2][1] == 1 && [0, 1, 2][2] == 2;
    BeforeAt([0, 1, 2], 1, 2);
    DiamondRepeats(s, [0, 1, 2], [0, 1, 2], 0, 1, 2);
  }

  lemma DiamondOrder(s: Scene, stack: seq<Window>, root: Window, a: Window, b: Window)
    requires Restacked(s, root) == {a, b} && b in Restacked(s, a)
    requires NoDup(stack) && Before(stack, a, b)
    requires forall c :: c in Children(s, root) ==> c in stack
    ensures NextUp(s, stack, root) == [a, b] && a != b
  {
    Fixpoint.NextUpAfter(s, stack, root);
    NextUpNoDup(s, stack, root);
    SiftBefore(stack, Restacked(s, root), true, a, b);
    PairOrder(NextUp(s, stack, root), a, b);
  }

  lemma PileOne(s: Scene, stack: seq<Window>, w: Window)
    ensures Pile(s, stack, [w]) == [w] + Pile(s, stack, NextUp(s, stack, w))
  {
    assert [w][..0] == [];
  }

  lemma PileTwo(s: Scene, stack: seq<Window>, a: Window, b: Window)
    ensures Pile(s, stack, [a, b])
         == Without(Pile(s, stack, [a]), Restacked(s, b)) + [b] + Pile(s, stack, NextUp(s, stack, b))
  {
    assert [a, b][..1] == [a];
  }

  lemma NextUpLeaf(s: Scene, stack: seq<Window>, w: Window)
    requires Restacked(s, w) == {}
    ensures NextUp(s, stack, w) == []
  {
    Fixpoint.NextUpEmpty(s, stack, w);
  }

  lemma NextUpOne(s: Scene, stack: seq<Window>, w: Window, c: Window)
    requires Restacked(s, w) == {c}
    ensures NextUp(s, stack, w) == [c]
  {
    NextUpNoDup(s, stack, w);
    SingleOrder(NextUp(s, stack, w), c);
  }

  lemma PairOrder(r: seq<Window>, a: Window, b: Window)
    requires NoDup(r) && Before(r, a, b) && forall x :: x in r <==> x == a || x == b
    ensures r == [a, b]
  {
    SameElemsPermute(r, [a, b]);
    assert |multiset(r)| == |r|;
  }

  // ----- order -----

  /** Every window that is to be restacked above a lead stands above it. */
  lemma TransientsAboveLeads(s: Scene, u: seq<Window>, stack: seq<Window>, lead: Window, child: Window)
    requires child in Restacked(s, lead)
    ensures Above(Constrained(s, u, stack), child, lead)
  {
    PileAbove(s, stack, RootsOf(s, u), lead, child);
  }

  /** On a forest the stacking order is the preorder walks of the trees, by layer. */
  lemma ForestWalk(s: Scene, u: seq<Window>, stack: seq<Window>)
    requires NoDup(u) && Forest(s)
    ensures Constrained(s, u, stack) == Walk(s, stack, RootsOf(s, u))
  {
    RootsOfElems(s, u);
    ForestIsTidy(s);
    PileIsWalk(s, stack, RootsOf(s, u));
  }

  /** On a forest each window has its whole tree directly above it, without gaps. */
  lemma TreeIsBlock(s: Scene, u: seq<Window>, stack: seq<Window>, w: Window)
    returns (below: seq<Window>, tree: seq<Window>, above: seq<Window>)
    requires NoDup(u) && Closed(s, u) && Forest(s) && w in u
    ensures Constrained(s, u, stack) == below + ([w] + tree) + above
    ensures forall x :: x in [w] + tree <==> Reaches(s, w, x)
  {
    ForestWalk(s, u, stack);
    RootsOfElems(s, u);
    var root := LooseRoot(s, u, w);
    below, above := WalkBlock(s, stack, RootsOf(s, u), w);
    tree := Walk(s, stack, NextUp(s, stack, w));
    WalkSingle(s, stack, w);
    forall x ensures x in [w] + tree <==> Reaches(s, w, x) {
      WalkElems(s, stack, NextUp(s, stack, w), x);
    }
  }

  lemma {:induction false} PileRootOrder(s: Scene, stack: seq<Window>, ws: seq<Window>, a: Window, b: Window)
    requires Loose(s, a) && Loose(s, b) && Before(ws, a, b)
    ensures Before(Pile(s, stack, ws), a, b)
    decreases |ws|
  {
    var front, last := ws[..|ws| - 1], ws[|ws| - 1];
    var low := Pile(s, stack, front);
    var rest, top := Without(low, Restacked(s, last)), Pile(s, stack, NextUp(s, stack, last));
    var i, j :| 0 <= i < j < |ws| && ws[i] == a && ws[j] == b;
    LooseMeansUnclaimed(s, a);
    LooseMeansUnclaimed(s, b);
    SplitLast(ws);
    if j == |ws| - 1 {
      assert front[i] == a && Reaches(s, a, a);
      PileElems(s, stack, front, a);
      var k :| 0 <= k < |rest| && rest[k] == a;
      BeforeAt(rest + [last] + top, k, |rest|);
    } else {
      assert front[i] == a && front[j] == b;
      PileRootOrder(s, stack, front, a, b);
      SiftBefore(low, Restacked(s, last), false, a, b);
      var k, l :| 0 <= k < l < |rest| && rest[k] == a && rest[l] == b;
      BeforeAt(rest + [last] + top, k, l);
    }
  }

  /** Loose windows that were given the same layer keep their unconstrained order. */
  lemma SameLayerStable(s: Scene, u: seq<Window>, stack: seq<Window>, i: nat, j: nat)
    requires i < j < |u| && Loose(s, u[i]) && Loose(s, u[j])
    requires LayerAt(s, u, i) == LayerAt(s, u, j)
    ensures Before(Constrained(s, u, stack), u[i], u[j])
  {
    PreliminaryStable(s, u, i, j);
    SiftBefore(Preliminary(s, u), set w | w in u && Loose(s, w), true, u[i], u[j]);
    PileRootOrder(s, stack, RootsOf(s, u), u[i], u[j]);
  }

  /** On a forest the restacked children of a window follow the previous stacking order, whatever
      the unconstrained order says. */
  lemma SiblingsKeepOrder(s: Scene, u: seq<Window>, stack: seq<Window>, w: Window, a: Window, b: Window)
    requires NoDup(u) && Closed(s, u) && Forest(s) && w in u
    requires a in Restacked(s, w) && b in Restacked(s, w) && NoDup(stack) && Before(stack, a, b)
    ensures Before(Constrained(s, u, stack), a, b)
  {
    var ws := RootsOf(s, u);
    RootsOfElems(s, u);
    ForestIsTidy(s);
    Fixpoint.PileIsBlocks(s, stack, ws);
    var root := LooseRoot(s, u, w);
    InStackingOrderFollows(stack, Children(s, w), a, b);
    SiftBefore(InStackingOrder(stack, Children(s, w)), Restacked(s, w), true, a, b);
    if Loose(s, w) {
      var later := {} + Fixpoint.Later(s, ws, w);
      Fixpoint.RootOrder(s, stack, ws, {}, w);
      NotLater(s, ws, w, a);
      NotLater(s, ws, w, b);
      SiftBefore(NextUp(s, stack, w), later, false, a, b);
      BeforeSift(Constrained(s, u, stack), Restacked(s, w) - later, true, a, b);
    } else {
      Fixpoint.InnerOrder(s, stack, ws, {}, w);
      BeforeSift(Constrained(s, u, stack), Restacked(s, w), true, a, b);
    }
  }

  lemma {:induction false} NotLater(s: Scene, ws: seq<Window>, w: Window, c: Window)
    requires Forest(s) && c in Restacked(s, w)
    ensures c !in Fixpoint.Later(s, ws, w)
  {
    if ws != [] && ws[|ws| - 1] != w {
      assert OneLead(s, c);
      NotLater(s, ws[..|ws| - 1], w, c);
    }
  }

  // ----- layers -----

  lemma {:induction false} SiftAscends(s: Scene, r: seq<Window>, xs: set<Window>, keep: bool)
    requires LayersAscend(s, r)
    ensures LayersAscend(s, Sift(r, xs, keep))
  {
    if r != [] {
      var r' := Sift(r[..|r| - 1], xs, keep);
      SiftAscends(s, r[..|r| - 1], xs, keep);
      forall i | 0 <= i < |r'| ensures LayerOf(s, r'[i]) <= LayerOf(s, r[|r| - 1]) {
        assert r'[i] in r';
      }
    }
  }

  /** No window of `u` is restacked above a lead of a higher layer. */
  ghost predicate NoneBelowLead(s: Scene, u: seq<Window>) {
    forall lead, child :: lead in u && child in Restacked(s, lead) ==> LayerOf(s, child) >= LayerOf(s, lead)
  }

  lemma {:induction false} TreeLayer(s: Scene, u: seq<Window>, w: Window, x: Window)
    requires Closed(s, u) && NoneBelowLead(s, u) && w in u && Reaches(s, w, x)
    ensures LayerOf(s, x) == LayerOf(s, w)
    decreases s.rank(w)
  {
    if w != x {
      var c :| c in Restacked(s, w) && Reaches(s, c, x);
      TreeLayer(s, u, c, x);
    }
  }

  lemma {:induction false} PileAscends(s: Scene, u: seq<Window>, stack: seq<Window>, ws: seq<Window>)
    requires Closed(s, u) && NoneBelowLead(s, u) && LayersAscend(s, ws)
    requires forall w :: w in ws ==> w in u
    ensures LayersAscend(s, Pile(s, stack, ws))
    decreases |ws|
  {
    if ws != [] {
      var front, last := ws[..|ws| - 1], ws[|ws| - 1];
      PileAscends(s, u, stack, front);
      var low := Without(Pile(s, stack, front), Restacked(s, last));
      var top := [last] + Pile(s, stack, NextUp(s, stack, last));
      SiftAscends(s, Pile(s, stack, front), Restacked(s, last), false);
      forall x | x in low ensures LayerOf(s, x) <= LayerOf(s, last) {
        PileElems(s, stack, front, x);
        var f :| f in front && Reaches(s, f, x);
        TreeLayer(s, u, f, x);
      }
      forall x | x in top ensures LayerOf(s, x) == LayerOf(s, last) {
        PileElems(s, stack, NextUp(s, stack, last), x);
        assert Reaches(s, last, x);
        TreeLayer(s, u, last, x);
      }
      JoinAscends(s, low, top, LayerOf(s, last));
      Assoc(low, [last], Pile(s, stack, NextUp(s, stack, last)));
    }
  }

  lemma JoinAscends(s: Scene, low: seq<Window>, top: seq<Window>, l: Layer)
    requires LayersAscend(s, low)
    requires forall x :: x in low ==> LayerOf(s, x) <= l
    requires forall x :: x in top ==> LayerOf(s, x) == l
    ensures LayersAscend(s, low + top)
  {
    forall i, j | 0 <= i < j < |low + top|
      ensures LayerOf(s, (low + top)[i]) <= LayerOf(s, (low + top)[j])
    {
      if |low| <= i {
        assert top[i - |low|] in top && top[j - |low|] in top;
      } else if |low| <= j {
        assert low[i] in low && top[j - |low|] in top;
      }
    }
  }

  /** When no window is promoted, the stacking order ascends by layer exactly when no restacked
      transient lies in a lower layer than its lead. */
  lemma LayersAscendCondition(s: Scene, u: seq<Window>, stack: seq<Window>)
    requires Closed(s, u) && NoPromotion(s, u)
    ensures LayersAscend(s, Constrained(s, u, stack)) <==> NoneBelowLead(s, u)
  {
    var r := Constrained(s, u, stack);
    if NoneBelowLead(s, u) {
      BucketsAscend(s, u, LAYER_COUNT);
      SiftAscends(s, Preliminary(s, u), set w | w in u && Loose(s, w), true);
      RootsOfElems(s, u);
      PileAscends(s, u, stack, RootsOf(s, u));
    }
    if LayersAscend(s, r) {
      forall lead, child | lead in u && child in Restacked(s, lead)
        ensures LayerOf(s, child) >= LayerOf(s, lead)
      {
        SameWindows(s, u, stack, lead);
        TransientsAboveLeads(s, u, stack, lead, child);
        var i :| 0 <= i < |r| && r[i] == lead;
        var j :| i < j < |r| && r[j] == child;
      }
    }
  }

  lemma HigherLayerAbove(s: Scene, r: seq<Window>, low: Window, high: Window)
    requires LayersAscend(s, r) && high in r && LayerOf(s, high) > LayerOf(s, low)
    ensures Above(r, high, low)
  {
    var j :| 0 <= j < |r| && r[j] == high;
    forall i | 0 <= i < |r| && r[i] == low ensures i < j < |r| && r[j] == high {
    }
  }

  /** Then every transient that the rules protect, or that lies in a higher layer, ends above
      its lead. */
  lemma ProtectedTransientsAbove(s: Scene, u: seq<Window>, stack: seq<Window>, lead: Window, child: Window)
    requires Closed(s, u) && NoPromotion(s, u) && NoneBelowLead(s, u)
    requires lead in u && child in Children(s, lead)
    requires LayerOf(s, child) > LayerOf(s, lead) || ChildRestack(s, lead, child)
    ensures Above(Constrained(s, u, stack), child, lead)
  {
    if ChildRestack(s, lead, child) {
      TransientsAboveLeads(s, u, stack, lead, child);
    } else {
      LayersAscendCondition(s, u, stack);
      SameWindows(s, u, stack, child);
      HigherLayerAbove(s, Constrained(s, u, stack), lead, child);
    }
  }

  // ----- fixpoint -----

  /** Once ordered, ordering again by the result changes nothing. */
  lemma Idempotent(s: Scene, u: seq<Window>, stack: seq<Window>)
    requires NoDup(u) && Closed(s, u) && Tidy(s)
    ensures var r := Constrained(s, u, stack); Constrained(s, u, r) == r
  {
    var ws := RootsOf(s, u);
    RootsOfElems(s, u);
    forall w, c | AnyReaches(s, ws, w) && c in Children(s, w) ensures AnyReaches(s, ws, c) {
      PileElems(s, stack, ws, w);
      SameWindows(s, u, stack, w);
      SameWindows(s, u, stack, c);
      PileElems(s, stack, ws, c);
    }
    Fixpoint.PileTwice(s, stack, ws);
  }

  // ----- cutting the pile at one of its roots -----

  function Claims(s: Scene, ws: seq<Window>): (r: set<Window>)
    ensures forall x :: x in r <==> exists w :: w in ws && x in Restacked(s, w)
  {
    if ws == [] then {} else Claims(s, ws[..|ws| - 1]) + Restacked(s, ws[|ws| - 1])
  }

  /** What is piled up over `b` does not depend on what lies under it. */
  lemma {:induction false} PileConcat(s: Scene, stack: seq<Window>, a: seq<Window>, b: seq<Window>)
    ensures Pile(s, stack, a + b) == Without(Pile(s, stack, a), Claims(s, b)) + Pile(s, stack, b)
    decreases |b|
  {
    var low := Pile(s, stack, a);
    if b == [] {
      assert a + b == a;
      SiftAll(low, {}, false);
      assert Pile(s, stack, b) == [];
      assert low + [] == low;
    } else {
      var b', last := b[..|b| - 1], b[|b| - 1];
      var r, top := Restacked(s, last), Pile(s, stack, NextUp(s, stack, last));
      PileConcat(s, stack, a, b');
      SplitLast(b);
      Assoc(a, b', [last]);
      PileSnoc(s, stack, a + b', last);
      PileSnoc(s, stack, b', last);
      var kept, mid := Without(low, Claims(s, b')), Pile(s, stack, b');
      SiftConcat(kept + mid, [last], r, false);
      SiftConcat(kept, mid, r, false);
      SiftConcat(mid, [last], r, false);
      SiftSift(low, Claims(s, b'), false, r, false, Claims(s, b), false);
      Regroup3(Without(kept, r), Without(mid, r), Without([last], r), top);
    }
  }

  lemma Regroup3(a: seq<Window>, b: seq<Window>, c: seq<Window>, d: seq<Window>)
    ensures ((a + b) + c) + d == a + ((b + c) + d)
  {
  }
}
