/** Re-attaching transient windows above their leads (Workspace::constrainedStackingOrder,
    the lambdas child_restack and append_children).

    `Pile` is the closed form of the recursion. All results here hold for every lead graph
    without cycles, also when a window has several leads, unless `Tidy` is asked for. */
module Transients {
  import opened Seqs
  import opened Windows

  // ----- ensureStackingOrder -----

  /** The windows of `list` that `stack` does not hold, then the others as `stack` orders them. */
  function InStackingOrder(stack: seq<Window>, list: seq<Window>): (r: seq<Window>)
    ensures forall x :: x in r <==> x in list
  {
    Without(list, Elems(stack)) + Topmost(Only(stack, Elems(list)))
  }

  lemma InStackingOrderNoDup(stack: seq<Window>, list: seq<Window>)
    requires NoDup(list)
    ensures NoDup(InStackingOrder(stack, list))
  {
    SiftNoDup(list, Elems(stack), false);
    TopmostNoDup(Only(stack, Elems(list)));
    NoDupConcat(Without(list, Elems(stack)), Topmost(Only(stack, Elems(list))));
  }

  /** One turn of the loop: an element met again moves to the end. */
  lemma InStackingOrderStep(stack: seq<Window>, x: Window, list: seq<Window>)
    ensures var r := InStackingOrder(stack, list);
            InStackingOrder(stack + [x], list) == if x in list then Without(r, {x}) + [x] else r
  {
    var s' := stack + [x];
    assert s'[..|s'| - 1] == stack;
    var known := Only(stack, Elems(list));
    assert Elems(s') == Elems(stack) + {x};
    if x in list {
      assert Only(s', Elems(list)) == known + [x];
      assert (known + [x])[..|known + [x]| - 1] == known;
      SiftConcat(Without(list, Elems(stack)), Topmost(known), {x}, false);
      SiftSift(list, Elems(stack), false, {x}, false, Elems(s'), false);
    } else {
      assert Only(s', Elems(list)) == known;
      SiftAgree(list, Elems(stack), false, Elems(s'), false);
    }
  }

  /** When `stack` holds all of `list`, both free of repeats, only the order of `stack` counts. */
  lemma InStackingOrderKnown(stack: seq<Window>, list: seq<Window>)
    requires NoDup(stack) && forall x :: x in list ==> x in stack
    ensures InStackingOrder(stack, list) == Only(stack, Elems(list))
  {
    SiftNone(list, Elems(stack), false);
    SiftNoDup(stack, Elems(list), true);
    TopmostNoDup(Only(stack, Elems(list)));
    assert [] + Only(stack, Elems(list)) == Only(stack, Elems(list));
  }

  /** Windows of `list` come as `stack` has them; those that `stack` does not hold come first. */
  lemma InStackingOrderFollows(stack: seq<Window>, list: seq<Window>, a: Window, b: Window)
    requires NoDup(stack) && a in list && b in list && b in stack
    requires a !in stack || Before(stack, a, b)
    ensures Before(InStackingOrder(stack, list), a, b)
  {
    var first, known := Without(list, Elems(stack)), Only(stack, Elems(list));
    SiftNoDup(stack, Elems(list), true);
    TopmostNoDup(known);
    if a in stack {
      SiftBefore(stack, Elems(list), true, a, b);
      BeforeWithin(first, known, [], a, b);
      assert first + known + [] == first + known;
    } else {
      BeforeAcross(first, known, a, b);
    }
  }

  method EnsureStackingOrderInList(stack: seq<Window>, list: seq<Window>) returns (result: seq<Window>)
    ensures result == InStackingOrder(stack, list)
  {
    if |list| == 0 {
      InStackingOrderEmpty(stack);
      return [];
    }
    if |list| < 2 {
      InStackingOrderNoDup(stack, list);
      SingleOrder(InStackingOrder(stack, list), list[0]);
      return [list[0]];
    }
    result := list;
    InStackingOrderUnknown(list);
    for i := 0 to |stack|
      invariant result == InStackingOrder(stack[..i], list)
    {
      var c := stack[i];
      InStackingOrderStep(stack[..i], c, list);
      assert stack[..i + 1] == stack[..i] + [c];
      if c in result {
        result := Without(result, {c});
        result := result + [c];
      }
    }
    assert stack[..|stack|] == stack;
  }

  lemma InStackingOrderEmpty(stack: seq<Window>)
    ensures InStackingOrder(stack, []) == []
  {
    SiftNone(stack, {}, true);
    assert Elems<Window>([]) == {};
  }

  lemma InStackingOrderUnknown(list: seq<Window>)
    ensures InStackingOrder([], list) == list
  {
    assert Elems<Window>([]) == {};
    SiftAll(list, {}, false);
    assert list + [] == list;
  }

  lemma SingleOrder(s: seq<Window>, x: Window)
    requires NoDup(s) && forall y :: y in s <==> y == x
    ensures s == [x]
  {
    SameElemsPermute(s, [x]);
    assert |multiset(s)| == |s|;
    assert s[0] in s;
  }

  // ----- the pile above a window -----

  /** The restacked children of `w`, ordered by the previous stacking order. */
  function NextUp(s: Scene, stack: seq<Window>, w: Window): (r: seq<Window>)
    ensures forall c :: c in r <==> c in Restacked(s, w)
  {
    Only(InStackingOrder(stack, Children(s, w)), Restacked(s, w))
  }

  lemma NextUpNoDup(s: Scene, stack: seq<Window>, w: Window)
    ensures NoDup(NextUp(s, stack, w))
  {
    assert Linked(s, w);
    InStackingOrderNoDup(stack, Children(s, w));
    SiftNoDup(InStackingOrder(stack, Children(s, w)), Restacked(s, w), true);
  }

  /** One more than the greatest rank in `ws`. */
  ghost function Height(s: Scene, ws: seq<Window>): (h: nat)
    ensures forall w :: w in ws ==> s.rank(w) < h
    ensures h > 0 ==> exists w :: w in ws && h == s.rank(w) + 1
  {
    if ws == [] then 0
    else
      var h, r := Height(s, ws[..|ws| - 1]), s.rank(ws[|ws| - 1]) + 1;
      if h < r then r else h
  }

  /** What processing the siblings `ws` one after the other leaves behind: each brings along
      the pile of its own restacked children, taking these out of what is there already. */
  function Pile(s: Scene, stack: seq<Window>, ws: seq<Window>): seq<Window>
    decreases Height(s, ws), |ws|
  {
    if ws == [] then []
    else
      var last := ws[|ws| - 1];
      Without(Pile(s, stack, ws[..|ws| - 1]), Restacked(s, last))
      + [last] + Pile(s, stack, NextUp(s, stack, last))
  }

  lemma PileSnoc(s: Scene, stack: seq<Window>, ws: seq<Window>, w: Window)
    ensures Pile(s, stack, ws + [w])
         == Without(Pile(s, stack, ws) + [w], Restacked(s, w)) + Pile(s, stack, NextUp(s, stack, w))
  {
    assert (ws + [w])[..|ws + [w]| - 1] == ws;
    assert w !in Restacked(s, w);
    SiftConcat(Pile(s, stack, ws), [w], Restacked(s, w), false);
    assert Without([w], Restacked(s, w)) == [w];
  }

  lemma OnlySnoc(list: seq<Window>, i: nat, xs: set<Window>)
    requires i < |list|
    ensures Only(list[..i + 1], xs) == if list[i] in xs then Only(list[..i], xs) + [list[i]] else Only(list[..i], xs)
  {
    assert list[..i + 1][..i] == list[..i];
  }

  lemma WithoutAlso(list: seq<Window>, xs: seq<Window>, x: Window)
    ensures Without(Without(list, Elems(xs)), {x}) == Without(list, Elems(xs + [x]))
  {
    assert Elems(xs + [x]) == Elems(xs) + {x};
    SiftSift(list, Elems(xs), false, {x}, false, Elems(xs + [x]), false);
  }

  /** The recursive lambda append_children. */
  method AppendChildren(s: Scene, stack: seq<Window>, window: Window, list: seq<Window>)
    returns (result: seq<Window>)
    ensures result == Without(list, Restacked(s, window)) + Pile(s, stack, NextUp(s, stack, window))
    decreases s.rank(window)
  {
    var children := Children(s, window);
    if |children| == 0 {
      SiftAll(list, Restacked(s, window), false);
      InStackingOrderEmpty(stack);
      return list;
    }
    var stackedNext := EnsureStackingOrderInList(stack, children);
    result := list;
    var stacked := [];
    ghost var chosen: seq<Window> := [];
    SiftAll(list, {}, false);
    assert Elems(chosen) == {};
    for i := 0 to |stackedNext|
      invariant chosen == Only(stackedNext[..i], Restacked(s, window))
      invariant result == Without(list, Elems(chosen))
      invariant stacked == Pile(s, stack, chosen)
    {
      var child := stackedNext[i];
      assert child in stackedNext;
      OnlySnoc(stackedNext, i, Restacked(s, window));
      if !ChildRestack(s, window, child) {
        continue;
      }
      WithoutAlso(list, chosen, child);
      result := Without(result, {child});
      PileSnoc(s, stack, chosen, child);
      stacked := stacked + [child];
      stacked := AppendChildren(s, stack, child, stacked);
      chosen := chosen + [child];
    }
    assert stackedNext[..|stackedNext|] == stackedNext;
    SiftAgree(list, Elems(chosen), false, Restacked(s, window), false);
    result := result + stacked;
  }

  // ----- which windows a pile holds -----

  /** What `w` reaches is `w` itself and what its restacked children reach. */
  lemma ReachesUnfold(s: Scene, stack: seq<Window>, w: Window, x: Window)
    ensures Reaches(s, w, x) <==> x == w || AnyReaches(s, NextUp(s, stack, w), x)
    ensures AnyReaches(s, NextUp(s, stack, w), x) ==> x != w
    ensures x in Restacked(s, w) ==> AnyReaches(s, NextUp(s, stack, w), x)
  {
    if c :| c in NextUp(s, stack, w) && Reaches(s, c, x) {
      ReachesDown(s, c, x);
    }
    assert Reaches(s, x, x);
  }

  lemma AnyReachesSplit(s: Scene, ws: seq<Window>, x: Window)
    requires ws != []
    ensures AnyReaches(s, ws, x) <==> AnyReaches(s, ws[..|ws| - 1], x) || Reaches(s, ws[|ws| - 1], x)
  {
    SplitLast(ws);
  }

  /** No window is lost and none comes in: the pile holds what its siblings reach. */
  lemma {:induction false} PileElems(s: Scene, stack: seq<Window>, ws: seq<Window>, x: Window)
    ensures x in Pile(s, stack, ws) <==> AnyReaches(s, ws, x)
    decreases Height(s, ws), |ws|
  {
    if ws != [] {
      var front, last := ws[..|ws| - 1], ws[|ws| - 1];
      PileElems(s, stack, front, x);
      PileElems(s, stack, NextUp(s, stack, last), x);
      AnyReachesSplit(s, ws, x);
      ReachesUnfold(s, stack, last, x);
    }
  }

  /** Each window that is to be restacked above a lead stands above that lead. */
  lemma {:induction false} PileAbove(s: Scene, stack: seq<Window>, ws: seq<Window>, lead: Window, child: Window)
    requires child in Restacked(s, lead)
    ensures Above(Pile(s, stack, ws), child, lead)
    decreases Height(s, ws), |ws|
  {
    if ws != [] {
      var front, last := ws[..|ws| - 1], ws[|ws| - 1];
      var rest := Without(Pile(s, stack, front), Restacked(s, last));
      var above := Pile(s, stack, NextUp(s, stack, last));
      PileAbove(s, stack, front, lead, child);
      PileAbove(s, stack, NextUp(s, stack, last), lead, child);
      if child in Restacked(s, last) {
        ReachesUnfold(s, stack, last, child);
        PileElems(s, stack, NextUp(s, stack, last), child);
      } else {
        AboveWithout(Pile(s, stack, front), Restacked(s, last), child, lead);
      }
      AboveHead(last, above, child, lead);
      Assoc(rest, [last], above);
      AboveConcat(rest, [last] + above, child, lead);
    }
  }

  lemma AboveHead(x: Window, s: seq<Window>, high: Window, low: Window)
    requires Above(s, high, low) && (x == low ==> high in s)
    ensures Above([x] + s, high, low)
  {
    if x == low {
      var j :| 0 <= j < |s| && s[j] == high;
      assert ([x] + s)[j + 1] == high;
    }
    AboveConcat([x], s, high, low);
  }

  // ----- when no window is repeated -----

  /** Among siblings taken from the top, the first that reaches `x` either has `x` as a restacked
      child of its own, or is the only one that reaches `x`; and the same holds further up. */
  ghost predicate SingleUse(s: Scene, stack: seq<Window>, ws: seq<Window>, x: Window)
    decreases Height(s, ws), |ws|
  {
    ws == [] ||
    var front, last := ws[..|ws| - 1], ws[|ws| - 1];
    if Reaches(s, last, x) then
      && (x in Restacked(s, last) || !AnyReaches(s, front, x))
      && (x == last || SingleUse(s, stack, NextUp(s, stack, last), x))
    else
      SingleUse(s, stack, front, x)
  }

  lemma PileCountStep(s: Scene, stack: seq<Window>, ws: seq<Window>, x: Window)
    requires ws != []
    ensures var last := ws[|ws| - 1];
      multiset(Pile(s, stack, ws))[x]
        == (if x in Restacked(s, last) then 0 else multiset(Pile(s, stack, ws[..|ws| - 1]))[x])
           + (if x == last then 1 else 0) + multiset(Pile(s, stack, NextUp(s, stack, last)))[x]
  {
    var last := ws[|ws| - 1];
    var low := Pile(s, stack, ws[..|ws| - 1]);
    SiftCount(low, Restacked(s, last), false, x);
    CountConcat(Without(low, Restacked(s, last)), [last], x);
    CountConcat(Without(low, Restacked(s, last)) + [last], Pile(s, stack, NextUp(s, stack, last)), x);
  }

  lemma CountIn(r: seq<Window>, x: Window)
    ensures x in r <==> multiset(r)[x] > 0
  {
    assert x in r <==> x in multiset(r);
  }

  lemma {:induction false} PileCount(s: Scene, stack: seq<Window>, ws: seq<Window>, x: Window)
    ensures multiset(Pile(s, stack, ws))[x] <= 1 <==> SingleUse(s, stack, ws, x)
    decreases Height(s, ws), |ws|
  {
    if ws != [] {
      var front, last := ws[..|ws| - 1], ws[|ws| - 1];
      var next := NextUp(s, stack, last);
      PileCount(s, stack, front, x);
      PileCount(s, stack, next, x);
      PileElems(s, stack, front, x);
      PileElems(s, stack, next, x);
      PileCountStep(s, stack, ws, x);
      ReachesUnfold(s, stack, last, x);
      CountIn(Pile(s, stack, front), x);
      CountIn(Pile(s, stack, next), x);
    }
  }

  /** The exact condition under which the pile repeats no window. */
  lemma PileNoDup(s: Scene, stack: seq<Window>, ws: seq<Window>)
    ensures NoDup(Pile(s, stack, ws)) <==> forall x :: SingleUse(s, stack, ws, x)
  {
    var pile := Pile(s, stack, ws);
    NoDupCount(pile);
    if x :| !SingleUse(s, stack, ws, x) {
      PileCount(s, stack, ws, x);
    } else {
      forall x ensures multiset(pile)[x] <= 1 {
        PileCount(s, stack, ws, x);
      }
    }
  }
}
