/** The stacking part of Workspace (layers.cpp) as an object whose methods edit the unconstrained
    stacking order in place. Each method is proved to take the steps of module Desk. */
module Workspaces {
  import opened Seqs
  import opened Windows
  import opened Transients
  import opened Stacking
  import opened Restacking
  import opened Desk
  import FocusChains

  class Workspace {
    const scene: Scene
    const focusChain: FocusChains.FocusChain

    var unconstrainedStackingOrder: seq<Window>
    var stackingOrder: seq<Window>
    var blockCount: int
    var blockedPropagatingNewClients: bool
    var forceRestacking: bool
    var mostRecentlyRaised: Option<Window>
    /** The recomputations so far, each with the signal it led to. */
    ghost var updates: seq<Update>

    ghost function View(): State
      reads this
    {
      State(unconstrainedStackingOrder, stackingOrder, blockCount, blockedPropagatingNewClients,
            forceRestacking, mostRecentlyRaised, updates)
    }

    ghost predicate Valid()
      reads this
    {
      NoDup(unconstrainedStackingOrder) && blockCount >= 0
    }

    constructor (scene: Scene, focusChain: FocusChains.FocusChain, windows: seq<Window>)
      requires NoDup(windows)
      ensures Valid() && this.scene == scene && this.focusChain == focusChain
      ensures View() == State(windows, windows, 0, false, false, None, [])
    {
      this.scene, this.focusChain := scene, focusChain;
      unconstrainedStackingOrder, stackingOrder := windows, windows;
      blockCount, blockedPropagatingNewClients, forceRestacking := 0, false, false;
      mostRecentlyRaised := None;
      updates := [];
    }

    method UpdateStackingOrder(propagateNewClients: bool)
      requires Valid()
      modifies this
      ensures Valid() && View() == Refreshed(scene, old(View()), propagateNewClients)
    {
      if blockCount > 0 {
        if propagateNewClients {
          blockedPropagatingNewClients := true;
        }
        return;
      }
      var newStackingOrder := ConstrainedStackingOrder(scene, unconstrainedStackingOrder, stackingOrder);
      var changed := forceRestacking || newStackingOrder != stackingOrder;
      forceRestacking := false;
      stackingOrder := newStackingOrder;
      updates := updates + [Update(changed, propagateNewClients)];
    }

    method BlockStackingUpdates(block: bool)
      requires Valid() && (!block ==> blockCount > 0)
      modifies this
      ensures Valid() && View() == if block then Blocked(old(View())) else Unblocked(scene, old(View()))
    {
      if block {
        if blockCount == 0 {
          blockedPropagatingNewClients := false;
        }
        blockCount := blockCount + 1;
      } else {
        blockCount := blockCount - 1;
        if blockCount == 0 {
          UpdateStackingOrder(blockedPropagatingNewClients);
        }
      }
    }

    method ForceRestackingNow()
      requires Valid()
      modifies this
      ensures Valid() && View() == Apply(scene, old(View()), ForceRestacking)
    {
      forceRestacking := true;
      BlockStackingUpdates(true);
      BlockStackingUpdates(false);
    }

    /** The windows remove_all takes out and push_front puts back at the bottom. */
    method DoLower(w: Window)
      requires Valid()
      modifies `unconstrainedStackingOrder
      ensures Valid() && unconstrainedStackingOrder == ToBottom(old(unconstrainedStackingOrder), [w])
    {
      SiftNoDup(unconstrainedStackingOrder, {w}, false);
      assert Elems([w]) == {w};
      unconstrainedStackingOrder := Without(unconstrainedStackingOrder, {w});
      NoDupConcat([w], unconstrainedStackingOrder);
      unconstrainedStackingOrder := [w] + unconstrainedStackingOrder;
    }

    /** Lowering one more window while a blocker is held, and forgetting it as raised. */
    method LowerHeld(gwin: Window)
      requires Valid() && blockCount > 0
      modifies this
      ensures Valid()
      ensures View() == old(View()).(
                order := ToBottom(old(unconstrainedStackingOrder), [gwin]),
                raised := if old(mostRecentlyRaised) == Some(gwin) then None else old(mostRecentlyRaised))
    {
      BlockStackingUpdates(true);
      DoLower(gwin);
      BlockStackingUpdates(false);
      if mostRecentlyRaised == Some(gwin) {
        mostRecentlyRaised := None;
      }
    }

    /** The loop over the windows of the group, from the top. */
    method LowerPeers(window: Window, wins: seq<Window>)
      requires Valid() && blockCount > 0 && NoDup(wins)
      requires exists u :: unconstrainedStackingOrder == ToBottom(u, [window])
      modifies this
      ensures Valid()
      ensures forall u :: old(unconstrainedStackingOrder) == ToBottom(u, [window]) ==>
                unconstrainedStackingOrder == ToBottom(u, Without(wins, {window}) + [window])
      ensures View() == old(View()).(
                order := unconstrainedStackingOrder,
                raised := Forgotten(old(mostRecentlyRaised), Without(wins, {window})))
    {
      ghost var u :| unconstrainedStackingOrder == ToBottom(u, [window]);
      var i := |wins|;
      LowestFirst(wins, window, i);
      while i > 0
        invariant 0 <= i <= |wins| && Valid() && blockCount > 0
        invariant forall u :: old(unconstrainedStackingOrder) == ToBottom(u, [window]) ==>
          unconstrainedStackingOrder == ToBottom(u, Without(wins[i..], {window}) + [window])
        invariant View() == old(View()).(
          order := unconstrainedStackingOrder,
          raised := Forgotten(old(mostRecentlyRaised), Without(wins[i..], {window})))
      {
        i := i - 1;
        var gwin := wins[i];
        LowestFirst(wins, window, i + 1);
        NextLowest(wins, window, i);
        if gwin == window {
          continue;
        }
        LowerHeld(gwin);
        forall u | old(unconstrainedStackingOrder) == ToBottom(u, [window])
          ensures unconstrainedStackingOrder == ToBottom(u, Without(wins[i..], {window}) + [window])
        {
          ToBottomAgain(u, Without(wins[i + 1..], {window}) + [window], gwin);
          Assoc([gwin], Without(wins[i + 1..], {window}), [window]);
        }
      }
      assert wins[0..] == wins;
    }

    /** The body of lower_window, under its blocker. */
    method LowerWithGroup(window: Window)
      requires Valid() && blockCount > 0
      modifies this
      ensures Valid()
      ensures var peers := LoweredPeers(scene, old(stackingOrder), window);
              View() == old(View()).(
                order := ToBottom(old(unconstrainedStackingOrder), peers + [window]),
                raised := Forgotten(old(mostRecentlyRaised), peers + [window]))
    {
      DoLower(window);
      if Leads(scene, window) != [] && scene.attr(window).group.Some? {
        var members := scene.members(scene.attr(window).group.value);
        var wins := EnsureStackingOrderInList(stackingOrder, members);
        InStackingOrderNoDup(stackingOrder, members);
        LowerPeers(window, wins);
      }
      assert [] + [window] == [window];
      if mostRecentlyRaised == Some(window) {
        mostRecentlyRaised := None;
      }
    }

    method LowerWindow(window: Window)
      requires Valid() && Allowed(scene, View(), Lower(window))
      modifies this
      ensures Valid() && View() == Apply(scene, old(View()), Lower(window))
    {
      BlockStackingUpdates(true);
      LowerWithGroup(window);
      BlockStackingUpdates(false);
    }

    /** The loop of lowerClientWithinApplication, from the bottom. */
    method MoveBelowApplication(window: Window)
      requires Valid() && window in unconstrainedStackingOrder
      modifies `unconstrainedStackingOrder
      ensures Valid() && unconstrainedStackingOrder == LoweredWithin(scene, old(unconstrainedStackingOrder), window)
    {
      ghost var u := unconstrainedStackingOrder;
      LoweredWithinNoDup(scene, u, window);
      unconstrainedStackingOrder := Without(unconstrainedStackingOrder, {window});
      ghost var r := unconstrainedStackingOrder;
      for i := 0 to |unconstrainedStackingOrder|
        invariant unconstrainedStackingOrder == r
        invariant forall j :: 0 <= j < i ==> !scene.sameClient(r[j], window)
      {
        if scene.sameClient(unconstrainedStackingOrder[i], window) {
          assert LowestSame(scene, r, window) == i;
          unconstrainedStackingOrder := InsertAt(unconstrainedStackingOrder, i, window);
          return;
        }
      }
      unconstrainedStackingOrder := [window] + unconstrainedStackingOrder;
      assert [window] + r == InsertAt(r, 0, window);
    }

    method LowerClientWithinApplication(window: Window)
      requires Valid() && Allowed(scene, View(), LowerWithin(window))
      modifies this
      ensures Valid() && View() == Apply(scene, old(View()), LowerWithin(window))
    {
      BlockStackingUpdates(true);
      MoveBelowApplication(window);
      BlockStackingUpdates(false);
    }

    /** The inner loop that collects the leads: upwards from one lead, along first leads. */
    method CollectChain(known: seq<Window>, first: Window) returns (leads: seq<Window>)
      ensures leads == Merge(known, Chain(scene, first))
    {
      leads := known;
      var lead := Some(first);
      while lead.Some?
        invariant lead.Some? ==> Merge(leads, Chain(scene, lead.value)) == Merge(known, Chain(scene, first))
        invariant lead.None? ==> leads == Merge(known, Chain(scene, first))
        decreases if lead.Some? then 1 + scene.top - scene.rank(lead.value) else 0
      {
        assert Linked(scene, lead.value);
        MergeChain(scene, leads, lead.value);
        if lead.value !in leads {
          leads := leads + [lead.value];
        }
        lead := FirstLead(scene, lead.value);
      }
    }

    /** The outer loop that collects the leads. */
    method CollectLeads(window: Window) returns (leads: seq<Window>)
      ensures leads == LeadsUpwards(scene, Leads(scene, window))
    {
      leads := [];
      var direct := Leads(scene, window);
      for i := 0 to |direct|
        invariant leads == LeadsUpwards(scene, direct[..i])
      {
        leads := CollectChain(leads, direct[i]);
        LeadsUpwardsSnoc(scene, direct, i);
      }
      assert direct[..|direct|] == direct;
    }

    /** remove_all and push_back, remembering the window as raised. */
    method DoRaise(w: Window)
      requires Valid()
      modifies `unconstrainedStackingOrder, `mostRecentlyRaised
      ensures Valid() && unconstrainedStackingOrder == ToTop(old(unconstrainedStackingOrder), [w])
      ensures mostRecentlyRaised == LastRaised(scene, [w], old(mostRecentlyRaised))
    {
      SiftNoDup(unconstrainedStackingOrder, {w}, false);
      assert Elems([w]) == {w};
      unconstrainedStackingOrder := Without(unconstrainedStackingOrder, {w});
      NoDupConcat(unconstrainedStackingOrder, [w]);
      unconstrainedStackingOrder := unconstrainedStackingOrder + [w];
      assert [w][..0] == [];
      if !scene.attr(w).special {
        mostRecentlyRaised := Some(w);
      }
    }

    /** Raising one of the leads while a blocker is held. */
    method RaiseHeld(lead: Window)
      requires Valid() && blockCount > 0
      modifies this
      ensures Valid()
      ensures View() == old(View()).(
                order := ToTop(old(unconstrainedStackingOrder), [lead]),
                raised := LastRaised(scene, [lead], old(mostRecentlyRaised)))
    {
      BlockStackingUpdates(true);
      DoRaise(lead);
      BlockStackingUpdates(false);
    }

    /** The loop over the leads, in stacking order. */
    method RaiseLeads(stackedLeads: seq<Window>)
      requires Valid() && blockCount > 0 && NoDup(stackedLeads)
      modifies this
      ensures Valid()
      ensures var zs := Only(stackedLeads, set x | x in stackedLeads && scene.attr(x).control);
              View() == old(View()).(
                order := ToTop(old(unconstrainedStackingOrder), zs),
                raised := LastRaised(scene, zs, old(mostRecentlyRaised)))
    {
      ghost var u := unconstrainedStackingOrder;
      ghost var controlled := set x | x in stackedLeads && scene.attr(x).control;
      ToTopNothing(u);
      for i := 0 to |stackedLeads|
        invariant Valid() && blockCount > 0
        invariant View() == old(View()).(
          order := ToTop(u, Only(stackedLeads[..i], controlled)),
          raised := LastRaised(scene, Only(stackedLeads[..i], controlled), old(mostRecentlyRaised)))
      {
        var lead := stackedLeads[i];
        assert lead in stackedLeads;
        OnlySnoc(stackedLeads, i, controlled);
        if !scene.attr(lead).control {
          continue;
        }
        RaiseHeld(lead);
        FreshInPrefix(stackedLeads, i, controlled);
        ToTopAgain(u, Only(stackedLeads[..i], controlled), lead);
        RaisedSnoc(scene, Only(stackedLeads[..i], controlled), lead, old(mostRecentlyRaised));
      }
      assert stackedLeads[..|stackedLeads|] == stackedLeads;
    }

    /** The body of raise_window, under its blocker. */
    method RaiseWithLeads(window: Window)
      requires Valid() && blockCount > 0
      modifies this
      ensures Valid()
      ensures var zs := RaisedLeads(scene, old(stackingOrder), window);
              View() == old(View()).(
                order := ToTop(old(unconstrainedStackingOrder), zs + [window]),
                raised := LastRaised(scene, zs + [window], old(mostRecentlyRaised)))
    {
      ghost var u, zs := unconstrainedStackingOrder, RaisedLeads(scene, stackingOrder, window);
      ToTopNothing(u);
      if Leads(scene, window) != [] {
        var leads := CollectLeads(window);
        var stackedLeads := EnsureStackingOrderInList(stackingOrder, leads);
        InStackingOrderNoDup(stackingOrder, leads);
        RaiseLeads(stackedLeads);
      } else {
        NoLeads(scene, stackingOrder, window);
      }
      DoRaise(window);
      RaisedLeadsNoDup(scene, stackingOrder, window);
      ToTopAgain(u, zs, window);
      RaisedSnoc(scene, zs, window, old(mostRecentlyRaised));
    }

    method RaiseWindow(window: Window)
      requires Valid() && Allowed(scene, View(), Raise(window))
      modifies this
      ensures Valid() && View() == Apply(scene, old(View()), Raise(window))
    {
      BlockStackingUpdates(true);
      RaiseWithLeads(window);
      BlockStackingUpdates(false);
    }

    /** The loop of raiseClientWithinApplication, from the top. */
    method MoveAboveApplication(window: Window)
      requires Valid() && window in unconstrainedStackingOrder
      modifies `unconstrainedStackingOrder
      ensures Valid() && unconstrainedStackingOrder == RaisedWithin(scene, old(unconstrainedStackingOrder), window)
    {
      ghost var u := unconstrainedStackingOrder;
      RaisedWithinNoDup(scene, u, window);
      var i := |unconstrainedStackingOrder|;
      while i > 0
        invariant 0 <= i <= |u| && unconstrainedStackingOrder == u
        invariant forall j :: i <= j < |u| ==> u[j] != window && !scene.sameClient(u[j], window)
      {
        i := i - 1;
        var other := unconstrainedStackingOrder[i];
        if other == window {
          RaisedWithinAt(scene, u, window, i);
          return;
        }
        if scene.sameClient(other, window) {
          RaisedWithinAt(scene, u, window, i);
          unconstrainedStackingOrder := Without(unconstrainedStackingOrder, {window});
          unconstrainedStackingOrder :=
            InsertAt(unconstrainedStackingOrder, IndexOf(unconstrainedStackingOrder, other) + 1, window);
          return;
        }
      }
    }

    method RaiseClientWithinApplication(window: Window)
      requires Valid() && Allowed(scene, View(), RaiseWithin(window))
      modifies this
      ensures Valid() && View() == Apply(scene, old(View()), RaiseWithin(window))
    {
      BlockStackingUpdates(true);
      MoveAboveApplication(window);
      BlockStackingUpdates(false);
    }

    method RestackUnder(window: Window, under: Window, force: bool, world: FocusChains.World)
      requires Valid() && Allowed(scene, View(), Restack(window, under, force))
      modifies this, focusChain
      ensures Valid() && View() == Apply(scene, old(View()), Restack(window, under, force))
      ensures focusChain.View()
           == FocusChains.Moved(world, old(focusChain.View()), window,
                RestackTarget(scene, old(unconstrainedStackingOrder), window, under, force))
    {
      ghost var u := unconstrainedStackingOrder;
      var target := under;
      if !force && !scene.sameClient(under, window) {
        for i := 0 to |unconstrainedStackingOrder|
          invariant target == under && unconstrainedStackingOrder == u && View() == old(View())
          invariant forall j :: 0 <= j < i ==> !UnderCandidate(scene, window, under, u[j])
          invariant focusChain.View() == old(focusChain.View())
        {
          var other := unconstrainedStackingOrder[i];
          if scene.attr(other).control && LayerOf(scene, other) == LayerOf(scene, window)
             && scene.sameClient(under, other) {
            // `other` cannot be the window itself, as that is not of the application of `under`
            assert other != window && LowestCandidate(scene, u, window, under) == i;
            target := other;
            break;
          }
        }
      }
      assert target == RestackTarget(scene, u, window, under, force);
      unconstrainedStackingOrder := Without(unconstrainedStackingOrder, {window});
      unconstrainedStackingOrder :=
        InsertAt(unconstrainedStackingOrder, IndexOf(unconstrainedStackingOrder, target), window);
      InsertKeeps(u, IndexOf(Without(u, {window}), target), window);
      PermutationNoDup(u, unconstrainedStackingOrder);
      focusChain.MoveAfterClient(world, window, target);
      UpdateStackingOrder(false);
    }

    /** The loop of restoreSessionStackingOrder, from the bottom. */
    method MoveToSessionPlace(c: Window)
      requires Valid() && c in unconstrainedStackingOrder && scene.attr(c).sessionOrder >= 0
      modifies `unconstrainedStackingOrder
      ensures Valid() && unconstrainedStackingOrder == RestoredOrder(scene, old(unconstrainedStackingOrder), c)
    {
      ghost var u := unconstrainedStackingOrder;
      unconstrainedStackingOrder := Without(unconstrainedStackingOrder, {c});
      ghost var r := unconstrainedStackingOrder;
      RestoredNoDup(scene, u, c);
      for i := 0 to |unconstrainedStackingOrder|
        invariant unconstrainedStackingOrder == r
        invariant forall j :: 0 <= j < i && scene.attr(r[j]).x11 ==>
                    scene.attr(r[j]).sessionOrder <= scene.attr(c).sessionOrder
      {
        var current := unconstrainedStackingOrder[i];
        if !scene.attr(current).x11 {
          continue;
        }
        if scene.attr(current).sessionOrder > scene.attr(c).sessionOrder {
          assert SessionPlace(scene, r, c) == i;
          unconstrainedStackingOrder := InsertAt(unconstrainedStackingOrder, i, c);
          return;
        }
      }
      unconstrainedStackingOrder := unconstrainedStackingOrder + [c];
      assert r + [c] == InsertAt(r, |r|, c);
    }

    method RestoreSessionStackingOrder(c: Window)
      requires Valid() && Allowed(scene, View(), RestoreSession(c))
      modifies this
      ensures Valid() && View() == Apply(scene, old(View()), RestoreSession(c))
    {
      if scene.attr(c).sessionOrder < 0 {
        return;
      }
      BlockStackingUpdates(true);
      MoveToSessionPlace(c);
      BlockStackingUpdates(false);
    }
  }

  // ----- steps of the loops -----

  lemma ToTopAgain(u: seq<Window>, ws: seq<Window>, w: Window)
    requires w !in ws
    ensures ToTop(ToTop(u, ws), [w]) == ToTop(u, ws + [w])
  {
    assert Elems([w]) == {w};
    SiftConcat(Without(u, Elems(ws)), ws, {w}, false);
    SiftAll(ws, {w}, false);
    WithoutAlso(u, ws, w);
    Assoc(Without(u, Elems(ws + [w])), ws, [w]);
  }

  lemma ToBottomAgain(u: seq<Window>, ws: seq<Window>, w: Window)
    requires w !in ws
    ensures ToBottom(ToBottom(u, ws), [w]) == ToBottom(u, [w] + ws)
  {
    assert Elems([w]) == {w};
    SiftConcat(ws, Without(u, Elems(ws)), {w}, false);
    SiftAll(ws, {w}, false);
    WithoutAlso(u, ws, w);
    assert Elems([w] + ws) == Elems(ws + [w]);
    Assoc([w], ws, Without(u, Elems([w] + ws)));
  }

  lemma RaisedWithinAt(s: Scene, u: seq<Window>, w: Window, i: nat)
    requires i < |u| && (u[i] == w || s.sameClient(u[i], w))
    requires forall j :: i < j < |u| ==> u[j] != w && !s.sameClient(u[j], w)
    ensures u[i] == w ==> RaisedWithin(s, u, w) == u
    ensures u[i] != w ==> var r := Without(u, {w});
              u[i] in r && RaisedWithin(s, u, w) == InsertAt(r, IndexOf(r, u[i]) + 1, w)
  {
    assert HighestSame(s, u, w) == i + 1;
  }

  lemma RaisedWithinNoDup(s: Scene, u: seq<Window>, w: Window)
    requires NoDup(u) && w in u
    ensures NoDup(RaisedWithin(s, u, w))
  {
    RaiseWithinRaises(s, u, w);
    PermutationNoDup(u, RaisedWithin(s, u, w));
  }

  lemma RestoredNoDup(s: Scene, u: seq<Window>, w: Window)
    requires NoDup(u) && w in u
    ensures NoDup(RestoredOrder(s, u, w))
  {
    if s.attr(w).sessionOrder >= 0 {
      InsertKeeps(u, SessionPlace(s, Without(u, {w}), w), w);
      PermutationNoDup(u, RestoredOrder(s, u, w));
    }
  }

  lemma LoweredWithinNoDup(s: Scene, u: seq<Window>, w: Window)
    requires NoDup(u) && w in u
    ensures NoDup(LoweredWithin(s, u, w))
  {
    LowerWithinLowers(s, u, w);
    PermutationNoDup(u, LoweredWithin(s, u, w));
  }

  lemma ToTopNothing(u: seq<Window>)
    ensures ToTop(u, []) == u
  {
    assert Elems<Window>([]) == {};
    SiftAll(u, {}, false);
    assert u + [] == u;
  }

  lemma RaisedSnoc(s: Scene, ws: seq<Window>, w: Window, before: Option<Window>)
    ensures LastRaised(s, ws + [w], before) == LastRaised(s, [w], LastRaised(s, ws, before))
  {
    assert (ws + [w])[..|ws|] == ws && [w][..0] == [];
  }

  lemma FreshInPrefix(list: seq<Window>, i: nat, xs: set<Window>)
    requires NoDup(list) && i < |list|
    ensures list[i] !in Only(list[..i], xs)
  {
  }

  lemma NoLeads(s: Scene, stack: seq<Window>, w: Window)
    requires Leads(s, w) == []
    ensures RaisedLeads(s, stack, w) == []
  {
    assert LeadsUpwards(s, Leads(s, w)) == [];
    InStackingOrderEmpty(stack);
  }

  lemma LeadsUpwardsSnoc(s: Scene, leads: seq<Window>, i: nat)
    requires i < |leads|
    ensures LeadsUpwards(s, leads[..i + 1]) == Merge(LeadsUpwards(s, leads[..i]), Chain(s, leads[i]))
  {
    assert leads[..i + 1][..i] == leads[..i];
  }

  lemma MergeChain(s: Scene, acc: seq<Window>, w: Window)
    ensures var acc', lead := if w in acc then acc else acc + [w], FirstLead(s, w);
            Merge(acc, Chain(s, w)) == if lead.Some? then Merge(acc', Chain(s, lead.value)) else acc'
  {
    var lead := FirstLead(s, w);
    if lead.Some? {
      assert ([w] + Chain(s, lead.value))[1..] == Chain(s, lead.value);
    }
  }

  lemma LowestFirst(wins: seq<Window>, w: Window, i: nat)
    requires NoDup(wins) && i <= |wins|
    ensures i == |wins| ==> Without(wins[i..], {w}) == [] && [] + [w] == [w]
    ensures i > 0 ==> wins[i - 1] !in Without(wins[i..], {w})
  {
  }

  lemma NextLowest(wins: seq<Window>, w: Window, i: nat)
    requires i < |wins|
    ensures Without(wins[i..], {w})
         == if wins[i] == w then Without(wins[i + 1..], {w}) else [wins[i]] + Without(wins[i + 1..], {w})
  {
    assert wins[i..] == [wins[i]] + wins[i + 1..];
    SiftConcat([wins[i]], wins[i + 1..], {w}, false);
    NothingMore(Without(wins[i + 1..], {w}));
  }
}
