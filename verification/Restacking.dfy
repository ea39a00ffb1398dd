/** The operations that edit the unconstrained stacking order, on values: the order each one
    leaves behind, and what it keeps. */
module Restacking {
  import opened Seqs
  import opened Windows
  import opened Transients
  import opened Trees
  import opened Layers
  import opened Stacking

  // ----- raising a window with its leads -----

  /** `w`, its first lead, the first lead of that one, and so on. */
  function Chain(s: Scene, w: Window): (r: seq<Window>)
    ensures w in r && forall x :: x in r ==> s.rank(w) <= s.rank(x)
    decreases s.top - s.rank(w)
  {
    var lead := FirstLead(s, w);
    if lead.None? then [w] else [w] + Chain(s, lead.value)
  }

  /** Appends the windows of `xs` that are not there yet. */
  function Merge(acc: seq<Window>, xs: seq<Window>): (r: seq<Window>)
    ensures forall x :: x in r <==> x in acc || x in xs
    ensures NoDup(acc) ==> NoDup(r)
    decreases |xs|
  {
    if xs == [] then acc
    else Merge(if xs[0] in acc then acc else acc + [xs[0]], xs[1..])
  }

  function LeadsUpwards(s: Scene, leads: seq<Window>): (r: seq<Window>)
    ensures NoDup(r)
  {
    if leads == [] then []
    else Merge(LeadsUpwards(s, leads[..|leads| - 1]), Chain(s, leads[|leads| - 1]))
  }

  lemma {:induction false} LeadsUpwardsElems(s: Scene, leads: seq<Window>, x: Window)
    ensures x in LeadsUpwards(s, leads) <==> exists l :: l in leads && x in Chain(s, l)
  {
    if leads != [] {
      var front, last := leads[..|leads| - 1], leads[|leads| - 1];
      SplitLast(leads);
      LeadsUpwardsElems(s, front, x);
      if l :| l in leads && x in Chain(s, l) {
        assert l in front || l == last;
      }
    }
  }

  /** The leads that raise_window raises: those with control, in stacking order. */
  function RaisedLeads(s: Scene, stack: seq<Window>, w: Window): (r: seq<Window>)
    ensures forall x :: x in r <==> x in LeadsUpwards(s, Leads(s, w)) && s.attr(x).control
  {
    var leads := InStackingOrder(stack, LeadsUpwards(s, Leads(s, w)));
    Only(leads, set x | x in leads && s.attr(x).control)
  }

  lemma RaisedLeadsNoDup(s: Scene, stack: seq<Window>, w: Window)
    ensures NoDup(RaisedLeads(s, stack, w) + [w]) && w !in RaisedLeads(s, stack, w)
  {
    var leads := InStackingOrder(stack, LeadsUpwards(s, Leads(s, w)));
    InStackingOrderNoDup(stack, LeadsUpwards(s, Leads(s, w)));
    LeadsRankHigher(s, w);
    SiftNoDup(leads, set x | x in leads && s.attr(x).control, true);
    NoDupConcat(RaisedLeads(s, stack, w), [w]);
  }

  /** `x` is raised together with `w`. */
  predicate RaisedWith(s: Scene, w: Window, x: Window) {
    x == w || (x in LeadsUpwards(s, Leads(s, w)) && s.attr(x).control)
  }

  lemma LeadsRankHigher(s: Scene, w: Window)
    ensures forall x :: x in LeadsUpwards(s, Leads(s, w)) ==> s.rank(w) < s.rank(x)
  {
    forall x | x in LeadsUpwards(s, Leads(s, w)) ensures s.rank(w) < s.rank(x) {
      LeadsUpwardsElems(s, Leads(s, w), x);
      var l :| l in Leads(s, w) && x in Chain(s, l);
      Family(s, l, w);
    }
  }

  function ToTop(u: seq<Window>, ws: seq<Window>): seq<Window> {
    Without(u, Elems(ws)) + ws
  }

  function ToBottom(u: seq<Window>, ws: seq<Window>): seq<Window> {
    ws + Without(u, Elems(ws))
  }

  function RaisedOrder(s: Scene, u: seq<Window>, stack: seq<Window>, w: Window): seq<Window> {
    ToTop(u, RaisedLeads(s, stack, w) + [w])
  }

  /** The window remembered as most recently raised after raising `ws` in turn. */
  function LastRaised(s: Scene, ws: seq<Window>, before: Option<Window>): Option<Window> {
    if ws == [] then before
    else if s.attr(ws[|ws| - 1]).special then LastRaised(s, ws[..|ws| - 1], before)
    else Some(ws[|ws| - 1])
  }

  // ----- lowering a window with its group -----

  /** The other members of the group of a transient window, in stacking order. */
  function LoweredPeers(s: Scene, stack: seq<Window>, w: Window): (r: seq<Window>)
    ensures w !in r && NoDup(r)
    ensures forall x :: x in r <==>
              x != w && Leads(s, w) != [] && s.attr(w).group.Some? && x in s.members(s.attr(w).group.value)
  {
    if Leads(s, w) != [] && s.attr(w).group.Some? then
      var members := s.members(s.attr(w).group.value);
      InStackingOrderNoDup(stack, members);
      SiftNoDup(InStackingOrder(stack, members), {w}, false);
      Without(InStackingOrder(stack, members), {w})
    else []
  }

  function LoweredOrder(s: Scene, u: seq<Window>, stack: seq<Window>, w: Window): seq<Window> {
    ToBottom(u, LoweredPeers(s, stack, w) + [w])
  }

  // ----- within the application -----

  /** The lowest position of a window of the application of `w`, or `|u|`. */
  function LowestSame(s: Scene, u: seq<Window>, w: Window): (i: nat)
    ensures i <= |u|
    ensures i < |u| ==> s.sameClient(u[i], w)
    ensures forall j :: 0 <= j < i ==> !s.sameClient(u[j], w)
  {
    if u == [] || s.sameClient(u[0], w) then 0 else 1 + LowestSame(s, u[1..], w)
  }

  /** The number of windows up to the highest one that is `w` or of its application. */
  function HighestSame(s: Scene, u: seq<Window>, w: Window): (n: nat)
    ensures n <= |u|
    ensures n > 0 ==> u[n - 1] == w || s.sameClient(u[n - 1], w)
    ensures forall j :: n <= j < |u| ==> u[j] != w && !s.sameClient(u[j], w)
  {
    if u == [] || u[|u| - 1] == w || s.sameClient(u[|u| - 1], w) then |u|
    else HighestSame(s, u[..|u| - 1], w)
  }

  function LoweredWithin(s: Scene, u: seq<Window>, w: Window): seq<Window> {
    var r := Without(u, {w});
    var i := LowestSame(s, r, w);
    InsertAt(r, if i < |r| then i else 0, w)
  }

  function RaisedWithin(s: Scene, u: seq<Window>, w: Window): seq<Window> {
    var n := HighestSame(s, u, w);
    if n == 0 || u[n - 1] == w then u
    else
      var r := Without(u, {w});
      assert u[n - 1] in r;
      InsertAt(r, IndexOf(r, u[n - 1]) + 1, w)
  }

  // ----- restacking under another window -----

  predicate UnderCandidate(s: Scene, w: Window, under: Window, x: Window) {
    s.attr(x).control && LayerOf(s, x) == LayerOf(s, w) && s.sameClient(under, x)
  }

  /** The lowest position of a controlled window of the layer of `w` and of the application of
      `under`, or `|u|`. */
  function LowestCandidate(s: Scene, u: seq<Window>, w: Window, under: Window): (i: nat)
    ensures i <= |u|
    ensures i < |u| ==> UnderCandidate(s, w, under, u[i])
    ensures forall j :: 0 <= j < i ==> !UnderCandidate(s, w, under, u[j])
  {
    if u == [] || UnderCandidate(s, w, under, u[0]) then 0 else 1 + LowestCandidate(s, u[1..], w, under)
  }

  /** The window to insert below: that candidate, unless the move is forced, both windows are of
      one application, or there is no candidate. */
  function RestackTarget(s: Scene, u: seq<Window>, w: Window, under: Window, force: bool): (r: Window)
    requires under in u
    ensures r in u
    ensures !force && !s.sameClient(under, w) ==> r != w || r == under
  {
    var i := LowestCandidate(s, u, w, under);
    if force || s.sameClient(under, w) || i == |u| then under else u[i]
  }

  function RestackedOrder(s: Scene, u: seq<Window>, w: Window, under: Window, force: bool): seq<Window>
    requires under in u
  {
    var r := Without(u, {w});
    InsertAt(r, IndexOf(r, RestackTarget(s, u, w, under, force)), w)
  }

  // ----- session restore -----

  /** The lowest position of an X11 window with a greater session order, or `|u|`. */
  function SessionPlace(s: Scene, u: seq<Window>, w: Window): (i: nat)
    ensures i <= |u|
    ensures i < |u| ==> s.attr(u[i]).x11 && s.attr(u[i]).sessionOrder > s.attr(w).sessionOrder
    ensures forall j :: 0 <= j < i && s.attr(u[j]).x11 ==> s.attr(u[j]).sessionOrder <= s.attr(w).sessionOrder
  {
    if u == [] || (s.attr(u[0]).x11 && s.attr(u[0]).sessionOrder > s.attr(w).sessionOrder) then 0
    else 1 + SessionPlace(s, u[1..], w)
  }

  function RestoredOrder(s: Scene, u: seq<Window>, w: Window): seq<Window> {
    if s.attr(w).sessionOrder < 0 then u
    else
      var r := Without(u, {w});
      InsertAt(r, SessionPlace(s, r, w), w)
  }

  // ----- what the edits keep -----

  /** `v` holds the windows of `u`, each once, and orders those outside `moved` as `u` does. */
  ghost predicate Rearranges(u: seq<Window>, v: seq<Window>, moved: set<Window>) {
    multiset(v) == multiset(u) && Without(v, moved) == Without(u, moved)
  }

  lemma MoveKeeps(u: seq<Window>, v: seq<Window>, moved: set<Window>)
    requires NoDup(u) && NoDup(v) && Without(v, moved) == Without(u, moved)
    requires forall x :: x in moved ==> (x in u <==> x in v)
    ensures Rearranges(u, v, moved)
  {
    forall x ensures x in u <==> x in v {
      assert x !in moved ==> (x in Without(u, moved) <==> x in u) && (x in Without(v, moved) <==> x in v);
    }
    SameElemsPermute(u, v);
  }

  lemma ToTopKeeps(u: seq<Window>, ws: seq<Window>)
    requires NoDup(u) && NoDup(ws) && forall w :: w in ws ==> w in u
    ensures Rearranges(u, ToTop(u, ws), Elems(ws))
  {
    var r := Without(u, Elems(ws));
    SiftNoDup(u, Elems(ws), false);
    NoDupConcat(r, ws);
    SiftConcat(r, ws, Elems(ws), false);
    SiftAll(r, Elems(ws), false);
    SiftNone(ws, Elems(ws), false);
    NothingMore(r);
    MoveKeeps(u, ToTop(u, ws), Elems(ws));
  }

  lemma ToBottomKeeps(u: seq<Window>, ws: seq<Window>)
    requires NoDup(u) && NoDup(ws) && forall w :: w in ws ==> w in u
    ensures Rearranges(u, ToBottom(u, ws), Elems(ws))
  {
    var r := Without(u, Elems(ws));
    SiftNoDup(u, Elems(ws), false);
    NoDupConcat(ws, r);
    SiftConcat(ws, r, Elems(ws), false);
    SiftAll(r, Elems(ws), false);
    SiftNone(ws, Elems(ws), false);
    NothingMore(r);
    MoveKeeps(u, ToBottom(u, ws), Elems(ws));
  }

  lemma NothingMore(r: seq<Window>)
    ensures r + [] == r && [] + r == r
  {
  }

  lemma InsertKeeps(u: seq<Window>, i: nat, w: Window)
    requires NoDup(u) && w in u && i <= |Without(u, {w})|
    ensures Rearranges(u, InsertAt(Without(u, {w}), i, w), {w})
  {
    SiftNoDup(u, {w}, false);
    InsertFresh(Without(u, {w}), i, w);
    MoveKeeps(u, InsertAt(Without(u, {w}), i, w), {w});
  }

  /** Raising and lowering move the window with its leads or its group, and nothing else. */
  lemma RaiseKeeps(s: Scene, u: seq<Window>, stack: seq<Window>, w: Window)
    requires NoDup(u) && Closed(s, u) && w in u
    ensures Rearranges(u, RaisedOrder(s, u, stack, w), Elems(RaisedLeads(s, stack, w) + [w]))
  {
    var zs := RaisedLeads(s, stack, w);
    forall x | x in zs ensures x in u {
      LeadsUpwardsElems(s, Leads(s, w), x);
      var l :| l in Leads(s, w) && x in Chain(s, l);
      ChainInside(s, u, l, x);
    }
    RaisedLeadsNoDup(s, stack, w);
    ToTopKeeps(u, zs + [w]);
  }

  /** Where raising puts windows: `w` on top, the raised leads under it in stacking order, and the
      others below these. */
  lemma RaisePlaces(s: Scene, u: seq<Window>, stack: seq<Window>, w: Window, a: Window, b: Window)
    ensures var v := RaisedOrder(s, u, stack, w); v[|v| - 1] == w
    ensures a in RaisedLeads(s, stack, w) ==> Before(RaisedOrder(s, u, stack, w), a, w)
    ensures a in u && a !in RaisedLeads(s, stack, w) + [w] && b in RaisedLeads(s, stack, w) + [w] ==>
              Before(RaisedOrder(s, u, stack, w), a, b)
    ensures a in RaisedLeads(s, stack, w) && b in RaisedLeads(s, stack, w) && NoDup(stack) && Before(stack, a, b) ==>
              Before(RaisedOrder(s, u, stack, w), a, b)
  {
    var zs := RaisedLeads(s, stack, w);
    var low := Without(u, Elems(zs + [w]));
    var v := RaisedOrder(s, u, stack, w);
    Assoc(low, zs, [w]);
    if a in zs {
      BeforeAcross(low + zs, [w], a, w);
    }
    if a in low && b in zs + [w] {
      BeforeAcross(low, zs + [w], a, b);
    }
    if a in zs && b in zs && NoDup(stack) && Before(stack, a, b) {
      var leads := LeadsUpwards(s, Leads(s, w));
      var known := InStackingOrder(stack, leads);
      InStackingOrderFollows(stack, leads, a, b);
      SiftBefore(known, set x | x in known && s.attr(x).control, true, a, b);
      BeforeWithin(low, zs, [w], a, b);
    }
  }

  /** Where lowering puts windows: the other members of the group at the bottom in stacking order,
      `w` above them, and all other windows above `w`. */
  lemma LowerPlaces(s: Scene, u: seq<Window>, stack: seq<Window>, w: Window, a: Window, b: Window)
    ensures a in LoweredPeers(s, stack, w) ==> Before(LoweredOrder(s, u, stack, w), a, w)
    ensures b in u && b !in LoweredPeers(s, stack, w) + [w] ==> Before(LoweredOrder(s, u, stack, w), w, b)
    ensures a in LoweredPeers(s, stack, w) && b in LoweredPeers(s, stack, w) && NoDup(stack) && Before(stack, a, b) ==>
              Before(LoweredOrder(s, u, stack, w), a, b)
  {
    var peers := LoweredPeers(s, stack, w);
    var rest := Without(u, Elems(peers + [w]));
    Assoc(peers, [w], rest);
    if a in peers {
      BeforeAcross(peers, [w] + rest, a, w);
    }
    if b in rest {
      BeforeAcross(peers + [w], rest, w, b);
    }
    if a in peers && b in peers && NoDup(stack) && Before(stack, a, b) {
      var members := s.members(s.attr(w).group.value);
      InStackingOrderFollows(stack, members, a, b);
      SiftBefore(InStackingOrder(stack, members), {w}, false, a, b);
      BeforeWithin([], peers, [w] + rest, a, b);
      assert [] + peers == peers;
    }
  }

  lemma {:induction false} ChainInside(s: Scene, u: seq<Window>, w: Window, x: Window)
    requires Closed(s, u) && w in u && x in Chain(s, w)
    ensures x in u
    decreases s.top - s.rank(w)
  {
    var lead := FirstLead(s, w);
    if x != w {
      ChainInside(s, u, lead.value, x);
    }
  }

  lemma LowerKeeps(s: Scene, u: seq<Window>, stack: seq<Window>, w: Window)
    requires NoDup(u) && w in u
    requires s.attr(w).group.Some? ==> forall m :: m in s.members(s.attr(w).group.value) ==> m in u
    ensures Rearranges(u, LoweredOrder(s, u, stack, w), Elems(LoweredPeers(s, stack, w) + [w]))
  {
    var peers := LoweredPeers(s, stack, w);
    NoDupConcat(peers, [w]);
    ToBottomKeeps(u, peers + [w]);
  }

  /** `w` moved directly above `other`, which stood above it: nothing that was below `w` gets above. */
  lemma InsertAbove(u: seq<Window>, w: Window, other: Window, x: Window)
    requires NoDup(u) && Before(u, w, other) && Before(u, x, w)
    ensures var r := Without(u, {w}); Before(InsertAt(r, IndexOf(r, other) + 1, w), x, w)
  {
    var r := Without(u, {w});
    BeforeTrans(u, x, w, other);
    BeforeAsym(u, x, w);
    SiftNoDup(u, {w}, false);
    SiftBefore(u, {w}, false, x, other);
    var a, b :| 0 <= a < b < |r| && r[a] == x && r[b] == other;
    var v := InsertAt(r, IndexOf(r, other) + 1, w);
    assert v[a] == x && v[IndexOf(r, other) + 1] == w;
    BeforeAt(v, a, IndexOf(r, other) + 1);
  }

  /** What is above `w` after it was moved directly above `u[i]` was above `u[i]` before. */
  lemma AboveInserted(u: seq<Window>, w: Window, i: nat, x: Window)
    requires NoDup(u) && i < |u| && u[i] != w
    requires var r := Without(u, {w}); Before(InsertAt(r, IndexOf(r, u[i]) + 1, w), w, x)
    ensures exists j :: i < j < |u| && u[j] == x
  {
    var r := Without(u, {w});
    assert u[i] in r;
    var k := IndexOf(r, u[i]) + 1;
    var v := InsertAt(r, k, w);
    SiftNoDup(u, {w}, false);
    var a, b :| 0 <= a < b < |v| && v[a] == w && v[b] == x;
    assert a == k by {
      assert forall m :: 0 <= m < |r| ==> r[m] in r;
    }
    assert v[b] == r[b - 1];
    BeforeAt(r, k - 1, b - 1);
    HigherThan(u, {w}, i, x);
  }

  /** What is below `w` in `u` is below it in `v` too. */
  ghost predicate StaysBelow(u: seq<Window>, v: seq<Window>, w: Window) {
    forall x :: Before(u, x, w) ==> Before(v, x, w)
  }

  /** No window of the application of `w` is above it. */
  ghost predicate HighestOfApplication(s: Scene, v: seq<Window>, w: Window) {
    forall x :: Before(v, w, x) ==> !s.sameClient(x, w)
  }

  /** Raising within the application never puts a window above `w` that was below it, and leaves
      no window of the application above `w`. */
  lemma RaiseWithinRaises(s: Scene, u: seq<Window>, w: Window)
    requires NoDup(u) && w in u
    ensures Rearranges(u, RaisedWithin(s, u, w), {w})
    ensures StaysBelow(u, RaisedWithin(s, u, w), w)
    ensures HighestOfApplication(s, RaisedWithin(s, u, w), w)
  {
    var i := RaisedWithinCases(s, u, w);
    if u[i] == w {
      HighestAlready(s, u, w, i);
    } else {
      WithinAbove(s, u, w, i);
    }
  }

  lemma RaisedWithinCases(s: Scene, u: seq<Window>, w: Window) returns (i: nat)
    requires w in u
    ensures i < |u| && forall j :: i < j < |u| ==> u[j] != w && !s.sameClient(u[j], w)
    ensures u[i] == w ==> RaisedWithin(s, u, w) == u
    ensures u[i] != w ==> s.sameClient(u[i], w)
    ensures u[i] != w ==> var r := Without(u, {w});
              u[i] in r && RaisedWithin(s, u, w) == InsertAt(r, IndexOf(r, u[i]) + 1, w)
  {
    var n := HighestSame(s, u, w);
    var k :| 0 <= k < |u| && u[k] == w;
    i := n - 1;
  }

  lemma HighestAlready(s: Scene, u: seq<Window>, w: Window, i: nat)
    requires NoDup(u) && i < |u| && u[i] == w && forall j :: i < j < |u| ==> !s.sameClient(u[j], w)
    ensures StaysBelow(u, u, w) && HighestOfApplication(s, u, w)
  {
    forall x | Before(u, w, x) ensures !s.sameClient(x, w) {
      var a, b :| 0 <= a < b < |u| && u[a] == w && u[b] == x;
    }
  }

  lemma WithinAbove(s: Scene, u: seq<Window>, w: Window, i: nat)
    requires NoDup(u) && w in u && i < |u| && u[i] != w
    requires forall j :: i < j < |u| ==> u[j] != w && !s.sameClient(u[j], w)
    ensures var r := Without(u, {w});
            var v := InsertAt(r, IndexOf(r, u[i]) + 1, w);
            Rearranges(u, v, {w}) && StaysBelow(u, v, w) && HighestOfApplication(s, v, w)
  {
    var r := Without(u, {w});
    var v := InsertAt(r, IndexOf(r, u[i]) + 1, w);
    InsertKeeps(u, IndexOf(r, u[i]) + 1, w);
    assert IndexOf(u, w) < i;
    BeforeAt(u, IndexOf(u, w), i);
    forall x | Before(u, x, w) ensures Before(v, x, w) {
      InsertAbove(u, w, u[i], x);
    }
    forall x | Before(v, w, x) ensures !s.sameClient(x, w) {
      AboveInserted(u, w, i, x);
    }
  }

  /** What stands above `u[i]` after a selection stood above it before. */
  lemma HigherThan(u: seq<Window>, xs: set<Window>, i: nat, x: Window)
    requires NoDup(u) && i < |u| && Before(Without(u, xs), u[i], x)
    ensures exists j :: i < j < |u| && u[j] == x
  {
    var r := Without(u, xs);
    assert x in r && u[i] in r;
    SiftNoDup(u, xs, false);
    BeforeAsym(r, u[i], x);
    var j :| 0 <= j < |u| && u[j] == x;
    if j < i {
      BeforeAt(u, j, i);
      SiftBefore(u, xs, false, x, u[i]);
    } else if j == i {
      BeforeAsym(r, x, x);
    }
  }

  /** Lowering within the application leaves no window of the application below `w`; without
      one, `w` goes to the bottom. */
  lemma LowerWithinLowers(s: Scene, u: seq<Window>, w: Window)
    requires NoDup(u) && w in u
    ensures var v := LoweredWithin(s, u, w);
            && Rearranges(u, v, {w})
            && (forall x :: Before(v, x, w) ==> !s.sameClient(x, w))
            && ((forall x :: x in u && x != w ==> !s.sameClient(x, w)) ==> v[0] == w)
  {
    var r, v := Without(u, {w}), LoweredWithin(s, u, w);
    var i := LowestSame(s, r, w);
    var k := if i < |r| then i else 0;
    InsertKeeps(u, k, w);
    PermutationNoDup(u, v);
    assert v[k] == w;
    forall x | Before(v, x, w) ensures !s.sameClient(x, w) {
      var a, b :| 0 <= a < b < |v| && v[a] == x && v[b] == w;
      assert r[a] == x;
    }
    if i < |r| {
      assert r[i] in r;
    }
  }

  // ----- the exact places -----

  ghost predicate BelowAll(u: seq<Window>, y: Window, xs: set<Window>) {
    forall x :: x in xs ==> Before(u, y, x)
  }

  ghost predicate AboveAll(u: seq<Window>, y: Window, xs: set<Window>) {
    forall x :: x in xs ==> Before(u, x, y)
  }

  /** `v` has `w` directly below the lowest window of `xs`; what stood below all of these in `u` stands
      below `w`. */
  ghost predicate DirectlyBelowLowest(u: seq<Window>, v: seq<Window>, w: Window, xs: set<Window>) {
    && (exists i :: 0 <= i < |v| - 1 && v[i] == w && v[i + 1] in xs)
    && (forall x :: x in xs ==> Before(v, w, x))
    && (forall y :: y != w && BelowAll(u, y, xs) ==> Before(v, y, w))
  }

  /** `v` has `w` directly above the highest window of `xs`; what stood above all of these in `u` stands
      above `w`. */
  ghost predicate DirectlyAboveHighest(u: seq<Window>, v: seq<Window>, w: Window, xs: set<Window>) {
    && (exists i :: 0 < i < |v| && v[i] == w && v[i - 1] in xs)
    && (forall x :: x in xs ==> Before(v, x, w))
    && (forall y :: y != w && AboveAll(u, y, xs) ==> Before(v, w, y))
  }

  lemma InsertBelowLowest(u: seq<Window>, w: Window, i: nat, xs: set<Window>)
    requires NoDup(u) && i < |Without(u, {w})| && Without(u, {w})[i] in xs
    requires forall j :: 0 <= j < i ==> Without(u, {w})[j] !in xs
    requires forall x :: x in xs ==> x in u && x != w
    ensures DirectlyBelowLowest(u, InsertAt(Without(u, {w}), i, w), w, xs)
  {
    var r := Without(u, {w});
    var v := InsertAt(r, i, w);
    SiftNoDup(u, {w}, false);
    assert v[i] == w && v[i + 1] == r[i];
    forall x | x in xs ensures Before(v, w, x) {
      var j :| 0 <= j < |r| && r[j] == x;
      assert v[j + 1] == x;
      BeforeAt(v, i, j + 1);
    }
    forall y | y != w && BelowAll(u, y, xs) ensures Before(v, y, w) {
      SiftBefore(u, {w}, false, y, r[i]);
      var a, b :| 0 <= a < b < |r| && r[a] == y && r[b] == r[i];
      assert v[a] == y;
      BeforeAt(v, a, i);
    }
  }

  lemma InsertAboveHighest(u: seq<Window>, w: Window, i: nat, xs: set<Window>)
    requires NoDup(u) && i < |Without(u, {w})| && Without(u, {w})[i] in xs
    requires forall j :: i < j < |Without(u, {w})| ==> Without(u, {w})[j] !in xs
    requires forall x :: x in xs ==> x in u && x != w
    ensures DirectlyAboveHighest(u, InsertAt(Without(u, {w}), i + 1, w), w, xs)
  {
    var r := Without(u, {w});
    var v := InsertAt(r, i + 1, w);
    SiftNoDup(u, {w}, false);
    assert v[i + 1] == w && v[i] == r[i];
    forall x | x in xs ensures Before(v, x, w) {
      var j :| 0 <= j < |r| && r[j] == x;
      assert v[j] == x;
      BeforeAt(v, j, i + 1);
    }
    forall y | y != w && AboveAll(u, y, xs) ensures Before(v, w, y) {
      SiftBefore(u, {w}, false, r[i], y);
      var a, b :| 0 <= a < b < |r| && r[a] == r[i] && r[b] == y;
      assert v[b + 1] == y;
      BeforeAt(v, i + 1, b + 1);
    }
  }

  /** The other windows of the application of `w`. */
  ghost function OthersOfApplication(s: Scene, u: seq<Window>, w: Window): set<Window> {
    set x | x in u && x != w && s.sameClient(x, w)
  }

  /** Lowering within the application puts `w` directly below the lowest other window of it. */
  lemma LowerWithinPlaces(s: Scene, u: seq<Window>, w: Window)
    requires NoDup(u) && OthersOfApplication(s, u, w) != {}
    ensures DirectlyBelowLowest(u, LoweredWithin(s, u, w), w, OthersOfApplication(s, u, w))
  {
    var r, xs := Without(u, {w}), OthersOfApplication(s, u, w);
    var i := LowestSame(s, r, w);
    var x :| x in xs;
    assert x in r;
    assert r[i] in r;
    InsertBelowLowest(u, w, i, xs);
  }

  /** The windows of the application of `w` that stand above it. */
  ghost function HigherOfApplication(s: Scene, u: seq<Window>, w: Window): set<Window> {
    set x | x in u && Before(u, w, x) && s.sameClient(x, w)
  }

  /** Raising within the application puts `w` directly above the highest window of it that stood above,
      and changes nothing if there is none. */
  lemma RaiseWithinPlaces(s: Scene, u: seq<Window>, w: Window)
    requires NoDup(u) && w in u
    ensures var xs := HigherOfApplication(s, u, w);
            if xs == {} then RaisedWithin(s, u, w) == u
            else DirectlyAboveHighest(u, RaisedWithin(s, u, w), w, xs)
  {
    var i := RaisedWithinCases(s, u, w);
    var xs := HigherOfApplication(s, u, w);
    HigherAre(s, u, w, i);
    if u[i] != w {
      HighestLast(s, u, w, i);
      InsertAboveHighest(u, w, IndexOf(Without(u, {w}), u[i]), xs);
    }
  }

  lemma HigherAre(s: Scene, u: seq<Window>, w: Window, i: nat)
    requires NoDup(u) && w in u && i < |u|
    requires forall j :: i < j < |u| ==> u[j] != w && !s.sameClient(u[j], w)
    requires u[i] != w ==> s.sameClient(u[i], w)
    ensures var xs := HigherOfApplication(s, u, w); if u[i] == w then xs == {} else u[i] in xs
    ensures w !in HigherOfApplication(s, u, w)
  {
    forall x | Before(u, w, x) ensures x != w && (u[i] == w ==> !s.sameClient(x, w)) {
      var a, b :| 0 <= a < b < |u| && u[a] == w && u[b] == x;
    }
    if u[i] != w {
      BeforeAt(u, IndexOf(u, w), i);
    }
  }

  lemma HighestLast(s: Scene, u: seq<Window>, w: Window, i: nat)
    requires NoDup(u) && w in u && i < |u| && u[i] != w
    requires forall j :: i < j < |u| ==> u[j] != w && !s.sameClient(u[j], w)
    ensures var r := Without(u, {w});
            u[i] in r && forall j :: IndexOf(r, u[i]) < j < |r| ==> r[j] !in HigherOfApplication(s, u, w)
  {
    var r := Without(u, {w});
    assert u[i] in r;
    forall j | IndexOf(r, u[i]) < j < |r| ensures r[j] !in HigherOfApplication(s, u, w) {
      BeforeAt(r, IndexOf(r, u[i]), j);
      HigherThan(u, {w}, i, r[j]);
    }
  }

  /** Restacking puts `w` directly below its target. */
  lemma RestackPlaces(s: Scene, u: seq<Window>, w: Window, under: Window, force: bool)
    requires NoDup(u) && w in u && under in u && under != w
    ensures var v := RestackedOrder(s, u, w, under, force);
            && Rearranges(u, v, {w})
            && exists i :: 0 <= i < |v| - 1 && v[i] == w && v[i + 1] == RestackTarget(s, u, w, under, force)
  {
    var r, v := Without(u, {w}), RestackedOrder(s, u, w, under, force);
    var target := RestackTarget(s, u, w, under, force);
    TargetIsOther(s, u, w, under, force);
    assert target in r;
    var i := IndexOf(r, target);
    InsertKeeps(u, i, w);
    assert v[i] == w && v[i + 1] == target;
  }

  /** The controlled windows of the layer of `w` and of the application of `under`. */
  ghost function UnderCandidates(s: Scene, u: seq<Window>, w: Window, under: Window): set<Window> {
    set x | x in u && s.attr(x).control && LayerOf(s, x) == LayerOf(s, w) && s.sameClient(under, x)
  }

  /** By force, for windows of one application, or without a controlled window of the same layer and of
      the other application, that is directly below the window named. */
  lemma RestackDirectlyBelow(s: Scene, u: seq<Window>, w: Window, under: Window, force: bool)
    requires NoDup(u) && w in u && under in u && under != w
    requires force || s.sameClient(under, w) || UnderCandidates(s, u, w, under) == {}
    ensures var v := RestackedOrder(s, u, w, under, force);
            exists i :: 0 <= i < |v| - 1 && v[i] == w && v[i + 1] == under
  {
    var m := LowestCandidate(s, u, w, under);
    assert m < |u| ==> u[m] in UnderCandidates(s, u, w, under);
    RestackPlaces(s, u, w, under, force);
  }

  /** Otherwise it is directly below the lowest of these windows. */
  lemma RestackGoesBelowApplication(s: Scene, u: seq<Window>, w: Window, under: Window)
    requires NoDup(u) && w in u && under in u && !s.sameClient(under, w)
    requires UnderCandidates(s, u, w, under) != {}
    ensures DirectlyBelowLowest(u, RestackedOrder(s, u, w, under, false), w, UnderCandidates(s, u, w, under))
  {
    var r, xs := Without(u, {w}), UnderCandidates(s, u, w, under);
    var m := LowestCandidate(s, u, w, under);
    var x :| x in xs;
    assert m < |u| && u[m] in xs && u[m] in r;
    forall j | 0 <= j < IndexOf(r, u[m]) ensures r[j] !in xs {
      BeforeAt(r, j, IndexOf(r, u[m]));
      BeforeSift(u, {w}, false, r[j], u[m]);
      var a, b :| 0 <= a < b < |u| && u[a] == r[j] && u[b] == u[m];
    }
    InsertBelowLowest(u, w, IndexOf(r, u[m]), xs);
  }

  lemma TargetIsOther(s: Scene, u: seq<Window>, w: Window, under: Window, force: bool)
    requires under in u && under != w
    ensures RestackTarget(s, u, w, under, force) != w
  {
  }

  // ----- session restore keeps the saved order -----

  ghost predicate SessionSorted(s: Scene, u: seq<Window>) {
    forall i, j :: 0 <= i < j < |u| && s.attr(u[i]).x11 && s.attr(u[j]).x11 ==>
      s.attr(u[i]).sessionOrder <= s.attr(u[j]).sessionOrder
  }

  lemma SessionInsert(s: Scene, r: seq<Window>, i: nat, w: Window)
    requires SessionSorted(s, r) && i <= |r|
    requires forall j :: 0 <= j < i && s.attr(r[j]).x11 ==> s.attr(r[j]).sessionOrder <= s.attr(w).sessionOrder
    requires i < |r| ==> s.attr(r[i]).x11 && s.attr(r[i]).sessionOrder > s.attr(w).sessionOrder
    ensures SessionSorted(s, InsertAt(r, i, w))
  {
    forall j | i <= j < |r| && s.attr(r[j]).x11
      ensures s.attr(w).sessionOrder <= s.attr(r[j]).sessionOrder
    {
    }
  }

  /** If the other X11 windows are sorted by their saved order, all are after the restore. */
  lemma RestoreSorts(s: Scene, u: seq<Window>, w: Window)
    requires NoDup(u) && w in u && SessionSorted(s, Without(u, {w})) && s.attr(w).sessionOrder >= 0
    ensures SessionSorted(s, RestoredOrder(s, u, w)) && Rearranges(u, RestoredOrder(s, u, w), {w})
  {
    var r := Without(u, {w});
    var i := SessionPlace(s, r, w);
    InsertKeeps(u, i, w);
    SessionInsert(s, r, i, w);
  }

  ghost function LaterInSession(s: Scene, u: seq<Window>, w: Window): set<Window> {
    set x | x in u && s.attr(x).x11 && s.attr(x).sessionOrder > s.attr(w).sessionOrder
  }

  /** The restore puts `w` directly below the lowest X11 window of greater saved order, or on top. */
  lemma RestorePlaces(s: Scene, u: seq<Window>, w: Window)
    requires NoDup(u) && w in u && s.attr(w).sessionOrder >= 0
    ensures var v, xs := RestoredOrder(s, u, w), LaterInSession(s, u, w);
            if xs == {} then v == Without(u, {w}) + [w] else DirectlyBelowLowest(u, v, w, xs)
  {
    var r, xs := Without(u, {w}), LaterInSession(s, u, w);
    var i := SessionPlace(s, r, w);
    if i < |r| {
      assert r[i] in r;
      InsertBelowLowest(u, w, i, xs);
    } else {
      assert InsertAt(r, i, w) == r + [w];
      forall x | x in u ensures x !in xs {
        assert x != w ==> x in r;
      }
    }
  }

  // ----- raising lifts the tree -----

  /** The layer given to `w`, a window of `u`. */
  function PlacedLayer(s: Scene, u: seq<Window>, w: Window): Layer
    requires w in u
  {
    LayerAt(s, u, IndexOf(u, w))
  }

  lemma RaisedComesLast(s: Scene, u: seq<Window>, ws: seq<Window>, q: Window, r: Window)
    requires NoDup(u) && NoDup(ws) && forall w :: w in ws ==> w in u
    requires q in u && q !in ws && r in ws
    ensures var v := ToTop(u, ws); q in v && r in v && IndexOf(v, q) < IndexOf(v, r)
  {
    var low := Without(u, Elems(ws));
    var v := ToTop(u, ws);
    ToTopKeeps(u, ws);
    PermutationNoDup(u, v);
    var i :| 0 <= i < |low| && low[i] == q;
    var j :| 0 <= j < |ws| && ws[j] == r;
    assert v[i] == q && v[|low| + j] == r;
  }

  ghost predicate GivenSameLayer(s: Scene, u: seq<Window>, a: Window, b: Window) {
    a in u && b in u && PlacedLayer(s, u, a) == PlacedLayer(s, u, b)
  }

  /** `r` can be cut into `low` and `high` so that the whole tree of `other` is below the cut and the
      whole tree of `root` above it. */
  ghost predicate Cuts(s: Scene, r: seq<Window>, low: seq<Window>, high: seq<Window>, root: Window, other: Window) {
    && r == low + high
    && (forall x :: Reaches(s, root, x) ==> x in high && x !in low)
    && (forall x :: Reaches(s, other, x) ==> x in low && x !in high)
  }

  /** The whole tree of `root` stands above the whole tree of `other`. */
  ghost predicate TreeAbove(s: Scene, r: seq<Window>, root: Window, other: Window) {
    exists low, high :: Cuts(s, r, low, high, root, other)
  }

  /** Of two loose windows given the same layer, the one that is later in the order comes with its
      whole tree above the whole tree of the other (on a forest). */
  lemma TreesCut(s: Scene, u: seq<Window>, stack: seq<Window>, root: Window, other: Window)
    requires NoDup(u) && Forest(s) && Loose(s, root) && Loose(s, other) && GivenSameLayer(s, u, root, other)
    requires IndexOf(u, other) < IndexOf(u, root)
    ensures TreeAbove(s, Constrained(s, u, stack), root, other)
  {
    PreliminaryStable(s, u, IndexOf(u, other), IndexOf(u, root));
    SiftBefore(Preliminary(s, u), set x | x in u && Loose(s, x), true, other, root);
    RootsOfElems(s, u);
    var ws := RootsOf(s, u);
    var i, j :| 0 <= i < j < |ws| && ws[i] == other && ws[j] == root;
    var low, high := PileCut(s, stack, ws, i, j);
    assert Cuts(s, Constrained(s, u, stack), low, high, root, other);
  }

  lemma PileCut(s: Scene, stack: seq<Window>, ws: seq<Window>, i: nat, j: nat)
    returns (low: seq<Window>, high: seq<Window>)
    requires Forest(s) && Siblings(s, ws) && i < j < |ws|
    ensures Pile(s, stack, ws) == low + high
    ensures forall x :: Reaches(s, ws[j], x) ==> x in high && x !in low
    ensures forall x :: Reaches(s, ws[i], x) ==> x in low && x !in high
  {
    var a, b := ws[..j], ws[j..];
    assert a + b == ws;
    PileConcat(s, stack, a, b);
    low, high := Without(Pile(s, stack, a), Claims(s, b)), Pile(s, stack, b);
    assert a[i] == ws[i] && b[0] == ws[j];
    forall x | Reaches(s, ws[j], x) ensures x in high && x !in low {
      PileElems(s, stack, b, x);
      NotAcross(s, stack, ws, a, ws[j], x);
    }
    forall x | Reaches(s, ws[i], x) ensures x in low && x !in high {
      PileElems(s, stack, a, x);
      NotAcross(s, stack, ws, b, ws[i], x);
      if c :| c in b && x in Restacked(s, c) {
        ReachesChild(s, c, x);
      }
    }
  }

  /** On a forest no two loose windows share a window. */
  lemma NotAcross(s: Scene, stack: seq<Window>, ws: seq<Window>, part: seq<Window>, r: Window, x: Window)
    requires Forest(s) && Siblings(s, ws) && r in ws && Reaches(s, r, x)
    requires r !in part && forall c :: c in part ==> c in ws
    ensures x !in Pile(s, stack, part) && !AnyReaches(s, part, x)
  {
    ForestIsTidy(s);
    PileElems(s, stack, part, x);
    if c :| c in part && Reaches(s, c, x) {
      PartedMeet(s, ws, c, r, x);
    }
  }

  /** What one window stands above does not stand above it. */
  lemma TreeAboveOnce(s: Scene, r: seq<Window>, root: Window, other: Window)
    requires NoDup(r) && TreeAbove(s, r, root, other)
    ensures !TreeAbove(s, r, other, root)
  {
    assert Reaches(s, root, root) && Reaches(s, other, other);
    var low, high :| Cuts(s, r, low, high, root, other);
    BeforeAcross(low, high, other, root);
    BeforeAsym(r, other, root);
    if TreeAbove(s, r, other, root) {
      var low', high' :| Cuts(s, r, low', high', other, root);
      BeforeAcross(low', high', root, other);
    }
  }

  /** For windows given the same layer the trees stand as their roots do in the order. */
  lemma TreesByOrder(s: Scene, u: seq<Window>, stack: seq<Window>, root: Window, other: Window)
    requires NoDup(u) && Closed(s, u) && Forest(s) && root != other
    requires Loose(s, root) && Loose(s, other) && GivenSameLayer(s, u, root, other)
    ensures TreeAbove(s, Constrained(s, u, stack), root, other) <==> IndexOf(u, other) < IndexOf(u, root)
  {
    ForestIsTidy(s);
    TidyPermutation(s, u, stack);
    assert u[IndexOf(u, root)] == root && u[IndexOf(u, other)] == other;
    if IndexOf(u, other) < IndexOf(u, root) {
      TreesCut(s, u, stack, root, other);
    } else {
      TreesCut(s, u, stack, other, root);
      TreeAboveOnce(s, Constrained(s, u, stack), other, root);
    }
  }

  lemma IndexBefore(u: seq<Window>, a: Window, b: Window)
    requires NoDup(u) && a in u && b in u
    ensures Before(u, a, b) <==> IndexOf(u, a) < IndexOf(u, b)
  {
    if Before(u, a, b) {
      var i, j :| 0 <= i < j < |u| && u[i] == a && u[j] == b;
    } else if IndexOf(u, a) < IndexOf(u, b) {
      BeforeAt(u, IndexOf(u, a), IndexOf(u, b));
    }
  }

  lemma UnmovedOrder(u: seq<Window>, v: seq<Window>, moved: set<Window>, a: Window, b: Window)
    requires NoDup(u) && Rearranges(u, v, moved) && a in u && b in u && a !in moved && b !in moved
    ensures a in v && b in v && (IndexOf(v, a) < IndexOf(v, b) <==> IndexOf(u, a) < IndexOf(u, b))
  {
    PermutationNoDup(u, v);
    IndexBefore(u, a, b);
    IndexBefore(v, a, b);
    if Before(u, a, b) {
      SiftBefore(u, moved, false, a, b);
      BeforeSift(v, moved, false, a, b);
    }
    if Before(v, a, b) {
      SiftBefore(v, moved, false, a, b);
      BeforeSift(u, moved, false, a, b);
    }
  }

  lemma RaisedIndex(s: Scene, u: seq<Window>, stack: seq<Window>, w: Window, x: Window, other: Window)
    requires NoDup(u) && Closed(s, u) && w in u && x in u && other in u && !RaisedWith(s, w, other)
    ensures var v := RaisedOrder(s, u, stack, w);
            && NoDup(v) && Closed(s, v)
            && (IndexOf(v, other) < IndexOf(v, x) <==> RaisedWith(s, w, x) || IndexOf(u, other) < IndexOf(u, x))
  {
    var zs := RaisedLeads(s, stack, w) + [w];
    var v := RaisedOrder(s, u, stack, w);
    RaiseKeeps(s, u, stack, w);
    PermutationNoDup(u, v);
    RaisedLeadsNoDup(s, stack, w);
    if RaisedWith(s, w, x) {
      forall y | y in zs ensures y in u {
        assert y in v;
      }
      RaisedComesLast(s, u, zs, other, x);
    } else {
      UnmovedOrder(u, v, Elems(zs), other, x);
    }
  }

  /** After raising `w`, the tree of a loose window `root` stands above the tree of a loose window that
      was not raised and is given the same layer exactly if `root` was raised or stood above it before. */
  lemma RaiseLiftsTree(s: Scene, u: seq<Window>, stack: seq<Window>, w: Window, root: Window, other: Window)
    requires NoDup(u) && Closed(s, u) && Forest(s) && w in u && root != other
    requires Loose(s, root) && Loose(s, other) && !RaisedWith(s, w, other)
    requires GivenSameLayer(s, RaisedOrder(s, u, stack, w), root, other)
    ensures TreeAbove(s, Constrained(s, RaisedOrder(s, u, stack, w), stack), root, other)
       <==> RaisedWith(s, w, root) || IndexOf(u, other) < IndexOf(u, root)
  {
    RaiseKeeps(s, u, stack, w);
    PermutationNoDup(u, RaisedOrder(s, u, stack, w));
    RaisedIndex(s, u, stack, w, root, other);
    TreesByOrder(s, RaisedOrder(s, u, stack, w), stack, root, other);
  }

  // ----- whether the root is raised -----

  /** A window is raised together with `w` exactly if it is `w`, or has control and is met by following
      first leads from a direct lead of `w`. */
  lemma RaisedByFirstLeads(s: Scene, w: Window, x: Window)
    ensures RaisedWith(s, w, x)
       <==> x == w || (s.attr(x).control && exists l :: l in Leads(s, w) && x in Chain(s, l))
  {
    LeadsUpwardsElems(s, Leads(s, w), x);
  }

  /** Only its first lead restacks `x`. */
  ghost predicate FirstLeadRestacks(s: Scene, x: Window) {
    forall lead: Window :: x in Restacked(s, lead) ==> FirstLead(s, x) == Some(lead)
  }

  /** `x` is on the way from `root` up to `w`, above `root`. */
  ghost predicate OnTheWay(s: Scene, root: Window, x: Window, w: Window) {
    x != root && Reaches(s, root, x) && Reaches(s, x, w)
  }

  /** The root of `w` is `w` itself or among the leads that raise_window collects, if the windows
      strictly between the two are restacked by their first leads. */
  lemma RootIsCollected(s: Scene, root: Window, w: Window)
    requires Reaches(s, root, w) && root != w
    requires forall x :: OnTheWay(s, root, x, w) && x != w ==> FirstLeadRestacks(s, x)
    ensures root in LeadsUpwards(s, Leads(s, w))
  {
    var lead := LastStep(s, root, w);
    Family(s, lead, w);
    forall x | OnTheWay(s, root, x, lead) ensures FirstLeadRestacks(s, x) {
      FurtherOnTheWay(s, root, x, lead, w);
    }
    RootInChain(s, root, lead);
    LeadsUpwardsElems(s, Leads(s, w), root);
  }

  lemma FurtherOnTheWay(s: Scene, root: Window, x: Window, lead: Window, w: Window)
    requires OnTheWay(s, root, x, lead) && w in Restacked(s, lead)
    ensures OnTheWay(s, root, x, w) && x != w
  {
    ReachesChild(s, lead, w);
    ReachesTrans(s, x, lead, w);
    ReachesDown(s, x, lead);
  }

  lemma {:induction false} RootInChain(s: Scene, root: Window, w: Window)
    requires Reaches(s, root, w)
    requires forall x :: OnTheWay(s, root, x, w) ==> FirstLeadRestacks(s, x)
    ensures root in Chain(s, w)
    decreases s.top - s.rank(w)
  {
    if root != w {
      var lead := LastStep(s, root, w);
      Family(s, lead, w);
      assert OnTheWay(s, root, w, w);
      forall x | OnTheWay(s, root, x, lead) ensures FirstLeadRestacks(s, x) {
        FurtherOnTheWay(s, root, x, lead, w);
      }
      RootInChain(s, root, lead);
    }
  }

  // ----- a root that is not raised -----

  /** Window 1 is a transient for window 0 and, at first position, for the dock 3, which does not
      restack it; window 2 is a transient for 1. */
  function DockedAttributes(w: Window): Attributes {
    if w == 0 then PLAIN.(children := [1])
    else if w == 1 then PLAIN.(leads := [3, 0], children := [2])
    else if w == 2 then PLAIN.(leads := [1])
    else if w == 3 then PLAIN.(children := [1], ownLayer := DOCK, kind := Kind.Dock)
    else PLAIN
  }

  function Docked(): RawScene {
    RawScene(DockedAttributes, (a, b) => a == b, g => [],
             w => if w == 0 || w == 3 then 2 else if w == 1 then 1 else 0, 2)
  }

  lemma DockedIsScene()
    ensures Acyclic(Docked())
  {
    forall w ensures Linked(Docked(), w) {
    }
  }

  lemma DockedTree(s: Scene)
    requires s == Docked()
    ensures Restacked(s, 0) == {1} && Restacked(s, 1) == {2} && Forest(s)
    ensures Loose(s, 0) && Loose(s, 4) && Reaches(s, 0, 2)
  {
    assert Leads(s, 1)[0] == 3 && Leads(s, 1)[1] == 0;
    assert Leads(s, 2)[0] == 1;
    forall w ensures Restacked(s, w) == if w == 0 then {1} else if w == 1 then {2} else {} {
    }
    forall x ensures OneLead(s, x) {
    }
    ReachesChild(s, 1, 2);
    assert 1 in Restacked(s, 0);
  }

  lemma DockedRaised(s: Scene)
    requires s == Docked()
    ensures !RaisedWith(s, 2, 0) && !RaisedWith(s, 2, 4)
  {
    assert Leads(s, 1)[0] == 3;
    assert FirstLead(s, 3).None? && FirstLead(s, 1) == Some(3);
    assert Chain(s, 3) == [3];
    assert Chain(s, 1) == [1] + Chain(s, 3);
    RaisedByFirstLeads(s, 2, 0);
    RaisedByFirstLeads(s, 2, 4);
  }

  /** Windows of one layer are given the same layer, where no X11 window promotes them. */
  lemma NativeSameLayer(s: Scene, u: seq<Window>, v: seq<Window>, a: Window, b: Window)
    requires NoDup(u) && multiset(v) == multiset(u) && forall x :: x in u ==> !s.attr(x).x11
    requires a in u && b in u && LayerOf(s, a) == LayerOf(s, b)
    ensures GivenSameLayer(s, v, a, b)
  {
    PermutationNoDup(u, v);
    NativeKeepsLayer(s, v, IndexOf(v, a));
    NativeKeepsLayer(s, v, IndexOf(v, b));
  }

  lemma DockedOrder(s: Scene, u: seq<Window>)
    requires s == Docked() && u == [0, 4, 1, 2, 3]
    ensures NoDup(u) && Closed(s, u) && 2 in u && IndexOf(u, 0) < IndexOf(u, 4)
  {
    assert u[0] == 0 && u[1] == 4 && u[2] == 1 && u[3] == 2 && u[4] == 3;
  }

  lemma DockedLayers(s: Scene, u: seq<Window>, v: seq<Window>)
    requires s == Docked() && u == [0, 4, 1, 2, 3] && NoDup(u) && multiset(v) == multiset(u)
    ensures GivenSameLayer(s, v, 4, 0)
  {
    assert u[0] == 0 && u[1] == 4;
    NativeSameLayer(s, u, v, 4, 0);
  }

  /** Raising window 2 of that scene leaves it and its whole tree below window 4, which has nothing to
      do with it and is not raised: its root 0 is a lead of its lead, but not the first one. */
  lemma RaiseLeavesTree(stack: seq<Window>)
    ensures Acyclic(Docked())
    ensures var s: Scene := Docked();
            var u := [0, 4, 1, 2, 3];
            && NoDup(u) && Closed(s, u) && Forest(s) && Loose(s, 0) && Loose(s, 4) && Reaches(s, 0, 2)
            && TreeAbove(s, Constrained(s, RaisedOrder(s, u, stack, 2), stack), 4, 0)
  {
    DockedIsScene();
    var s: Scene := Docked();
    var u := [0, 4, 1, 2, 3];
    DockedTree(s);
    DockedRaised(s);
    DockedOrder(s, u);
    RaiseKeeps(s, u, stack, 2);
    DockedLayers(s, u, RaisedOrder(s, u, stack, 2));
    RaiseLiftsTree(s, u, stack, 2, 4, 0);
  }
}
