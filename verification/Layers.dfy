/** Sorting windows into layers, with the promotion of X11 group members
    (first half of Workspace::constrainedStackingOrder). */
module Layers {
  import opened Seqs
  import opened Windows

  /** The key under which the minimum layer is kept: a screen and, for X11 windows, a group. */
  type Slot = (nat, Option<Group>)

  function SlotOf(s: Scene, w: Window): Slot {
    (s.attr(w).screen, if s.attr(w).x11 then s.attr(w).group else None)
  }

  /** The layer given to `w` when `entries` are the layers recorded so far. */
  function Promote(s: Scene, entries: map<Slot, Layer>, w: Window): Layer {
    var slot := SlotOf(s, w);
    if slot in entries && entries[slot] == ACTIVE && LayerOf(s, w) > BELOW then ACTIVE else LayerOf(s, w)
  }

  /** The minimum layers recorded after the windows `u`. */
  function Entries(s: Scene, u: seq<Window>): map<Slot, Layer> {
    if u == [] then map[]
    else
      var e, w := Entries(s, u[..|u| - 1]), u[|u| - 1];
      if SlotOf(s, w) in e || s.attr(w).x11 then e[SlotOf(s, w) := Promote(s, e, w)] else e
  }

  /** The layer given to the window at position `i` of `u`. */
  function LayerAt(s: Scene, u: seq<Window>, i: nat): Layer
    requires i < |u|
  {
    Promote(s, Entries(s, u[..i]), u[i])
  }

  /** The windows of `u` that are given the layer `l`, in order. */
  function Bucket(s: Scene, u: seq<Window>, l: nat): (r: seq<Window>)
    ensures forall x :: x in r ==> x in u
  {
    if u == [] then []
    else
      var r, i := Bucket(s, u[..|u| - 1], l), |u| - 1;
      if LayerAt(s, u, i) == l then r + [u[i]] else r
  }

  /** The buckets below `n`, from bottom to top. */
  function Buckets(s: Scene, u: seq<Window>, n: nat): seq<Window> {
    if n == 0 then [] else Buckets(s, u, n - 1) + Bucket(s, u, n - 1)
  }

  function Preliminary(s: Scene, u: seq<Window>): seq<Window> {
    Buckets(s, u, LAYER_COUNT)
  }

  /** The two loops that sort the windows into layers and put the layers together. */
  method SortIntoLayers(s: Scene, u: seq<Window>) returns (preliminary: seq<Window>)
    ensures preliminary == Preliminary(s, u)
  {
    var layer: seq<seq<Window>> := seq(LAYER_COUNT, l => []);
    var minimumLayer: map<Slot, Layer> := map[];
    for i := 0 to |u|
      invariant minimumLayer == Entries(s, u[..i])
      invariant |layer| == LAYER_COUNT
      invariant forall l :: 0 <= l < LAYER_COUNT ==> layer[l] == Bucket(s, u[..i], l)
    {
      var window := u[i];
      var l := LayerOf(s, window);
      assert u[..i + 1][..i] == u[..i];
      var slot := SlotOf(s, window);
      if slot in minimumLayer {
        if minimumLayer[slot] == ACTIVE && l > BELOW {
          l := ACTIVE;
        }
        minimumLayer := minimumLayer[slot := l];
      } else if s.attr(window).x11 {
        minimumLayer := minimumLayer[slot := l];
      }
      layer := layer[l := layer[l] + [window]];
    }
    assert u[..|u|] == u;
    preliminary := [];
    for l := 0 to LAYER_COUNT
      invariant preliminary == Buckets(s, u, l)
    {
      preliminary := preliminary + layer[l];
    }
  }

  // ----- nothing is lost -----

  lemma BucketCount(s: Scene, u: seq<Window>, l: nat, x: Window)
    requires u != []
    ensures multiset(Bucket(s, u, l))[x] == multiset(Bucket(s, u[..|u| - 1], l))[x]
            + (if x == u[|u| - 1] && LayerAt(s, u, |u| - 1) == l then 1 else 0)
  {
    CountConcat(Bucket(s, u[..|u| - 1], l), [u[|u| - 1]], x);
  }

  /** Adding a window at the top of `u` adds it to one bucket, `k`. */
  lemma {:induction false} BucketsCount(s: Scene, u: seq<Window>, v: seq<Window>, k: nat, n: nat, x: Window, more: nat)
    requires forall l: nat ::
               multiset(Bucket(s, v, l))[x] == multiset(Bucket(s, u, l))[x] + (if l == k then more else 0)
    ensures multiset(Buckets(s, v, n))[x] == multiset(Buckets(s, u, n))[x] + (if k < n then more else 0)
    decreases n
  {
    if n > 0 {
      BucketsCount(s, u, v, k, n - 1, x, more);
      CountConcat(Buckets(s, u, n - 1), Bucket(s, u, n - 1), x);
      CountConcat(Buckets(s, v, n - 1), Bucket(s, v, n - 1), x);
    }
  }

  lemma {:induction false} BucketsEmpty(s: Scene, n: nat)
    ensures Buckets(s, [], n) == []
  {
    if n > 0 {
      BucketsEmpty(s, n - 1);
    }
  }

  /** Sorting into layers neither loses nor repeats a window. */
  lemma {:induction false} PreliminaryPermutes(s: Scene, u: seq<Window>)
    ensures multiset(Preliminary(s, u)) == multiset(u)
  {
    if u == [] {
      BucketsEmpty(s, LAYER_COUNT);
    } else {
      SplitLast(u);
      PreliminaryPermutes(s, u[..|u| - 1]);
      forall x ensures multiset(Preliminary(s, u))[x] == multiset(u)[x] {
        var k, more := LayerAt(s, u, |u| - 1), if x == u[|u| - 1] then 1 else 0;
        forall l: nat
          ensures multiset(Bucket(s, u, l))[x]
               == multiset(Bucket(s, u[..|u| - 1], l))[x] + (if l == k then more else 0)
        {
          BucketCount(s, u, l, x);
        }
        BucketsCount(s, u[..|u| - 1], u, k, LAYER_COUNT, x, more);
      }
    }
  }

  // ----- order -----

  lemma {:induction false} BucketOrder(s: Scene, u: seq<Window>, i: nat, j: nat)
    requires i < j < |u| && LayerAt(s, u, i) == LayerAt(s, u, j)
    ensures Before(Bucket(s, u, LayerAt(s, u, i)), u[i], u[j])
    decreases |u|
  {
    var front, l := u[..|u| - 1], LayerAt(s, u, i);
    var r := Bucket(s, u, l);
    assert front[..i] == u[..i];
    if j == |u| - 1 {
      BucketHolds(s, front, i);
      var k :| 0 <= k < |Bucket(s, front, l)| && Bucket(s, front, l)[k] == u[i];
      assert r[k] == u[i] && r[|r| - 1] == u[j];
    } else {
      assert front[..j] == u[..j];
      BucketOrder(s, front, i, j);
      var r' := Bucket(s, front, l);
      var k, m :| 0 <= k < m < |r'| && r'[k] == u[i] && r'[m] == u[j];
      assert r[k] == u[i] && r[m] == u[j];
    }
  }

  lemma {:induction false} BucketHolds(s: Scene, u: seq<Window>, i: nat)
    requires i < |u|
    ensures u[i] in Bucket(s, u, LayerAt(s, u, i))
    decreases |u|
  {
    if i < |u| - 1 {
      assert u[..|u| - 1][..i] == u[..i];
      BucketHolds(s, u[..|u| - 1], i);
    }
  }

  lemma {:induction false} BucketsOrder(s: Scene, u: seq<Window>, n: nat, l: nat, a: Window, b: Window)
    requires l < n && Before(Bucket(s, u, l), a, b)
    ensures Before(Buckets(s, u, n), a, b)
  {
    var low, top := Buckets(s, u, n - 1), Bucket(s, u, n - 1);
    if l == n - 1 {
      var i, j :| 0 <= i < j < |top| && top[i] == a && top[j] == b;
      assert (low + top)[|low| + i] == a && (low + top)[|low| + j] == b;
    } else {
      BucketsOrder(s, u, n - 1, l, a, b);
      var i, j :| 0 <= i < j < |low| && low[i] == a && low[j] == b;
      assert (low + top)[i] == a && (low + top)[j] == b;
    }
  }

  /** Windows given the same layer keep their unconstrained order. */
  lemma PreliminaryStable(s: Scene, u: seq<Window>, i: nat, j: nat)
    requires i < j < |u| && LayerAt(s, u, i) == LayerAt(s, u, j)
    ensures Before(Preliminary(s, u), u[i], u[j])
  {
    BucketOrder(s, u, i, j);
    BucketsOrder(s, u, LAYER_COUNT, LayerAt(s, u, i), u[i], u[j]);
  }

  // ----- promotion -----

  /** The slot of the window at `j` has an entry once that window was handled. */
  ghost predicate Tracked(s: Scene, u: seq<Window>, j: nat)
    requires j < |u|
  {
    exists m :: 0 <= m <= j && SlotOf(s, u[m]) == SlotOf(s, u[j]) && s.attr(u[m]).x11
  }

  /** Before position `i` a tracked window of `slot` is in the active layer, and no window of
      `slot` between the two is in the below or desktop layer. */
  ghost predicate Run(s: Scene, u: seq<Window>, i: nat, slot: Slot)
    requires i <= |u|
  {
    exists j :: 0 <= j < i && RunFrom(s, u, j, i, slot)
  }

  ghost predicate RunFrom(s: Scene, u: seq<Window>, j: nat, i: nat, slot: Slot)
    requires j < i <= |u|
  {
    && SlotOf(s, u[j]) == slot && LayerOf(s, u[j]) == ACTIVE && Tracked(s, u, j)
    && forall k :: j < k < i && SlotOf(s, u[k]) == slot ==> LayerOf(s, u[k]) > BELOW
  }

  lemma {:induction false} EntryExists(s: Scene, u: seq<Window>, i: nat, slot: Slot)
    requires i <= |u|
    ensures slot in Entries(s, u[..i]) <==> exists m :: 0 <= m < i && SlotOf(s, u[m]) == slot && s.attr(u[m]).x11
  {
    if i > 0 {
      assert u[..i][..i - 1] == u[..i - 1];
      EntryExists(s, u, i - 1, slot);
    }
  }

  lemma {:induction false} EntryActive(s: Scene, u: seq<Window>, i: nat, slot: Slot)
    requires i <= |u|
    ensures slot in Entries(s, u[..i]) && Entries(s, u[..i])[slot] == ACTIVE <==> Run(s, u, i, slot)
  {
    if i > 0 {
      var w := u[i - 1];
      assert u[..i][..i - 1] == u[..i - 1];
      EntryActive(s, u, i - 1, slot);
      EntryExists(s, u, i - 1, slot);
      if SlotOf(s, w) != slot {
        RunSkips(s, u, i, slot);
      } else {
        assert Tracked(s, u, i - 1) <==> slot in Entries(s, u[..i - 1]) || s.attr(w).x11;
        RunGrows(s, u, i, slot);
      }
    }
  }

  lemma RunSkips(s: Scene, u: seq<Window>, i: nat, slot: Slot)
    requires 0 < i <= |u| && SlotOf(s, u[i - 1]) != slot
    ensures Run(s, u, i, slot) <==> Run(s, u, i - 1, slot)
  {
    if Run(s, u, i, slot) {
      var j :| 0 <= j < i && RunFrom(s, u, j, i, slot);
      assert RunFrom(s, u, j, i - 1, slot);
    }
    if Run(s, u, i - 1, slot) {
      var j :| 0 <= j < i - 1 && RunFrom(s, u, j, i - 1, slot);
      assert RunFrom(s, u, j, i, slot);
    }
  }

  lemma RunGrows(s: Scene, u: seq<Window>, i: nat, slot: Slot)
    requires 0 < i <= |u| && SlotOf(s, u[i - 1]) == slot
    ensures Run(s, u, i, slot) <==>
            (Tracked(s, u, i - 1) && LayerOf(s, u[i - 1]) == ACTIVE)
            || (Run(s, u, i - 1, slot) && LayerOf(s, u[i - 1]) > BELOW)
  {
    if Run(s, u, i, slot) {
      var j :| 0 <= j < i && RunFrom(s, u, j, i, slot);
      if j < i - 1 {
        assert RunFrom(s, u, j, i - 1, slot);
      }
    }
    if Tracked(s, u, i - 1) && LayerOf(s, u[i - 1]) == ACTIVE {
      assert RunFrom(s, u, i - 1, i, slot);
    }
    if Run(s, u, i - 1, slot) && LayerOf(s, u[i - 1]) > BELOW {
      var j :| 0 <= j < i - 1 && RunFrom(s, u, j, i - 1, slot);
      assert RunFrom(s, u, j, i, slot);
    }
  }

  /** On one screen, and of one X11 group; windows that are not X11 windows count as without group. */
  predicate Companions(s: Scene, a: Window, b: Window) {
    && s.attr(a).screen == s.attr(b).screen
    && (s.attr(a).x11 && s.attr(b).x11 ==> s.attr(a).group == s.attr(b).group)
    && (s.attr(a).x11 && !s.attr(b).x11 ==> s.attr(a).group.None?)
    && (!s.attr(a).x11 && s.attr(b).x11 ==> s.attr(b).group.None?)
  }

  lemma SlotMeans(s: Scene, a: Window, b: Window)
    ensures SlotOf(s, a) == SlotOf(s, b) <==> Companions(s, a, b)
  {
  }

  /** The window at `j` is in the active layer and a companion of the one at `i`; an X11 companion came
      no later than it; and no companion between the two is in the below or desktop layer. */
  ghost predicate Promotes(s: Scene, u: seq<Window>, j: nat, i: nat)
    requires j < i < |u|
  {
    && Companions(s, u[j], u[i]) && LayerOf(s, u[j]) == ACTIVE
    && (exists m :: 0 <= m <= j && Companions(s, u[m], u[i]) && s.attr(u[m]).x11)
    && forall k :: j < k < i && Companions(s, u[k], u[i]) ==> LayerOf(s, u[k]) > BELOW
  }

  lemma RunMeansPromotes(s: Scene, u: seq<Window>, j: nat, i: nat)
    requires j < i < |u|
    ensures RunFrom(s, u, j, i, SlotOf(s, u[i])) <==> Promotes(s, u, j, i)
  {
    forall k | 0 <= k < |u| ensures SlotOf(s, u[k]) == SlotOf(s, u[i]) <==> Companions(s, u[k], u[i]) {
      SlotMeans(s, u[k], u[i]);
    }
  }

  /** Exactly which windows are promoted to the active layer; all others keep their own. */
  lemma PromotionRule(s: Scene, u: seq<Window>, i: nat)
    requires i < |u|
    ensures LayerAt(s, u, i)
         == if LayerOf(s, u[i]) > BELOW && exists j :: 0 <= j < i && Promotes(s, u, j, i) then ACTIVE
            else LayerOf(s, u[i])
  {
    EntryActive(s, u, i, SlotOf(s, u[i]));
    forall j | 0 <= j < i ensures RunFrom(s, u, j, i, SlotOf(s, u[i])) <==> Promotes(s, u, j, i) {
      RunMeansPromotes(s, u, j, i);
    }
  }

  /** A window leaves its layer only for the active one, and only after a companion in the active layer:
      on its own screen and, among X11 windows, of its own group. */
  lemma PromotedByCompanion(s: Scene, u: seq<Window>, i: nat) returns (j: nat)
    requires i < |u| && LayerAt(s, u, i) != LayerOf(s, u[i])
    ensures LayerAt(s, u, i) == ACTIVE && LayerOf(s, u[i]) > BELOW
    ensures j < i && LayerOf(s, u[j]) == ACTIVE && s.attr(u[j]).screen == s.attr(u[i]).screen
    ensures s.attr(u[j]).x11 && s.attr(u[i]).x11 ==> s.attr(u[j]).group == s.attr(u[i]).group
  {
    PromotionRule(s, u, i);
    j :| 0 <= j < i && Promotes(s, u, j, i);
  }

  /** Within a run of an X11 group on a screen that starts at an active window, every later member
      is placed in the active layer and stays after the window that started the run. */
  lemma GroupStaysAbove(s: Scene, u: seq<Window>, i: nat, j: nat)
    requires i < j < |u| && Companions(s, u[i], u[j])
    requires s.attr(u[i]).x11 && LayerOf(s, u[i]) == ACTIVE
    requires forall k :: i < k <= j && Companions(s, u[k], u[j]) ==> LayerOf(s, u[k]) > BELOW
    ensures LayerAt(s, u, i) == LayerAt(s, u, j) == ACTIVE
    ensures Before(Preliminary(s, u), u[i], u[j])
  {
    assert Promotes(s, u, i, j);
    PromotionRule(s, u, i);
    PromotionRule(s, u, j);
    PreliminaryStable(s, u, i, j);
  }

  /** Windows that are not X11 windows keep their layer, provided X11 windows have groups. */
  lemma NativeKeepsLayer(s: Scene, u: seq<Window>, i: nat)
    requires i < |u| && !s.attr(u[i]).x11
    requires forall w :: w in u && s.attr(w).x11 ==> s.attr(w).group.Some?
    ensures LayerAt(s, u, i) == LayerOf(s, u[i])
  {
    PromotionRule(s, u, i);
    if j :| 0 <= j < i && Promotes(s, u, j, i) {
      var m :| 0 <= m <= j && Companions(s, u[m], u[i]) && s.attr(u[m]).x11;
      assert u[m] in u;
    }
  }

  /** The proviso is needed: an X11 window without a group, in the active layer, takes every
      native window that follows it on its screen along. */
  lemma UngroupedWindowPromotesNative(s: Scene, u: seq<Window>, i: nat, j: nat)
    requires i < j < |u| && s.attr(u[i]).x11 && s.attr(u[i]).group.None? && LayerOf(s, u[i]) == ACTIVE
    requires !s.attr(u[j]).x11 && s.attr(u[j]).screen == s.attr(u[i]).screen
    requires forall k :: i < k <= j ==> LayerOf(s, u[k]) > BELOW
    ensures LayerAt(s, u, j) == ACTIVE
  {
    GroupStaysAbove(s, u, i, j);
  }

  // ----- layers in order when nothing is promoted -----

  ghost predicate NoPromotion(s: Scene, u: seq<Window>) {
    forall i :: 0 <= i < |u| ==> LayerAt(s, u, i) == LayerOf(s, u[i])
  }

  ghost predicate LayersAscend(s: Scene, r: seq<Window>) {
    forall i, j :: 0 <= i < j < |r| ==> LayerOf(s, r[i]) <= LayerOf(s, r[j])
  }

  lemma {:induction false} BucketLayer(s: Scene, u: seq<Window>, l: nat, x: Window)
    requires NoPromotion(s, u) && x in Bucket(s, u, l)
    ensures LayerOf(s, x) == l
  {
    var front := u[..|u| - 1];
    forall i | 0 <= i < |front| ensures LayerAt(s, front, i) == LayerOf(s, front[i]) {
      assert front[..i] == u[..i];
      assert LayerAt(s, u, i) == LayerOf(s, u[i]);
    }
    if x in Bucket(s, front, l) {
      BucketLayer(s, front, l, x);
    } else {
      assert LayerAt(s, u, |u| - 1) == LayerOf(s, u[|u| - 1]);
    }
  }

  lemma {:induction false} BucketsAscend(s: Scene, u: seq<Window>, n: nat)
    requires NoPromotion(s, u)
    ensures LayersAscend(s, Buckets(s, u, n))
    ensures forall x :: x in Buckets(s, u, n) ==> LayerOf(s, x) < n
  {
    if n > 0 {
      BucketsAscend(s, u, n - 1);
      forall x | x in Bucket(s, u, n - 1) ensures LayerOf(s, x) == n - 1 {
        BucketLayer(s, u, n - 1, x);
      }
      var low, top := Buckets(s, u, n - 1), Bucket(s, u, n - 1);
      forall i, j | 0 <= i < j < |low + top|
        ensures LayerOf(s, (low + top)[i]) <= LayerOf(s, (low + top)[j])
      {
        if |low| <= i {
          assert top[i - |low|] in top && top[j - |low|] in top;
        } else if |low| <= j {
          assert low[i] in low && top[j - |low|] in top;
        }
      }
    }
  }
}
