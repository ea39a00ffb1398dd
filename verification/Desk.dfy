/** The stacking state of the workspace and the operations on it, on values: deferred updates,
    and what holds over every run of operations. */
module Desk {
  import opened Seqs
  import opened Windows
  import opened Transients
  import opened Trees
  import opened Stacking
  import opened Restacking

  /** One recomputation of the stacking order: whether it counted as a change, and whether new
      clients were to be propagated. */
  datatype Update = Update(changed: bool, propagate: bool)

  datatype State = State(
    order: seq<Window>,
    stack: seq<Window>,
    blocks: int,
    pending: bool,
    force: bool,
    raised: Option<Window>,
    updates: seq<Update>)

  function Refreshed(s: Scene, d: State, propagate: bool): State {
    if d.blocks > 0 then
      if propagate then d.(pending := true) else d
    else
      var stack := Constrained(s, d.order, d.stack);
      d.(stack := stack, force := false,
         updates := d.updates + [Update(d.force || stack != d.stack, propagate)])
  }

  function Blocked(d: State): State {
    d.(blocks := d.blocks + 1, pending := if d.blocks == 0 then false else d.pending)
  }

  function Unblocked(s: Scene, d: State): State {
    var d' := d.(blocks := d.blocks - 1);
    if d'.blocks == 0 then Refreshed(s, d', d'.pending) else d'
  }

  /** An edit of the unconstrained order under a StackingUpdatesBlocker. */
  function Guarded(s: Scene, d: State, order: seq<Window>, raised: Option<Window>): State {
    Unblocked(s, Blocked(d).(order := order, raised := raised))
  }

  datatype Op =
    | Raise(w: Window)
    | Lower(w: Window)
    | RaiseWithin(w: Window)
    | LowerWithin(w: Window)
    | Restack(w: Window, under: Window, forced: bool)
    | RestoreSession(w: Window)
    | Block
    | Unblock
    | Refresh(propagate: bool)
    | ForceRestacking

  /** What Workspace asserts when an operation is requested. */
  predicate Allowed(s: Scene, d: State, op: Op) {
    match op
    case Raise(w) => w in d.order && s.attr(w).control
    case Lower(w) =>
      && w in d.order && s.attr(w).control
      && (s.attr(w).group.Some? ==>
            forall m :: m in s.members(s.attr(w).group.value) ==> m in d.order && s.attr(m).control)
    case RaiseWithin(w) => w in d.order && s.attr(w).control
    case LowerWithin(w) => w in d.order && s.attr(w).control
    case Restack(w, under, forced) => w in d.order && under in d.order
    case RestoreSession(w) => w in d.order
    case Unblock => d.blocks > 0
    case _ => true
  }

  /** The unconstrained order an operation leaves. */
  function OrderAfter(s: Scene, d: State, op: Op): seq<Window>
    requires Allowed(s, d, op)
  {
    match op
    case Raise(w) => RaisedOrder(s, d.order, d.stack, w)
    case Lower(w) => LoweredOrder(s, d.order, d.stack, w)
    case RaiseWithin(w) => RaisedWithin(s, d.order, w)
    case LowerWithin(w) => LoweredWithin(s, d.order, w)
    case Restack(w, under, forced) => RestackedOrder(s, d.order, w, under, forced)
    case RestoreSession(w) => RestoredOrder(s, d.order, w)
    case _ => d.order
  }

  /** The remembered window, unless it is one of `ws`. */
  function Forgotten(raised: Option<Window>, ws: seq<Window>): Option<Window> {
    if raised.Some? && raised.value in ws then None else raised
  }

  /** The window remembered as most recently raised after an operation. */
  function RaisedAfter(s: Scene, d: State, op: Op): Option<Window> {
    match op
    case Raise(w) => LastRaised(s, RaisedLeads(s, d.stack, w) + [w], d.raised)
    case Lower(w) => Forgotten(d.raised, LoweredPeers(s, d.stack, w) + [w])
    case _ => d.raised
  }

  function Apply(s: Scene, d: State, op: Op): State
    requires Allowed(s, d, op)
  {
    match op
    case Restack(w, under, forced) => Refreshed(s, d.(order := OrderAfter(s, d, op)), false)
    case Block => Blocked(d)
    case Unblock => Unblocked(s, d)
    case Refresh(propagate) => Refreshed(s, d, propagate)
    case ForceRestacking => Guarded(s, d.(force := true), d.order, d.raised)
    case RestoreSession(w) =>
      if s.attr(w).sessionOrder < 0 then d else Guarded(s, d, OrderAfter(s, d, op), d.raised)
    case _ => Guarded(s, d, OrderAfter(s, d, op), RaisedAfter(s, d, op))
  }

  /** Every operation of the run is allowed when its turn comes. */
  predicate Permitted(s: Scene, d: State, ops: seq<Op>)
    decreases |ops|
  {
    ops == [] || (Allowed(s, d, ops[0]) && Permitted(s, Apply(s, d, ops[0]), ops[1..]))
  }

  function Run(s: Scene, d: State, ops: seq<Op>): State
    requires Permitted(s, d, ops)
    decreases |ops|
  {
    if ops == [] then d else Run(s, Apply(s, d, ops[0]), ops[1..])
  }

  // ----- every run keeps the windows -----

  /** Every transient that is to be restacked stands above its lead. */
  ghost predicate TransientsUp(s: Scene, stack: seq<Window>) {
    forall lead, child :: child in Restacked(s, lead) ==> Above(stack, child, lead)
  }

  /** The unconstrained order is free of repeats and closed under families; while no blocker is held,
      the stacking order has the same windows, with transients above their leads. */
  ghost predicate Complete(s: Scene, d: State) {
    && NoDup(d.order) && Closed(s, d.order) && d.blocks >= 0
    && (d.blocks == 0 ==> Elems(d.stack) == Elems(d.order) && TransientsUp(s, d.stack))
  }

  lemma PermutedClosed(s: Scene, u: seq<Window>, v: seq<Window>)
    requires NoDup(u) && Closed(s, u) && multiset(v) == multiset(u)
    ensures NoDup(v) && Closed(s, v)
  {
    PermutationNoDup(u, v);
  }

  lemma RefreshCompletes(s: Scene, d: State, propagate: bool)
    requires NoDup(d.order) && Closed(s, d.order) && d.blocks >= 0
    ensures Complete(s, Refreshed(s, d, propagate)) && Refreshed(s, d, propagate).order == d.order
  {
    if d.blocks == 0 {
      forall x ensures x in Constrained(s, d.order, d.stack) <==> x in d.order {
        SameWindows(s, d.order, d.stack, x);
      }
      forall lead, child | child in Restacked(s, lead)
        ensures Above(Constrained(s, d.order, d.stack), child, lead)
      {
        TransientsAboveLeads(s, d.order, d.stack, lead, child);
      }
    }
  }

  lemma GuardedCompletes(s: Scene, d: State, order: seq<Window>, raised: Option<Window>)
    requires Complete(s, d) && multiset(order) == multiset(d.order)
    ensures Complete(s, Guarded(s, d, order, raised)) && Guarded(s, d, order, raised).order == order
  {
    PermutedClosed(s, d.order, order);
    var e := Blocked(d).(order := order, raised := raised);
    if d.blocks == 0 {
      RefreshCompletes(s, e.(blocks := 0), e.pending);
    }
  }

  /** Every operation leaves a permutation of the unconstrained order. */
  lemma OrderPermutes(s: Scene, d: State, op: Op)
    requires NoDup(d.order) && Closed(s, d.order) && Allowed(s, d, op)
    ensures multiset(OrderAfter(s, d, op)) == multiset(d.order)
  {
    var u := d.order;
    match op
    case Raise(w) => RaiseKeeps(s, u, d.stack, w);
    case Lower(w) => LowerKeeps(s, u, d.stack, w);
    case RaiseWithin(w) => RaiseWithinRaises(s, u, w);
    case LowerWithin(w) => LowerWithinLowers(s, u, w);
    case Restack(w, under, forced) =>
      var r := Without(u, {w});
      InsertKeeps(u, IndexOf(r, RestackTarget(s, u, w, under, forced)), w);
    case RestoreSession(w) =>
      if s.attr(w).sessionOrder >= 0 {
        InsertKeeps(u, SessionPlace(s, Without(u, {w}), w), w);
      }
    case _ =>
  }

  lemma ApplyComplete(s: Scene, d: State, op: Op)
    requires Complete(s, d) && Allowed(s, d, op)
    ensures Complete(s, Apply(s, d, op)) && multiset(Apply(s, d, op).order) == multiset(d.order)
  {
    OrderPermutes(s, d, op);
    var order := OrderAfter(s, d, op);
    match op
    case Restack(w, under, forced) =>
      PermutedClosed(s, d.order, order);
      RefreshCompletes(s, d.(order := order), false);
    case Block =>
    case Unblock => RefreshCompletes(s, d.(blocks := d.blocks - 1), d.pending);
    case Refresh(propagate) => RefreshCompletes(s, d, propagate);
    case ForceRestacking => GuardedCompletes(s, d.(force := true), d.order, d.raised);
    case _ => GuardedCompletes(s, d, order, RaisedAfter(s, d, op));
  }

  /** Over every permitted run, on every acyclic lead graph: no window is lost from the unconstrained
      order or repeated in it, and whenever no blocker is held the stacking order has the same windows
      and keeps every restacked transient above its lead. */
  lemma {:induction false} RunComplete(s: Scene, d: State, ops: seq<Op>)
    requires Complete(s, d) && Permitted(s, d, ops)
    ensures Complete(s, Run(s, d, ops)) && multiset(Run(s, d, ops).order) == multiset(d.order)
    decreases |ops|
  {
    if ops != [] {
      ApplyComplete(s, d, ops[0]);
      RunComplete(s, Apply(s, d, ops[0]), ops[1..]);
    }
  }

  // ----- what is recomputed and reported -----

  /** The operation recomputes the stacking order at once. */
  predicate Recomputes(s: Scene, d: State, op: Op) {
    match op
    case Block => false
    case Unblock => d.blocks == 1
    case RestoreSession(w) => d.blocks == 0 && s.attr(w).sessionOrder >= 0
    case _ => d.blocks == 0
  }

  /** If it does, it propagates new clients. */
  predicate Propagates(d: State, op: Op) {
    match op
    case Refresh(propagate) => propagate
    case Unblock => d.pending
    case _ => false
  }

  lemma RefreshReports(s: Scene, d: State, propagate: bool)
    ensures var e := Refreshed(s, d, propagate);
            && e.order == d.order && e.blocks == d.blocks
            && (d.blocks > 0 ==> e.stack == d.stack && e.updates == d.updates && e.force == d.force)
            && (d.blocks <= 0 ==>
                  && e.stack == Constrained(s, d.order, d.stack) && !e.force
                  && e.updates == d.updates + [Update(d.force || e.stack != d.stack, propagate)])
  {
  }

  lemma GuardedReports(s: Scene, d: State, order: seq<Window>, raised: Option<Window>)
    requires d.blocks >= 0
    ensures var e := Guarded(s, d, order, raised);
            && e.order == order && e.blocks == d.blocks
            && (d.blocks > 0 ==> e.stack == d.stack && e.updates == d.updates && e.force == d.force)
            && (d.blocks == 0 ==>
                  && e.stack == Constrained(s, order, d.stack) && !e.force
                  && e.updates == d.updates + [Update(d.force || e.stack != d.stack, false)])
  {
    if d.blocks == 0 {
      RefreshReports(s, Blocked(d).(order := order, raised := raised, blocks := 0), false);
    }
  }

  /** Exactly what each operation reports: nothing if the stacking order is not recomputed, and then it
      stays as it is; otherwise one update, counted as a change if restacking was forced, by this
      operation or before, or if the stacking order is another one than before. */
  lemma ApplyReports(s: Scene, d: State, op: Op)
    requires Allowed(s, d, op) && d.blocks >= 0
    ensures var e := Apply(s, d, op);
            && e.blocks == d.blocks + (if op.Block? then 1 else if op.Unblock? then -1 else 0)
            && (!Recomputes(s, d, op) ==>
                  e.stack == d.stack && e.updates == d.updates && (e.force <==> d.force || op.ForceRestacking?))
            && (Recomputes(s, d, op) ==>
                  && e.stack == Constrained(s, e.order, d.stack) && !e.force
                  && e.updates == d.updates
                       + [Update(d.force || op.ForceRestacking? || e.stack != d.stack, Propagates(d, op))])
  {
    match op
    case Restack(w, under, forced) => RefreshReports(s, d.(order := OrderAfter(s, d, op)), false);
    case Block =>
    case Unblock =>
      if d.blocks == 1 {
        RefreshReports(s, d.(blocks := 0), d.pending);
      }
    case Refresh(propagate) => RefreshReports(s, d, propagate);
    case ForceRestacking => GuardedReports(s, d.(force := true), d.order, d.raised);
    case _ => GuardedReports(s, d, OrderAfter(s, d, op), RaisedAfter(s, d, op));
  }

  /** Some update recorded after the first `low` counted as a change. */
  ghost predicate ChangeReported(updates: seq<Update>, low: nat) {
    exists k :: low <= k < |updates| && updates[k].changed
  }

  /** Over every run no change goes unreported: if the stacking order ends up different, some update
      recorded on the way counted as a change. */
  lemma {:induction false} RunReports(s: Scene, d: State, ops: seq<Op>)
    requires Permitted(s, d, ops) && d.blocks >= 0
    ensures var e := Run(s, d, ops);
            d.updates <= e.updates && (e.stack != d.stack ==> ChangeReported(e.updates, |d.updates|))
    decreases |ops|
  {
    if ops != [] {
      var d', e := Apply(s, d, ops[0]), Run(s, d, ops);
      ApplyReports(s, d, ops[0]);
      RunReports(s, d', ops[1..]);
      if d'.stack != d.stack {
        assert e.updates[|d.updates|] == d'.updates[|d.updates|];
      }
    }
  }

  /** `x` is the last window of `ws` that is not special. */
  ghost predicate LastOrdinary(s: Scene, ws: seq<Window>, x: Window) {
    exists i :: 0 <= i < |ws| && ws[i] == x && !s.attr(x).special && forall j :: i < j < |ws| ==> s.attr(ws[j]).special
  }

  lemma {:induction false} LastRaisedMeans(s: Scene, ws: seq<Window>, before: Option<Window>)
    ensures var r := LastRaised(s, ws, before);
            if forall x :: x in ws ==> s.attr(x).special then r == before
            else r.Some? && LastOrdinary(s, ws, r.value)
  {
    if ws != [] {
      var front, last := ws[..|ws| - 1], ws[|ws| - 1];
      SplitLast(ws);
      LastRaisedMeans(s, front, before);
      var r := LastRaised(s, ws, before);
      if !s.attr(last).special {
        assert ws[|ws| - 1] == last;
      } else if r.Some? && LastOrdinary(s, front, r.value) {
        var i :| 0 <= i < |front| && front[i] == r.value && !s.attr(r.value).special
                 && forall j :: i < j < |front| ==> s.attr(front[j]).special;
        assert ws[i] == r.value;
      }
    }
  }

  /** The window remembered as most recently raised: raising sets it to the last one raised that is not
      special; lowering forgets it if it is lowered; nothing else changes it. */
  lemma RemembersRaised(s: Scene, d: State, op: Op)
    requires Allowed(s, d, op)
    ensures var raised := Apply(s, d, op).raised;
            match op
            case Raise(w) =>
              var ws := RaisedLeads(s, d.stack, w) + [w];
              if forall x :: x in ws ==> s.attr(x).special then raised == d.raised
              else raised.Some? && LastOrdinary(s, ws, raised.value)
            case Lower(w) =>
              var lowered := LoweredPeers(s, d.stack, w) + [w];
              if d.raised.Some? && d.raised.value in lowered then raised == None else raised == d.raised
            case _ => raised == d.raised
  {
    if op.Raise? {
      LastRaisedMeans(s, RaisedLeads(s, d.stack, op.w) + [op.w], d.raised);
    }
  }

  // ----- on tidy lead graphs every run ends settled -----

  /** As `Complete`; moreover, while no blocker is held the stacking order repeats no window, and
      recomputing it would change nothing. */
  ghost predicate Sound(s: Scene, d: State) {
    && Complete(s, d)
    && (d.blocks == 0 ==> multiset(d.stack) == multiset(d.order) && Constrained(s, d.order, d.stack) == d.stack)
  }

  /** A recomputation settles the stacking order. */
  lemma RefreshSettles(s: Scene, d: State, propagate: bool)
    requires Tidy(s) && NoDup(d.order) && Closed(s, d.order) && d.blocks >= 0
    ensures Sound(s, Refreshed(s, d, propagate)) && Refreshed(s, d, propagate).order == d.order
  {
    RefreshCompletes(s, d, propagate);
    if d.blocks == 0 {
      TidyPermutation(s, d.order, d.stack);
      Idempotent(s, d.order, d.stack);
    }
  }

  lemma GuardedSettles(s: Scene, d: State, order: seq<Window>, raised: Option<Window>)
    requires Tidy(s) && Sound(s, d) && multiset(order) == multiset(d.order)
    ensures Sound(s, Guarded(s, d, order, raised)) && Guarded(s, d, order, raised).order == order
  {
    PermutedClosed(s, d.order, order);
    var e := Blocked(d).(order := order, raised := raised);
    if d.blocks == 0 {
      RefreshSettles(s, e.(blocks := 0), e.pending);
    }
  }

  lemma ApplySound(s: Scene, d: State, op: Op)
    requires Tidy(s) && Sound(s, d) && Allowed(s, d, op)
    ensures Sound(s, Apply(s, d, op)) && multiset(Apply(s, d, op).order) == multiset(d.order)
  {
    OrderPermutes(s, d, op);
    var order := OrderAfter(s, d, op);
    match op
    case Restack(w, under, forced) =>
      PermutedClosed(s, d.order, order);
      RefreshSettles(s, d.(order := order), false);
    case Block =>
    case Unblock => RefreshSettles(s, d.(blocks := d.blocks - 1), d.pending);
    case Refresh(propagate) => RefreshSettles(s, d, propagate);
    case ForceRestacking => GuardedSettles(s, d.(force := true), d.order, d.raised);
    case _ => GuardedSettles(s, d, order, RaisedAfter(s, d, op));
  }

  /** Over every permitted run: no window is lost or repeated, and whenever no blocker is held the
      stacking order is the settled order of the current unconstrained one. */
  lemma {:induction false} RunSound(s: Scene, d: State, ops: seq<Op>)
    requires Tidy(s) && Sound(s, d) && Permitted(s, d, ops)
    ensures Sound(s, Run(s, d, ops)) && multiset(Run(s, d, ops).order) == multiset(d.order)
    decreases |ops|
  {
    if ops != [] {
      ApplySound(s, d, ops[0]);
      RunSound(s, Apply(s, d, ops[0]), ops[1..]);
    }
  }

  /** Updating twice in a row: the second update changes nothing and reports no change, whatever the
      stacking order was before and also if the first one was forced. */
  lemma SecondUpdateReportsNoChange(s: Scene, d: State, first: bool, second: bool)
    requires Tidy(s) && NoDup(d.order) && Closed(s, d.order) && d.blocks == 0
    ensures var e := Refreshed(s, d, first);
            Refreshed(s, e, second) == e.(updates := e.updates + [Update(false, second)])
  {
    Idempotent(s, d.order, d.stack);
  }

  /** Raising a window, as it shows in the stacking order once the outermost blocker is released:
      the tree of a loose window stands above the tree of a loose window that was not raised and is
      given the same layer exactly if it was raised too or stood above it before. */
  lemma RaiseShows(s: Scene, d: State, w: Window, root: Window, other: Window)
    requires Forest(s) && NoDup(d.order) && Closed(s, d.order) && d.blocks == 0 && Allowed(s, d, Raise(w))
    requires Loose(s, root) && Loose(s, other) && root != other && !RaisedWith(s, w, other)
    requires GivenSameLayer(s, Apply(s, d, Raise(w)).order, root, other)
    ensures TreeAbove(s, Apply(s, d, Raise(w)).stack, root, other)
       <==> RaisedWith(s, w, root) || IndexOf(d.order, other) < IndexOf(d.order, root)
  {
    RaiseLiftsTree(s, d.order, d.stack, w, root, other);
  }

  // ----- deferred updates -----

  /** The counter of blockers stays positive throughout the run. */
  predicate StaysBlocked(s: Scene, d: State, ops: seq<Op>)
    requires Permitted(s, d, ops)
    decreases |ops|
  {
    d.blocks > 0 && (ops == [] || StaysBlocked(s, Apply(s, d, ops[0]), ops[1..]))
  }

  /** From `d` to `e` nothing was recomputed; a propagation was asked for or not, and so was a change. */
  ghost predicate Held(d: State, e: State, asked: bool, forced: bool) {
    && e.stack == d.stack && e.updates == d.updates
    && (e.pending <==> d.pending || asked) && (e.force <==> d.force || forced)
  }

  lemma HeldStep(s: Scene, d: State, e: State, asked: bool, forced: bool, op: Op)
    requires Held(d, e, asked, forced) && e.blocks > 0 && Allowed(s, e, op) && Apply(s, e, op).blocks > 0
    ensures Held(d, Apply(s, e, op), asked || op == Refresh(true), forced || op == ForceRestacking)
  {
  }

  /** While the counter is positive nothing is recomputed, whatever happens. */
  lemma {:induction false} HeldRun(s: Scene, d: State, e: State, asked: bool, forced: bool, ops: seq<Op>)
    requires Held(d, e, asked, forced) && Permitted(s, e, ops) && StaysBlocked(s, e, ops)
    ensures Held(d, Run(s, e, ops), asked || Refresh(true) in ops, forced || ForceRestacking in ops)
    decreases |ops|
  {
    if ops != [] {
      assert ops == [ops[0]] + ops[1..];
      HeldStep(s, d, e, asked, forced, ops[0]);
      HeldRun(s, d, Apply(s, e, ops[0]), asked || ops[0] == Refresh(true), forced || ops[0] == ForceRestacking,
              ops[1..]);
    }
  }

  /** `after` is `inside` with the stacking order recomputed, once, and reported as a change exactly if
      one was forced or the stacking order differs from the one of `d`. */
  ghost predicate RecomputedOnce(s: Scene, d: State, inside: State, after: State, propagate: bool, forced: bool) {
    && after.order == inside.order && after.blocks == 0
    && after.stack == Constrained(s, inside.order, d.stack)
    && after.updates == d.updates + [Update(forced || after.stack != d.stack, propagate)]
  }

  /** From the first blocker to the release of the outermost one: whatever happens in between, the
      stacking order stays untouched, and the release recomputes it once, propagating exactly if
      some request in between asked for it, and reporting a change exactly if one was forced before or
      in between, or the stacking order comes out different. */
  lemma DeferredUpdate(s: Scene, d: State, body: seq<Op>)
    requires d.blocks == 0 && Permitted(s, Blocked(d), body) && StaysBlocked(s, Blocked(d), body)
    ensures var inside := Run(s, Blocked(d), body);
            && inside.stack == d.stack && inside.updates == d.updates
            && (inside.blocks == 1 ==>
                  RecomputedOnce(s, d, inside, Unblocked(s, inside), Refresh(true) in body,
                                 d.force || ForceRestacking in body))
  {
    HeldRun(s, Blocked(d), Blocked(d), false, false, body);
  }
}
