/** Scheduling of repaints by the X11 compositor (composite.cpp). */
module Compositing {
  import opened Seqs
  import opened PaintStatistics

  /** A region of the screen, as the set of its cells. */
  type Region = set<nat>

  /** Between calls the compositor is off or on; starting and stopping happen within one call. */
  datatype Phase = Off | Starting | On | Stopping

  datatype SuspendReason = UserSuspend | BlockRuleSuspend | ScriptSuspend

  /** What happens while the scene paints: repaints are added, buffers are swapped. */
  datatype PaintAction = Add(region: Region) | Swap

  /** One performed composition, as far as it is decided outside the compositor. */
  datatype Paint = Paint(
    overlayHidden: bool,
    windowsDamaged: bool,
    actions: seq<PaintAction>,
    hasSwapEvent: bool,
    duration: int)

  /** Everything a start depends on from outside. */
  datatype Startup = Startup(possible: bool, setupSucceeds: bool, screen: Region, first: Paint)

  /** A record of what was asked for and what was handed out for painting. */
  datatype Entry = Requested(region: Region) | Painted(region: Region)

  /** `log` is the record since the start. */
  datatype State = State(
    phase: Phase,
    timer: bool,
    swapPending: bool,
    repaints: Region,
    outputsEnabled: bool,
    suspended: set<SuspendReason>,
    durations: Durations,
    log: seq<Entry>)

  function TimerSet(c: State): State {
    if c.timer || c.swapPending then c else c.(timer := true)
  }

  function ScheduledRepaint(c: State): State {
    if c.phase != On || !c.outputsEnabled then c else TimerSet(c)
  }

  function RepaintAdded(c: State, region: Region): State {
    if c.phase != On then c
    else ScheduledRepaint(c.(repaints := c.repaints + region, log := c.log + [Requested(region)]))
  }

  function Painting(c: State, actions: seq<PaintAction>): State {
    if actions == [] then c
    else
      var c' := Painting(c, actions[..|actions| - 1]);
      match actions[|actions| - 1]
      case Add(region) => RepaintAdded(c', region)
      case Swap => c'.(swapPending := true)
  }

  function Swaps(actions: seq<PaintAction>): nat {
    if actions == [] then 0
    else Swaps(actions[..|actions| - 1]) + (if actions[|actions| - 1].Swap? then 1 else 0)
  }

  /** prepare_composition stops the timer and hands out the regions to repaint, if it goes ahead. */
  predicate GoesAhead(c: State, p: Paint) {
    !c.swapPending && c.outputsEnabled && (c.repaints != {} || p.windowsDamaged)
  }

  function Prepared(c: State, p: Paint): State {
    var c' := c.(timer := false);
    if GoesAhead(c, p) then c'.(repaints := {}, log := c.log + [Painted(c.repaints)]) else c'
  }

  function Composed(c: State, p: Paint): State {
    if p.overlayHidden then c
    else
      var c' := Prepared(c, p);
      if !GoesAhead(c, p) then c'
      else
        var after := Painting(c', p.actions);
        var timed := after.(durations := Recorded(after.durations, p.duration));
        if p.hasSwapEvent then timed else TimerSet(timed)
  }

  function SwapCompleted(c: State): State {
    if !c.swapPending then c else TimerSet(c.(swapPending := false, timer := false))
  }

  function Stopped(c: State): State {
    if c.phase == Off || c.phase == Stopping then c
    else c.(phase := Off, swapPending := false, timer := false, repaints := {}, log := [])
  }

  function Started(c: State, s: Startup): State {
    if c.suspended != {} || !s.possible || c.phase != Off then c
    else if !s.setupSucceeds then c
    else Composed(RepaintAdded(c.(phase := On), s.screen), s.first)
  }

  datatype Op =
    | AddRepaint(region: Region)
    | ScheduleRepaint
    | TimerFires(paint: Paint)
    | BufferSwapComplete
    | Suspend(reason: SuspendReason)
    | Resume(reasons: set<SuspendReason>, startup: Startup)
    | Toggle(startup: Startup)
    | Reinitialize(startup: Startup)
    | Stop
    | SetOutputs(enabled: bool)

  function Resumed(c: State, reasons: set<SuspendReason>, startup: Startup): State {
    Started(c.(suspended := c.suspended - reasons), startup)
  }

  function Suspended(c: State, reason: SuspendReason): State {
    Stopped(c.(suspended := c.suspended + {reason}))
  }

  function Apply(c: State, op: Op): State {
    match op
    case AddRepaint(region) => RepaintAdded(c, region)
    case ScheduleRepaint => ScheduledRepaint(c)
    case TimerFires(paint) => Composed(c, paint)
    case BufferSwapComplete => SwapCompleted(c)
    case Suspend(reason) => Suspended(c, reason)
    case Resume(reasons, startup) => Resumed(c, reasons, startup)
    case Toggle(startup) =>
      if c.suspended != {} then Resumed(c, {UserSuspend, BlockRuleSuspend, ScriptSuspend}, startup)
      else Suspended(c, UserSuspend)
    case Reinitialize(startup) => Started(Stopped(c.(suspended := {})), startup)
    case Stop => Stopped(c)
    case SetOutputs(enabled) => c.(outputsEnabled := enabled)
  }

  predicate OneSwap(p: Paint) {
    Swaps(p.actions) <= 1
  }

  /** The timer fires only while it is active, and every paint swaps buffers once at most. */
  predicate Possible(c: State, op: Op) {
    match op
    case TimerFires(paint) => c.timer && OneSwap(paint)
    case Resume(_, startup) => OneSwap(startup.first)
    case Toggle(startup) => OneSwap(startup.first)
    case Reinitialize(startup) => OneSwap(startup.first)
    case _ => true
  }

  predicate PossibleRun(c: State, ops: seq<Op>)
    decreases |ops|
  {
    ops == [] || (Possible(c, ops[0]) && PossibleRun(Apply(c, ops[0]), ops[1..]))
  }

  function Run(c: State, ops: seq<Op>): State
    requires PossibleRun(c, ops)
    decreases |ops|
  {
    if ops == [] then c else Run(Apply(c, ops[0]), ops[1..])
  }

  // ----- the object -----

  class X11Compositor {
    var phase: Phase
    var compositeTimer: bool
    var bufferSwapPending: bool
    var repaintsRegion: Region
    var outputsEnabled: bool
    var suspended: set<SuspendReason>
    var lastPaintDurations: Durations
    ghost var log: seq<Entry>

    ghost function View(): State
      reads this
    {
      State(phase, compositeTimer, bufferSwapPending, repaintsRegion, outputsEnabled, suspended,
            lastPaintDurations, log)
    }

    constructor (useCompositing: bool)
      ensures View() == State(Off, false, false, {}, true, if useCompositing then {} else {UserSuspend},
                              START, [])
    {
      phase, compositeTimer, bufferSwapPending, repaintsRegion, outputsEnabled := Off, false, false, {}, true;
      suspended := if useCompositing then {} else {UserSuspend};
      lastPaintDurations := START;
      log := [];
    }

    method SetCompositeTimer()
      modifies this
      ensures View() == TimerSet(old(View()))
    {
      if compositeTimer || bufferSwapPending {
        return;
      }
      compositeTimer := true;
    }

    method ScheduleRepaintNow()
      modifies this
      ensures View() == ScheduledRepaint(old(View()))
    {
      if phase != On {
        return;
      }
      if !outputsEnabled {
        return;
      }
      SetCompositeTimer();
    }

    method AddRepaintRegion(region: Region)
      modifies this
      ensures View() == RepaintAdded(old(View()), region)
    {
      if phase != On {
        return;
      }
      repaintsRegion := repaintsRegion + region;
      log := log + [Requested(region)];
      ScheduleRepaintNow();
    }

    method AboutToSwapBuffers()
      requires !bufferSwapPending
      modifies this
      ensures View() == old(View()).(swapPending := true)
    {
      bufferSwapPending := true;
    }

    method FinishBufferSwap()
      modifies this
      ensures View() == SwapCompleted(old(View()))
    {
      if !bufferSwapPending {
        return;
      }
      bufferSwapPending := false;
      compositeTimer := false;
      SetCompositeTimer();
    }

    method UpdatePaintPeriods(duration: int)
      modifies this
      ensures View() == old(View()).(durations := Recorded(old(View()).durations, duration))
    {
      var previous, current := lastPaintDurations.previous, lastPaintDurations.current;
      var periods := lastPaintDurations.periods;
      if duration > current {
        current := duration;
      }
      periods := periods + 1;
      if periods == 100 {
        previous := current;
        current := 0;
        periods := 0;
      }
      lastPaintDurations := Durations(previous, current, periods);
    }

    method PrepareComposition(p: Paint) returns (proceed: bool, repaints: Region)
      modifies this
      ensures View() == Prepared(old(View()), p) && proceed == GoesAhead(old(View()), p)
      ensures repaints == if proceed then old(repaintsRegion) else {}
    {
      compositeTimer := false;
      if bufferSwapPending {
        return false, {};
      }
      if !outputsEnabled {
        return false, {};
      }
      if repaintsRegion == {} && !p.windowsDamaged {
        return false, {};
      }
      repaints := repaintsRegion;
      log := log + [Painted(repaintsRegion)];
      repaintsRegion := {};
      proceed := true;
    }

    /** The scene paints. With one swap at most, the assertion in aboutToSwapBuffers holds. */
    method PaintScene(actions: seq<PaintAction>)
      requires !bufferSwapPending && Swaps(actions) <= 1
      modifies this
      ensures View() == Painting(old(View()), actions)
    {
      ghost var c := View();
      for i := 0 to |actions|
        invariant View() == Painting(c, actions[..i])
        invariant bufferSwapPending == (Swaps(actions[..i]) > 0)
      {
        assert actions[..i + 1][..i] == actions[..i];
        SwapsGrow(actions, i + 1);
        match actions[i]
        case Add(region) => AddRepaintRegion(region);
        case Swap => AboutToSwapBuffers();
      }
      assert actions[..|actions|] == actions;
    }

    method PerformCompositing(p: Paint)
      requires OneSwap(p)
      modifies this
      ensures View() == Composed(old(View()), p)
    {
      if p.overlayHidden {
        return;
      }
      var proceed, _ := PrepareComposition(p);
      if !proceed {
        return;
      }
      PaintScene(p.actions);
      UpdatePaintPeriods(p.duration);
      if p.hasSwapEvent {
        return;
      }
      SetCompositeTimer();
    }

    method StopCompositing()
      modifies this
      ensures View() == Stopped(old(View()))
    {
      if phase == Off || phase == Stopping {
        return;
      }
      phase := Stopping;
      bufferSwapPending := false;
      compositeTimer := false;
      repaintsRegion := {};
      log := [];
      phase := Off;
    }

    method Start(s: Startup)
      requires OneSwap(s.first)
      modifies this
      ensures View() == Started(old(View()), s)
    {
      if suspended != {} {
        return;
      } else if !s.possible {
        return;
      }
      if phase != Off {
        return;
      }
      phase := Starting;
      if !s.setupSucceeds {
        phase := Off;
        return;
      }
      phase := On;
      AddRepaintRegion(s.screen);
      PerformCompositing(s.first);
    }

    method SuspendFor(reason: SuspendReason)
      modifies this
      ensures View() == Suspended(old(View()), reason)
    {
      suspended := suspended + {reason};
      StopCompositing();
    }

    method ResumeFrom(reasons: set<SuspendReason>, s: Startup)
      requires OneSwap(s.first)
      modifies this
      ensures View() == Resumed(old(View()), reasons, s)
    {
      suspended := suspended - reasons;
      Start(s);
    }

    method ToggleCompositing(s: Startup)
      requires OneSwap(s.first)
      modifies this
      ensures View() == Apply(old(View()), Toggle(s))
    {
      if suspended != {} {
        ResumeFrom({UserSuspend, BlockRuleSuspend, ScriptSuspend}, s);
      } else {
        SuspendFor(UserSuspend);
      }
    }

    method ReinitializeNow(s: Startup)
      requires OneSwap(s.first)
      modifies this
      ensures View() == Apply(old(View()), Reinitialize(s))
    {
      suspended := {};
      StopCompositing();
      Start(s);
    }
  }

  lemma {:induction false} SwapsGrow(actions: seq<PaintAction>, i: nat)
    requires i <= |actions|
    ensures Swaps(actions[..i]) <= Swaps(actions)
    decreases |actions| - i
  {
    if i < |actions| {
      assert actions[..i + 1][..i] == actions[..i];
      SwapsGrow(actions, i + 1);
    } else {
      assert actions[..i] == actions;
    }
  }

  // ----- every request is painted or still collected -----

  /** What was requested and not handed out for painting since. */
  function Outstanding(log: seq<Entry>): Region {
    if log == [] then {}
    else
      var before := Outstanding(log[..|log| - 1]);
      match log[|log| - 1]
      case Requested(region) => before + region
      case Painted(region) => before - region
  }

  /** `x` was requested at position `i` of the log and not painted later. */
  ghost predicate UnpaintedSince(log: seq<Entry>, i: nat, x: nat)
    requires i < |log|
  {
    && log[i].Requested? && x in log[i].region
    && forall j :: i < j < |log| && log[j].Painted? ==> x !in log[j].region
  }

  ghost predicate Unpainted(log: seq<Entry>, x: nat) {
    exists i :: 0 <= i < |log| && UnpaintedSince(log, i, x)
  }

  lemma UnpaintedStep(log: seq<Entry>, x: nat)
    requires log != []
    ensures var front, last := log[..|log| - 1], log[|log| - 1];
            Unpainted(log, x) <==> if last.Requested? then x in last.region || Unpainted(front, x)
                                   else x !in last.region && Unpainted(front, x)
  {
    var front, last := log[..|log| - 1], log[|log| - 1];
    if Unpainted(log, x) {
      var i :| 0 <= i < |log| && UnpaintedSince(log, i, x);
      if i < |front| {
        assert UnpaintedSince(front, i, x);
      }
    }
    if last.Requested? && x in last.region {
      assert UnpaintedSince(log, |log| - 1, x);
    } else if Unpainted(front, x) && (last.Requested? || x !in last.region) {
      var i :| 0 <= i < |front| && UnpaintedSince(front, i, x);
      assert UnpaintedSince(log, i, x);
    }
  }

  /** That is, exactly the cells of which some request was not painted since. */
  lemma {:induction false} OutstandingMeans(log: seq<Entry>, x: nat)
    ensures x in Outstanding(log) <==> Unpainted(log, x)
  {
    if log != [] {
      OutstandingMeans(log[..|log| - 1], x);
      UnpaintedStep(log, x);
    }
  }

  ghost predicate Sound(c: State) {
    && (c.phase == Off || c.phase == On)
    && (c.phase == On ==> c.suspended == {})
    && (c.timer || c.swapPending || c.repaints != {} ==> c.phase == On)
    && c.repaints == Outstanding(c.log)
  }

  lemma Logged(log: seq<Entry>, e: Entry)
    ensures Outstanding(log + [e]) == if e.Requested? then Outstanding(log) + e.region else Outstanding(log) - e.region
  {
    assert (log + [e])[..|log|] == log;
  }

  lemma AddedSound(c: State, region: Region)
    requires Sound(c)
    ensures Sound(RepaintAdded(c, region))
  {
    Logged(c.log, Requested(region));
  }

  lemma PreparedSound(c: State, p: Paint)
    requires Sound(c)
    ensures Sound(Prepared(c, p))
  {
    Logged(c.log, Painted(c.repaints));
  }

  lemma {:induction false} PaintingSound(c: State, actions: seq<PaintAction>)
    requires Sound(c) && c.phase == On
    ensures var c' := Painting(c, actions);
            Sound(c') && c'.phase == On && c'.outputsEnabled == c.outputsEnabled
  {
    if actions != [] {
      PaintingSound(c, actions[..|actions| - 1]);
      match actions[|actions| - 1]
      case Add(region) => AddedSound(Painting(c, actions[..|actions| - 1]), region);
      case Swap =>
    }
  }

  lemma ComposedSound(c: State, p: Paint)
    requires Sound(c) && c.phase == On
    ensures Sound(Composed(c, p)) && Composed(c, p).outputsEnabled == c.outputsEnabled
  {
    PreparedSound(c, p);
    if !p.overlayHidden && GoesAhead(c, p) {
      PaintingSound(Prepared(c, p), p.actions);
    }
  }

  /** The start goes through. */
  predicate StartsUp(c: State, s: Startup) {
    c.suspended == {} && s.possible && c.phase == Off && s.setupSucceeds
  }

  lemma StartedSound(c: State, s: Startup)
    requires Sound(c)
    ensures Sound(Started(c, s)) && Started(c, s).outputsEnabled == c.outputsEnabled
  {
    if StartsUp(c, s) {
      AddedSound(c.(phase := On), s.screen);
      ComposedSound(RepaintAdded(c.(phase := On), s.screen), s.first);
    }
  }

  /** For an operation that may start the compositor, the state it starts from. */
  function StartOf(c: State, op: Op): Option<(State, Startup)> {
    match op
    case Resume(reasons, startup) => Some((c.(suspended := c.suspended - reasons), startup))
    case Toggle(startup) =>
      if c.suspended == {} then None
      else Some((c.(suspended := c.suspended - {UserSuspend, BlockRuleSuspend, ScriptSuspend}), startup))
    case Reinitialize(startup) => Some((Stopped(c.(suspended := {})), startup))
    case _ => None
  }

  lemma ApplySound(c: State, op: Op)
    requires Sound(c) && Possible(c, op)
    ensures Sound(Apply(c, op))
    ensures op.SetOutputs? || Apply(c, op).outputsEnabled == c.outputsEnabled
  {
    if StartOf(c, op).Some? {
      StartedSound(StartOf(c, op).value.0, StartOf(c, op).value.1);
    } else if op.TimerFires? {
      ComposedSound(c, op.paint);
    } else if op.AddRepaint? {
      AddedSound(c, op.region);
    }
  }

  /** Over every run: compositing goes with no suspend reason, and what is collected are exactly the cells
      that were requested and not painted since. */
  lemma {:induction false} RunSound(c: State, ops: seq<Op>)
    requires Sound(c) && PossibleRun(c, ops)
    ensures var c' := Run(c, ops);
            && Sound(c')
            && forall x :: x in c'.repaints <==> Unpainted(c'.log, x)
    decreases |ops|
  {
    if ops != [] {
      ApplySound(c, ops[0]);
      RunSound(Apply(c, ops[0]), ops[1..]);
    } else {
      forall x ensures x in c.repaints <==> Unpainted(c.log, x) {
        OutstandingMeans(c.log, x);
      }
    }
  }

  // ----- what is collected gets scheduled -----

  /** What is to be painted has a timer or a pending swap that leads to its painting. */
  predicate Live(c: State) {
    c.repaints != {} ==> c.timer || c.swapPending
  }

  /** The operation leaves something collected that nothing will paint: a region is added, a pending
      composition is given up or compositing starts, all while outputs are disabled. */
  predicate Strands(c: State, op: Op) {
    && !c.outputsEnabled
    && match op
       case AddRepaint(region) => c.phase == On && !c.timer && !c.swapPending && region != {}
       case TimerFires(paint) => !paint.overlayHidden && !c.swapPending && c.repaints != {}
       case _ =>
         && StartOf(c, op).Some? && StartsUp(StartOf(c, op).value.0, StartOf(c, op).value.1)
         && StartOf(c, op).value.1.screen != {}
  }

  /** The operation gets what was stranded scheduled, or drops it. */
  predicate Rescues(c: State, op: Op) {
    match op
    case AddRepaint(_) => c.outputsEnabled
    case ScheduleRepaint => c.outputsEnabled
    case Suspend(_) => true
    case Toggle(_) => true
    case Reinitialize(_) => !Strands(c, op)
    case Stop => true
    case _ => false
  }

  lemma {:induction false} PaintingLive(c: State, actions: seq<PaintAction>)
    requires c.phase == On && c.outputsEnabled && Live(c)
    ensures var c' := Painting(c, actions); Live(c') && c'.phase == On && c'.outputsEnabled
  {
    if actions != [] {
      PaintingLive(c, actions[..|actions| - 1]);
    }
  }

  lemma ComposedLive(c: State, p: Paint)
    requires Sound(c) && c.phase == On && (c.outputsEnabled ==> Live(c))
    ensures Live(Composed(c, p)) <==>
            if c.outputsEnabled || p.overlayHidden then Live(c) else c.swapPending || c.repaints == {}
  {
    if !p.overlayHidden && GoesAhead(c, p) {
      PaintingLive(Prepared(c, p), p.actions);
    }
  }

  lemma StartedLive(c: State, s: Startup)
    requires Sound(c)
    ensures StartsUp(c, s) ==> (Live(Started(c, s)) <==> c.outputsEnabled || s.screen == {})
    ensures !StartsUp(c, s) ==> Started(c, s) == c
  {
    if StartsUp(c, s) {
      var on := RepaintAdded(c.(phase := On), s.screen);
      AddedSound(c.(phase := On), s.screen);
      ComposedLive(on, s.first);
    }
  }

  /** Exactly which operations leave the collected regions scheduled. */
  lemma StepLive(c: State, op: Op)
    requires Sound(c) && Possible(c, op)
    ensures Live(Apply(c, op)) <==> if Live(c) then !Strands(c, op) else Rescues(c, op)
  {
    if StartOf(c, op).Some? {
      StartedLive(StartOf(c, op).value.0, StartOf(c, op).value.1);
    } else if op.TimerFires? {
      ComposedLive(c, op.paint);
    }
  }

  predicate AlwaysLive(c: State, ops: seq<Op>)
    requires PossibleRun(c, ops)
    decreases |ops|
  {
    Live(c) && (ops == [] || AlwaysLive(Apply(c, ops[0]), ops[1..]))
  }

  predicate NeverStrands(c: State, ops: seq<Op>)
    requires PossibleRun(c, ops)
    decreases |ops|
  {
    ops == [] || (!Strands(c, ops[0]) && NeverStrands(Apply(c, ops[0]), ops[1..]))
  }

  /** Throughout a run everything collected is scheduled exactly if no operation of it strands. */
  lemma {:induction false} RunLive(c: State, ops: seq<Op>)
    requires Sound(c) && Live(c) && PossibleRun(c, ops)
    ensures AlwaysLive(c, ops) <==> NeverStrands(c, ops)
    decreases |ops|
  {
    if ops != [] {
      ApplySound(c, ops[0]);
      StepLive(c, ops[0]);
      if !Strands(c, ops[0]) {
        RunLive(Apply(c, ops[0]), ops[1..]);
      }
    }
  }

  /** As long as nothing disables the outputs, that is so in every run. */
  lemma {:induction false} NoRepaintLost(c: State, ops: seq<Op>)
    requires Sound(c) && Live(c) && c.outputsEnabled && PossibleRun(c, ops)
    requires SetOutputs(false) !in ops
    ensures AlwaysLive(c, ops)
    decreases |ops|
  {
    if ops != [] {
      ApplySound(c, ops[0]);
      StepLive(c, ops[0]);
      NoRepaintLost(Apply(c, ops[0]), ops[1..]);
    }
  }

  // ----- what gets painted, and when -----

  /** `after` continues `before`, and what it adds are requests only. */
  ghost predicate OnlyRequestsAdded(before: seq<Entry>, after: seq<Entry>) {
    before <= after && forall i :: |before| <= i < |after| ==> after[i].Requested?
  }

  lemma {:induction false} PaintingRequests(c: State, actions: seq<PaintAction>)
    requires c.phase == On
    ensures var c' := Painting(c, actions);
            c'.phase == On && OnlyRequestsAdded(c.log, c'.log) && c'.durations == c.durations
  {
    if actions != [] {
      PaintingRequests(c, actions[..|actions| - 1]);
    }
  }

  /** A composition paints exactly if it is not hidden, no swap is pending, outputs are enabled, and there is
      something collected or some window is damaged: damage alone is enough. It then paints all that is
      collected, once, and its duration is recorded; without a swap event the next one is scheduled. If it
      does not paint it leaves the collected regions, and the timer does not run on unless it is hidden. */
  lemma ComposesExactly(c: State, p: Paint)
    requires c.phase == On
    ensures var c' := Composed(c, p);
            if !p.overlayHidden && !c.swapPending && c.outputsEnabled && (c.repaints != {} || p.windowsDamaged) then
              && OnlyRequestsAdded(c.log + [Painted(c.repaints)], c'.log)
              && c'.durations == Recorded(c.durations, p.duration)
              && (!p.hasSwapEvent ==> c'.timer || c'.swapPending)
              && (p.actions == [] ==> c'.timer == !p.hasSwapEvent && !c'.swapPending && c'.repaints == {})
            else
              && c'.log == c.log && c'.durations == c.durations && c'.repaints == c.repaints
              && c'.swapPending == c.swapPending && c'.timer == (c.timer && p.overlayHidden)
  {
    if !p.overlayHidden && GoesAhead(c, p) {
      PaintingRequests(Prepared(c, p), p.actions);
    }
  }

  /** A start requests the whole screen and, if it can, paints it at once. */
  lemma StartPaints(c: State, s: Startup)
    requires Sound(c) && StartsUp(c, s)
    ensures Started(c, s).phase == On && c.log + [Requested(s.screen)] <= Started(c, s).log
    ensures c.outputsEnabled && !s.first.overlayHidden && (s.screen != {} || s.first.windowsDamaged) ==>
              OnlyRequestsAdded(c.log + [Requested(s.screen)] + [Painted(s.screen)], Started(c, s).log)
              && Started(c, s).durations == Recorded(c.durations, s.first.duration)
  {
    var on := RepaintAdded(c.(phase := On), s.screen);
    assert on.repaints == s.screen && on.log == c.log + [Requested(s.screen)];
    ComposesExactly(on, s.first);
    AddedSound(c.(phase := On), s.screen);
    ComposedSound(on, s.first);
    ComposedOn(on, s.first);
  }

  lemma ComposedOn(c: State, p: Paint)
    requires c.phase == On
    ensures Composed(c, p).phase == On
  {
    if !p.overlayHidden && GoesAhead(c, p) {
      PaintingRequests(Prepared(c, p), p.actions);
    }
  }

  /** Requests start the timer unless a swap is pending, which starts it when it is complete. */
  lemma TimerWaitsForSwap(c: State, op: Op)
    requires c.phase == On && (op.AddRepaint? || op.ScheduleRepaint? || op.BufferSwapComplete?)
    ensures var c' := Apply(c, op);
            && c'.swapPending == (c.swapPending && !op.BufferSwapComplete?)
            && (c'.timer <==> c.timer || (if op.BufferSwapComplete? then c.swapPending
                                          else c.outputsEnabled && !c.swapPending))
            && c'.repaints == c.repaints + (if op.AddRepaint? then op.region else {})
  {
  }

  // ----- suspending -----

  /** The operation may lift the reason. */
  predicate Lifts(op: Op, reason: SuspendReason) {
    op.Toggle? || op.Reinitialize? || (op.Resume? && reason in op.reasons)
  }

  lemma ReasonStays(c: State, op: Op, reason: SuspendReason)
    requires Sound(c) && Possible(c, op) && reason in c.suspended && !Lifts(op, reason)
    ensures Sound(Apply(c, op)) && reason in Apply(c, op).suspended
  {
    ApplySound(c, op);
    if op.Resume? {
      assert reason in c.suspended - op.reasons;
    }
  }

  /** Once suspended for a reason, the compositor stays off until that reason is lifted, whatever else
      happens. */
  lemma {:induction false} SuspendHolds(c: State, reason: SuspendReason, ops: seq<Op>)
    requires Sound(c) && PossibleRun(c, ops) && reason in c.suspended
    requires forall i :: 0 <= i < |ops| ==> !Lifts(ops[i], reason)
    ensures Run(c, ops).phase == Off && reason in Run(c, ops).suspended
    decreases |ops|
  {
    if ops != [] {
      ReasonStays(c, ops[0], reason);
      SuspendHolds(Apply(c, ops[0]), reason, ops[1..]);
    }
  }

  lemma StartsOn(c: State, s: Startup)
    requires Sound(c) && StartsUp(c, s)
    ensures Started(c, s).phase == On && Started(c, s).suspended == {}
  {
    StartPaints(c, s);
    StartedSound(c, s);
  }

  /** Toggling turns a compositor that is not suspended off, by the user, and a suspended one on, whatever
      the reasons, if it can be started. */
  lemma TogglingTurns(c: State, s: Startup)
    requires Sound(c)
    ensures c.suspended == {} ==>
              Apply(c, Toggle(s)).phase == Off && Apply(c, Toggle(s)).suspended == {UserSuspend}
    ensures c.suspended != {} && s.possible && s.setupSucceeds ==>
              Apply(c, Toggle(s)).phase == On && Apply(c, Toggle(s)).suspended == {}
  {
    if c.suspended != {} && s.possible && s.setupSucceeds {
      AllReasons(c.suspended);
      StartsOn(c.(suspended := {}), s);
    }
  }

  /** Reinitialising turns it on from every state, whatever the reasons, if it can be started. */
  lemma ReinitializingTurnsOn(c: State, s: Startup)
    requires Sound(c) && s.possible && s.setupSucceeds
    ensures Apply(c, Reinitialize(s)).phase == On && Apply(c, Reinitialize(s)).suspended == {}
  {
    StartsOn(Stopped(c.(suspended := {})), s);
  }

  lemma AllReasons(reasons: set<SuspendReason>)
    ensures reasons - {UserSuspend, BlockRuleSuspend, ScriptSuspend} == {}
  {
    forall x | x in reasons ensures x in {UserSuspend, BlockRuleSuspend, ScriptSuspend} {
      assert x.UserSuspend? || x.BlockRuleSuspend? || x.ScriptSuspend?;
    }
  }
}
