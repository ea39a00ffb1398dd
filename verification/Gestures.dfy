/** Recognising touch swipes (gestures.cpp, gestures.h). */
module Gestures {
  import opened Seqs

  type GestureId = nat

  datatype Direction = Down | Left | Up | Right
  datatype Size = Size(width: real, height: real)

  /** The settings of a swipe gesture; `None` stands for a bound that is not relevant. */
  datatype SwipeGesture = SwipeGesture(
    minimumFingerCount: Option<nat>,
    maximumFingerCount: Option<nat>,
    direction: Direction,
    minimumX: Option<int>,
    maximumX: Option<int>,
    minimumY: Option<int>,
    maximumY: Option<int>,
    minimumDelta: Option<Size>)
  {
    /** The part of a movement along the axis of the gesture. */
    function Along(delta: Size): real {
      if direction in {Up, Down} then delta.height else delta.width
    }

    /** The minimum delta has an extent along the direction, so that progress is defined. */
    predicate Measurable() {
      minimumDelta.Some? && minimumDelta.value != Size(0.0, 0.0) ==> Along(minimumDelta.value) != 0.0
    }

    function Progress(delta: Size): real
      requires Measurable()
    {
      if minimumDelta.None? || minimumDelta.value == Size(0.0, 0.0) then 1.0
      else
        var p := Abs(Along(delta)) / Abs(Along(minimumDelta.value));
        if p < 1.0 then p else 1.0
    }

    predicate MinimumDeltaReached(delta: Size)
      requires Measurable()
    {
      Progress(delta) >= 1.0
    }

    predicate Starts(fingers: nat, position: Option<(real, real)>) {
      && (minimumFingerCount.Some? ==> minimumFingerCount.value <= fingers)
      && (maximumFingerCount.Some? ==> maximumFingerCount.value >= fingers)
      && (position.Some? ==>
            && (minimumX.Some? ==> minimumX.value as real <= position.value.0)
            && (maximumX.Some? ==> maximumX.value as real >= position.value.0)
            && (minimumY.Some? ==> minimumY.value as real <= position.value.1)
            && (maximumY.Some? ==> maximumY.value as real >= position.value.1))
    }
  }

  function Abs(x: real): real {
    if x < 0.0 then -x else x
  }

  /** The minimum is reached exactly when the movement along the direction is as long as it. */
  lemma ReachedMeans(g: SwipeGesture, delta: Size)
    requires g.Measurable()
    ensures g.MinimumDeltaReached(delta) <==>
            (g.minimumDelta.Some? && g.minimumDelta.value != Size(0.0, 0.0) ==>
               Abs(g.Along(delta)) >= Abs(g.Along(g.minimumDelta.value)))
    ensures 0.0 <= g.Progress(delta) <= 1.0
  {
    if g.minimumDelta.Some? && g.minimumDelta.value != Size(0.0, 0.0) {
      Quotient(Abs(g.Along(delta)), Abs(g.Along(g.minimumDelta.value)));
    }
  }

  lemma Quotient(d: real, m: real)
    requires d >= 0.0 && m > 0.0
    ensures d / m >= 1.0 <==> d >= m
    ensures d / m >= 0.0
  {
    var q := d / m;
    assert q * m == d;
    if q < 1.0 {
      Shrinks(q, m);
    } else {
      Shrinks(1.0 - (q - 1.0), m);
    }
  }

  lemma Shrinks(q: real, m: real)
    requires q <= 1.0 && m > 0.0
    ensures q * m <= m && (q < 1.0 ==> q * m < m)
  {
    assert (1.0 - q) * m >= 0.0;
  }

  predicate Negligible(delta: Size) {
    Abs(delta.width) < 1.0 && Abs(delta.height) < 1.0
  }

  predicate Diagonal(delta: Size) {
    delta.width == delta.height
  }

  function DominantDirection(delta: Size): Direction {
    if Abs(delta.width) > Abs(delta.height) then
      if delta.width < 0.0 then Left else Right
    else
      if delta.height < 0.0 then Up else Down
  }

  function Sum(ds: seq<Size>): Size {
    if ds == [] then Size(0.0, 0.0)
    else
      var front, last := Sum(ds[..|ds| - 1]), ds[|ds| - 1];
      Size(front.width + last.width, front.height + last.height)
  }

  // ----- the recognizer on values -----

  /** A gesture being matched; `pending` are the updates that were kept when it started, `since` those
      that came later. */
  datatype Match = Match(gesture: GestureId, pending: seq<Size>, since: seq<Size>)

  /** Signals with, for a triggered gesture, the same record and the summed movement. */
  datatype Signal =
    | Started(gesture: GestureId)
    | Triggered(gesture: GestureId, pending: seq<Size>, since: seq<Size>, moved: Size)
    | Cancelled(gesture: GestureId)

  datatype Recognizer = Recognizer(
    gestures: seq<GestureId>,
    active: seq<Match>,
    updates: seq<Size>,
    signals: seq<Signal>)

  type Settings = GestureId -> SwipeGesture

  function Cancellations(active: seq<Match>): seq<Signal> {
    seq(|active|, i requires 0 <= i < |active| => Cancelled(active[i].gesture))
  }

  /** The position of the first match of `g`, or `|active|`. */
  function FirstMatch(active: seq<Match>, g: GestureId): (i: nat)
    ensures i <= |active|
    ensures i < |active| ==> active[i].gesture == g
    ensures forall j :: 0 <= j < i ==> active[j].gesture != g
  {
    if active == [] || active[0].gesture == g then 0 else 1 + FirstMatch(active[1..], g)
  }

  function Unregistered(r: Recognizer, g: GestureId): Recognizer {
    var i := FirstMatch(r.active, g);
    var r' := r.(gestures := Without(r.gestures, {g}));
    if i < |r.active| then
      r'.(active := r.active[..i] + r.active[i + 1..], signals := r.signals + [Cancelled(g)])
    else r'
  }

  /** Starting the registered gestures `gs` that match the fingers and the position. */
  function StartedFrom(s: Settings, r: Recognizer, gs: seq<GestureId>, fingers: nat,
                       position: Option<(real, real)>): Recognizer
  {
    if gs == [] then r
    else
      var r', g := StartedFrom(s, r, gs[..|gs| - 1], fingers, position), gs[|gs| - 1];
      if s(g).Starts(fingers, position) then
        r'.(active := r'.active + [Match(g, r'.updates, [])], signals := r'.signals + [Started(g)])
      else r'
  }

  function Begun(s: Settings, r: Recognizer, fingers: nat, position: Option<(real, real)>): Recognizer {
    StartedFrom(s, r, r.gestures, fingers, position)
  }

  function CancelledActive(r: Recognizer): Recognizer {
    r.(active := [], signals := r.signals + Cancellations(r.active))
  }

  function Seen(active: seq<Match>, delta: Size): (r: seq<Match>)
    ensures |r| == |active|
    ensures forall i :: 0 <= i < |r| ==> r[i] == active[i].(since := active[i].since + [delta])
  {
    seq(|active|, i requires 0 <= i < |active| => active[i].(since := active[i].since + [delta]))
  }

  /** Keeps the matches of gestures in direction `d` and cancels the others. */
  function Narrowed(s: Settings, r: Recognizer, active: seq<Match>, d: Direction): Recognizer {
    if active == [] then r.(active := [])
    else
      var r', m := Narrowed(s, r, active[..|active| - 1], d), active[|active| - 1];
      if s(m.gesture).direction == d then r'.(active := r'.active + [m])
      else r'.(signals := r'.signals + [Cancelled(m.gesture)])
  }

  function Updated(s: Settings, r: Recognizer, delta: Size): Recognizer {
    var r' := r.(updates := r.updates + [delta], active := Seen(r.active, delta));
    if Negligible(delta) then r'
    else if Diagonal(delta) then CancelledActive(r')
    else Narrowed(s, r', r'.active, DominantDirection(delta))
  }

  function Outcome(s: Settings, m: Match, delta: Size): Signal
    requires s(m.gesture).Measurable()
  {
    if s(m.gesture).MinimumDeltaReached(delta) then Triggered(m.gesture, m.pending, m.since, delta)
    else Cancelled(m.gesture)
  }

  ghost predicate AllMeasurable(s: Settings) {
    forall g :: s(g).Measurable()
  }

  type Measured = s: Settings | AllMeasurable(s)
    ghost witness (g: GestureId) => SwipeGesture(None, None, Down, None, None, None, None, None)

  function Outcomes(s: Measured, active: seq<Match>, delta: Size): seq<Signal> {
    if active == [] then []
    else Outcomes(s, active[..|active| - 1], delta) + [Outcome(s, active[|active| - 1], delta)]
  }

  function Ended(s: Measured, r: Recognizer): Recognizer {
    r.(active := [], updates := [], signals := r.signals + Outcomes(s, r.active, Sum(r.updates)))
  }

  datatype Op =
    | Register(g: GestureId)
    | Unregister(g: GestureId)
    | Start(fingers: nat, position: Option<(real, real)>)
    | Update(delta: Size)
    | Cancel
    | End

  function Apply(s: Measured, r: Recognizer, op: Op): Recognizer {
    match op
    case Register(g) => r.(gestures := r.gestures + [g])
    case Unregister(g) => Unregistered(r, g)
    case Start(fingers, position) => Begun(s, r, fingers, position)
    case Update(delta) => Updated(s, r, delta)
    case Cancel => CancelledActive(r).(updates := [])
    case End => Ended(s, r)
  }

  function Run(s: Measured, r: Recognizer, ops: seq<Op>): Recognizer
    decreases |ops|
  {
    if ops == [] then r else Run(s, Apply(s, r, ops[0]), ops[1..])
  }

  // ----- the object -----

  class GestureRecognizer {
    const settings: Measured
    var gestures: seq<GestureId>
    /** m_activeSwipeGestures; the updates kept with a match are only for the record. */
    var activeSwipeGestures: seq<Match>
    var swipeUpdates: seq<Size>
    var signals: seq<Signal>

    function View(): Recognizer
      reads this
    {
      Recognizer(gestures, activeSwipeGestures, swipeUpdates, signals)
    }

    constructor (settings: Measured)
      ensures View() == Recognizer([], [], [], []) && this.settings == settings
    {
      this.settings := settings;
      gestures, activeSwipeGestures, swipeUpdates, signals := [], [], [], [];
    }

    method RegisterGesture(g: GestureId)
      requires g !in gestures
      modifies this
      ensures View() == Apply(settings, old(View()), Register(g))
    {
      gestures := gestures + [g];
    }

    method UnregisterGesture(g: GestureId)
      modifies this
      ensures View() == Apply(settings, old(View()), Unregister(g))
    {
      gestures := Without(gestures, {g});
      var i := FirstMatch(activeSwipeGestures, g);
      if i < |activeSwipeGestures| {
        activeSwipeGestures := activeSwipeGestures[..i] + activeSwipeGestures[i + 1..];
        signals := signals + [Cancelled(g)];
      }
    }

    method StartSwipeGesture(fingers: nat, position: Option<(real, real)>) returns (count: nat)
      modifies this
      ensures View() == Apply(settings, old(View()), Start(fingers, position))
      ensures count == |activeSwipeGestures| - old(|activeSwipeGestures|)
    {
      count := 0;
      for i := 0 to |gestures|
        invariant gestures == old(gestures)
        invariant View() == StartedFrom(settings, old(View()), gestures[..i], fingers, position)
        invariant count == |activeSwipeGestures| - old(|activeSwipeGestures|)
      {
        assert gestures[..i + 1][..i] == gestures[..i];
        var g := settings(gestures[i]);
        if g.minimumFingerCount.Some? && g.minimumFingerCount.value > fingers {
          continue;
        }
        if g.maximumFingerCount.Some? && g.maximumFingerCount.value < fingers {
          continue;
        }
        if position.Some? {
          if g.minimumX.Some? && g.minimumX.value as real > position.value.0 {
            continue;
          }
          if g.maximumX.Some? && (g.maximumX.value as real) < position.value.0 {
            continue;
          }
          if g.minimumY.Some? && g.minimumY.value as real > position.value.1 {
            continue;
          }
          if g.maximumY.Some? && (g.maximumY.value as real) < position.value.1 {
            continue;
          }
        }
        activeSwipeGestures := activeSwipeGestures + [Match(gestures[i], swipeUpdates, [])];
        count := count + 1;
        signals := signals + [Started(gestures[i])];
      }
      assert gestures[..|gestures|] == gestures;
    }

    method UpdateSwipeGesture(delta: Size)
      modifies this
      ensures View() == Apply(settings, old(View()), Update(delta))
    {
      swipeUpdates := swipeUpdates + [delta];
      activeSwipeGestures := Seen(activeSwipeGestures, delta);
      if Abs(delta.width) < 1.0 && Abs(delta.height) < 1.0 {
        return;
      }
      if delta.width == delta.height {
        CancelActiveSwipeGestures();
        return;
      }
      var direction := DominantDirection(delta);
      ghost var seen, before := View(), activeSwipeGestures;
      var i := 0;
      var kept: seq<Match> := [];
      while i < |activeSwipeGestures|
        invariant 0 <= i <= |before| && activeSwipeGestures == before
        invariant View().(active := kept) == Narrowed(settings, seen, before[..i], direction)
      {
        assert before[..i + 1][..i] == before[..i];
        var m := activeSwipeGestures[i];
        if settings(m.gesture).direction == direction {
          kept := kept + [m];
        } else {
          signals := signals + [Cancelled(m.gesture)];
        }
        i := i + 1;
      }
      assert before[..|before|] == before;
      activeSwipeGestures := kept;
    }

    method CancelActiveSwipeGestures()
      modifies this
      ensures View() == CancelledActive(old(View()))
    {
      ghost var before := signals;
      for i := 0 to |activeSwipeGestures|
        invariant activeSwipeGestures == old(activeSwipeGestures)
        invariant View() == old(View()).(signals := before + Cancellations(activeSwipeGestures)[..i])
      {
        signals := signals + [Cancelled(activeSwipeGestures[i].gesture)];
        assert Cancellations(activeSwipeGestures)[..i + 1]
            == Cancellations(activeSwipeGestures)[..i] + [Cancelled(activeSwipeGestures[i].gesture)];
      }
      activeSwipeGestures := [];
    }

    method CancelSwipeGesture()
      modifies this
      ensures View() == Apply(settings, old(View()), Cancel)
    {
      CancelActiveSwipeGestures();
      swipeUpdates := [];
    }

    method EndSwipeGesture()
      modifies this
      ensures View() == Apply(settings, old(View()), End)
    {
      var delta := Sum(swipeUpdates);
      ghost var before := signals;
      for i := 0 to |activeSwipeGestures|
        invariant activeSwipeGestures == old(activeSwipeGestures)
        invariant View() == old(View()).(signals := before + Outcomes(settings, activeSwipeGestures[..i], delta))
      {
        var m := activeSwipeGestures[i];
        assert activeSwipeGestures[..i + 1][..i] == activeSwipeGestures[..i];
        if settings(m.gesture).MinimumDeltaReached(delta) {
          signals := signals + [Triggered(m.gesture, m.pending, m.since, delta)];
        } else {
          signals := signals + [Cancelled(m.gesture)];
        }
      }
      assert activeSwipeGestures[..|activeSwipeGestures|] == activeSwipeGestures;
      activeSwipeGestures := [];
      swipeUpdates := [];
    }
  }

  // ----- every started gesture ends once -----

  /** How often `g` is being matched. */
  function Matches(active: seq<Match>, g: GestureId): nat {
    if active == [] then 0
    else Matches(active[..|active| - 1], g) + (if active[|active| - 1].gesture == g then 1 else 0)
  }

  /** Starts of `g` that have not ended yet, by the signals. */
  function Open(signals: seq<Signal>, g: GestureId): int {
    if signals == [] then 0
    else
      var n, signal := Open(signals[..|signals| - 1], g), signals[|signals| - 1];
      if signal.gesture != g then n else if signal.Started? then n + 1 else n - 1
  }

  ghost predicate Accounted(r: Recognizer) {
    forall g :: Open(r.signals, g) == Matches(r.active, g)
  }

  lemma {:induction false} OpenConcat(a: seq<Signal>, b: seq<Signal>, g: GestureId)
    ensures Open(a + b, g) == Open(a, g) + Open(b, g)
  {
    if b == [] {
      assert a + b == a;
    } else {
      assert (a + b)[..|a + b| - 1] == a + b[..|b| - 1];
      OpenConcat(a, b[..|b| - 1], g);
    }
  }

  lemma {:induction false} MatchesConcat(a: seq<Match>, b: seq<Match>, g: GestureId)
    ensures Matches(a + b, g) == Matches(a, g) + Matches(b, g)
  {
    if b == [] {
      assert a + b == a;
    } else {
      assert (a + b)[..|a + b| - 1] == a + b[..|b| - 1];
      MatchesConcat(a, b[..|b| - 1], g);
    }
  }

  lemma {:induction false} CancellationsClose(active: seq<Match>, g: GestureId)
    ensures Open(Cancellations(active), g) == 0 - Matches(active, g)
  {
    if active != [] {
      var c := Cancellations(active);
      assert c[..|c| - 1] == Cancellations(active[..|active| - 1]);
      CancellationsClose(active[..|active| - 1], g);
    }
  }

  lemma {:induction false} OutcomesClose(s: Measured, active: seq<Match>, delta: Size, g: GestureId)
    ensures Open(Outcomes(s, active, delta), g) == 0 - Matches(active, g)
  {
    if active != [] {
      var o := Outcomes(s, active, delta);
      assert o[..|o| - 1] == Outcomes(s, active[..|active| - 1], delta);
      OutcomesClose(s, active[..|active| - 1], delta, g);
    }
  }

  lemma {:induction false} SeenMatches(active: seq<Match>, delta: Size, g: GestureId)
    ensures Matches(Seen(active, delta), g) == Matches(active, g)
  {
    if active != [] {
      assert Seen(active, delta)[..|active| - 1] == Seen(active[..|active| - 1], delta);
      SeenMatches(active[..|active| - 1], delta, g);
    }
  }

  lemma {:induction false} StartedAccounted(s: Settings, r: Recognizer, gs: seq<GestureId>, fingers: nat,
                                            position: Option<(real, real)>, g: GestureId)
    requires Open(r.signals, g) == Matches(r.active, g)
    ensures var r' := StartedFrom(s, r, gs, fingers, position); Open(r'.signals, g) == Matches(r'.active, g)
  {
    if gs != [] {
      var r', h := StartedFrom(s, r, gs[..|gs| - 1], fingers, position), gs[|gs| - 1];
      StartedAccounted(s, r, gs[..|gs| - 1], fingers, position, g);
      OpenConcat(r'.signals, [Started(h)], g);
      MatchesConcat(r'.active, [Match(h, r'.updates, [])], g);
      assert [Started(h)][..0] == [] && [Match(h, r'.updates, [])][..0] == [];
    }
  }

  lemma {:induction false} NarrowedAccounted(s: Settings, r: Recognizer, active: seq<Match>, d: Direction, g: GestureId)
    ensures var r' := Narrowed(s, r, active, d);
            Open(r'.signals, g) - Matches(r'.active, g) == Open(r.signals, g) - Matches(active, g)
    ensures Narrowed(s, r, active, d).updates == r.updates
  {
    if active != [] {
      var front, m := active[..|active| - 1], active[|active| - 1];
      var r' := Narrowed(s, r, front, d);
      NarrowedAccounted(s, r, front, d, g);
      MatchesConcat(r'.active, [m], g);
      OpenConcat(r'.signals, [Cancelled(m.gesture)], g);
      assert [m][..0] == [] && [Cancelled(m.gesture)][..0] == [];
    }
  }

  lemma MatchesWithout(active: seq<Match>, i: nat, g: GestureId)
    requires i < |active|
    ensures Matches(active, g) == Matches(active[..i] + active[i + 1..], g) + (if active[i].gesture == g then 1 else 0)
  {
    var a, m, b := active[..i], active[i], active[i + 1..];
    assert active == (a + [m]) + b;
    MatchesConcat(a + [m], b, g);
    MatchesConcat(a, [m], g);
    MatchesConcat(a, b, g);
    assert [m][..0] == [];
  }

  lemma UnregisteredAccounted(r: Recognizer, h: GestureId, g: GestureId)
    requires Open(r.signals, g) == Matches(r.active, g)
    ensures Open(Unregistered(r, h).signals, g) == Matches(Unregistered(r, h).active, g)
  {
    var i := FirstMatch(r.active, h);
    if i < |r.active| {
      MatchesWithout(r.active, i, g);
      OpenConcat(r.signals, [Cancelled(h)], g);
      assert [Cancelled(h)][..0] == [];
    }
  }

  lemma UpdatedAccounted(s: Measured, r: Recognizer, delta: Size, g: GestureId)
    requires Open(r.signals, g) == Matches(r.active, g)
    ensures Open(Updated(s, r, delta).signals, g) == Matches(Updated(s, r, delta).active, g)
  {
    var r' := r.(updates := r.updates + [delta], active := Seen(r.active, delta));
    SeenMatches(r.active, delta, g);
    if Negligible(delta) {
    } else if Diagonal(delta) {
      CancellationsClose(r'.active, g);
      OpenConcat(r.signals, Cancellations(r'.active), g);
    } else {
      NarrowedAccounted(s, r', r'.active, DominantDirection(delta), g);
    }
  }

  lemma ApplyAccounted(s: Measured, r: Recognizer, op: Op, g: GestureId)
    requires Open(r.signals, g) == Matches(r.active, g)
    ensures Open(Apply(s, r, op).signals, g) == Matches(Apply(s, r, op).active, g)
  {
    match op
    case Register(_) =>
    case Unregister(h) => UnregisteredAccounted(r, h, g);
    case Start(fingers, position) => StartedAccounted(s, r, r.gestures, fingers, position, g);
    case Update(delta) => UpdatedAccounted(s, r, delta, g);
    case Cancel =>
      CancellationsClose(r.active, g);
      OpenConcat(r.signals, Cancellations(r.active), g);
    case End =>
      OutcomesClose(s, r.active, Sum(r.updates), g);
      OpenConcat(r.signals, Outcomes(s, r.active, Sum(r.updates)), g);
  }

  /** Over every run, the starts of a gesture are its triggers and cancellations, and those of its
      matches that are still going on. */
  lemma {:induction false} RunAccounted(s: Measured, r: Recognizer, ops: seq<Op>)
    requires Accounted(r)
    ensures Accounted(Run(s, r, ops))
    decreases |ops|
  {
    if ops != [] {
      forall g ensures Open(Apply(s, r, ops[0]).signals, g) == Matches(Apply(s, r, ops[0]).active, g) {
        ApplyAccounted(s, r, ops[0], g);
      }
      RunAccounted(s, Apply(s, r, ops[0]), ops[1..]);
    }
  }

  // ----- what a trigger means -----

  /** No update among `ds` that counts speaks against the direction `d`. */
  ghost predicate Straight(ds: seq<Size>, d: Direction) {
    forall i :: 0 <= i < |ds| ==> Negligible(ds[i]) || (!Diagonal(ds[i]) && DominantDirection(ds[i]) == d)
  }

  /** A condition on the updates that were kept when a gesture started. */
  type Condition = seq<Size> -> bool

  ghost predicate MatchSound(s: Settings, ok: Condition, updates: seq<Size>, m: Match) {
    updates == m.pending + m.since && ok(m.pending) && Straight(m.since, s(m.gesture).direction)
  }

  ghost predicate SignalSound(s: Measured, ok: Condition, signal: Signal) {
    signal.Triggered? ==>
      && signal.moved == Sum(signal.pending + signal.since) && ok(signal.pending)
      && s(signal.gesture).MinimumDeltaReached(signal.moved)
      && Straight(signal.since, s(signal.gesture).direction)
  }

  ghost predicate SignalsSound(s: Measured, ok: Condition, signals: seq<Signal>) {
    forall x :: x in signals ==> SignalSound(s, ok, x)
  }

  ghost predicate Sound(s: Measured, ok: Condition, r: Recognizer) {
    (forall m :: m in r.active ==> MatchSound(s, ok, r.updates, m)) && SignalsSound(s, ok, r.signals)
  }

  lemma {:induction false} StartedSound(s: Measured, ok: Condition, r: Recognizer, gs: seq<GestureId>, fingers: nat,
                                        position: Option<(real, real)>)
    requires Sound(s, ok, r) && ok(r.updates)
    ensures Sound(s, ok, StartedFrom(s, r, gs, fingers, position))
    ensures StartedFrom(s, r, gs, fingers, position).updates == r.updates
  {
    if gs != [] {
      StartedSound(s, ok, r, gs[..|gs| - 1], fingers, position);
      assert r.updates + [] == r.updates;
    }
  }

  lemma {:induction false} NarrowedSound(s: Measured, ok: Condition, r: Recognizer, active: seq<Match>, d: Direction)
    requires SignalsSound(s, ok, r.signals)
    ensures var r' := Narrowed(s, r, active, d);
            && SignalsSound(s, ok, r'.signals) && r'.updates == r.updates
            && (forall m :: m in r'.active <==> m in active && s(m.gesture).direction == d)
  {
    if active != [] {
      NarrowedSound(s, ok, r, active[..|active| - 1], d);
    }
  }

  lemma SeenSound(s: Measured, ok: Condition, r: Recognizer, delta: Size, m: Match)
    requires Sound(s, ok, r) && m in Seen(r.active, delta)
    requires Negligible(delta) || (!Diagonal(delta) && s(m.gesture).direction == DominantDirection(delta))
    ensures MatchSound(s, ok, r.updates + [delta], m)
  {
    var i :| 0 <= i < |r.active| && Seen(r.active, delta)[i] == m;
    var before := r.active[i];
    assert MatchSound(s, ok, r.updates, before);
    assert m == before.(since := before.since + [delta]);
    Assoc(before.pending, before.since, [delta]);
  }

  lemma UpdatedSound(s: Measured, ok: Condition, r: Recognizer, delta: Size)
    requires Sound(s, ok, r)
    ensures Sound(s, ok, Updated(s, r, delta))
  {
    var r' := r.(updates := r.updates + [delta], active := Seen(r.active, delta));
    var d := DominantDirection(delta);
    if Negligible(delta) {
      forall m | m in r'.active ensures MatchSound(s, ok, r'.updates, m) {
        SeenSound(s, ok, r, delta, m);
      }
    } else if Diagonal(delta) {
    } else {
      NarrowedSound(s, ok, r', r'.active, d);
      forall m | m in Narrowed(s, r', r'.active, d).active ensures MatchSound(s, ok, r'.updates, m) {
        SeenSound(s, ok, r, delta, m);
      }
    }
  }

  lemma {:induction false} OutcomesSound(s: Measured, ok: Condition, active: seq<Match>, updates: seq<Size>)
    requires forall m :: m in active ==> MatchSound(s, ok, updates, m)
    ensures SignalsSound(s, ok, Outcomes(s, active, Sum(updates)))
  {
    if active != [] {
      OutcomesSound(s, ok, active[..|active| - 1], updates);
      assert active[|active| - 1] in active;
    }
  }

  lemma ApplySound(s: Measured, ok: Condition, r: Recognizer, op: Op)
    requires Sound(s, ok, r) && (op.Start? ==> ok(r.updates))
    ensures Sound(s, ok, Apply(s, r, op))
  {
    match op
    case Start(fingers, position) => StartedSound(s, ok, r, r.gestures, fingers, position);
    case Update(delta) => UpdatedSound(s, ok, r, delta);
    case End => OutcomesSound(s, ok, r.active, r.updates);
    case _ =>
  }

  /** Whenever gestures start, the updates kept from before meet the condition. */
  ghost predicate StartsWith(s: Measured, ok: Condition, r: Recognizer, ops: seq<Op>)
    decreases |ops|
  {
    ops == [] || ((ops[0].Start? ==> ok(r.updates)) && StartsWith(s, ok, Apply(s, r, ops[0]), ops[1..]))
  }

  /** Over every run a gesture triggers only if every update since its start that counts moved in its
      direction, and the movement summed up reaches its minimum: that since its start together with
      that of the updates kept when it started, which meet any condition met at all starts. */
  lemma {:induction false} RunSound(s: Measured, ok: Condition, r: Recognizer, ops: seq<Op>)
    requires Sound(s, ok, r) && StartsWith(s, ok, r, ops)
    ensures Sound(s, ok, Run(s, r, ops))
    decreases |ops|
  {
    if ops != [] {
      ApplySound(s, ok, r, ops[0]);
      RunSound(s, ok, Apply(s, r, ops[0]), ops[1..]);
    }
  }

  // ----- the movement that is summed up -----

  predicate Anything(pending: seq<Size>) {
    true
  }

  predicate NoMovement(pending: seq<Size>) {
    Sum(pending) == Size(0.0, 0.0)
  }

  /** A trigger counts the movement since the start of the gesture. */
  predicate Exact(signal: Signal) {
    signal.Triggered? ==> signal.moved == Sum(signal.since)
  }

  ghost predicate AllExact(signals: seq<Signal>) {
    forall x :: x in signals ==> Exact(x)
  }

  lemma {:induction false} SumConcat(a: seq<Size>, b: seq<Size>)
    ensures Sum(a + b) == Size(Sum(a).width + Sum(b).width, Sum(a).height + Sum(b).height)
  {
    if b == [] {
      assert a + b == a;
    } else {
      assert (a + b)[..|a + b| - 1] == a + b[..|b| - 1];
      SumConcat(a, b[..|b| - 1]);
    }
  }

  lemma {:induction false} AnyStarts(s: Measured, r: Recognizer, ops: seq<Op>)
    ensures StartsWith(s, Anything, r, ops)
    decreases |ops|
  {
    if ops != [] {
      AnyStarts(s, Apply(s, r, ops[0]), ops[1..]);
    }
  }

  /** Over every run, a trigger counts the movement since the start of its gesture exactly if the updates
      kept when it started sum to nothing. */
  lemma RunExact(s: Measured, r: Recognizer, ops: seq<Op>, x: Signal)
    requires Sound(s, Anything, r) && x in Run(s, r, ops).signals && x.Triggered?
    ensures x.moved == Sum(x.since) <==> NoMovement(x.pending)
  {
    AnyStarts(s, r, ops);
    RunSound(s, Anything, r, ops);
    assert SignalSound(s, Anything, x);
    SumConcat(x.pending, x.since);
  }

  /** If that is so at every start, all triggers of the run do. */
  lemma CleanStartsExact(s: Measured, r: Recognizer, ops: seq<Op>)
    requires Sound(s, NoMovement, r) && StartsWith(s, NoMovement, r, ops)
    ensures AllExact(Run(s, r, ops).signals)
  {
    RunSound(s, NoMovement, r, ops);
    forall x | x in Run(s, r, ops).signals ensures Exact(x) {
      if x.Triggered? {
        assert SignalSound(s, NoMovement, x);
        SumConcat(x.pending, x.since);
      }
    }
  }

  /** An update that moves along the direction of `g` far enough for its minimum, whatever was moved. */
  function FarEnough(g: SwipeGesture, moved: Size): Size {
    var minimum := if g.minimumDelta.Some? then Abs(g.Along(g.minimumDelta.value)) else 0.0;
    var far := minimum + Abs(g.Along(moved)) + 1.0;
    match g.direction
    case Down => Size(0.0, far)
    case Up => Size(0.0, 0.0 - far)
    case Right => Size(far, 0.0)
    case Left => Size(0.0 - far, 0.0)
  }

  lemma FarEnoughReaches(g: SwipeGesture, moved: Size)
    requires g.Measurable()
    ensures var delta := FarEnough(g, moved);
            && !Negligible(delta) && !Diagonal(delta) && DominantDirection(delta) == g.direction
            && g.MinimumDeltaReached(Size(moved.width + delta.width, moved.height + delta.height))
  {
    var delta := FarEnough(g, moved);
    ReachedMeans(g, Size(moved.width + delta.width, moved.height + delta.height));
  }

  lemma {:induction false} StartedHolds(s: Measured, r: Recognizer, gs: seq<GestureId>, g: GestureId, fingers: nat,
                                        position: Option<(real, real)>)
    requires g in gs && s(g).Starts(fingers, position)
    ensures Match(g, r.updates, []) in StartedFrom(s, r, gs, fingers, position).active
    ensures StartedFrom(s, r, gs, fingers, position).updates == r.updates
  {
    var front, last := gs[..|gs| - 1], gs[|gs| - 1];
    StartedUpdates(s, r, front, fingers, position);
    if g != last || !s(last).Starts(fingers, position) {
      SplitLast(gs);
      StartedHolds(s, r, front, g, fingers, position);
    } else {
      var active := StartedFrom(s, r, gs, fingers, position).active;
      assert active[|active| - 1] == Match(g, r.updates, []);
    }
  }

  lemma {:induction false} StartedUpdates(s: Measured, r: Recognizer, gs: seq<GestureId>, fingers: nat,
                                          position: Option<(real, real)>)
    ensures StartedFrom(s, r, gs, fingers, position).updates == r.updates
  {
    if gs != [] {
      StartedUpdates(s, r, gs[..|gs| - 1], fingers, position);
    }
  }

  lemma {:induction false} OutcomesHold(s: Measured, active: seq<Match>, delta: Size, m: Match)
    requires m in active
    ensures Outcome(s, m, delta) in Outcomes(s, active, delta)
  {
    var front, last := active[..|active| - 1], active[|active| - 1];
    SplitLast(active);
    if m in front {
      OutcomesHold(s, front, delta, m);
    } else {
      var o := Outcomes(s, active, delta);
      assert o[|o| - 1] == Outcome(s, last, delta);
    }
  }

  /** Moved far enough, a match stays, with the update seen. */
  lemma MovedStays(s: Measured, r: Recognizer, m: Match)
    requires m in r.active
    ensures var delta := FarEnough(s(m.gesture), Sum(r.updates));
            var r' := Apply(s, r, Update(delta));
            m.(since := m.since + [delta]) in r'.active && r'.updates == r.updates + [delta]
  {
    var g := s(m.gesture);
    var delta := FarEnough(g, Sum(r.updates));
    FarEnoughReaches(g, Sum(r.updates));
    var seen := Seen(r.active, delta);
    var i :| 0 <= i < |r.active| && r.active[i] == m;
    var m' := m.(since := m.since + [delta]);
    assert seen[i] == m';
    NarrowedHolds(s, r.(updates := r.updates + [delta], active := seen), seen, g.direction, m');
  }

  lemma SumSnoc(ds: seq<Size>, delta: Size)
    ensures Sum(ds + [delta]) == Size(Sum(ds).width + delta.width, Sum(ds).height + delta.height)
  {
    assert (ds + [delta])[..|ds|] == ds;
  }

  /** Moved far enough and ended, a match triggers with the movement of all updates. */
  lemma MovedTriggers(s: Measured, r: Recognizer, m: Match)
    requires m in r.active
    ensures var delta := FarEnough(s(m.gesture), Sum(r.updates));
            Triggered(m.gesture, m.pending, m.since + [delta], Sum(r.updates + [delta]))
              in Apply(s, Apply(s, r, Update(delta)), End).signals
  {
    var delta := FarEnough(s(m.gesture), Sum(r.updates));
    var r' := Apply(s, r, Update(delta));
    MovedStays(s, r, m);
    FarEnoughReaches(s(m.gesture), Sum(r.updates));
    SumSnoc(r.updates, delta);
    OutcomesHold(s, r'.active, Sum(r'.updates), m.(since := m.since + [delta]));
  }

  lemma {:induction false} NarrowedHolds(s: Measured, r: Recognizer, active: seq<Match>, d: Direction, m: Match)
    ensures Narrowed(s, r, active, d).updates == r.updates
    ensures m in Narrowed(s, r, active, d).active <==> m in active && s(m.gesture).direction == d
  {
    if active != [] {
      SplitLast(active);
      NarrowedHolds(s, r, active[..|active| - 1], d, m);
    }
  }

  /** Gestures started with updates that sum to something can go on to trigger by them. */
  lemma StartCredited(s: Measured, r: Recognizer, g: GestureId, fingers: nat, position: Option<(real, real)>)
    returns (delta: Size)
    requires g in r.gestures && s(g).Starts(fingers, position) && !NoMovement(r.updates)
    ensures !AllExact(Run(s, Begun(s, r, fingers, position), [Update(delta), End]).signals)
  {
    var b := Begun(s, r, fingers, position);
    StartedHolds(s, r, r.gestures, g, fingers, position);
    delta := FarEnough(s(g), Sum(r.updates));
    MovedTriggers(s, b, Match(g, r.updates, []));
    RunTwo(s, b, Update(delta), End);
    SumConcat(r.updates, [delta]);
    assert [] + [delta] == [delta];
    assert !Exact(Triggered(g, r.updates, [delta], Sum(r.updates + [delta])));
  }

  lemma RunTwo(s: Measured, r: Recognizer, a: Op, b: Op)
    ensures Run(s, r, [a, b]) == Apply(s, Apply(s, r, a), b)
  {
    RunSnoc(s, r, [], a);
    RunSnoc(s, r, [a], b);
    assert [] + [a] == [a] && [a] + [b] == [a, b];
  }

  /** Checked at the start: a start of gestures is safe, in that however things go on all triggers count
      the movement since the start, exactly if the updates kept at that moment sum to nothing. */
  lemma CleanStartCondition(s: Measured, r: Recognizer, g: GestureId, fingers: nat, position: Option<(real, real)>)
    requires Sound(s, NoMovement, r) && g in r.gestures && s(g).Starts(fingers, position)
    ensures NoMovement(r.updates) <==>
            (forall ops :: StartsWith(s, NoMovement, Begun(s, r, fingers, position), ops) ==>
               AllExact(Run(s, Begun(s, r, fingers, position), ops).signals))
  {
    var b := Begun(s, r, fingers, position);
    if NoMovement(r.updates) {
      ApplySound(s, NoMovement, r, Start(fingers, position));
      forall ops | StartsWith(s, NoMovement, b, ops) ensures AllExact(Run(s, b, ops).signals) {
        CleanStartsExact(s, b, ops);
      }
    } else {
      var delta := StartCredited(s, r, g, fingers, position);
      var ops := [Update(delta), End];
      assert ops[1..] == [End] && [End][1..] == [];
      assert StartsWith(s, NoMovement, Apply(s, b, Update(delta)), [End]);
      assert StartsWith(s, NoMovement, b, ops);
    }
  }

  /** After a swipe was cancelled or ended nothing of it counts any more: whatever starts next triggers by
      the movement since its start. */
  lemma StartAfterReset(s: Measured, r: Recognizer, reset: Op, start: Op, ops: seq<Op>)
    requires Sound(s, NoMovement, r) && (reset == Cancel || reset == End) && start.Start?
    requires forall i :: 0 <= i < |ops| ==> !ops[i].Start?
    ensures AllExact(Run(s, r, [reset, start] + ops).signals)
  {
    var all := [reset, start] + ops;
    var r', r'' := Apply(s, r, reset), Apply(s, Apply(s, r, reset), start);
    assert all[1..] == [start] + ops && all[1..][1..] == ops;
    ApplySound(s, NoMovement, r, reset);
    assert r'.updates == [] && NoMovement(r'.updates);
    NoMoreStarts(s, r'', ops);
    CleanStartsExact(s, r, all);
  }

  lemma {:induction false} NoMoreStarts(s: Measured, r: Recognizer, ops: seq<Op>)
    requires forall i :: 0 <= i < |ops| ==> !ops[i].Start?
    ensures StartsWith(s, NoMovement, r, ops)
    decreases |ops|
  {
    if ops != [] {
      NoMoreStarts(s, Apply(s, r, ops[0]), ops[1..]);
    }
  }

  /** A diagonal update cancels the gestures but keeps the updates: started again, a gesture triggers
      without any further movement. */
  lemma StaleUpdatesTrigger(s: Measured, g: GestureId)
    requires s(g) == SwipeGesture(None, None, Right, None, None, None, None, Some(Size(10.0, 0.0)))
    ensures Run(s, Recognizer([], [], [], []),
                [Register(g), Start(1, None), Update(Size(20.0, 20.0)), Start(1, None), End]).signals
         == [Started(g), Cancelled(g), Started(g), Triggered(g, [Size(20.0, 20.0)], [], Size(20.0, 20.0))]
  {
    var d := Size(20.0, 20.0);
    var r1 := Recognizer([g], [], [], []);
    var r2 := Recognizer([g], [Match(g, [], [])], [], [Started(g)]);
    var r3 := Recognizer([g], [], [d], [Started(g), Cancelled(g)]);
    var r4 := Recognizer([g], [Match(g, [d], [])], [d], [Started(g), Cancelled(g), Started(g)]);
    assert Apply(s, Recognizer([], [], [], []), Register(g)) == r1;
    BegunAlone(s, r1, g);
    assert r1.signals + [Started(g)] == r2.signals;
    DiagonalCancels(s, r2, g, d);
    assert r2.signals + [Cancelled(g)] == r3.signals;
    BegunAlone(s, r3, g);
    assert r3.signals + [Started(g)] == r4.signals;
    EndAlone(s, r4, g, d);
    RunFive(s, Recognizer([], [], [], []), Register(g), Start(1, None), Update(d), Start(1, None), End);
  }

  lemma DiagonalCancels(s: Measured, r: Recognizer, g: GestureId, d: Size)
    requires r.active == [Match(g, [], [])] && r.updates == [] && Diagonal(d) && !Negligible(d)
    ensures Apply(s, r, Update(d)) == r.(active := [], updates := [d], signals := r.signals + [Cancelled(g)])
  {
    assert Cancellations(Seen(r.active, d)) == [Cancelled(g)];
  }

  lemma EndAlone(s: Measured, r: Recognizer, g: GestureId, d: Size)
    requires r.active == [Match(g, [d], [])] && r.updates == [d] && s(g).MinimumDeltaReached(d)
    ensures Apply(s, r, End) == r.(active := [], updates := [], signals := r.signals + [Triggered(g, [d], [], d)])
  {
    assert [d][..0] == [] && Sum([d]) == d;
    assert [Match(g, [d], [])][..0] == [];
    assert Outcomes(s, r.active, d) == [Triggered(g, [d], [], d)];
  }

  lemma RunThree(s: Measured, r: Recognizer, a: Op, b: Op, c: Op)
    ensures Run(s, r, [a, b, c]) == Apply(s, Apply(s, Apply(s, r, a), b), c)
  {
    RunTwo(s, r, a, b);
    RunSnoc(s, r, [a, b], c);
    assert [a, b] + [c] == [a, b, c];
  }

  lemma RunFive(s: Measured, r: Recognizer, a: Op, b: Op, c: Op, d: Op, e: Op)
    ensures Run(s, r, [a, b, c, d, e])
         == Apply(s, Apply(s, Apply(s, Apply(s, Apply(s, r, a), b), c), d), e)
  {
    RunThree(s, r, a, b, c);
    RunSnoc(s, r, [a, b, c], d);
    RunSnoc(s, r, [a, b, c, d], e);
    assert [a, b, c] + [d] == [a, b, c, d] && [a, b, c, d] + [e] == [a, b, c, d, e];
  }

  lemma BegunAlone(s: Measured, r: Recognizer, g: GestureId)
    requires r.gestures == [g] && r.active == [] && s(g).Starts(1, None)
    ensures Apply(s, r, Start(1, None)) == r.(active := [Match(g, r.updates, [])], signals := r.signals + [Started(g)])
  {
    var any: Option<(real, real)> := None;
    var none: seq<GestureId> := [];
    assert [g][..0] == none;
    assert StartedFrom(s, r, none, 1, any) == r;
  }

  lemma {:induction false} RunSnoc(s: Measured, r: Recognizer, ops: seq<Op>, op: Op)
    ensures Run(s, r, ops + [op]) == Apply(s, Run(s, r, ops), op)
    decreases |ops|
  {
    if ops == [] {
      assert (ops + [op])[1..] == [];
    } else {
      assert (ops + [op])[1..] == ops[1..] + [op];
      RunSnoc(s, Apply(s, r, ops[0]), ops[1..], op);
    }
  }

  // ----- which gestures an update leaves -----

  /** The movement goes mostly in the direction; exactly between the axes it counts as vertical. */
  predicate Fits(d: Direction, delta: Size) {
    match d
    case Down => delta.height > 0.0 && delta.height >= Abs(delta.width)
    case Up => delta.height < 0.0 && 0.0 - delta.height >= Abs(delta.width)
    case Right => delta.width > Abs(delta.height)
    case Left => 0.0 - delta.width > Abs(delta.height)
  }

  /** `m` is a match of `active` that has seen one update more. */
  ghost predicate Advanced(active: seq<Match>, delta: Size, m: Match) {
    exists before :: before in active && m == before.(since := before.since + [delta])
  }

  lemma SeenAre(active: seq<Match>, delta: Size, m: Match)
    ensures m in Seen(active, delta) <==> Advanced(active, delta, m)
  {
    if m in Seen(active, delta) {
      var i :| 0 <= i < |active| && Seen(active, delta)[i] == m;
      assert active[i] in active;
    }
    if Advanced(active, delta, m) {
      var before :| before in active && m == before.(since := before.since + [delta]);
      var i :| 0 <= i < |active| && active[i] == before;
      assert Seen(active, delta)[i] == m;
    }
  }

  lemma DominantFits(delta: Size, d: Direction)
    requires !Negligible(delta)
    ensures DominantDirection(delta) == d <==> Fits(d, delta)
  {
  }

  /** Exactly which matches an update leaves: all of them if it moves less than one in both axes, none if it
      moves as much in width as in height, and otherwise those whose direction it goes in. */
  lemma UpdateLeaves(s: Measured, r: Recognizer, delta: Size, m: Match)
    ensures m in Apply(s, r, Update(delta)).active <==>
            (Advanced(r.active, delta, m)
             && ((Abs(delta.width) < 1.0 && Abs(delta.height) < 1.0)
                 || (delta.width != delta.height && Fits(s(m.gesture).direction, delta))))
  {
    var seen := Seen(r.active, delta);
    SeenAre(r.active, delta, m);
    if !Negligible(delta) && !Diagonal(delta) {
      DominantFits(delta, s(m.gesture).direction);
      NarrowedHolds(s, r.(updates := r.updates + [delta], active := seen), seen, DominantDirection(delta), m);
    }
  }

  // ----- which gestures start -----

  function StartCount(signals: seq<Signal>, g: GestureId): nat {
    if signals == [] then 0
    else StartCount(signals[..|signals| - 1], g) + (if signals[|signals| - 1] == Started(g) then 1 else 0)
  }

  lemma StartCountSnoc(signals: seq<Signal>, x: Signal, g: GestureId)
    ensures StartCount(signals + [x], g) == StartCount(signals, g) + (if x == Started(g) then 1 else 0)
  {
    assert (signals + [x])[..|signals|] == signals;
  }

  lemma {:induction false} NothingStarts(a: seq<Signal>, b: seq<Signal>, g: GestureId)
    requires forall x :: x in b ==> !x.Started?
    ensures StartCount(a + b, g) == StartCount(a, g)
  {
    if b == [] {
      assert a + b == a;
    } else {
      SplitLast(b);
      Assoc(a, b[..|b| - 1], [b[|b| - 1]]);
      StartCountSnoc(a + b[..|b| - 1], b[|b| - 1], g);
      NothingStarts(a, b[..|b| - 1], g);
    }
  }

  /** A gesture starts once for each time it is registered, if fingers and position are within its
      bounds, and not at all otherwise. */
  lemma StartsExactly(s: Measured, r: Recognizer, fingers: nat, position: Option<(real, real)>, g: GestureId)
    ensures StartCount(Apply(s, r, Start(fingers, position)).signals, g)
         == StartCount(r.signals, g) + (if s(g).Starts(fingers, position) then multiset(r.gestures)[g] else 0)
  {
    StartedCount(s, r, r.gestures, fingers, position, g);
  }

  lemma {:induction false} StartedCount(s: Measured, r: Recognizer, gs: seq<GestureId>, fingers: nat,
                                        position: Option<(real, real)>, g: GestureId)
    ensures StartCount(StartedFrom(s, r, gs, fingers, position).signals, g)
         == StartCount(r.signals, g) + (if s(g).Starts(fingers, position) then multiset(gs)[g] else 0)
  {
    if gs != [] {
      var front, last := gs[..|gs| - 1], gs[|gs| - 1];
      SplitLast(gs);
      CountConcat(front, [last], g);
      StartedCount(s, r, front, fingers, position, g);
      StartCountSnoc(StartedFrom(s, r, front, fingers, position).signals, Started(last), g);
    }
  }

  lemma {:induction false} NarrowedCount(s: Measured, r: Recognizer, active: seq<Match>, d: Direction, g: GestureId)
    ensures StartCount(Narrowed(s, r, active, d).signals, g) == StartCount(r.signals, g)
  {
    if active != [] {
      var m := active[|active| - 1];
      NarrowedCount(s, r, active[..|active| - 1], d, g);
      StartCountSnoc(Narrowed(s, r, active[..|active| - 1], d).signals, Cancelled(m.gesture), g);
    }
  }

  lemma {:induction false} OutcomesStartNothing(s: Measured, active: seq<Match>, delta: Size)
    ensures forall x :: x in Outcomes(s, active, delta) ==> !x.Started?
  {
    if active != [] {
      OutcomesStartNothing(s, active[..|active| - 1], delta);
    }
  }

  lemma OnlyStartStarts(s: Measured, r: Recognizer, op: Op, g: GestureId)
    requires !op.Start?
    ensures StartCount(Apply(s, r, op).signals, g) == StartCount(r.signals, g)
  {
    match op
    case Register(_) =>
    case Unregister(h) => StartCountSnoc(r.signals, Cancelled(h), g);
    case Update(delta) =>
      var r' := r.(updates := r.updates + [delta], active := Seen(r.active, delta));
      NothingStarts(r.signals, Cancellations(r'.active), g);
      NarrowedCount(s, r', r'.active, DominantDirection(delta), g);
    case Cancel => NothingStarts(r.signals, Cancellations(r.active), g);
    case End =>
      OutcomesStartNothing(s, r.active, Sum(r.updates));
      NothingStarts(r.signals, Outcomes(s, r.active, Sum(r.updates)), g);
  }

  lemma RegisteredAfter(s: Measured, r: Recognizer, op: Op, g: GestureId)
    requires g !in r.gestures && op != Register(g)
    ensures g !in Apply(s, r, op).gestures
  {
    match op
    case Start(fingers, position) => StartedGestures(s, r, r.gestures, fingers, position);
    case Update(delta) =>
      var r' := r.(updates := r.updates + [delta], active := Seen(r.active, delta));
      NarrowedGestures(s, r', r'.active, DominantDirection(delta));
    case _ =>
  }

  lemma {:induction false} StartedGestures(s: Measured, r: Recognizer, gs: seq<GestureId>, fingers: nat,
                                           position: Option<(real, real)>)
    ensures StartedFrom(s, r, gs, fingers, position).gestures == r.gestures
  {
    if gs != [] {
      StartedGestures(s, r, gs[..|gs| - 1], fingers, position);
    }
  }

  lemma {:induction false} NarrowedGestures(s: Measured, r: Recognizer, active: seq<Match>, d: Direction)
    ensures Narrowed(s, r, active, d).gestures == r.gestures
  {
    if active != [] {
      NarrowedGestures(s, r, active[..|active| - 1], d);
    }
  }

  /** An unregistered gesture starts no more, in whatever run in which it is not registered again. */
  lemma UnregisteredStartsNoMore(s: Measured, r: Recognizer, g: GestureId, ops: seq<Op>)
    requires Register(g) !in ops
    ensures StartCount(Run(s, Apply(s, r, Unregister(g)), ops).signals, g) == StartCount(r.signals, g)
  {
    OnlyStartStarts(s, r, Unregister(g), g);
    UnknownStartsNever(s, Apply(s, r, Unregister(g)), g, ops);
  }

  lemma {:induction false} UnknownStartsNever(s: Measured, r: Recognizer, g: GestureId, ops: seq<Op>)
    requires g !in r.gestures && Register(g) !in ops
    ensures StartCount(Run(s, r, ops).signals, g) == StartCount(r.signals, g)
    decreases |ops|
  {
    if ops != [] {
      assert ops[0] in ops && forall op :: op in ops[1..] ==> op in ops;
      RegisteredAfter(s, r, ops[0], g);
      if ops[0].Start? {
        StartsExactly(s, r, ops[0].fingers, ops[0].position, g);
      } else {
        OnlyStartStarts(s, r, ops[0], g);
      }
      UnknownStartsNever(s, Apply(s, r, ops[0]), g, ops[1..]);
    }
  }

  /** Unregistering cancels one match of the gesture, if there is one, and none of any other. */
  lemma UnregisterCancels(s: Measured, r: Recognizer, g: GestureId, h: GestureId)
    ensures Matches(Apply(s, r, Unregister(g)).active, h)
         == Matches(r.active, h) - (if g == h && Matches(r.active, g) > 0 then 1 else 0)
  {
    var i := FirstMatch(r.active, g);
    if i < |r.active| {
      MatchesWithout(r.active, i, h);
    } else {
      NoMatches(r.active, g);
    }
  }

  lemma {:induction false} NoMatches(active: seq<Match>, g: GestureId)
    requires forall i :: 0 <= i < |active| ==> active[i].gesture != g
    ensures Matches(active, g) == 0
  {
    if active != [] {
      NoMatches(active[..|active| - 1], g);
    }
  }
}
