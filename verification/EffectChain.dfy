/** Dispatching paint calls along the chain of active effects (effects.cpp). Every effect may call
    back into any hook, any number of times, and into paintDesktop. */
module EffectChain {
  import opened Seqs

  type Effect = nat

  datatype Hook =
    | PrePaintScreen | PaintScreen | PostPaintScreen
    | PrePaintWindow | PaintWindow | PostPaintWindow
    | PaintEffectFrame | DrawWindow

  /** The iterators into the active effects, as positions. */
  datatype Iterators = Iterators(screen: nat, window: nat, frame: nat, draw: nat)
  {
    function At(hook: Hook): nat {
      match hook
      case PrePaintScreen | PaintScreen | PostPaintScreen => screen
      case PrePaintWindow | PaintWindow | PostPaintWindow => window
      case PaintEffectFrame => frame
      case DrawWindow => draw
    }

    function Put(hook: Hook, n: nat): Iterators {
      match hook
      case PrePaintScreen | PaintScreen | PostPaintScreen => this.(screen := n)
      case PrePaintWindow | PaintWindow | PostPaintWindow => this.(window := n)
      case PaintEffectFrame => this.(frame := n)
      case DrawWindow => this.(draw := n)
    }
  }

  /** The hooks that end in the scene once all effects were passed. */
  predicate HasFinalStep(hook: Hook) {
    hook.PaintScreen? || hook.PaintWindow? || hook.PaintEffectFrame? || hook.DrawWindow?
  }

  /** What the effect that runs next does, or the final step of the scene: the calls it makes, each with
      what runs then. */
  datatype Behaviour = Behaviour(calls: seq<Call>)
  datatype Call = Invoke(hook: Hook, next: Behaviour) | Desktop(desktop: int, next: Behaviour)

  datatype Step = Ran(hook: Hook, effect: Effect) | Final(hook: Hook) | Enter(desktop: int) | Leave(desktop: int)

  /** The steps a call of `hook` leads to, from the iterators `its`. */
  function Trace(active: seq<Effect>, desktops: int, its: Iterators, hook: Hook, b: Behaviour): seq<Step>
    decreases b, 1
  {
    var i := its.At(hook);
    if i < |active| then
      [Ran(hook, active[i])] + CallsTrace(active, desktops, its.Put(hook, i + 1), b, |b.calls|)
    else if HasFinalStep(hook) then
      [Final(hook)] + CallsTrace(active, desktops, its, b, |b.calls|)
    else []
  }

  /** The steps of the first `n` calls of `b`. */
  function CallsTrace(active: seq<Effect>, desktops: int, its: Iterators, b: Behaviour, n: nat): seq<Step>
    requires n <= |b.calls|
    decreases b, 0, n
  {
    if n == 0 then []
    else
      CallsTrace(active, desktops, its, b, n - 1) +
      match b.calls[n - 1]
      case Invoke(hook, next) => Trace(active, desktops, its, hook, next)
      case Desktop(desktop, next) => DesktopTrace(active, desktops, its, desktop, next)
  }

  /** The steps of painting a whole desktop. */
  function DesktopTrace(active: seq<Effect>, desktops: int, its: Iterators, desktop: int, b: Behaviour): seq<Step>
    decreases b, 2
  {
    if desktop < 1 || desktop > desktops then []
    else [Enter(desktop)] + Trace(active, desktops, its.(screen := 0), PaintScreen, b) + [Leave(desktop)]
  }

  /** Whether the handler says it is painting a desktop, after `steps`. */
  function Rendering(steps: seq<Step>): bool {
    if steps == [] then false
    else
      match steps[|steps| - 1]
      case Enter(_) => true
      case Leave(_) => false
      case _ => Rendering(steps[..|steps| - 1])
  }

  /** The desktop that was entered last, or 0. */
  function LastEntered(steps: seq<Step>): int {
    if steps == [] then 0
    else
      match steps[|steps| - 1]
      case Enter(desktop) => desktop
      case _ => LastEntered(steps[..|steps| - 1])
  }

  lemma TraceUnfold(before: seq<Step>, active: seq<Effect>, desktops: int, its: Iterators, hook: Hook, b: Behaviour)
    ensures var i := its.At(hook);
            before + Trace(active, desktops, its, hook, b) ==
            (if i < |active| then
               (before + [Ran(hook, active[i])]) + CallsTrace(active, desktops, its.Put(hook, i + 1), b, |b.calls|)
             else if HasFinalStep(hook) then
               (before + [Final(hook)]) + CallsTrace(active, desktops, its, b, |b.calls|)
             else before)
  {
    var i := its.At(hook);
    if i < |active| {
      Assoc(before, [Ran(hook, active[i])], CallsTrace(active, desktops, its.Put(hook, i + 1), b, |b.calls|));
    } else if HasFinalStep(hook) {
      Assoc(before, [Final(hook)], CallsTrace(active, desktops, its, b, |b.calls|));
    }
  }

  class EffectsHandler {
    const numberOfDesktops: int
    var activeEffects: seq<Effect>
    var iterators: Iterators
    var desktopRendering: bool
    var currentRenderedDesktop: int
    ghost var trace: seq<Step>

    ghost predicate Valid()
      reads this
    {
      desktopRendering == Rendering(trace) && currentRenderedDesktop == LastEntered(trace)
    }

    constructor (desktops: int)
      ensures Valid() && numberOfDesktops == desktops && activeEffects == [] && trace == []
      ensures iterators == Iterators(0, 0, 0, 0) && !desktopRendering
    {
      numberOfDesktops := desktops;
      activeEffects, iterators, desktopRendering, currentRenderedDesktop := [], Iterators(0, 0, 0, 0), false, 0;
      trace := [];
    }

    /** Starts a painting pass: the active effects in loading order, all iterators at the first. */
    method StartPaint(loaded: seq<Effect>, isActive: Effect -> bool)
      requires Valid()
      modifies this
      ensures Valid() && activeEffects == Only(loaded, set e | e in loaded && isActive(e))
      ensures iterators == Iterators(0, 0, 0, 0)
      ensures trace == old(trace) && desktopRendering == old(desktopRendering)
      ensures currentRenderedDesktop == old(currentRenderedDesktop)
    {
      activeEffects := [];
      for i := 0 to |loaded|
        invariant activeEffects == Only(loaded[..i], set e | e in loaded && isActive(e))
        invariant trace == old(trace) && desktopRendering == old(desktopRendering)
        invariant currentRenderedDesktop == old(currentRenderedDesktop)
      {
        assert loaded[..i + 1][..i] == loaded[..i];
        if isActive(loaded[i]) {
          activeEffects := activeEffects + [loaded[i]];
        }
      }
      assert loaded[..|loaded|] == loaded;
      iterators := Iterators(0, 0, 0, 0);
    }

    /** A hook of the handler: runs the next effect, or the final step after the last one. Whatever
        these do, the iterators come back as they were. */
    method CallHook(hook: Hook, b: Behaviour)
      requires Valid()
      modifies this
      ensures Valid() && iterators == old(iterators) && activeEffects == old(activeEffects)
      ensures trace == old(trace) + Trace(activeEffects, numberOfDesktops, iterators, hook, b)
      decreases b, 1
    {
      var i := iterators.At(hook);
      TraceUnfold(trace, activeEffects, numberOfDesktops, iterators, hook, b);
      if i < |activeEffects| {
        iterators := iterators.Put(hook, i + 1);
        RenderingSnoc(trace, Ran(hook, activeEffects[i]));
        trace := trace + [Ran(hook, activeEffects[i])];
        MakeCalls(b);
        iterators := iterators.Put(hook, iterators.At(hook) - 1);
      } else if HasFinalStep(hook) {
        RenderingSnoc(trace, Final(hook));
        trace := trace + [Final(hook)];
        MakeCalls(b);
      }
    }

    /** The code of the effect or of the final step: the calls it makes, one after the other. */
    method MakeCalls(b: Behaviour)
      requires Valid()
      modifies this
      ensures Valid() && iterators == old(iterators) && activeEffects == old(activeEffects)
      ensures trace == old(trace) + CallsTrace(activeEffects, numberOfDesktops, iterators, b, |b.calls|)
      decreases b, 0
    {
      ghost var t := trace;
      assert t + [] == t;
      for i := 0 to |b.calls|
        invariant Valid() && iterators == old(iterators) && activeEffects == old(activeEffects)
        invariant trace == t + CallsTrace(activeEffects, numberOfDesktops, iterators, b, i)
      {
        ghost var so := CallsTrace(activeEffects, numberOfDesktops, iterators, b, i);
        match b.calls[i] {
          case Invoke(hook, next) =>
            CallHook(hook, next);
            Assoc(t, so, Trace(activeEffects, numberOfDesktops, iterators, hook, next));
          case Desktop(desktop, next) =>
            PaintDesktop(desktop, next);
            Assoc(t, so, DesktopTrace(activeEffects, numberOfDesktops, iterators, desktop, next));
        }
      }
    }

    /** Paints a whole desktop from within an effect: the chain is walked anew from its start. */
    method PaintDesktop(desktop: int, b: Behaviour)
      requires Valid()
      modifies this
      ensures Valid() && iterators == old(iterators) && activeEffects == old(activeEffects)
      ensures trace == old(trace) + DesktopTrace(activeEffects, numberOfDesktops, iterators, desktop, b)
      ensures 1 <= desktop <= numberOfDesktops ==> !desktopRendering
      decreases b, 2
    {
      ghost var t := trace;
      if desktop < 1 || desktop > numberOfDesktops {
        assert t + [] == t;
        return;
      }
      currentRenderedDesktop := desktop;
      desktopRendering := true;
      trace := trace + [Enter(desktop)];
      RenderingSnoc(t, Enter(desktop));
      var savedIterator := iterators.screen;
      iterators := iterators.(screen := 0);
      ghost var inner := Trace(activeEffects, numberOfDesktops, iterators, PaintScreen, b);
      CallHook(PaintScreen, b);
      iterators := iterators.(screen := savedIterator);
      desktopRendering := false;
      RenderingSnoc(trace, Leave(desktop));
      trace := trace + [Leave(desktop)];
      Assoc(t, [Enter(desktop)], inner);
      Assoc(t, [Enter(desktop)] + inner, [Leave(desktop)]);
    }
  }

  lemma RenderingSnoc(steps: seq<Step>, step: Step)
    ensures Rendering(steps + [step]) == if step.Enter? then true else if step.Leave? then false else Rendering(steps)
    ensures LastEntered(steps + [step]) == if step.Enter? then step.desktop else LastEntered(steps)
  {
    assert (steps + [step])[..|steps|] == steps;
  }

  // ----- effects that forward once -----

  /** The steps that run `hook`. */
  function StepsOf(steps: seq<Step>, hook: Hook): seq<Step> {
    if steps == [] then []
    else
      var r, step := StepsOf(steps[..|steps| - 1], hook), steps[|steps| - 1];
      if (step.Ran? || step.Final?) && step.hook == hook then r + [step] else r
  }

  lemma {:induction false} StepsOfConcat(a: seq<Step>, b: seq<Step>, hook: Hook)
    ensures StepsOf(a + b, hook) == StepsOf(a, hook) + StepsOf(b, hook)
  {
    if b == [] {
      assert a + b == a;
    } else {
      assert (a + b)[..|a + b| - 1] == a + b[..|b| - 1];
      StepsOfConcat(a, b[..|b| - 1], hook);
    }
  }

  lemma StepsOfCons(step: Step, b: seq<Step>, hook: Hook)
    ensures StepsOf([step] + b, hook)
         == (if (step.Ran? || step.Final?) && step.hook == hook then [step] else []) + StepsOf(b, hook)
  {
    StepsOfConcat([step], b, hook);
    assert [step][..0] == [];
  }

  /** No call of `hook` is made, at any depth. */
  ghost predicate Avoids(b: Behaviour, hook: Hook)
    decreases b
  {
    forall k {:trigger AvoidsCall(b.calls[k], hook)} :: 0 <= k < |b.calls| ==> AvoidsCall(b.calls[k], hook)
  }

  ghost predicate AvoidsCall(c: Call, hook: Hook)
    decreases c
  {
    Avoids(c.next, hook) && match c case Invoke(h, _) => h != hook case Desktop(_, _) => hook != PaintScreen
  }

  /** The steps of `hook` that a call of `called` leads to. */
  function HookTrace(active: seq<Effect>, desktops: int, its: Iterators, called: Hook, b: Behaviour,
                     hook: Hook): seq<Step>
  {
    StepsOf(Trace(active, desktops, its, called, b), hook)
  }

  /** The steps of `hook` among the first `n` calls of `b`. */
  function HookCalls(active: seq<Effect>, desktops: int, its: Iterators, b: Behaviour, n: nat, hook: Hook): seq<Step>
    requires n <= |b.calls|
  {
    StepsOf(CallsTrace(active, desktops, its, b, n), hook)
  }

  lemma RanSteps(active: seq<Effect>, desktops: int, its: Iterators, called: Hook, b: Behaviour, hook: Hook)
    requires its.At(called) < |active|
    ensures HookTrace(active, desktops, its, called, b, hook)
         == (if called == hook then [Ran(called, active[its.At(called)])] else [])
            + HookCalls(active, desktops, its.Put(called, its.At(called) + 1), b, |b.calls|, hook)
  {
    var its' := its.Put(called, its.At(called) + 1);
    StepsOfCons(Ran(called, active[its.At(called)]), CallsTrace(active, desktops, its', b, |b.calls|), hook);
  }

  lemma FinalSteps(active: seq<Effect>, desktops: int, its: Iterators, called: Hook, b: Behaviour, hook: Hook)
    requires its.At(called) >= |active|
    ensures HookTrace(active, desktops, its, called, b, hook)
         == if !HasFinalStep(called) then []
            else (if called == hook then [Final(called)] else []) + HookCalls(active, desktops, its, b, |b.calls|, hook)
  {
    StepsOfCons(Final(called), CallsTrace(active, desktops, its, b, |b.calls|), hook);
  }

  lemma InvokedSteps(active: seq<Effect>, desktops: int, its: Iterators, b: Behaviour, n: nat, hook: Hook)
    requires n < |b.calls| && b.calls[n].Invoke?
    ensures HookCalls(active, desktops, its, b, n + 1, hook)
         == HookCalls(active, desktops, its, b, n, hook)
            + HookTrace(active, desktops, its, b.calls[n].hook, b.calls[n].next, hook)
  {
    StepsOfConcat(CallsTrace(active, desktops, its, b, n),
                  Trace(active, desktops, its, b.calls[n].hook, b.calls[n].next), hook);
  }

  lemma DesktopSteps(active: seq<Effect>, desktops: int, its: Iterators, b: Behaviour, n: nat, hook: Hook)
    requires n < |b.calls| && b.calls[n].Desktop?
    ensures HookCalls(active, desktops, its, b, n + 1, hook)
         == HookCalls(active, desktops, its, b, n, hook)
            + StepsOf(DesktopTrace(active, desktops, its, b.calls[n].desktop, b.calls[n].next), hook)
  {
    StepsOfConcat(CallsTrace(active, desktops, its, b, n),
                  DesktopTrace(active, desktops, its, b.calls[n].desktop, b.calls[n].next), hook);
  }

  lemma StepsInside(desktop: int, inner: seq<Step>, hook: Hook)
    ensures StepsOf([Enter(desktop)] + inner + [Leave(desktop)], hook) == StepsOf(inner, hook)
  {
    var steps := [Enter(desktop)] + inner + [Leave(desktop)];
    assert steps[..|steps| - 1] == [Enter(desktop)] + inner;
    StepsOfCons(Enter(desktop), inner, hook);
    NothingMore(StepsOf(inner, hook));
  }

  lemma NothingMore(steps: seq<Step>)
    ensures steps + [] == steps && [] + steps == steps
  {
  }

  /** A call of another hook that leads to no call of `hook` contributes no step of it. */
  lemma {:induction false} SilentTrace(active: seq<Effect>, desktops: int, its: Iterators, called: Hook, b: Behaviour,
                                       hook: Hook)
    requires called != hook && Avoids(b, hook)
    ensures HookTrace(active, desktops, its, called, b, hook) == []
    decreases b, 1
  {
    if its.At(called) < |active| {
      RanSteps(active, desktops, its, called, b, hook);
      SilentCalls(active, desktops, its.Put(called, its.At(called) + 1), b, |b.calls|, hook);
    } else {
      FinalSteps(active, desktops, its, called, b, hook);
      SilentCalls(active, desktops, its, b, |b.calls|, hook);
    }
  }

  lemma {:induction false} SilentCalls(active: seq<Effect>, desktops: int, its: Iterators, b: Behaviour, n: nat,
                                       hook: Hook)
    requires n <= |b.calls| && Avoids(b, hook)
    ensures HookCalls(active, desktops, its, b, n, hook) == []
    decreases b, 0, n
  {
    if n > 0 {
      SilentCalls(active, desktops, its, b, n - 1, hook);
      assert AvoidsCall(b.calls[n - 1], hook);
      SilentCall(active, desktops, its, b, n - 1, hook);
    }
  }

  /** One call more, which avoids `hook`, adds no step of it. */
  lemma {:induction false} SilentCall(active: seq<Effect>, desktops: int, its: Iterators, b: Behaviour, n: nat,
                                      hook: Hook)
    requires n < |b.calls| && AvoidsCall(b.calls[n], hook)
    ensures HookCalls(active, desktops, its, b, n + 1, hook) == HookCalls(active, desktops, its, b, n, hook)
    decreases b, 0, 0
  {
    NothingMore(HookCalls(active, desktops, its, b, n, hook));
    match b.calls[n]
    case Invoke(h, next) =>
      SilentTrace(active, desktops, its, h, next, hook);
      InvokedSteps(active, desktops, its, b, n, hook);
    case Desktop(desktop, next) =>
      SilentTrace(active, desktops, its.(screen := 0), PaintScreen, next, hook);
      StepsInside(desktop, Trace(active, desktops, its.(screen := 0), PaintScreen, next), hook);
      DesktopSteps(active, desktops, its, b, n, hook);
  }

  /** For `n` levels exactly one call is of `hook`, and no other call reaches it at any depth; what then
      runs makes no such call any more. */
  ghost predicate ForwardsOnce(b: Behaviour, hook: Hook, n: nat)
    decreases n
  {
    if n == 0 then Avoids(b, hook) else exists k :: 0 <= k < |b.calls| && ForwardsAt(b, hook, k, n)
  }

  ghost predicate ForwardsAt(b: Behaviour, hook: Hook, k: nat, n: nat)
    requires k < |b.calls| && n > 0
    decreases n, 0
  {
    && b.calls[k].Invoke? && b.calls[k].hook == hook && ForwardsOnce(b.calls[k].next, hook, n - 1)
    && OthersAvoid(b, hook, k)
  }

  ghost predicate OthersAvoid(b: Behaviour, hook: Hook, k: nat) {
    forall j {:trigger AvoidsCall(b.calls[j], hook)} :: 0 <= j < |b.calls| && j != k ==> AvoidsCall(b.calls[j], hook)
  }

  /** Each of `effects` runs `hook` once, in order. */
  function RunInOrder(hook: Hook, effects: seq<Effect>): seq<Step> {
    if effects == [] then [] else [Ran(hook, effects[0])] + RunInOrder(hook, effects[1..])
  }

  /** The effect at `i` and the next `n` run `hook`; if there are no more effects, then the final step. */
  function StepsUpTo(active: seq<Effect>, i: nat, n: nat, hook: Hook): seq<Step>
    requires i + n <= |active|
  {
    if i + n < |active| then RunInOrder(hook, active[i..i + n + 1])
    else RunInOrder(hook, active[i..]) + (if HasFinalStep(hook) then [Final(hook)] else [])
  }

  /** Calls that do not forward add no step of `hook`, from the call after the first `l` on. */
  lemma {:induction false} OthersSilent(active: seq<Effect>, desktops: int, its: Iterators, b: Behaviour,
                                        l: nat, m: nat, hook: Hook, k: nat)
    requires l <= m <= |b.calls| && OthersAvoid(b, hook, k) && (m <= k || k < l)
    ensures HookCalls(active, desktops, its, b, m, hook) == HookCalls(active, desktops, its, b, l, hook)
    decreases m
  {
    if m > l {
      OthersSilent(active, desktops, its, b, l, m - 1, hook, k);
      assert AvoidsCall(b.calls[m - 1], hook);
      SilentCall(active, desktops, its, b, m - 1, hook);
    }
  }

  lemma UpToForward(active: seq<Effect>, desktops: int, its: Iterators, b: Behaviour, hook: Hook, k: nat)
    requires k < |b.calls| && OthersAvoid(b, hook, k) && b.calls[k].Invoke?
    ensures HookCalls(active, desktops, its, b, k + 1, hook)
         == HookTrace(active, desktops, its, b.calls[k].hook, b.calls[k].next, hook)
  {
    NoCallsYet(active, desktops, its, b, hook);
    OthersSilent(active, desktops, its, b, 0, k, hook, k);
    InvokedSteps(active, desktops, its, b, k, hook);
    NothingMore(HookTrace(active, desktops, its, b.calls[k].hook, b.calls[k].next, hook));
  }

  lemma NoCallsYet(active: seq<Effect>, desktops: int, its: Iterators, b: Behaviour, hook: Hook)
    ensures HookCalls(active, desktops, its, b, 0, hook) == []
  {
  }

  /** An effect that forwards by its call `k` runs, and then the steps of that call follow. */
  lemma ForwardedStep(active: seq<Effect>, desktops: int, its: Iterators, hook: Hook, b: Behaviour, k: nat)
    requires its.At(hook) < |active| && k < |b.calls| && OthersAvoid(b, hook, k)
    requires b.calls[k].Invoke? && b.calls[k].hook == hook
    ensures var its' := its.Put(hook, its.At(hook) + 1);
            HookTrace(active, desktops, its, hook, b, hook)
            == [Ran(hook, active[its.At(hook)])] + HookTrace(active, desktops, its', hook, b.calls[k].next, hook)
  {
    var its' := its.Put(hook, its.At(hook) + 1);
    UpToForward(active, desktops, its', b, hook, k);
    OthersSilent(active, desktops, its', b, k + 1, |b.calls|, hook, k);
    RanSteps(active, desktops, its, hook, b, hook);
  }

  lemma ForwardedLevel(active: seq<Effect>, desktops: int, its: Iterators, hook: Hook, b: Behaviour, k: nat, n: nat)
    requires n > 0 && its.At(hook) + n <= |active| && k < |b.calls| && OthersAvoid(b, hook, k)
    requires b.calls[k].Invoke? && b.calls[k].hook == hook
    requires HookTrace(active, desktops, its.Put(hook, its.At(hook) + 1), hook, b.calls[k].next, hook)
          == StepsUpTo(active, its.At(hook) + 1, n - 1, hook)
    ensures HookTrace(active, desktops, its, hook, b, hook) == StepsUpTo(active, its.At(hook), n, hook)
  {
    ForwardedStep(active, desktops, its, hook, b, k);
    OneMore(active, its.At(hook), n - 1, hook);
  }

  /** Which effects run `hook`, when the effects on the way forward it once each for `n` levels, whatever
      else they call: if that leads past the last effect, each from the iterator on runs once, in order,
      and then the final step; if an effect before that does not forward, each up to it runs once, and
      neither those behind it nor the final step. */
  lemma {:induction false} ForwardedSteps(active: seq<Effect>, desktops: int, its: Iterators,
                                          hook: Hook, b: Behaviour, n: nat)
    requires its.At(hook) + n <= |active| && ForwardsOnce(b, hook, n)
    ensures HookTrace(active, desktops, its, hook, b, hook) == StepsUpTo(active, its.At(hook), n, hook)
    decreases n
  {
    if n == 0 {
      LastLevel(active, desktops, its, hook, b);
    } else {
      var k :| 0 <= k < |b.calls| && ForwardsAt(b, hook, k, n);
      var its' := its.Put(hook, its.At(hook) + 1);
      ForwardedSteps(active, desktops, its', hook, b.calls[k].next, n - 1);
      ForwardedLevel(active, desktops, its, hook, b, k, n);
    }
  }

  lemma LastLevel(active: seq<Effect>, desktops: int, its: Iterators, hook: Hook, b: Behaviour)
    requires its.At(hook) <= |active| && Avoids(b, hook)
    ensures HookTrace(active, desktops, its, hook, b, hook) == StepsUpTo(active, its.At(hook), 0, hook)
  {
    var i := its.At(hook);
    UpToItself(active, i, hook);
    if i < |active| {
      RanSteps(active, desktops, its, hook, b, hook);
      SilentCalls(active, desktops, its.Put(hook, i + 1), b, |b.calls|, hook);
    } else {
      FinalSteps(active, desktops, its, hook, b, hook);
      SilentCalls(active, desktops, its, b, |b.calls|, hook);
    }
  }

  lemma UpToItself(active: seq<Effect>, i: nat, hook: Hook)
    requires i <= |active|
    ensures StepsUpTo(active, i, 0, hook)
         == if i < |active| then [Ran(hook, active[i])] else if HasFinalStep(hook) then [Final(hook)] else []
  {
    if i < |active| {
      var one := active[i..i + 1];
      assert one == [active[i]] && one[1..] == [];
      assert RunInOrder(hook, one) == [Ran(hook, active[i])] + [];
    } else {
      assert active[i..] == [];
    }
  }

  lemma OneMore(active: seq<Effect>, i: nat, n: nat, hook: Hook)
    requires i + n < |active|
    ensures StepsUpTo(active, i, n + 1, hook) == [Ran(hook, active[i])] + StepsUpTo(active, i + 1, n, hook)
  {
    var last := if HasFinalStep(hook) then [Final(hook)] else [];
    if i + n + 1 < |active| {
      assert active[i..i + n + 2][1..] == active[i + 1..i + n + 2];
    } else {
      assert active[i..][1..] == active[i + 1..];
      Assoc([Ran(hook, active[i])], RunInOrder(hook, active[i + 1..]), last);
    }
  }

  /** Painting a desktop, whatever step of the walk it is called from: it walks the chain anew from the first
      effect, as far as the effects forward. An invalid desktop is not painted. */
  lemma DesktopRunsAll(active: seq<Effect>, desktops: int, its: Iterators, desktop: int, b: Behaviour, n: nat)
    requires n <= |active| && ForwardsOnce(b, PaintScreen, n)
    ensures StepsOf(DesktopTrace(active, desktops, its, desktop, b), PaintScreen)
         == if 1 <= desktop <= desktops then StepsUpTo(active, 0, n, PaintScreen) else []
  {
    if 1 <= desktop <= desktops {
      ForwardedSteps(active, desktops, its.(screen := 0), PaintScreen, b, n);
      StepsInside(desktop, Trace(active, desktops, its.(screen := 0), PaintScreen, b), PaintScreen);
    }
  }

  /** So if all effects forward, each of them runs once, in order, and then the final step. */
  lemma DesktopPainted(active: seq<Effect>, desktops: int, its: Iterators, desktop: int, b: Behaviour)
    requires 1 <= desktop <= desktops && ForwardsOnce(b, PaintScreen, |active|)
    ensures StepsOf(DesktopTrace(active, desktops, its, desktop, b), PaintScreen)
         == RunInOrder(PaintScreen, active) + [Final(PaintScreen)]
  {
    DesktopRunsAll(active, desktops, its, desktop, b, |active|);
    assert active[0..] == active;
  }

  /** What painting a desktop runs does not depend on how far the screen was walked. */
  lemma DesktopStartsAnew(active: seq<Effect>, desktops: int, its: Iterators, k: nat, desktop: int, b: Behaviour)
    ensures DesktopTrace(active, desktops, its.(screen := k), desktop, b)
         == DesktopTrace(active, desktops, its, desktop, b)
  {
    assert its.(screen := k).(screen := 0) == its.(screen := 0);
  }

  /** The hooks that walk the same chain. */
  predicate OneWalk(a: Hook, b: Hook) {
    || a == b
    || (a in {PrePaintScreen, PaintScreen, PostPaintScreen} && b in {PrePaintScreen, PaintScreen, PostPaintScreen})
    || (a in {PrePaintWindow, PaintWindow, PostPaintWindow} && b in {PrePaintWindow, PaintWindow, PostPaintWindow})
  }

  lemma WalksMove(its: Iterators, a: Hook, b: Hook, n: nat)
    ensures its.Put(a, n).At(b) == if OneWalk(a, b) then n else its.At(b)
  {
  }

  /** An effect that runs for `called` and calls `hook` gets to the effect behind itself if the two hooks share
      a walk; otherwise to where the walk of `hook` stands. Behind the last effect only the hooks that paint
      have a final step. */
  lemma CallFromEffect(active: seq<Effect>, desktops: int, its: Iterators, called: Hook, hook: Hook)
    requires its.At(called) < |active|
    ensures var i := if OneWalk(called, hook) then its.At(called) + 1 else its.At(hook);
            Trace(active, desktops, its, called, Behaviour([Invoke(hook, Behaviour([]))]))
            == [Ran(called, active[its.At(called)])]
               + (if i < |active| then [Ran(hook, active[i])]
                  else if hook in {PaintScreen, PaintWindow, PaintEffectFrame, DrawWindow} then [Final(hook)]
                  else [])
  {
    var none := Behaviour([]);
    var b := Behaviour([Invoke(hook, none)]);
    var its' := its.Put(called, its.At(called) + 1);
    WalksMove(its, called, hook, its.At(called) + 1);
    assert CallsTrace(active, desktops, its', b, 1)
        == CallsTrace(active, desktops, its', b, 0) + Trace(active, desktops, its', hook, none);
    QuietTrace(active, desktops, its', hook);
  }

  lemma QuietTrace(active: seq<Effect>, desktops: int, its: Iterators, hook: Hook)
    ensures Trace(active, desktops, its, hook, Behaviour([]))
         == if its.At(hook) < |active| then [Ran(hook, active[its.At(hook)])]
            else if HasFinalStep(hook) then [Final(hook)] else []
  {
    var its' := if its.At(hook) < |active| then its.Put(hook, its.At(hook) + 1) else its;
    assert CallsTrace(active, desktops, its', Behaviour([]), 0) == [];
  }

  // ----- painting desktops within desktops -----

  /** How many calls of paintDesktop are running after `steps`. */
  function Depth(steps: seq<Step>): int {
    if steps == [] then 0
    else
      match steps[|steps| - 1]
      case Enter(_) => Depth(steps[..|steps| - 1]) + 1
      case Leave(_) => Depth(steps[..|steps| - 1]) - 1
      case _ => Depth(steps[..|steps| - 1])
  }

  /** Every entry is left again, and nothing else is left. */
  ghost predicate Bracketed(steps: seq<Step>) {
    Depth(steps) == 0 && forall k :: 0 <= k <= |steps| ==> Depth(steps[..k]) >= 0
  }

  lemma {:induction false} DepthConcat(a: seq<Step>, b: seq<Step>)
    ensures Depth(a + b) == Depth(a) + Depth(b)
  {
    if b == [] {
      assert a + b == a;
    } else {
      assert (a + b)[..|a + b| - 1] == a + b[..|b| - 1];
      DepthConcat(a, b[..|b| - 1]);
    }
  }

  lemma BracketedConcat(a: seq<Step>, b: seq<Step>)
    requires Bracketed(a) && Bracketed(b)
    ensures Bracketed(a + b)
  {
    DepthConcat(a, b);
    forall k | 0 <= k <= |a + b| ensures Depth((a + b)[..k]) >= 0 {
      if k <= |a| {
        assert (a + b)[..k] == a[..k];
      } else {
        assert (a + b)[..k] == a + b[..k - |a|];
        DepthConcat(a, b[..k - |a|]);
      }
    }
  }

  lemma BracketedStep(step: Step)
    requires step.Ran? || step.Final?
    ensures Bracketed([step])
  {
    forall k | 0 <= k <= 1 ensures Depth([step][..k]) == 0 {
      assert [step][..0] == [] && [step][..1] == [step];
    }
  }

  lemma BracketedDesktop(desktop: int, a: seq<Step>)
    requires Bracketed(a)
    ensures Bracketed([Enter(desktop)] + a + [Leave(desktop)])
  {
    var first, last := [Enter(desktop)], [Leave(desktop)];
    assert first[..0] == [] && last[..0] == [] && Depth(first) == 1 && Depth(last) == -1;
    DepthConcat(first, a);
    DepthConcat(first + a, last);
    var t := first + a + last;
    forall k | 0 <= k <= |t| ensures Depth(t[..k]) >= 0 {
      if k == 0 {
      } else if k <= 1 + |a| {
        assert t[..k] == first + a[..k - 1];
        DepthConcat(first, a[..k - 1]);
      } else {
        assert t[..k] == t;
      }
    }
  }

  lemma {:induction false} TraceBracketed(active: seq<Effect>, desktops: int, its: Iterators, hook: Hook, b: Behaviour)
    ensures Bracketed(Trace(active, desktops, its, hook, b))
    decreases b, 1
  {
    var i := its.At(hook);
    if i < |active| {
      CallsBracketed(active, desktops, its.Put(hook, i + 1), b, |b.calls|);
      BracketedStep(Ran(hook, active[i]));
      BracketedConcat([Ran(hook, active[i])], CallsTrace(active, desktops, its.Put(hook, i + 1), b, |b.calls|));
    } else if HasFinalStep(hook) {
      CallsBracketed(active, desktops, its, b, |b.calls|);
      BracketedStep(Final(hook));
      BracketedConcat([Final(hook)], CallsTrace(active, desktops, its, b, |b.calls|));
    }
  }

  lemma {:induction false} CallsBracketed(active: seq<Effect>, desktops: int, its: Iterators, b: Behaviour, n: nat)
    requires n <= |b.calls|
    ensures Bracketed(CallsTrace(active, desktops, its, b, n))
    decreases b, 0, n
  {
    if n > 0 {
      CallsBracketed(active, desktops, its, b, n - 1);
      var so := CallsTrace(active, desktops, its, b, n - 1);
      match b.calls[n - 1]
      case Invoke(hook, next) =>
        TraceBracketed(active, desktops, its, hook, next);
        BracketedConcat(so, Trace(active, desktops, its, hook, next));
      case Desktop(desktop, next) =>
        TraceBracketed(active, desktops, its.(screen := 0), PaintScreen, next);
        BracketedDesktop(desktop, Trace(active, desktops, its.(screen := 0), PaintScreen, next));
        BracketedConcat(so, DesktopTrace(active, desktops, its, desktop, next));
    }
  }

  /** The handler says it paints a desktop exactly while it does. */
  ghost predicate FlagRight(steps: seq<Step>) {
    forall k :: 0 <= k <= |steps| ==> (Rendering(steps[..k]) <==> Depth(steps[..k]) > 0)
  }

  /** No desktop is painted from within the painting of a desktop. */
  ghost predicate NotNested(steps: seq<Step>) {
    forall k :: 0 <= k <= |steps| ==> Depth(steps[..k]) <= 1
  }

  lemma {:induction false} NotNestedFlag(steps: seq<Step>, k: nat)
    requires Bracketed(steps) && NotNested(steps) && k <= |steps|
    ensures Rendering(steps[..k]) <==> Depth(steps[..k]) > 0
  {
    if k > 0 {
      NotNestedFlag(steps, k - 1);
      assert steps[..k][..k - 1] == steps[..k - 1];
    }
  }

  /** Where an inner painting ends while an outer one goes on. */
  lemma {:induction false} InnerLeave(steps: seq<Step>, k: nat) returns (m: nat)
    requires k <= |steps| && Depth(steps[..k]) > 1 && Depth(steps) == 0
    ensures m < |steps| && steps[m].Leave? && Depth(steps[..m]) == 2
    decreases |steps| - k
  {
    assert steps[..|steps|] == steps;
    assert steps[..k + 1][..k] == steps[..k];
    if steps[k].Leave? && Depth(steps[..k]) == 2 {
      m := k;
    } else {
      m := InnerLeave(steps, k + 1);
    }
  }

  /** Over what a call of a hook leads to, or several, the flag is right throughout exactly if no desktop
      is painted from within the painting of a desktop. */
  lemma FlagCondition(steps: seq<Step>)
    requires Bracketed(steps)
    ensures FlagRight(steps) <==> NotNested(steps)
  {
    if NotNested(steps) {
      forall k | 0 <= k <= |steps| ensures Rendering(steps[..k]) <==> Depth(steps[..k]) > 0 {
        NotNestedFlag(steps, k);
      }
    } else {
      var k :| 0 <= k <= |steps| && Depth(steps[..k]) > 1;
      var m := InnerLeave(steps, k);
      assert steps[..m + 1][..m] == steps[..m];
      assert !Rendering(steps[..m + 1]) && Depth(steps[..m + 1]) == 1;
    }
  }

  /** An effect that paints desktop 2 while it is called for painting desktop 1: the flag is cleared when
      the inner painting is done, while the outer one still runs. */
  lemma NestedDesktopClearsFlag()
    ensures var inner := Behaviour([Desktop(2, Behaviour([]))]);
            var t := Trace([0], 2, Iterators(0, 0, 0, 0), PaintScreen, Behaviour([Desktop(1, inner)]));
            |t| == 7 && t[1] == Enter(1) && t[6] == Leave(1) && Depth(t[..6]) == 1 && !Rendering(t[..6])
  {
    var its, start := Iterators(1, 0, 0, 0), Iterators(0, 0, 0, 0);
    var none := Behaviour([]);
    var inner := Behaviour([Desktop(2, none)]);
    var outer := Behaviour([Desktop(1, inner)]);
    var ran := Ran(PaintScreen, 0);
    assert Trace([0], 2, start, PaintScreen, none) == [ran] + CallsTrace([0], 2, its, none, 0);
    assert DesktopTrace([0], 2, its, 2, none) == [Enter(2), ran, Leave(2)];
    assert CallsTrace([0], 2, its, inner, 1) == CallsTrace([0], 2, its, inner, 0) + DesktopTrace([0], 2, its, 2, none);
    assert Trace([0], 2, start, PaintScreen, inner) == [ran, Enter(2), ran, Leave(2)];
    assert DesktopTrace([0], 2, its, 1, inner) == [Enter(1), ran, Enter(2), ran, Leave(2), Leave(1)];
    assert CallsTrace([0], 2, its, outer, 1) == CallsTrace([0], 2, its, outer, 0) + DesktopTrace([0], 2, its, 1, inner);
    var t := Trace([0], 2, start, PaintScreen, outer);
    assert t == [ran, Enter(1), ran, Enter(2), ran, Leave(2), Leave(1)];
    NestedDepth(t, ran);
  }

  lemma NestedDepth(t: seq<Step>, ran: Step)
    requires ran.Ran? && t == [ran, Enter(1), ran, Enter(2), ran, Leave(2), Leave(1)]
    ensures Depth(t[..6]) == 1 && !Rendering(t[..6])
  {
    assert t[..6][..5] == t[..5] && t[..5][..4] == t[..4] && t[..4][..3] == t[..3];
    assert t[..3][..2] == t[..2] && t[..2][..1] == t[..1] && t[..1][..0] == [];
    assert Depth(t[..1]) == 0 && Depth(t[..2]) == 1 && Depth(t[..3]) == 1;
    assert Depth(t[..4]) == 2 && Depth(t[..5]) == 2;
  }
}
