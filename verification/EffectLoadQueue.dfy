/** The queue that loads effects one per event (effectloader.h). */
module EffectLoading {
  import opened Seqs

  /** One call of enqueue; `id` tells apart requests for the same effect. */
  datatype Request = Request(id: nat, effect: nat)

  /** `pending` counts posted dequeue events not yet delivered; `enqueued`, `loaded` and `cleared`
      record what became of the requests so far. */
  datatype Queue = Queue(
    waiting: seq<Request>,
    scheduled: bool,
    pending: nat,
    enqueued: nat,
    loaded: seq<Request>,
    cleared: seq<Request>)

  /** What loading an effect may do to the queue before it returns. */
  datatype Call = Enqueue(effect: nat) | Clear

  function Scheduled(q: Queue): Queue {
    if q.waiting == [] || q.scheduled then q else q.(scheduled := true, pending := q.pending + 1)
  }

  function Called(q: Queue, call: Call): Queue {
    match call
    case Enqueue(effect) =>
      Scheduled(q.(waiting := q.waiting + [Request(q.enqueued, effect)], enqueued := q.enqueued + 1))
    case Clear => q.(waiting := [], scheduled := false, cleared := q.cleared + q.waiting)
  }

  function AllCalled(q: Queue, calls: seq<Call>): Queue {
    if calls == [] then q else Called(AllCalled(q, calls[..|calls| - 1]), calls[|calls| - 1])
  }

  /** Taking the first request out and loading it, with the calls its loading makes. */
  function Loading(q: Queue, calls: seq<Call>): Queue
    requires q.waiting != []
  {
    AllCalled(q.(scheduled := false, waiting := q.waiting[1..], loaded := q.loaded + [q.waiting[0]]), calls)
  }

  function Dequeued(q: Queue, calls: seq<Call>): Queue {
    if q.waiting == [] then q else Scheduled(Loading(q, calls))
  }

  datatype Event = Outside(call: Call) | Deliver(calls: seq<Call>)

  /** A posted event is delivered only when there is one. */
  predicate Possible(q: Queue, e: Event) {
    e.Deliver? ==> q.pending > 0
  }

  function Step(q: Queue, e: Event): Queue
    requires Possible(q, e)
  {
    match e
    case Outside(call) => Called(q, call)
    case Deliver(calls) => Dequeued(q.(pending := q.pending - 1), calls)
  }

  predicate PossibleRun(q: Queue, es: seq<Event>)
    decreases |es|
  {
    es == [] || (Possible(q, es[0]) && PossibleRun(Step(q, es[0]), es[1..]))
  }

  function Run(q: Queue, es: seq<Event>): Queue
    requires PossibleRun(q, es)
    decreases |es|
  {
    if es == [] then q else Run(Step(q, es[0]), es[1..])
  }

  const EMPTY := Queue([], false, 0, 0, [], [])

  // ----- the object -----

  class EffectLoadQueue {
    var queue: seq<Request>
    var dequeueScheduled: bool
    ghost var pending: nat
    var enqueued: nat
    ghost var loaded: seq<Request>
    ghost var cleared: seq<Request>

    ghost function View(): Queue
      reads this
    {
      Queue(queue, dequeueScheduled, pending, enqueued, loaded, cleared)
    }

    constructor ()
      ensures View() == EMPTY
    {
      queue, dequeueScheduled, pending, enqueued, loaded, cleared := [], false, 0, 0, [], [];
    }

    method EnqueueEffect(effect: nat)
      modifies this
      ensures View() == Called(old(View()), Enqueue(effect))
    {
      queue := queue + [Request(enqueued, effect)];
      enqueued := enqueued + 1;
      ScheduleDequeue();
    }

    method ClearAll()
      modifies this
      ensures View() == Called(old(View()), Clear)
    {
      cleared := cleared + queue;
      queue := [];
      dequeueScheduled := false;
    }

    method ScheduleDequeue()
      modifies this
      ensures View() == Scheduled(old(View()))
    {
      if |queue| == 0 || dequeueScheduled {
        return;
      }
      dequeueScheduled := true;
      pending := pending + 1;
    }

    /** The loader, which may call back into the queue. */
    method LoadEffect(calls: seq<Call>)
      modifies this
      ensures View() == AllCalled(old(View()), calls)
    {
      for i := 0 to |calls|
        invariant View() == AllCalled(old(View()), calls[..i])
      {
        assert calls[..i + 1][..i] == calls[..i];
        match calls[i]
        case Enqueue(effect) => EnqueueEffect(effect);
        case Clear => ClearAll();
      }
      assert calls[..|calls|] == calls;
    }

    /** One delivered event. */
    method Dequeue(calls: seq<Call>)
      requires pending > 0
      modifies this
      ensures View() == Step(old(View()), Deliver(calls))
    {
      pending := pending - 1;
      if |queue| == 0 {
        return;
      }
      dequeueScheduled := false;
      var request := queue[0];
      queue := queue[1..];
      loaded := loaded + [request];
      LoadEffect(calls);
      ScheduleDequeue();
    }
  }

  // ----- events and the flag -----

  /** While an effect loads, a scheduled dequeue still has its event. */
  ghost predicate Loose(q: Queue) {
    q.scheduled ==> q.waiting != [] && q.pending > 0
  }

  /** Between events: a dequeue is scheduled exactly when requests wait, and then an event comes. */
  ghost predicate Scheduling(q: Queue) {
    Loose(q) && (q.waiting != [] ==> q.scheduled)
  }

  lemma {:induction false} CallsStayLoose(q: Queue, calls: seq<Call>)
    requires Loose(q)
    ensures Loose(AllCalled(q, calls)) && AllCalled(q, calls).loaded == q.loaded
  {
    if calls != [] {
      CallsStayLoose(q, calls[..|calls| - 1]);
    }
  }

  /** In every run, also with stale events after a clear and calls made while loading: the flag
      holds exactly when requests wait, and then an event is pending. */
  lemma {:induction false} RunScheduling(q: Queue, es: seq<Event>)
    requires Scheduling(q) && PossibleRun(q, es)
    ensures Scheduling(Run(q, es))
    decreases |es|
  {
    if es != [] {
      match es[0] {
        case Outside(call) =>
        case Deliver(calls) =>
          if q.waiting != [] {
            CallsStayLoose(q.(pending := q.pending - 1, scheduled := false, waiting := q.waiting[1..],
                              loaded := q.loaded + [q.waiting[0]]), calls);
          }
      }
      RunScheduling(Step(q, es[0]), es[1..]);
    }
  }

  /** An event loads the first waiting request, if there is one, and no other. */
  lemma OneLoadPerEvent(q: Queue, e: Event)
    requires Scheduling(q) && Possible(q, e)
    ensures Step(q, e).loaded == q.loaded + (if e.Deliver? && q.waiting != [] then [q.waiting[0]] else [])
  {
    if e.Deliver? && q.waiting != [] {
      CallsStayLoose(q.(pending := q.pending - 1, scheduled := false, waiting := q.waiting[1..],
                        loaded := q.loaded + [q.waiting[0]]), e.calls);
    } else {
      assert q.loaded + [] == q.loaded;
    }
  }

  // ----- each request once, in order -----

  ghost predicate Ascending(rs: seq<Request>) {
    forall i, j :: 0 <= i < j < |rs| ==> rs[i].id < rs[j].id
  }

  ghost predicate Holds(rs: seq<Request>, id: nat) {
    exists r :: r in rs && r.id == id
  }

  /** Loaded and then waiting requests are in the order of their enqueuing, and every request is
      exactly one of loaded, waiting and cleared. */
  ghost predicate Accounted(q: Queue) {
    && Ascending(q.loaded + q.waiting)
    && (forall r :: r in q.loaded + q.waiting || r in q.cleared ==> r.id < q.enqueued)
    && (forall id :: 0 <= id < q.enqueued ==> (Holds(q.loaded + q.waiting, id) <==> !Holds(q.cleared, id)))
  }

  lemma CallAccounted(q: Queue, call: Call)
    requires Accounted(q)
    ensures Accounted(Called(q, call))
  {
    var q' := Called(q, call);
    match call
    case Enqueue(effect) =>
      var r := Request(q.enqueued, effect);
      assert q'.loaded + q'.waiting == (q.loaded + q.waiting) + [r];
      forall x ensures x in q'.loaded + q'.waiting <==> x in q.loaded + q.waiting || x == r {}
      forall i | 0 <= i < |q.loaded + q.waiting| ensures (q.loaded + q.waiting)[i].id < q.enqueued {
        assert (q.loaded + q.waiting)[i] in q.loaded + q.waiting;
      }
      forall id | 0 <= id < q'.enqueued ensures Holds(q'.loaded + q'.waiting, id) <==> !Holds(q'.cleared, id) {
        if id == q.enqueued {
          assert r in q'.loaded + q'.waiting;
        } else {
          assert Holds(q'.loaded + q'.waiting, id) <==> Holds(q.loaded + q.waiting, id);
        }
      }
    case Clear => ClearAccounted(q);
  }

  lemma BothAscending(rs: seq<Request>, i: nat, j: nat)
    requires Ascending(rs) && i < j < |rs|
    ensures rs[i].id < rs[j].id
  {
  }

  lemma AscendingParts(a: seq<Request>, b: seq<Request>, id: nat)
    requires Ascending(a + b)
    ensures Ascending(a) && !(Holds(a, id) && Holds(b, id))
  {
    forall i, j | 0 <= i < j < |a| ensures a[i].id < a[j].id {
      assert (a + b)[i] == a[i] && (a + b)[j] == a[j];
    }
    if Holds(a, id) && Holds(b, id) {
      var i :| 0 <= i < |a| && a[i].id == id;
      var j :| 0 <= j < |b| && b[j].id == id;
      BothAscending(a + b, i, |a| + j);
      assert false;
    }
  }

  lemma HoldsConcat(a: seq<Request>, b: seq<Request>, id: nat)
    ensures Holds(a + b, id) <==> Holds(a, id) || Holds(b, id)
  {
    if r :| r in a + b && r.id == id {
      assert r in a || r in b;
    }
    if r :| r in a && r.id == id {
      assert r in a + b;
    }
    if r :| r in b && r.id == id {
      assert r in a + b;
    }
  }

  lemma ClearAccounted(q: Queue)
    requires Accounted(q)
    ensures Accounted(Called(q, Clear))
  {
    var q' := Called(q, Clear);
    assert q'.loaded + q'.waiting == q.loaded;
    AscendingParts(q.loaded, q.waiting, 0);
    forall id | 0 <= id < q.enqueued ensures Holds(q.loaded, id) <==> !Holds(q'.cleared, id) {
      HoldsConcat(q.loaded, q.waiting, id);
      HoldsConcat(q.cleared, q.waiting, id);
      AscendingParts(q.loaded, q.waiting, id);
    }
  }

  lemma {:induction false} CallsAccounted(q: Queue, calls: seq<Call>)
    requires Accounted(q)
    ensures Accounted(AllCalled(q, calls))
  {
    if calls != [] {
      CallsAccounted(q, calls[..|calls| - 1]);
      CallAccounted(AllCalled(q, calls[..|calls| - 1]), calls[|calls| - 1]);
    }
  }

  /** In every run effects are loaded in the order they were enqueued, none twice, and each request
      is loaded, still waiting, or was cleared. */
  lemma {:induction false} RunAccounted(q: Queue, es: seq<Event>)
    requires Accounted(q) && PossibleRun(q, es)
    ensures Accounted(Run(q, es))
    decreases |es|
  {
    if es != [] {
      match es[0] {
        case Outside(call) => CallAccounted(q, call);
        case Deliver(calls) =>
          if q.waiting != [] {
            var l := q.(pending := q.pending - 1, scheduled := false, waiting := q.waiting[1..],
                        loaded := q.loaded + [q.waiting[0]]);
            assert l.loaded + l.waiting == q.loaded + q.waiting;
            CallsAccounted(l, calls);
          }
      }
      RunAccounted(Step(q, es[0]), es[1..]);
    }
  }

  // ----- draining -----

  /** Delivering events whose loads enqueue nothing, until none is pending. */
  function Drained(q: Queue): Queue
    decreases |q.waiting|, q.pending
  {
    if q.pending == 0 then q else Drained(Step(q, Deliver([])))
  }

  /** It ends with every waiting request loaded, in order. */
  lemma {:induction false} DrainLoadsAll(q: Queue)
    requires Scheduling(q)
    ensures Drained(q).loaded == q.loaded + q.waiting && Drained(q).waiting == []
    decreases |q.waiting|, q.pending
  {
    if q.pending > 0 {
      DrainLoadsAll(Step(q, Deliver([])));
      if q.waiting != [] {
        assert (q.loaded + [q.waiting[0]]) + q.waiting[1..] == q.loaded + q.waiting;
      }
    }
  }

  /** What is enqueued is loaded behind all that waits, unless it is cleared. */
  lemma EnqueuedIsLoaded(q: Queue, effect: nat)
    requires Scheduling(q)
    ensures var loaded := Drained(Step(q, Outside(Enqueue(effect)))).loaded;
            && |loaded| == |q.loaded| + |q.waiting| + 1 && loaded[|loaded| - 1].effect == effect
            && q.loaded + q.waiting <= loaded
  {
    var q' := Step(q, Outside(Enqueue(effect)));
    DrainLoadsAll(q');
    assert q'.waiting[|q.waiting|].effect == effect;
    Assoc(q.loaded, q.waiting, [q'.waiting[|q.waiting|]]);
  }
}
