/** The focus chains: one of most recently used windows and one per virtual desktop
    (focuschain.cpp). The last element of a chain is its first window. */
module FocusChains {
  import opened Seqs
  import opened Windows

  type Chain = seq<Window>

  datatype Change = MakeFirst | MakeLast | Update

  /** What the chains ask of windows, at one moment. */
  datatype World = World(
    wantsTabFocus: Window -> bool,
    onAllDesktops: Window -> bool,
    listedOn: (Window, nat) -> bool,
    sameClient: (Window, Window) -> bool)
  {
    predicate OnDesktop(w: Window, d: nat) {
      listedOn(w, d) || onAllDesktops(w)
    }

    ghost predicate Reflexive() {
      forall w :: sameClient(w, w)
    }
  }

  datatype Chains = Chains(desktops: map<nat, Chain>, recent: Chain, active: Option<Window>, current: nat)

  // ----- one chain -----

  function MadeFirst(c: Chain, w: Window): Chain {
    Without(c, {w}) + [w]
  }

  function MadeLast(c: Chain, w: Window): Chain {
    [w] + Without(c, {w})
  }

  function Inserted(c: Chain, w: Window, active: Option<Window>): Chain {
    if w in c then c
    else if active.Some? && active.value != w && c != [] && c[|c| - 1] == active.value then
      InsertAt(c, |c| - 1, w)
    else c + [w]
  }

  function Changed(c: Chain, w: Window, change: Change, active: Option<Window>): Chain {
    match change
    case MakeFirst => MadeFirst(c, w)
    case MakeLast => MadeLast(c, w)
    case Update => Inserted(c, w, active)
  }

  /** The number of windows up to the last one of the application of `reference`. */
  function LastSame(world: World, c: Chain, reference: Window): (n: nat)
    ensures n <= |c|
    ensures n > 0 ==> world.sameClient(reference, c[n - 1])
    ensures forall j :: n <= j < |c| ==> !world.sameClient(reference, c[j])
  {
    if c == [] || world.sameClient(reference, c[|c| - 1]) then |c|
    else LastSame(world, c[..|c| - 1], reference)
  }

  function MovedAfter(world: World, c: Chain, w: Window, reference: Window): Chain {
    if reference !in c then c
    else
      var r := Without(c, {w});
      var i := if !world.sameClient(reference, w) then LastSame(world, r, reference) - 1
               else if reference in r then IndexOf(r, reference) else 0;
      if i < 0 then r else InsertAt(r, i, w)
  }

  method MoveAfterClientInChain(world: World, window: Window, reference: Window, chain: Chain)
    returns (result: Chain)
    ensures result == MovedAfter(world, chain, window, reference)
  {
    result := chain;
    if reference !in chain {
      return;
    }
    result := Without(result, {window});
    if world.sameClient(reference, window) {
      // QList::insert at a negative position prepends
      var at := if reference in result then IndexOf(result, reference) else 0;
      result := InsertAt(result, at, window);
    } else {
      var i := |result|;
      while i > 0
        invariant 0 <= i <= |result| && result == Without(chain, {window})
        invariant forall j :: i <= j < |result| ==> !world.sameClient(reference, result[j])
      {
        i := i - 1;
        if world.sameClient(reference, result[i]) {
          assert LastSame(world, result, reference) == i + 1;
          result := InsertAt(result, i, window);
          return;
        }
      }
    }
  }

  /** A change puts `w` into the chain, once, and leaves the order of the others alone. */
  lemma ChangedKeeps(c: Chain, w: Window, change: Change, active: Option<Window>)
    requires NoDup(c)
    ensures var c' := Changed(c, w, change, active);
            && NoDup(c') && Without(c', {w}) == Without(c, {w})
            && forall x :: x in c' <==> x in c || x == w
  {
    var r := Without(c, {w});
    SiftNoDup(c, {w}, false);
    match change
    case MakeFirst =>
      InsertFresh(r, |r|, w);
      assert r + [w] == InsertAt(r, |r|, w);
    case MakeLast =>
      InsertFresh(r, 0, w);
      assert [w] + r == InsertAt(r, 0, w);
    case Update => InsertedKeeps(c, w, active);
  }

  lemma InsertedKeeps(c: Chain, w: Window, active: Option<Window>)
    requires NoDup(c)
    ensures NoDup(Inserted(c, w, active)) && Without(Inserted(c, w, active), {w}) == Without(c, {w})
    ensures forall x :: x in Inserted(c, w, active) <==> x in c || x == w
  {
    if w !in c {
      SiftAll(c, {w}, false);
      InsertFresh(c, |c|, w);
      assert c + [w] == InsertAt(c, |c|, w);
      if c != [] {
        InsertFresh(c, |c| - 1, w);
      }
    }
  }

  predicate FirstIn(c: Chain, w: Window) {
    c != [] && c[|c| - 1] == w
  }

  predicate DirectlyAfter(c: Chain, w: Window, a: Window) {
    |c| >= 2 && c[|c| - 1] == a && c[|c| - 2] == w
  }

  /** Where the documentation puts an updated window: first if it is the active one, otherwise at the
      second position, directly after the active one. */
  predicate AsDocumented(c: Chain, w: Window, active: Window) {
    if w == active then FirstIn(c, w) else DirectlyAfter(c, w, active)
  }

  /** Exactly when a plain update leaves the window there: if the chain does not hold it yet and, unless
      it is the active one, the active one is first; or if it was in that place before. */
  lemma InsertedPlace(c: Chain, w: Window, active: Window)
    ensures AsDocumented(Inserted(c, w, Some(active)), w, active)
       <==> AsDocumented(c, w, active) || (w !in c && (w == active || FirstIn(c, active)))
  {
    assert AsDocumented(c, w, active) ==> w in c;
    if w in c {
    } else if w != active && FirstIn(c, active) {
      InsertedSecond(c, w, active);
    } else {
      assert (c + [w])[|c|] == w;
    }
  }

  lemma InsertedSecond(c: Chain, w: Window, active: Window)
    requires w !in c && w != active && FirstIn(c, active)
    ensures DirectlyAfter(Inserted(c, w, Some(active)), w, active)
  {
    var c', n := Inserted(c, w, Some(active)), |c| - 1;
    assert c' == InsertAt(c, n, w);
    assert c'[n] == w && c'[n + 1] == c[n];
  }

  /** A chain on which the active window is not made first, and one on which another window is not put
      after the active one. */
  lemma UpdateLeavesInPlace()
    ensures !AsDocumented(Inserted([1, 2], 1, Some(1)), 1, 1)
    ensures !AsDocumented(Inserted([1, 2, 3], 1, Some(3)), 1, 3)
  {
    assert 1 == [1, 2][0] && 1 == [1, 2, 3][0];
    assert 1 in [1, 2] && 1 in [1, 2, 3];
  }

  /** The place each change gives to `w`: made first it is the first window, which is the last element;
      made last it is the last one. A plain update leaves a chain that holds it as it is; otherwise it
      puts it directly after the active window, if that is another one and first, or else first. */
  ghost predicate PlacedBy(c: Chain, c': Chain, w: Window, change: Change, active: Option<Window>) {
    match change
    case MakeFirst => FirstIn(c', w)
    case MakeLast => c' != [] && c'[0] == w
    case Update =>
      if w in c then c' == c
      else if active.Some? && active.value != w && FirstIn(c, active.value) then DirectlyAfter(c', w, active.value)
      else FirstIn(c', w)
  }

  lemma ChangedPlace(c: Chain, w: Window, change: Change, active: Option<Window>)
    ensures PlacedBy(c, Changed(c, w, change, active), w, change, active)
  {
    if change == Update && w !in c {
      if active.Some? && active.value != w && FirstIn(c, active.value) {
        InsertedSecond(c, w, active.value);
      } else {
        assert (c + [w])[|c|] == w;
      }
    }
  }

  lemma LastSameExists(world: World, c: Chain, w: Window, reference: Window)
    ensures LastSame(world, Without(c, {w}), reference) > 0
       <==> exists x :: x in c && x != w && world.sameClient(reference, x)
  {
    var r := Without(c, {w});
    var n := LastSame(world, r, reference);
    if n > 0 {
      assert r[n - 1] in r;
    }
    if x :| x in c && x != w && world.sameClient(reference, x) {
      assert x in r;
    }
  }

  /** Where the move takes the window out of the chain, or where it puts it in there. */
  lemma MovedAsInsertion(world: World, c: Chain, w: Window, reference: Window)
    requires reference in c
    ensures var r, c' := Without(c, {w}), MovedAfter(world, c, w, reference);
            c' == r || exists i :: 0 <= i <= |r| && c' == InsertAt(r, i, w)
  {
  }

  /** Moving `w` behind a reference leaves all other windows as they are. */
  lemma MovedKeeps(world: World, c: Chain, w: Window, reference: Window)
    requires NoDup(c)
    ensures NoDup(MovedAfter(world, c, w, reference))
    ensures Without(MovedAfter(world, c, w, reference), {w}) == Without(c, {w})
    ensures forall x :: x != w ==> (x in MovedAfter(world, c, w, reference) <==> x in c)
  {
    if reference in c {
      var r, c' := Without(c, {w}), MovedAfter(world, c, w, reference);
      MovedAsInsertion(world, c, w, reference);
      SiftNoDup(c, {w}, false);
      SiftAll(r, {w}, false);
      if c' != r {
        var i :| 0 <= i <= |r| && c' == InsertAt(r, i, w);
        InsertFresh(r, i, w);
      }
    }
  }

  /** Exactly when the chain holds `w` afterwards: a window that is not of the application of the
      reference is lost if, but for itself, the chain has no window of that application. */
  lemma MovedHolds(world: World, c: Chain, w: Window, reference: Window)
    ensures w in MovedAfter(world, c, w, reference)
       <==> if reference !in c then w in c
            else world.sameClient(reference, w)
                 || exists x :: x in c && x != w && world.sameClient(reference, x)
  {
    var r := Without(c, {w});
    LastSameExists(world, c, w, reference);
    if reference in c && MovedAfter(world, c, w, reference) != r {
      var i := if !world.sameClient(reference, w) then LastSame(world, r, reference) - 1
               else if reference in r then IndexOf(r, reference) else 0;
      assert InsertAt(r, i, w)[i] == w;
    }
  }

  ghost predicate Behind(c: Chain, w: Window, reference: Window) {
    exists i :: 0 <= i < |c| - 1 && c[i] == w && c[i + 1] == reference
  }

  /** Behind a window of the same application, `w` gets directly behind it. */
  lemma MovedPlace(world: World, c: Chain, w: Window, reference: Window)
    requires NoDup(c) && reference in c && reference != w && world.sameClient(reference, w)
    ensures var c' := MovedAfter(world, c, w, reference);
            Behind(c', w, reference)
  {
    var r := Without(c, {w});
    var i := IndexOf(r, reference);
    var c' := MovedAfter(world, c, w, reference);
    assert reference in r && c' == InsertAt(r, i, w);
    assert c'[i] == w && c'[i + 1] == reference;
  }

  /** The chain holds another window of the application of `reference`. */
  ghost predicate HasOther(world: World, c: Chain, w: Window, reference: Window) {
    exists x: Window :: x in c && x != w && world.sameClient(reference, x)
  }

  /** `w` is directly behind the first window of the application of `reference`. */
  ghost predicate BehindFirst(world: World, c: Chain, w: Window, reference: Window) {
    exists i :: 0 <= i < |c| - 1 && c[i] == w && world.sameClient(reference, c[i + 1])
                && NoneFrom(world, c, i + 2, reference)
  }

  ghost predicate NoneFrom(world: World, c: Chain, n: nat, reference: Window) {
    forall j :: n <= j < |c| ==> !world.sameClient(reference, c[j])
  }

  /** Behind a window of another application, `w` gets directly behind the first window of that
      application; if there is none but itself, it is taken out. */
  lemma MovedPlaceOther(world: World, c: Chain, w: Window, reference: Window)
    requires reference in c && !world.sameClient(reference, w)
    ensures HasOther(world, c, w, reference) ==> BehindFirst(world, MovedAfter(world, c, w, reference), w, reference)
    ensures !HasOther(world, c, w, reference) ==> MovedAfter(world, c, w, reference) == Without(c, {w})
  {
    var r := Without(c, {w});
    var n := LastSame(world, r, reference);
    LastSameExists(world, c, w, reference);
    if n > 0 {
      var c' := MovedAfter(world, c, w, reference);
      assert c' == InsertAt(r, n - 1, w);
      assert c'[n - 1] == w && c'[n] == r[n - 1];
      forall j | n < j < |c'| ensures !world.sameClient(reference, c'[j]) {
        assert c'[j] == r[j - 1];
      }
      assert NoneFrom(world, c', n + 1, reference);
    }
  }

  /** Without the reference the chain stays as it is; behind itself, `w` gets to the far end. */
  lemma MovedNowhere(world: World, c: Chain, w: Window, reference: Window)
    ensures reference !in c ==> MovedAfter(world, c, w, reference) == c
    ensures w in c && world.sameClient(w, w) ==>
              MovedAfter(world, c, w, w) != [] && MovedAfter(world, c, w, w)[0] == w
  {
  }

  // ----- all chains -----

  function Removed(st: Chains, w: Window): Chains {
    st.(desktops := map d | d in st.desktops :: Without(st.desktops[d], {w}),
        recent := Without(st.recent, {w}))
  }

  function DesktopUpdated(world: World, st: Chains, w: Window, change: Change, d: nat): Chain
    requires d in st.desktops
  {
    if world.onAllDesktops(w) then
      Changed(st.desktops[d], w, if d == st.current then change else Update, st.active)
    else if world.OnDesktop(w, d) then Changed(st.desktops[d], w, change, st.active)
    else Without(st.desktops[d], {w})
  }

  function Updated(world: World, st: Chains, w: Window, change: Change): Chains {
    if !world.wantsTabFocus(w) then Removed(st, w)
    else
      st.(desktops := map d | d in st.desktops :: DesktopUpdated(world, st, w, change, d),
          recent := Changed(st.recent, w, change, st.active))
  }

  function Moved(world: World, st: Chains, w: Window, reference: Window): Chains {
    if !world.wantsTabFocus(w) then st
    else
      st.(desktops := map d | d in st.desktops ::
            if world.OnDesktop(w, d) then MovedAfter(world, st.desktops[d], w, reference) else st.desktops[d],
          recent := MovedAfter(world, st.recent, w, reference))
  }

  /** Empty chains for the desktops above `previous` up to `size`. */
  function Grown(desktops: map<nat, Chain>, previous: nat, size: nat): map<nat, Chain> {
    if size <= previous then desktops else Grown(desktops, previous, size - 1)[size := []]
  }

  /** No chains for the desktops from `previous` down to above `size`. */
  function Shrunk(desktops: map<nat, Chain>, previous: nat, size: nat): map<nat, Chain>
    decreases previous
  {
    if previous <= size then desktops else Shrunk(desktops - {previous}, previous - 1, size)
  }

  function Resized(st: Chains, previous: nat, size: nat): Chains {
    st.(desktops := Shrunk(Grown(st.desktops, previous, size), previous, size))
  }

  class FocusChain {
    var desktopFocusChains: map<nat, Chain>
    var mostRecentlyUsed: Chain
    var activeClient: Option<Window>
    var currentDesktop: nat

    function View(): Chains
      reads this
    {
      Chains(desktopFocusChains, mostRecentlyUsed, activeClient, currentDesktop)
    }

    constructor ()
      ensures View() == Chains(map[], [], None, 0)
    {
      desktopFocusChains, mostRecentlyUsed, activeClient, currentDesktop := map[], [], None, 0;
    }

    method SetActiveClient(window: Option<Window>)
      modifies this
      ensures View() == old(View()).(active := window)
    {
      activeClient := window;
    }

    method SetCurrentDesktop(desktop: nat)
      modifies this
      ensures View() == old(View()).(current := desktop)
    {
      currentDesktop := desktop;
    }

    method Remove(window: Window)
      modifies this
      ensures View() == Removed(old(View()), window)
    {
      var keys := desktopFocusChains.Keys;
      while keys != {}
        invariant keys <= desktopFocusChains.Keys == old(desktopFocusChains).Keys
        invariant forall d :: d in desktopFocusChains ==>
          desktopFocusChains[d] == if d in keys then old(desktopFocusChains)[d]
                                   else Without(old(desktopFocusChains)[d], {window})
        invariant View() == old(View()).(desktops := desktopFocusChains)
        decreases keys
      {
        var d :| d in keys;
        desktopFocusChains := desktopFocusChains[d := Without(desktopFocusChains[d], {window})];
        keys := keys - {d};
      }
      mostRecentlyUsed := Without(mostRecentlyUsed, {window});
    }

    /** The chain of one desktop after an update. */
    method UpdateOnDesktop(world: World, window: Window, change: Change, d: nat) returns (chain: Chain)
      requires d in desktopFocusChains
      ensures chain == DesktopUpdated(world, View(), window, change, d)
    {
      chain := desktopFocusChains[d];
      if world.onAllDesktops(window) {
        // making first or last works only on the current desktop
        if d == currentDesktop && (change == MakeFirst || change == MakeLast) {
          chain := if change == MakeFirst then MadeFirst(chain, window) else MadeLast(chain, window);
        } else {
          chain := Inserted(chain, window, activeClient);
        }
      } else if world.OnDesktop(window, d) {
        chain := Changed(chain, window, change, activeClient);
      } else {
        chain := Without(chain, {window});
      }
    }

    method UpdateClient(world: World, window: Window, change: Change)
      modifies this
      ensures View() == Updated(world, old(View()), window, change)
    {
      if !world.wantsTabFocus(window) {
        Remove(window);
        return;
      }
      var keys := desktopFocusChains.Keys;
      while keys != {}
        invariant keys <= desktopFocusChains.Keys == old(desktopFocusChains).Keys
        invariant forall d :: d in desktopFocusChains ==>
          desktopFocusChains[d] == if d in keys then old(desktopFocusChains)[d]
                                   else DesktopUpdated(world, old(View()), window, change, d)
        invariant View() == old(View()).(desktops := desktopFocusChains)
        decreases keys
      {
        var d :| d in keys;
        var chain := UpdateOnDesktop(world, window, change, d);
        desktopFocusChains := desktopFocusChains[d := chain];
        keys := keys - {d};
      }
      mostRecentlyUsed := Changed(mostRecentlyUsed, window, change, activeClient);
    }

    method MoveAfterClient(world: World, window: Window, reference: Window)
      modifies this
      ensures View() == Moved(world, old(View()), window, reference)
    {
      if !world.wantsTabFocus(window) {
        return;
      }
      ghost var target := Moved(world, View(), window, reference);
      var keys := desktopFocusChains.Keys;
      while keys != {}
        invariant keys <= desktopFocusChains.Keys == old(desktopFocusChains).Keys
        invariant forall d :: d in desktopFocusChains ==>
          desktopFocusChains[d] == if d in keys then old(desktopFocusChains)[d] else target.desktops[d]
        invariant View() == old(View()).(desktops := desktopFocusChains)
        decreases keys
      {
        var d :| d in keys;
        keys := keys - {d};
        if !world.OnDesktop(window, d) {
          continue;
        }
        var chain := MoveAfterClientInChain(world, window, reference, desktopFocusChains[d]);
        desktopFocusChains := desktopFocusChains[d := chain];
      }
      mostRecentlyUsed := MoveAfterClientInChain(world, window, reference, mostRecentlyUsed);
    }

    method Resize(previousSize: nat, newSize: nat)
      modifies this
      ensures View() == Resized(old(View()), previousSize, newSize)
    {
      var i := previousSize + 1;
      while i <= newSize
        invariant previousSize < i && (i <= newSize + 1 || i == previousSize + 1)
        invariant View() == old(View()).(desktops := Grown(old(desktopFocusChains), previousSize, i - 1))
      {
        desktopFocusChains := desktopFocusChains[i := []];
        i := i + 1;
      }
      ghost var target := Shrunk(desktopFocusChains, previousSize, newSize);
      i := previousSize;
      while i > newSize
        invariant i >= 0 && Shrunk(desktopFocusChains, i, newSize) == target
        invariant View() == old(View()).(desktops := desktopFocusChains)
      {
        desktopFocusChains := desktopFocusChains - {i};
        i := i - 1;
      }
    }

    method NextMostRecentlyUsed(reference: Window) returns (next: Option<Window>)
      ensures next == NextRecent(mostRecentlyUsed, reference)
    {
      if |mostRecentlyUsed| == 0 {
        return None;
      }
      var index := if reference in mostRecentlyUsed then IndexOf(mostRecentlyUsed, reference) else -1;
      if index == -1 {
        return Some(mostRecentlyUsed[0]);
      }
      if index == 0 {
        return Some(mostRecentlyUsed[|mostRecentlyUsed| - 1]);
      }
      return Some(mostRecentlyUsed[index - 1]);
    }
  }

  // ----- over every run -----

  /** Updates and moves come with the world as it is at that moment. */
  datatype Op =
    | UpdateWindow(w: Window, change: Change, world: World)
    | RemoveWindow(w: Window)
    | MoveAfter(w: Window, reference: Window, world: World)
    | Resize(size: nat)
    | SetActive(active: Option<Window>)
    | SetCurrent(desktop: nat)

  /** One chain per desktop from 1 to `n`. */
  ghost predicate DesktopsUpTo(st: Chains, n: nat) {
    forall d :: d in st.desktops <==> 1 <= d <= n
  }

  function Apply(st: Chains, size: nat, op: Op): (Chains, nat) {
    match op
    case UpdateWindow(w, change, world) => (Updated(world, st, w, change), size)
    case RemoveWindow(w) => (Removed(st, w), size)
    case MoveAfter(w, reference, world) => (Moved(world, st, w, reference), size)
    case Resize(n) => (Resized(st, size, n), n)
    case SetActive(active) => (st.(active := active), size)
    case SetCurrent(d) => (st.(current := d), size)
  }

  function Run(st: Chains, size: nat, ops: seq<Op>): (Chains, nat)
    decreases |ops|
  {
    if ops == [] then (st, size)
    else
      var (st', size') := Apply(st, size, ops[0]);
      Run(st', size', ops[1..])
  }

  /** Every window is of its own application. */
  ghost predicate SaneMoves(ops: seq<Op>) {
    forall i :: 0 <= i < |ops| && ops[i].MoveAfter? ==> ops[i].world.Reflexive()
  }

  /** No chain repeats a window, and every window of a desktop chain is recently used. */
  ghost predicate Sound(st: Chains) {
    && NoDup(st.recent)
    && (forall d :: d in st.desktops ==> NoDup(st.desktops[d]))
    && (forall d, w :: d in st.desktops && w in st.desktops[d] ==> w in st.recent)
  }

  lemma DesktopMembership(world: World, st: Chains, w: Window, change: Change, d: nat)
    requires d in st.desktops && NoDup(st.desktops[d]) && world.wantsTabFocus(w)
    ensures var c, c' := st.desktops[d], DesktopUpdated(world, st, w, change, d);
            && NoDup(c') && Without(c', {w}) == Without(c, {w})
            && (w in c' <==> world.OnDesktop(w, d))
            && forall x :: x != w ==> (x in c' <==> x in c)
  {
    var c := st.desktops[d];
    if world.onAllDesktops(w) {
      ChangedKeeps(c, w, if d == st.current then change else Update, st.active);
    } else if world.OnDesktop(w, d) {
      ChangedKeeps(c, w, change, st.active);
    } else {
      SiftNoDup(c, {w}, false);
      SiftAll(Without(c, {w}), {w}, false);
    }
  }

  lemma RemoveMembership(st: Chains, w: Window)
    requires Sound(st)
    ensures Sound(Removed(st, w)) && w !in Removed(st, w).recent
    ensures forall d :: d in st.desktops ==> w !in Removed(st, w).desktops[d]
  {
    SiftNoDup(st.recent, {w}, false);
    forall d | d in st.desktops ensures NoDup(Without(st.desktops[d], {w})) {
      SiftNoDup(st.desktops[d], {w}, false);
    }
  }

  /** After an update, `w` is in exactly the chains it belongs to. */
  lemma UpdateMembership(world: World, st: Chains, w: Window, change: Change)
    requires Sound(st)
    ensures var st' := Updated(world, st, w, change);
            && Sound(st') && st'.desktops.Keys == st.desktops.Keys
            && (w in st'.recent <==> world.wantsTabFocus(w))
            && (forall d :: d in st'.desktops ==>
                  (w in st'.desktops[d] <==> world.wantsTabFocus(w) && world.OnDesktop(w, d)))
  {
    if !world.wantsTabFocus(w) {
      RemoveMembership(st, w);
    } else {
      var st' := Updated(world, st, w, change);
      ChangedKeeps(st.recent, w, change, st.active);
      forall d | d in st.desktops
        ensures NoDup(st'.desktops[d])
        ensures w in st'.desktops[d] <==> world.OnDesktop(w, d)
        ensures forall x :: x in st'.desktops[d] ==> x in st'.recent
      {
        DesktopMembership(world, st, w, change, d);
      }
    }
  }

  /** The change that counts on desktop `d`: for a window on all desktops, making it first or last counts
      on the current desktop only. */
  predicate CountsOn(world: World, st: Chains, w: Window, d: nat) {
    !world.onAllDesktops(w) || d == st.current
  }

  /** Where an update puts `w`: in the recent chain and in those of its desktops as the change says; on
      desktops on which it does not count, as a plain update does. */
  lemma UpdatePlaces(world: World, st: Chains, w: Window, change: Change, d: nat)
    requires world.wantsTabFocus(w)
    ensures var st' := Updated(world, st, w, change);
            && PlacedBy(st.recent, st'.recent, w, change, st.active)
            && st'.desktops.Keys == st.desktops.Keys
            && (d in st.desktops && world.OnDesktop(w, d) ==>
                  PlacedBy(st.desktops[d], st'.desktops[d], w,
                           if CountsOn(world, st, w, d) then change else Update, st.active))
  {
    ChangedPlace(st.recent, w, change, st.active);
    if d in st.desktops {
      ChangedPlace(st.desktops[d], w, if CountsOn(world, st, w, d) then change else Update, st.active);
    }
  }

  /** Where a move puts `w` behind a reference of its application: directly behind it in the recent chain
      and in every chain of its desktops that holds the reference; all other chains stay as they are. */
  lemma MovePlaces(world: World, st: Chains, w: Window, reference: Window, d: nat)
    requires Sound(st) && world.wantsTabFocus(w) && reference != w && world.sameClient(reference, w)
    ensures var st' := Moved(world, st, w, reference);
            && st'.desktops.Keys == st.desktops.Keys
            && (if reference in st.recent then Behind(st'.recent, w, reference) else st'.recent == st.recent)
            && (d in st.desktops ==>
                  if world.OnDesktop(w, d) && reference in st.desktops[d] then Behind(st'.desktops[d], w, reference)
                  else st'.desktops[d] == st.desktops[d])
  {
    if reference in st.recent {
      MovedPlace(world, st.recent, w, reference);
    }
    if d in st.desktops && reference in st.desktops[d] {
      MovedPlace(world, st.desktops[d], w, reference);
    }
  }

  lemma MoveSound(world: World, st: Chains, w: Window, reference: Window)
    requires Sound(st) && world.Reflexive()
    ensures Sound(Moved(world, st, w, reference))
    ensures forall d :: d in st.desktops && w in st.desktops[d] ==> w in Moved(world, st, w, reference).desktops[d]
    ensures w in st.recent ==> w in Moved(world, st, w, reference).recent
  {
    var st' := Moved(world, st, w, reference);
    MovedKeeps(world, st.recent, w, reference);
    MovedHolds(world, st.recent, w, reference);
    forall d | d in st.desktops
      ensures NoDup(st'.desktops[d])
      ensures w in st.desktops[d] ==> w in st'.desktops[d]
      ensures forall x :: x in st'.desktops[d] ==> x in st'.recent
    {
      MovedKeeps(world, st.desktops[d], w, reference);
      MovedHolds(world, st.desktops[d], w, reference);
    }
  }

  lemma {:induction false} GrownKeys(m: map<nat, Chain>, previous: nat, size: nat)
    ensures forall d :: d in Grown(m, previous, size) <==> d in m || previous < d <= size
    ensures forall d :: d in Grown(m, previous, size) ==>
              Grown(m, previous, size)[d] == if previous < d <= size then [] else m[d]
  {
    if size > previous {
      GrownKeys(m, previous, size - 1);
    }
  }

  lemma {:induction false} ShrunkKeys(m: map<nat, Chain>, previous: nat, size: nat)
    ensures forall d :: d in Shrunk(m, previous, size) <==> d in m && !(size < d <= previous)
    ensures forall d :: d in Shrunk(m, previous, size) ==> Shrunk(m, previous, size)[d] == m[d]
    decreases previous
  {
    if previous > size {
      ShrunkKeys(m - {previous}, previous - 1, size);
    }
  }

  lemma ResizeSound(st: Chains, size: nat, n: nat)
    requires Sound(st) && DesktopsUpTo(st, size)
    ensures Sound(Resized(st, size, n)) && DesktopsUpTo(Resized(st, size, n), n)
    ensures forall d :: 1 <= d <= size && d <= n ==> Resized(st, size, n).desktops[d] == st.desktops[d]
    ensures forall d :: size < d <= n ==> |Resized(st, size, n).desktops[d]| == 0
  {
    GrownKeys(st.desktops, size, n);
    ShrunkKeys(Grown(st.desktops, size, n), size, n);
  }

  lemma ApplySound(st: Chains, size: nat, op: Op)
    requires Sound(st) && DesktopsUpTo(st, size) && (op.MoveAfter? ==> op.world.Reflexive())
    ensures var (st', size') := Apply(st, size, op); Sound(st') && DesktopsUpTo(st', size')
  {
    match op
    case UpdateWindow(w, change, world) => UpdateMembership(world, st, w, change);
    case RemoveWindow(w) => RemoveMembership(st, w);
    case MoveAfter(w, reference, world) => MoveSound(world, st, w, reference);
    case Resize(n) => ResizeSound(st, size, n);
    case _ =>
  }

  /** Over every run the chains stay consistent with each other and with the desktop count, however
      the windows change desktops, applications and tab focus on the way. */
  lemma {:induction false} RunSound(st: Chains, size: nat, ops: seq<Op>)
    requires Sound(st) && DesktopsUpTo(st, size) && SaneMoves(ops)
    ensures var (st', size') := Run(st, size, ops); Sound(st') && DesktopsUpTo(st', size')
    decreases |ops|
  {
    if ops != [] {
      ApplySound(st, size, ops[0]);
      var (st', size') := Apply(st, size, ops[0]);
      RunSound(st', size', ops[1..]);
    }
  }

  /** The operation is about `w`. */
  predicate About(op: Op, w: Window) {
    match op
    case UpdateWindow(v, _, _) => v == w
    case RemoveWindow(v) => v == w
    case MoveAfter(v, _, _) => v == w
    case _ => false
  }

  /** Operations on `w` leave the relative order of all other windows alone, in every chain. */
  lemma OthersKeepOrder(st: Chains, size: nat, op: Op, w: Window)
    requires Sound(st) && About(op, w)
    ensures var st' := Apply(st, size, op).0;
            && Without(st'.recent, {w}) == Without(st.recent, {w})
            && st'.desktops.Keys == st.desktops.Keys
            && forall d :: d in st.desktops ==> Without(st'.desktops[d], {w}) == Without(st.desktops[d], {w})
  {
    var st' := Apply(st, size, op).0;
    RecentKeepsOthers(st, size, op, w);
    forall d | d in st.desktops ensures Without(st'.desktops[d], {w}) == Without(st.desktops[d], {w}) {
      SiftAll(Without(st.desktops[d], {w}), {w}, false);
      match op
      case UpdateWindow(_, change, world) =>
        if world.wantsTabFocus(w) {
          DesktopMembership(world, st, w, change, d);
        }
      case MoveAfter(_, reference, world) => MovedKeeps(world, st.desktops[d], w, reference);
      case _ =>
    }
  }

  lemma RecentKeepsOthers(st: Chains, size: nat, op: Op, w: Window)
    requires Sound(st) && About(op, w)
    ensures Without(Apply(st, size, op).0.recent, {w}) == Without(st.recent, {w})
  {
    SiftAll(Without(st.recent, {w}), {w}, false);
    match op
    case UpdateWindow(_, change, _) => ChangedKeeps(st.recent, w, change, st.active);
    case MoveAfter(_, reference, world) => MovedKeeps(world, st.recent, w, reference);
    case _ =>
  }

  // ----- walking the chain of most recently used windows -----

  function NextRecent(c: Chain, reference: Window): Option<Window> {
    if c == [] then None
    else if reference !in c then Some(c[0])
    else if reference == c[0] then Some(c[|c| - 1])
    else Some(c[IndexOf(c, reference) - 1])
  }

  /** The window reached from `start` after `k` steps. */
  function Walked(c: Chain, start: Window, k: nat): (r: Window)
    requires start in c
    ensures r in c
  {
    if k == 0 then start else NextRecent(c, Walked(c, start, k - 1)).value
  }

  /** The position `k` steps back from `i`, around a chain of `n` windows. */
  function Back(i: nat, k: nat, n: nat): (j: nat)
    requires i < n && k <= n
    ensures j < n
  {
    if k <= i then i - k else i - k + n
  }

  lemma NextPosition(c: Chain, i: nat)
    requires NoDup(c) && i < |c|
    ensures NextRecent(c, c[i]) == Some(c[Back(i, 1, |c|)])
  {
    assert IndexOf(c, c[i]) == i;
  }

  lemma {:induction false} WalkedPosition(c: Chain, i: nat, k: nat)
    requires NoDup(c) && i < |c| && k <= |c|
    ensures Walked(c, c[i], k) == c[Back(i, k, |c|)]
    decreases k
  {
    if k > 0 {
      WalkedPosition(c, i, k - 1);
      var j := Back(i, k - 1, |c|);
      NextPosition(c, j);
      assert Back(j, 1, |c|) == Back(i, k, |c|);
    }
  }

  /** Stepping through a repeat-free chain comes back to the start after as many steps as it has
      windows. */
  lemma WalkReturns(c: Chain, start: Window)
    requires NoDup(c) && start in c
    ensures Walked(c, start, |c|) == start
  {
    WalkedPosition(c, IndexOf(c, start), |c|);
  }

  /** On the way it visits every window ... */
  lemma WalkVisits(c: Chain, start: Window, x: Window) returns (k: nat)
    requires NoDup(c) && start in c && x in c
    ensures k < |c| && Walked(c, start, k) == x
  {
    var i, j := IndexOf(c, start), IndexOf(c, x);
    k := Back(i, j, |c|);
    WalkedPosition(c, i, k);
  }

  /** ... and none of them twice. */
  lemma WalkVisitsOnce(c: Chain, start: Window, k: nat, l: nat)
    requires NoDup(c) && start in c && k < l < |c|
    ensures Walked(c, start, k) != Walked(c, start, l)
  {
    WalkedPosition(c, IndexOf(c, start), k);
    WalkedPosition(c, IndexOf(c, start), l);
  }

  /** Each step leads to a window used less recently, and from the least recently used one back to the
      first; from a window the chain does not hold, the walk starts at the least recently used one. */
  lemma NextGoesBack(c: Chain, reference: Window)
    requires NoDup(c) && c != []
    ensures var next := NextRecent(c, reference);
            && next.Some?
            && (reference in c && reference != c[0] ==> Behind(c, next.value, reference))
            && (reference == c[0] ==> FirstIn(c, next.value))
            && (reference !in c ==> NextRecent(c, next.value) == Some(c[|c| - 1]))
  {
    if reference in c && reference != c[0] {
      NextPosition(c, IndexOf(c, reference));
    } else if reference == c[0] {
      NextPosition(c, 0);
    } else {
      NextPosition(c, 0);
    }
  }

  /** After two windows were made first, the step from the second leads to the first. */
  lemma NextIsPrevious(c: Chain, a: Window, b: Window)
    requires NoDup(c) && a != b
    ensures NextRecent(MadeFirst(MadeFirst(c, a), b), b) == Some(a)
  {
    var c' := MadeFirst(c, a);
    ChangedKeeps(c, a, MakeFirst, None);
    ChangedKeeps(c', b, MakeFirst, None);
    SecondOfTwo(Without(c, {a}), a, b);
    var c'' := MadeFirst(c', b);
    NextPosition(c'', |c''| - 1);
  }

  lemma SecondOfTwo(r: Chain, a: Window, b: Window)
    requires a != b
    ensures DirectlyAfter(MadeFirst(r + [a], b), a, b)
  {
    SiftSnoc(r, a, {b}, false);
  }
}
