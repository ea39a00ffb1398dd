/** Windows as the stacking engine sees them, and the rules that tell which transient
    windows are kept directly above their leads. */
module Windows {
  import opened Seqs

  type Window = nat
  type Group = nat

  // The layers of the enumeration win::layer, from bottom to top.
  const LAYER_COUNT := 10
  type Layer = l: nat | l < LAYER_COUNT
  const DESKTOP: Layer := 0
  const BELOW: Layer := 1
  const NORMAL: Layer := 2
  const DOCK: Layer := 3
  const ABOVE: Layer := 4
  const NOTIFICATION: Layer := 5
  const ACTIVE: Layer := 6
  const CRITICAL_NOTIFICATION: Layer := 7
  const ON_SCREEN_DISPLAY: Layer := 8
  const UNMANAGED: Layer := 9

  datatype Kind = Normal | Dialog | Splash | Dock

  /** What stays known of a window that was closed but is still shown. */
  datatype Remnant = Remnant(wasX11Client: bool, wasGroupTransient: bool, wasActive: bool)

  datatype Attributes = Attributes(
    ownLayer: Layer,
    screen: nat,
    x11: bool,
    group: Option<Group>,
    leads: seq<Window>,
    children: seq<Window>,
    annexed: bool,
    modal: bool,
    groupTransient: bool,
    kind: Kind,
    special: bool,
    remnant: Option<Remnant>,
    control: bool,
    sessionOrder: int)

  const PLAIN := Attributes(NORMAL, 0, false, None, [], [], false, false, false, Normal, false, None, true, -1)

  /** Everything the stacking engine reads but does not change. `sameClient(a, b)` stands for
      win::belong_to_same_client, `members` for Group::members. The lead graph has no cycle:
      `rank` falls from every lead to its children and is bounded by `top`. */
  datatype RawScene = RawScene(
    attr: Window -> Attributes,
    sameClient: (Window, Window) -> bool,
    members: Group -> seq<Window>,
    ghost rank: Window -> nat,
    ghost top: nat)

  /** `w` is a lead of exactly its children, and each of them ranks lower. */
  ghost predicate Linked(s: RawScene, w: Window) {
    && NoDup(s.attr(w).children)
    && NoDup(s.attr(w).leads)
    && (forall c :: c in s.attr(w).children <==> w in s.attr(c).leads)
    && (forall c :: c in s.attr(w).children ==> s.rank(c) < s.rank(w))
    && s.rank(w) <= s.top
  }

  ghost predicate Acyclic(s: RawScene) {
    (forall w :: Linked(s, w)) && (forall g :: NoDup(s.members(g)))
  }

  type Scene = s: RawScene | Acyclic(s)
    ghost witness RawScene(w => PLAIN, (a, b) => a == b, g => [], w => 0, 0)

  function Children(s: Scene, w: Window): seq<Window> {
    s.attr(w).children
  }

  function Leads(s: Scene, w: Window): seq<Window> {
    s.attr(w).leads
  }

  lemma Family(s: Scene, lead: Window, child: Window)
    ensures child in Children(s, lead) <==> lead in Leads(s, child)
    ensures child in Children(s, lead) ==> s.rank(child) < s.rank(lead) <= s.top
  {
    assert Linked(s, lead);
  }

  /** Toplevel::lead(): the lead at first position. */
  function FirstLead(s: Scene, w: Window): (r: Option<Window>)
    ensures r.Some? ==> r.value in Leads(s, w) && s.rank(w) < s.rank(r.value) <= s.top
  {
    if Leads(s, w) == [] then None
    else
      Family(s, Leads(s, w)[0], w);
      Some(Leads(s, w)[0])
  }

  /** Toplevel::layer(): an annexed window is in the layer of its first lead. */
  function LayerOf(s: Scene, w: Window): Layer
    decreases s.top - s.rank(w)
  {
    var lead := FirstLead(s, w);
    if lead.Some? && s.attr(w).annexed then LayerOf(s, lead.value)
    else s.attr(w).ownLayer
  }

  predicate SplashOverDialog(s: Scene, main: Window, transient: Window) {
    s.attr(transient).kind == Splash && s.attr(main).kind == Dialog
  }

  /** What the kinds of the two windows say, for a transient that is not annexed. */
  predicate KeepByKind(s: Scene, main: Window, transient: Window) {
    var t := s.attr(transient);
    if SplashOverDialog(s, main, transient) then false
    else if t.kind == Dialog && !t.modal && t.groupTransient then false
    else if s.attr(main).kind == Dock then false
    else true
  }

  predicate KeepTransientAbove(s: Scene, main: Window, transient: Window) {
    s.attr(transient).annexed || KeepByKind(s, main, transient)
  }

  predicate KeepDeletedTransientAbove(s: Scene, main: Window, transient: Window)
    requires s.attr(transient).remnant.Some?
  {
    var t := s.attr(transient);
    var past := t.remnant.value;
    if SplashOverDialog(s, main, transient) then false
    else if !past.wasX11Client then true
    else if past.wasGroupTransient && past.wasActive then true
    else if past.wasGroupTransient && t.kind == Dialog && !t.modal then false
    else if s.attr(main).kind == Dock then false
    else true
  }

  /** Exactly when closing a transient changes the rule for it. The remnant is no longer kept above when
      the live window was kept only because it was annexed, and nothing spares the remnant; it is newly
      kept above when it is spared. A splash over a dialog never is; of X11 windows the active group
      transients are, of all others every one. */
  lemma ClosingChangesRule(s: Scene, main: Window, transient: Window)
    requires s.attr(transient).remnant.Some?
    requires s.attr(transient).remnant.value.wasX11Client ==>
               s.attr(transient).remnant.value.wasGroupTransient == s.attr(transient).groupTransient
    ensures var t := s.attr(transient);
            var past := t.remnant.value;
            var spared := !SplashOverDialog(s, main, transient)
                          && (past.wasX11Client ==> t.groupTransient && past.wasActive);
            && ((KeepTransientAbove(s, main, transient) && !KeepDeletedTransientAbove(s, main, transient)) <==>
                (t.annexed && !KeepByKind(s, main, transient) && !spared))
            && ((!KeepTransientAbove(s, main, transient) && KeepDeletedTransientAbove(s, main, transient)) <==>
                (!t.annexed && !KeepByKind(s, main, transient) && spared))
  {
  }

  /** Tells if a transient child is to be restacked directly above its lead. */
  predicate ChildRestack(s: Scene, lead: Window, child: Window) {
    if LayerOf(s, lead) < LayerOf(s, child) then false
    else if s.attr(child).remnant.Some? then KeepDeletedTransientAbove(s, lead, child)
    else KeepTransientAbove(s, lead, child)
  }

  /** The children of `w` that are restacked above it. */
  function Restacked(s: Scene, w: Window): (r: set<Window>)
    ensures forall c :: c in r ==> s.rank(c) < s.rank(w)
  {
    assert Linked(s, w);
    set c | c in Children(s, w) && ChildRestack(s, w, c)
  }

  /** No lead has `w` restacked above it: `w` finds its place by its layer alone. */
  predicate Loose(s: Scene, w: Window) {
    forall lead :: lead in Leads(s, w) ==> !ChildRestack(s, lead, w)
  }

  lemma LooseMeansUnclaimed(s: Scene, w: Window)
    ensures Loose(s, w) <==> forall lead :: w !in Restacked(s, lead)
  {
    forall lead ensures w in Restacked(s, lead) <==> lead in Leads(s, w) && ChildRestack(s, lead, w) {
      Family(s, lead, w);
    }
  }

  /** An annexed window that is still alive is always restacked above its first lead. */
  lemma AnnexedIsRestacked(s: Scene, w: Window)
    requires s.attr(w).annexed && s.attr(w).remnant.None? && FirstLead(s, w).Some?
    ensures w in Restacked(s, FirstLead(s, w).value)
  {
    Family(s, FirstLead(s, w).value, w);
  }

  /** Which children of its layer or below a lead restacks, by their kind: no splash over a dialog, of
      group transient dialogs the modal ones only, and nothing over a dock, unless annexed. */
  lemma LiveRestacking(s: Scene, lead: Window, child: Window)
    requires child in Children(s, lead) && LayerOf(s, child) <= LayerOf(s, lead)
    requires s.attr(child).remnant.None? && !s.attr(child).annexed
    ensures SplashOverDialog(s, lead, child) || s.attr(lead).kind == Dock ==> child !in Restacked(s, lead)
    ensures s.attr(child).kind == Dialog && s.attr(child).groupTransient && s.attr(lead).kind != Dock ==>
              (child in Restacked(s, lead) <==> s.attr(child).modal)
    ensures s.attr(child).kind == Normal && s.attr(lead).kind != Dock ==> child in Restacked(s, lead)
  {
  }

  /** What is active and a group transient when it is closed stays above, whatever its kind: also a dialog
      that is not modal, and one over a dock. Of others that were X11 windows the same holds as for live
      ones. */
  lemma ClosedRestacking(s: Scene, lead: Window, child: Window)
    requires child in Children(s, lead) && LayerOf(s, child) <= LayerOf(s, lead)
    requires s.attr(child).remnant.Some? && s.attr(child).remnant.value.wasX11Client
    requires !SplashOverDialog(s, lead, child)
    ensures var past := s.attr(child).remnant.value;
            && (past.wasGroupTransient && past.wasActive ==> child in Restacked(s, lead))
            && (!past.wasActive && s.attr(lead).kind == Dock ==> child !in Restacked(s, lead))
    ensures var past := s.attr(child).remnant.value;
            var dialog := s.attr(child).kind == Dialog && s.attr(lead).kind != Dock;
            past.wasGroupTransient && !past.wasActive && dialog ==>
              (child in Restacked(s, lead) <==> s.attr(child).modal)
  {
  }

  /** Windows reached from `w` by going up through restacked children any number of times. */
  ghost predicate Reaches(s: Scene, w: Window, x: Window)
    decreases s.rank(w)
  {
    w == x || exists c :: c in Restacked(s, w) && Reaches(s, c, x)
  }

  ghost predicate AnyReaches(s: Scene, ws: seq<Window>, x: Window) {
    exists w :: w in ws && Reaches(s, w, x)
  }

  lemma {:induction false} ReachesDown(s: Scene, w: Window, x: Window)
    requires Reaches(s, w, x)
    ensures w == x || s.rank(x) < s.rank(w)
    decreases s.rank(w)
  {
    if w != x {
      var c :| c in Restacked(s, w) && Reaches(s, c, x);
      ReachesDown(s, c, x);
    }
  }

  lemma {:induction false} ReachesTrans(s: Scene, w: Window, x: Window, y: Window)
    requires Reaches(s, w, x) && Reaches(s, x, y)
    ensures Reaches(s, w, y)
    decreases s.rank(w)
  {
    if w != x {
      var c :| c in Restacked(s, w) && Reaches(s, c, x);
      ReachesTrans(s, c, x, y);
    }
  }

  lemma ReachesChild(s: Scene, w: Window, c: Window)
    requires c in Restacked(s, w)
    ensures Reaches(s, w, c)
  {
    assert Reaches(s, c, c);
  }

  /** The last step of a way from `w` up to `x`. */
  lemma {:induction false} LastStep(s: Scene, w: Window, x: Window) returns (lead: Window)
    requires Reaches(s, w, x) && w != x
    ensures Reaches(s, w, lead) && x in Restacked(s, lead)
    decreases s.rank(w)
  {
    var c :| c in Restacked(s, w) && Reaches(s, c, x);
    if c == x {
      lead := w;
    } else {
      lead := LastStep(s, c, x);
    }
  }

  lemma LooseReached(s: Scene, w: Window, x: Window)
    requires Reaches(s, w, x) && Loose(s, x)
    ensures w == x
  {
    if w != x {
      var lead := LastStep(s, w, x);
      LooseMeansUnclaimed(s, x);
    }
  }

  /** `u` holds the family of each of its windows. */
  ghost predicate Closed(s: Scene, u: seq<Window>) {
    forall w :: w in u ==> (forall c :: c in Children(s, w) || c in Leads(s, w) ==> c in u)
  }

  lemma {:induction false} ReachesInside(s: Scene, u: seq<Window>, w: Window, x: Window)
    requires Closed(s, u) && w in u && Reaches(s, w, x)
    ensures x in u
    decreases s.rank(w)
  {
    if w != x {
      var c :| c in Restacked(s, w) && Reaches(s, c, x);
      ReachesInside(s, u, c, x);
    }
  }

  /** Every window stands on a loose one. */
  lemma {:induction false} LooseRoot(s: Scene, u: seq<Window>, x: Window) returns (root: Window)
    requires Closed(s, u) && x in u
    ensures root in u && Loose(s, root) && Reaches(s, root, x)
    decreases s.top - s.rank(x)
  {
    if Loose(s, x) {
      root := x;
    } else {
      var lead :| lead in Leads(s, x) && ChildRestack(s, lead, x);
      Family(s, lead, x);
      root := LooseRoot(s, u, lead);
      ReachesChild(s, lead, x);
      ReachesTrans(s, root, lead, x);
    }
  }
}
