/** The ids of the debug console's tree model: categories, their windows, and the properties of
    these, packed into one number (debug_console.cpp). */
module DebugConsole {

  const ID_DISTANCE := 10000
  const PROPERTY_UNIT := 0x1_0000
  const X11_CLIENT := 1
  const X11_UNMANAGED := 2
  const WAYLAND_CLIENT := 3
  const WORKSPACE_INTERNAL := 4

  datatype Index = Invalid | Index(row: int, column: int, id: nat)

  /** How many windows a category has, how many properties each, and whether Wayland is in use. */
  datatype Model = Model(windows: int -> nat, properties: (int, nat) -> nat, wayland: bool)
  {
    function TopLevelRows(): int {
      if wayland then 4 else 2
    }
  }

  function ClientBits(id: nat): nat {
    id % PROPERTY_UNIT
  }

  /** Some of the property bits of the lower 32 bits are set. */
  predicate HasPropertyBits(id: nat) {
    id / PROPERTY_UNIT % PROPERTY_UNIT != 0
  }

  /** quint32(row + 1) << 16 | id, for an id that has no property bits. */
  function PropertyId(row: nat, id: nat): nat
    requires id < PROPERTY_UNIT
  {
    (row + 1) % PROPERTY_UNIT * PROPERTY_UNIT + id
  }

  /** The category an id below the property bits lies in, if any. */
  function CategoryOf(id: nat): (c: int) {
    if id < ID_DISTANCE * (X11_CLIENT + 1) then X11_CLIENT
    else if id < ID_DISTANCE * (X11_UNMANAGED + 1) then X11_UNMANAGED
    else if id < ID_DISTANCE * (WAYLAND_CLIENT + 1) then WAYLAND_CLIENT
    else if id < ID_DISTANCE * (WORKSPACE_INTERNAL + 1) then WORKSPACE_INTERNAL
    else 0
  }

  datatype Resolved = Nothing | Window(row: nat)

  /** clientForIndex: the window of category `c` an index stands for. */
  function ClientForIndex(m: Model, index: Index, c: int): Resolved
    requires index.Index?
  {
    var row := ClientBits(index.id) - ID_DISTANCE * c;
    if row < 0 || row >= m.windows(c) then Nothing else Window(row)
  }

  function IndexForClient(m: Model, row: nat, column: nat, c: int): Index
    requires 1 <= c <= 4
  {
    if column != 0 || row >= m.windows(c) then Invalid
    else Index(row, column, ID_DISTANCE * c + row)
  }

  function IndexForProperty(m: Model, row: nat, column: nat, parent: Index, c: int): Index
    requires parent.Index? && parent.id < PROPERTY_UNIT
  {
    match ClientForIndex(m, parent, c)
    case Nothing => Invalid
    case Window(w) =>
      if row >= m.properties(c, w) then Invalid else Index(row, column, PropertyId(row, parent.id))
  }

  function IndexAt(m: Model, row: nat, column: nat, parent: Index): Index {
    if parent.Invalid? then
      if column != 0 || row >= m.TopLevelRows() then Invalid else Index(row, column, row + 1)
    else if column >= 2 then Invalid
    else if 1 <= parent.id <= 4 then IndexForClient(m, row, column, parent.id)
    else
      var c := CategoryOf(parent.id);
      if c == 0 then Invalid else IndexForProperty(m, row, column, parent, c)
  }

  function Parent(child: Index): Index
    requires child.Index?
  {
    if child.id <= WORKSPACE_INTERNAL then Invalid
    else if HasPropertyBits(child.id) then
      var id := ClientBits(child.id);
      var c := CategoryOf(id);
      if c == 0 then Invalid else Index(id - ID_DISTANCE * c, 0, id)
    else
      var c := CategoryOf(child.id);
      if c == 0 then Invalid else Index(c - 1, 0, c)
  }

  /** The nodes of the tree: a category, a window in it, or a property of that window. */
  datatype Node =
    | Category(c: int)
    | Client(c: int, row: nat)
    | Property(c: int, row: nat, property: nat)

  predicate Exists(m: Model, n: Node) {
    && 1 <= n.c <= m.TopLevelRows()
    && (n.Client? || n.Property? ==> n.row < m.windows(n.c))
    && (n.Property? ==> n.property < m.properties(n.c, n.row))
  }

  /** The sizes for which ids do not run into each other. */
  ghost predicate Fits(m: Model) {
    && (forall c :: m.windows(c) < ID_DISTANCE)
    && (forall c, row :: m.properties(c, row) < PROPERTY_UNIT - 1)
  }

  function IdOf(n: Node): nat
    requires n.c >= 1
  {
    match n
    case Category(c) => c
    case Client(c, row) => ID_DISTANCE * c + row
    case Property(c, row, property) => PROPERTY_UNIT * (property + 1) + ID_DISTANCE * c + row
  }

  /** The index the model gives out for a node, in a column of its level. */
  function IndexOf(n: Node, column: nat): Index
    requires n.c >= 1
  {
    match n
    case Category(c) => Index(c - 1, column, IdOf(n))
    case Client(c, row) => Index(row, column, IdOf(n))
    case Property(c, row, property) => Index(property, column, IdOf(n))
  }

  function ParentOf(n: Node): Index
    requires n.c >= 1
  {
    match n
    case Category(_) => Invalid
    case Client(c, row) => IndexOf(Category(c), 0)
    case Property(c, row, _) => IndexOf(Client(c, row), 0)
  }

  function RowOf(n: Node): nat
    requires n.c >= 1
  {
    match n
    case Category(c) => c - 1
    case Client(_, row) => row
    case Property(_, _, property) => property
  }

  lemma IdBits(n: Node)
    requires 1 <= n.c <= 4 && (!n.Category? ==> n.row < ID_DISTANCE) && (n.Property? ==> n.property < PROPERTY_UNIT - 1)
    ensures n.Category? ==> IdOf(n) <= 4
    ensures n.Client? ==> 4 < IdOf(n) < PROPERTY_UNIT && CategoryOf(IdOf(n)) == n.c
    ensures n.Property? ==> HasPropertyBits(IdOf(n)) && ClientBits(IdOf(n)) == IdOf(Client(n.c, n.row))
    ensures n.Property? ==> IdOf(n) == PropertyId(n.property, IdOf(Client(n.c, n.row))) >= PROPERTY_UNIT
  {
    if n.Property? {
      var low := ID_DISTANCE * n.c + n.row;
      Digits(n.property + 1, low);
    }
  }

  lemma Digits(high: nat, low: nat)
    requires low < PROPERTY_UNIT
    ensures (PROPERTY_UNIT * high + low) / PROPERTY_UNIT == high
    ensures (PROPERTY_UNIT * high + low) % PROPERTY_UNIT == low
  {
  }

  lemma ClientTrip(m: Model, c: int, row: nat)
    requires m.windows(c) < ID_DISTANCE && 1 <= c <= 4 && row < m.windows(c)
    ensures IndexAt(m, row, 0, IndexOf(Category(c), 0)) == IndexOf(Client(c, row), 0)
    ensures Parent(IndexOf(Client(c, row), 0)) == IndexOf(Category(c), 0)
    ensures ClientForIndex(m, IndexOf(Client(c, row), 0), c) == Window(row)
  {
    IdBits(Client(c, row));
  }

  lemma PropertyTrip(m: Model, c: int, row: nat, property: nat, column: nat)
    requires m.windows(c) < ID_DISTANCE && 1 <= c <= 4 && row < m.windows(c)
    requires property < m.properties(c, row) < PROPERTY_UNIT - 1 && column < 2
    ensures IndexAt(m, property, column, IndexOf(Client(c, row), 0)) == IndexOf(Property(c, row, property), column)
    ensures Parent(IndexOf(Property(c, row, property), column)) == IndexOf(Client(c, row), 0)
  {
    ClientTrip(m, c, row);
    IdBits(Client(c, row));
    IdBits(Property(c, row, property));
  }

  /** Every node gets a valid index under its parent, and the parent of that index is its parent. */
  lemma RoundTrip(m: Model, n: Node, column: nat)
    requires Fits(m) && Exists(m, n) && (if n.Property? then column < 2 else column == 0)
    ensures IndexAt(m, RowOf(n), column, ParentOf(n)) == IndexOf(n, column)
    ensures Parent(IndexOf(n, column)) == ParentOf(n)
  {
    match n
    case Category(_) =>
    case Client(c, row) => ClientTrip(m, c, row);
    case Property(c, row, property) => PropertyTrip(m, c, row, property, column);
  }

  /** Conversely every valid index handed out under a node stands for a node below it. */
  lemma OnlyNodes(m: Model, row: nat, column: nat, p: Node) returns (n: Node)
    requires Fits(m) && Exists(m, p)
    requires IndexAt(m, row, column, IndexOf(p, 0)).Index?
    ensures Exists(m, n) && !p.Property? && ParentOf(n) == IndexOf(p, 0) && RowOf(n) == row
    ensures IndexAt(m, row, column, IndexOf(p, 0)) == IndexOf(n, column)
  {
    IdBits(p);
    match p
    case Category(c) => n := Client(c, row);
    case Client(c, w) =>
      n := Property(c, w, row);
      assert ClientBits(IdOf(p)) == IdOf(p);
      IdBits(n);
    case Property(c, w, q) =>
      n := p;
  }

  /** Different nodes have different ids. */
  lemma IdsDistinct(m: Model, a: Node, b: Node)
    requires Fits(m) && Exists(m, a) && Exists(m, b) && a != b
    ensures IdOf(a) != IdOf(b)
  {
    IdBits(a);
    IdBits(b);
    if a.Property? && b.Property? && IdOf(a) == IdOf(b) {
      IdBits(Client(a.c, a.row));
      IdBits(Client(b.c, b.row));
    }
  }

  /** The id of a window or property resolves to that window, and in its own category only. */
  lemma ResolvesInOwnCategory(m: Model, n: Node, column: nat, c: int)
    requires Fits(m) && Exists(m, n) && !n.Category? && 1 <= c <= 4
    ensures ClientForIndex(m, IndexOf(n, column), c) == if c == n.c then Window(n.row) else Nothing
  {
    IdBits(n);
    IdBits(Client(n.c, n.row));
    assert ClientBits(IdOf(n)) == ID_DISTANCE * n.c + n.row;
    assert m.windows(c) < ID_DISTANCE;
  }

  /** The bound on windows is exact: the index of a window leads back to its category precisely for
      the first 10000 of them. */
  lemma ParentNeedsBound(c: int, row: nat)
    requires 1 <= c <= 4
    ensures Parent(IndexOf(Client(c, row), 0)) == IndexOf(Category(c), 0) <==> row < ID_DISTANCE
  {
  }
}
