/** Merging provenance and coordinates: section 12.1 of the MetaLog specification's lists, in an
    order section 12.2 makes independent of the operands. */
module Provenance {
  import opened Options
  import opened Orders
  import opened Bytes
  import opened Json
  import opened CanonicalKeys
  import opened KeyInjectivity
  import opened JcsWriter

  // ---------------------------------------------------------------- key order

  lemma KeyTransitive(a: CanonicalKey, b: CanonicalKey, c: CanonicalKey)
    requires KeyBefore(a, b) && KeyBefore(b, c)
    ensures KeyBefore(a, c)
  {
    hide LexLess;
    LexIrreflexive(b.ecma);
    if a.ecma == b.ecma && b.ecma == c.ecma {
      LexTransitive(a.exact, b.exact, c.exact);
    } else if a.ecma != b.ecma && b.ecma != c.ecma {
      LexTransitive(a.ecma, b.ecma, c.ecma);
    }
  }

  lemma KeyTrichotomy(a: CanonicalKey, b: CanonicalKey)
    ensures a == b || KeyBefore(a, b) || KeyBefore(b, a)
    ensures !KeyBefore(a, a)
  {
    LexTrichotomy(a.ecma, b.ecma);
    LexTrichotomy(a.exact, b.exact);
    LexIrreflexive(a.ecma);
    LexIrreflexive(a.exact);
  }

  // ---------------------------------------------------------------- provenance

  datatype Keyed = Keyed(key: CanonicalKey, entry: Entry)

  /** Entries without bounds first, then by window start, window end and canonical key. */
  predicate KeyedBefore(a: Keyed, b: Keyed) {
    var x, y := a.entry.window, b.entry.window;
    if x.Some? != y.Some? then x.None?
    else if x.Some? && x.value.startIso != y.value.startIso then LexLess(x.value.startIso, y.value.startIso)
    else if x.Some? && x.value.endIso != y.value.endIso then LexLess(x.value.endIso, y.value.endIso)
    else KeyBefore(a.key, b.key)
  }

  const KeyedOrder: (Keyed, Keyed) -> bool := (a: Keyed, b: Keyed) => KeyedBefore(a, b)

  ghost function Key(e: Entry, ecma: nat -> Text): Keyed { Keyed(EntryKey(e, ecma), e) }

  ghost function EntryOrder(ecma: nat -> Text): (Entry, Entry) -> bool {
    (a: Entry, b: Entry) => KeyedBefore(Key(a, ecma), Key(b, ecma))
  }

  lemma KeyedTransitive(a: Keyed, b: Keyed, c: Keyed)
    requires KeyedBefore(a, b) && KeyedBefore(b, c)
    ensures KeyedBefore(a, c)
  {
    hide LexLess, KeyBefore;
    var x, y, z := a.entry.window, b.entry.window, c.entry.window;
    if x.Some? && y.Some? && z.Some? {
      WindowTransitive(a, b, c);
    } else if x.None? && y.None? && z.None? {
      KeyTransitive(a.key, b.key, c.key);
    }
  }

  lemma WindowTransitive(a: Keyed, b: Keyed, c: Keyed)
    requires a.entry.window.Some? && b.entry.window.Some? && c.entry.window.Some?
    requires KeyedBefore(a, b) && KeyedBefore(b, c)
    ensures KeyedBefore(a, c)
  {
    hide LexLess, KeyBefore;
    var x, y, z := a.entry.window.value, b.entry.window.value, c.entry.window.value;
    LexAsymmetric(x.startIso, y.startIso);
    LexAsymmetric(x.endIso, y.endIso);
    if x.startIso != y.startIso && y.startIso != z.startIso {
      LexTransitive(x.startIso, y.startIso, z.startIso);
    } else if x.startIso == y.startIso && y.startIso == z.startIso {
      if x.endIso != y.endIso && y.endIso != z.endIso {
        LexTransitive(x.endIso, y.endIso, z.endIso);
      } else if x.endIso == y.endIso && y.endIso == z.endIso {
        KeyTransitive(a.key, b.key, c.key);
      }
    }
  }

  lemma LexAsymmetric(a: seq<nat>, b: seq<nat>)
    ensures !(LexLess(a, b) && LexLess(b, a))
  {
    LexIrreflexive(a);
    if LexLess(a, b) && LexLess(b, a) { LexTransitive(a, b, a); }
  }

  lemma KeyedOrderIsPartial()
    ensures StrictPartial(KeyedOrder)
  {
    hide KeyedBefore;
    forall x ensures !KeyedOrder(x, x) { KeyedIrreflexive(x); }
    forall x, y, z | KeyedOrder(x, y) && KeyedOrder(y, z) ensures KeyedOrder(x, z) { KeyedTransitive(x, y, z); }
  }

  lemma KeyedIrreflexive(x: Keyed)
    ensures !KeyedBefore(x, x)
  {
    KeyTrichotomy(x.key, x.key);
  }

  lemma EntryTrichotomy(a: Entry, b: Entry, ecma: nat -> Text)
    ensures a == b || KeyedBefore(Key(a, ecma), Key(b, ecma)) || KeyedBefore(Key(b, ecma), Key(a, ecma))
  {
    hide LexLess, KeyBefore, EntryKey;
    KeyTrichotomy(EntryKey(a, ecma), EntryKey(b, ecma));
    if EntryKey(a, ecma) == EntryKey(b, ecma) { EntryKeyDecides(a, b, ecma); }
    if a.window.Some? && b.window.Some? {
      LexTrichotomy(a.window.value.startIso, b.window.value.startIso);
      LexTrichotomy(a.window.value.endIso, b.window.value.endIso);
    }
  }

  /** The provenance order is a strict total order on entries: it ties only an entry with itself. */
  lemma EntryOrderIsTotal(ecma: nat -> Text)
    ensures StrictTotal(EntryOrder(ecma))
  {
    hide KeyedBefore, Key;
    var less := EntryOrder(ecma);
    forall x ensures !less(x, x) { KeyedIrreflexive(Key(x, ecma)); }
    forall x, y, z | less(x, y) && less(y, z)
        ensures less(x, z) { KeyedTransitive(Key(x, ecma), Key(y, ecma), Key(z, ecma)); }
    forall x, y ensures x == y || less(x, y) || less(y, x) { EntryTrichotomy(x, y, ecma); }
  }

  /** What a document contributes: its own provenance, and an entry for itself. */
  datatype Input = Input(provenance: Option<seq<Entry>>, window: Option<WindowBounds>, source: Source,
                         linesObserved: nat,
                         coordinate: Option<Coordinate>)

  function OwnEntry(doc: Input): Entry { Entry(doc.window, doc.source, doc.linesObserved, None, doc.coordinate) }

  function Contributed(doc: Input): seq<Entry> {
    (if doc.provenance.Some? then doc.provenance.value else []) + [OwnEntry(doc)]
  }

  ghost function MergedProvenance(a: Input, b: Input, ecma: nat -> Text): seq<Entry> {
    EntryOrderIsTotal(ecma);
    SortedBy(EntryOrder(ecma), Contributed(a) + Contributed(b))
  }

  const EntryOf: Keyed -> Entry := (k: Keyed) => k.entry

  method AddEntries(keyed: seq<Keyed>, entries: seq<Entry>, ecma: nat -> Text) returns (r: seq<Keyed>)
    requires forall k :: k in keyed ==> k == Key(k.entry, ecma)
    ensures forall k :: k in r ==> k == Key(k.entry, ecma)
    ensures MapSeq(r, EntryOf) == MapSeq(keyed, EntryOf) + entries
  {
    hide EntryKey;
    r := keyed;
    for i := 0 to |entries|
      invariant forall k :: k in r ==> k == Key(k.entry, ecma)
      invariant MapSeq(r, EntryOf) == MapSeq(keyed, EntryOf) + entries[..i]
    {
      var key := KeyOfEntry(entries[i], ecma);
      assert MapSeq(r + [Keyed(key, entries[i])], EntryOf) == MapSeq(r, EntryOf) + [entries[i]];
      assert entries[..i + 1] == entries[..i] + [entries[i]];
      r := r + [Keyed(key, entries[i])];
    }
    assert entries[..|entries|] == entries;
  }

  method MergeProvenance(a: Input, b: Input, ecma: nat -> Text) returns (prov: seq<Entry>)
    ensures prov == MergedProvenance(a, b, ecma)
  {
    hide EntryKey, KeyedBefore;
    var keyed := AddEntries([], Contributed(a), ecma);
    keyed := AddEntries(keyed, Contributed(b), ecma);
    ghost var all := Contributed(a) + Contributed(b);
    assert MapSeq(keyed, EntryOf) == all;
    KeyedOrderIsPartial();
    var sorted := Sort(KeyedOrder, keyed);
    prov := MapSeq(sorted, EntryOf);
    MapPermutation(sorted, keyed, EntryOf);
    EntryOrderIsTotal(ecma);
    SortedEntries(sorted, keyed, ecma);
    SortedUnique(EntryOrder(ecma), prov, SortedBy(EntryOrder(ecma), all));
  }

  lemma SortedEntries(sorted: seq<Keyed>, keyed: seq<Keyed>, ecma: nat -> Text)
    requires Sorted(KeyedOrder, sorted) && multiset(sorted) == multiset(keyed)
    requires forall k :: k in keyed ==> k == Key(k.entry, ecma)
    ensures Sorted(EntryOrder(ecma), MapSeq(sorted, EntryOf))
  {
    hide KeyedBefore, Key;
    var prov := MapSeq(sorted, EntryOf);
    forall i, j | 0 <= i < j < |prov| ensures !EntryOrder(ecma)(prov[j], prov[i]) {
      assert sorted[i] in multiset(keyed) && sorted[j] in multiset(keyed);
      assert sorted[i] in keyed && sorted[j] in keyed;
      assert !KeyedOrder(sorted[j], sorted[i]);
    }
  }

  /** Merged provenance keeps every entry of both inputs, once each, whichever input comes first. */
  lemma ProvenanceCommutes(a: Input, b: Input, ecma: nat -> Text)
    ensures MergedProvenance(a, b, ecma) == MergedProvenance(b, a, ecma)
    ensures multiset(MergedProvenance(a, b, ecma)) == multiset(Contributed(a)) + multiset(Contributed(b))
  {
    EntryOrderIsTotal(ecma);
    var x, y := Contributed(a), Contributed(b);
    assert multiset(x + y) == multiset(x) + multiset(y) == multiset(y + x);
    SortedByPermutation(EntryOrder(ecma), x + y, y + x);
  }

  // ---------------------------------------------------------------- coordinates

  datatype KeyedCoordinate = KeyedCoordinate(key: CanonicalKey, coord: Coordinate)

  const CoordinateKeyOrder: (KeyedCoordinate, KeyedCoordinate) -> bool := (a: KeyedCoordinate, b: KeyedCoordinate) =>
      KeyBefore(a.key, b.key)

  function CoordinateOrder(ecma: nat -> Text): (Coordinate, Coordinate) -> bool {
    (a: Coordinate, b: Coordinate) => KeyBefore(CoordinateKey(a, ecma), CoordinateKey(b, ecma))
  }

  lemma CoordinateOrderIsTotal(ecma: nat -> Text)
    ensures StrictTotal(CoordinateOrder(ecma))
  {
    hide KeyBefore, CoordinateKey;
    var less := CoordinateOrder(ecma);
    forall x ensures !less(x, x) { KeyTrichotomy(CoordinateKey(x, ecma), CoordinateKey(x, ecma)); }
    forall x, y, z | less(x, y) && less(y, z) ensures less(x, z) {
      KeyTransitive(CoordinateKey(x, ecma), CoordinateKey(y, ecma), CoordinateKey(z, ecma));
    }
    forall x, y ensures x == y || less(x, y) || less(y, x) {
      KeyTrichotomy(CoordinateKey(x, ecma), CoordinateKey(y, ecma));
      if CoordinateKey(x, ecma) == CoordinateKey(y, ecma) { CoordinateKeyDecides(x, y, ecma); }
    }
  }

  /** The raw leaves a document's coordinate stands for: its children, or itself. */
  function LeavesOf(c: Option<Coordinate>): seq<Coordinate> {
    match c
    case None => []
    case Some(coord) => if coord.children.Children? then coord.children.list else [coord]
  }

  function Composed(leaves: seq<Coordinate>): Option<Coordinate> {
    if leaves == [] then None else Some(Coordinate(None, None, None, None, Children(leaves)))
  }

  ghost function MergedCoordinate(a: Option<Coordinate>, b: Option<Coordinate>, ecma: nat -> Text): Option<Coordinate> {
    CoordinateOrderIsTotal(ecma);
    Composed(SortedBy(CoordinateOrder(ecma), LeavesOf(a) + LeavesOf(b)))
  }

  const CoordOf: KeyedCoordinate -> Coordinate := (k: KeyedCoordinate) => k.coord

  method CollectLeaves(keyed: seq<KeyedCoordinate>, leaves: seq<Coordinate>, ecma: nat -> Text)
      returns (r: seq<KeyedCoordinate>)
    requires forall k :: k in keyed ==> k.key == CoordinateKey(k.coord, ecma)
    ensures forall k :: k in r ==> k.key == CoordinateKey(k.coord, ecma)
    ensures MapSeq(r, CoordOf) == MapSeq(keyed, CoordOf) + leaves
  {
    hide CoordinateKey;
    r := keyed;
    for i := 0 to |leaves|
      invariant forall k :: k in r ==> k.key == CoordinateKey(k.coord, ecma)
      invariant MapSeq(r, CoordOf) == MapSeq(keyed, CoordOf) + leaves[..i]
    {
      var key := KeyOfCoordinate(leaves[i], ecma);
      assert MapSeq(r + [KeyedCoordinate(key, leaves[i])], CoordOf) == MapSeq(r, CoordOf) + [leaves[i]];
      assert leaves[..i + 1] == leaves[..i] + [leaves[i]];
      r := r + [KeyedCoordinate(key, leaves[i])];
    }
    assert leaves[..|leaves|] == leaves;
  }

  method MergeCoordinate(a: Option<Coordinate>, b: Option<Coordinate>, ecma: nat -> Text)
      returns (c: Option<Coordinate>)
    ensures c == MergedCoordinate(a, b, ecma)
  {
    hide CoordinateKey, KeyBefore;
    var keyed := CollectLeaves([], LeavesOf(a), ecma);
    keyed := CollectLeaves(keyed, LeavesOf(b), ecma);
    ghost var all := LeavesOf(a) + LeavesOf(b);
    assert MapSeq(keyed, CoordOf) == all;
    CoordinateOrderIsTotal(ecma);
    if keyed == [] {
      return None;
    }
    KeyedCoordinatesPartial();
    var sorted := Sort(CoordinateKeyOrder, keyed);
    var children := MapSeq(sorted, CoordOf);
    MapPermutation(sorted, keyed, CoordOf);
    SortedCoordinates(sorted, keyed, ecma);
    SortedUnique(CoordinateOrder(ecma), children, SortedBy(CoordinateOrder(ecma), all));
    c := Some(Coordinate(None, None, None, None, Children(children)));
  }

  lemma KeyedCoordinatesPartial()
    ensures StrictPartial(CoordinateKeyOrder)
  {
    hide KeyBefore;
    forall x ensures !CoordinateKeyOrder(x, x) { KeyTrichotomy(x.key, x.key); }
    forall x, y, z | CoordinateKeyOrder(x, y) && CoordinateKeyOrder(y, z)
        ensures CoordinateKeyOrder(x, z) { KeyTransitive(x.key, y.key, z.key); }
  }

  lemma SortedCoordinates(sorted: seq<KeyedCoordinate>, keyed: seq<KeyedCoordinate>, ecma: nat -> Text)
    requires Sorted(CoordinateKeyOrder, sorted) && multiset(sorted) == multiset(keyed)
    requires forall k :: k in keyed ==> k.key == CoordinateKey(k.coord, ecma)
    ensures Sorted(CoordinateOrder(ecma), MapSeq(sorted, CoordOf))
  {
    hide KeyBefore, CoordinateKey;
    var coords := MapSeq(sorted, CoordOf);
    forall i, j | 0 <= i < j < |coords| ensures !CoordinateOrder(ecma)(coords[j], coords[i]) {
      assert sorted[i] in multiset(keyed) && sorted[j] in multiset(keyed);
      assert sorted[i] in keyed && sorted[j] in keyed;
      assert !CoordinateKeyOrder(sorted[j], sorted[i]);
    }
  }

  lemma MergedLeaves(a: Option<Coordinate>, b: Option<Coordinate>, ecma: nat -> Text)
    ensures multiset(LeavesOf(MergedCoordinate(a, b, ecma))) == multiset(LeavesOf(a)) + multiset(LeavesOf(b))
    ensures MergedCoordinate(a, b, ecma) == Composed(LeavesOf(MergedCoordinate(a, b, ecma)))
  {
    CoordinateOrderIsTotal(ecma);
    assert multiset(LeavesOf(a) + LeavesOf(b)) == multiset(LeavesOf(a)) + multiset(LeavesOf(b));
  }

  /** Coordinates merge as sets of leaves do: commutatively and associatively, losing none. */
  lemma CoordinatesCommute(a: Option<Coordinate>, b: Option<Coordinate>, ecma: nat -> Text)
    ensures MergedCoordinate(a, b, ecma) == MergedCoordinate(b, a, ecma)
  {
    SameLeaves(a, b, b, a, ecma);
  }

  lemma CoordinatesAssociate(a: Option<Coordinate>, b: Option<Coordinate>, c: Option<Coordinate>, ecma: nat -> Text)
    ensures MergedCoordinate(MergedCoordinate(a, b, ecma), c, ecma)
        == MergedCoordinate(a, MergedCoordinate(b, c, ecma), ecma)
  {
    MergedLeaves(a, b, ecma);
    MergedLeaves(b, c, ecma);
    hide LeavesOf, CoordinateOrder;
    ThreeBags(multiset(LeavesOf(a)), multiset(LeavesOf(b)), multiset(LeavesOf(c)));
    SameLeaves(MergedCoordinate(a, b, ecma), c, a, MergedCoordinate(b, c, ecma), ecma);
  }

  lemma ThreeBags<T>(a: multiset<T>, b: multiset<T>, c: multiset<T>)
    ensures (a + b) + c == a + (b + c)
  {}

  /** Merging reads only the multiset of leaves. */
  lemma SameLeaves(a: Option<Coordinate>, b: Option<Coordinate>, c: Option<Coordinate>, d: Option<Coordinate>,
                   ecma: nat -> Text)
    requires multiset(LeavesOf(a)) + multiset(LeavesOf(b)) == multiset(LeavesOf(c)) + multiset(LeavesOf(d))
    ensures MergedCoordinate(a, b, ecma) == MergedCoordinate(c, d, ecma)
  {
    CoordinateOrderIsTotal(ecma);
    hide LeavesOf, CoordinateOrder;
    var x, y := LeavesOf(a) + LeavesOf(b), LeavesOf(c) + LeavesOf(d);
    assert multiset(x) == multiset(LeavesOf(a)) + multiset(LeavesOf(b))
        && multiset(y) == multiset(LeavesOf(c)) + multiset(LeavesOf(d));
    SortedByPermutation(CoordinateOrder(ecma), x, y);
  }
}
