/** Compare-at-min is a projection: a diff depends only on the two joints read at the common
    collapse state, so stored cubes diff exactly as their raw rows would. */
module DiffProjection {
  import opened Orders
  import opened Bytes
  import opened Cells
  import opened Bases
  import opened Closure
  import opened Collapse
  import opened Blocks
  import opened Emission
  import opened Interning
  import opened Renaming
  import opened Joints
  import opened Composition
  import opened CubeAlgebra
  import opened Border
  import opened CubeDiff

  // ---------------------------------------------------------------- equivalent bases

  lemma EquivalentRegion(a: seq<Row>, a': seq<Row>, m: seq<Row>, m': seq<Row>)
    requires Equivalent(a, a') && Equivalent(m, m')
    ensures EmergentCells(a, m) == EmergentCells(a', m')
  {
    forall x ensures Emergent(a, m, x) <==> Emergent(a', m', x) {
      assert Total(a, Under(x)) == Total(a', Under(x)) && Total(m, Under(x)) == Total(m', Under(x));
    }
    hide Emergent;
  }

  lemma BorderFromSides(a: seq<Row>, m: seq<Row>, p: seq<Row>, c: seq<Row>, labels: seq<Text>)
    requires RowsInRange(m, |labels|)
    ensures var e := EmergentCells(a, m);
            && CellsInRange(InOrder(UpperCells(e)), |labels|) && CellsInRange(InOrder(LowerCells(e)), |labels|)
            && BorderOf(a, m, p, c, labels) == CubeBorder(BorderCells(InOrder(LowerCells(e)), p, c, labels),
                                                         BorderCells(InOrder(UpperCells(e)), p, c, labels))
  {
    EmergentInRange(a, m, |labels|, UpperCells(EmergentCells(a, m)));
    EmergentInRange(a, m, |labels|, LowerCells(EmergentCells(a, m)));
  }

  lemma EquivalentBorder(a: seq<Row>, a': seq<Row>, m: seq<Row>, m': seq<Row>, p: seq<Row>, p': seq<Row>,
                         c: seq<Row>, c': seq<Row>, labels: seq<Text>)
    requires Equivalent(a, a') && Equivalent(m, m') && Equivalent(p, p') && Equivalent(c, c')
    requires RowsInRange(m, |labels|) && RowsInRange(m', |labels|)
    ensures BorderOf(a, m, p, c, labels) == BorderOf(a', m', p', c', labels)
  {
    hide *;
    EquivalentRegion(a, a', m, m');
    var e := EmergentCells(a, m);
    BorderFromSides(a, m, p, c, labels);
    BorderFromSides(a', m', p', c', labels);
    EquivalentSide(InOrder(UpperCells(e)), p, p', c, c', labels);
    EquivalentSide(InOrder(LowerCells(e)), p, p', c, c', labels);
  }

  lemma EquivalentSide(cells: seq<Cell>, p: seq<Row>, p': seq<Row>, c: seq<Row>, c': seq<Row>, labels: seq<Text>)
    requires Equivalent(p, p') && Equivalent(c, c') && CellsInRange(cells, |labels|)
    ensures BorderCells(cells, p, c, labels) == BorderCells(cells, p', c', labels)
  {
    forall i | 0 <= i < |cells| ensures BorderCells(cells, p, c, labels)[i] == BorderCells(cells, p', c', labels)[i] {
      assert Total(p, Under(cells[i])) == Total(p', Under(cells[i]));
      assert Total(c, Under(cells[i])) == Total(c', Under(cells[i]));
    }
  }

  /** A diff reads its two bases only up to equivalence. */
  lemma EquivalentDiff(p: seq<Row>, p': seq<Row>, c: seq<Row>, c': seq<Row>, labels: seq<Text>, shifts: map<Text,
                       Drift>, s: CollapseState)
    requires Equivalent(p, p') && Equivalent(c, c')
    requires RowsInRange(p, |labels|) && RowsInRange(c, |labels|) && RowsInRange(p', |labels|)
        && RowsInRange(c', |labels|)
    ensures DiffBases(p, c, labels, shifts, s) == DiffBases(p', c', labels, shifts, s)
  {
    MapEquivalent(c, c', Pinning(labels, shifts));
    ShiftedInRange(c, labels, shifts);
    ShiftedInRange(c', labels, shifts);
    var d, d' := Shifted(c, labels, shifts), Shifted(c', labels, shifts);
    hide Equivalent, BorderOf, RowsInRange;
    EquivalentBorder(p, p', d, d', p, p', d, d', labels);
    EquivalentBorder(d, d', p, p', p, p', d, d', labels);
  }

  // ---------------------------------------------------------------- renamed dictionaries

  ghost predicate IsImage(s': set<Cell>, s: set<Cell>, phi: seq<Id>) {
    && (forall c :: c in s ==> InRange(c, |phi|) && Rename(c, phi) in s')
    && (forall d :: d in s' ==> exists c :: c in s && Rename(c, phi) == d)
  }

  lemma RenamedRegion(anti: seq<Row>, mono: seq<Row>, phi: seq<Id>)
    requires IsRenaming(phi) && RowsInRange(anti, |phi|) && RowsInRange(mono, |phi|)
    ensures IsImage(EmergentCells(Renamed(anti, phi), Renamed(mono, phi)), EmergentCells(anti, mono), phi)
  {
    var e, e' := EmergentCells(anti, mono), EmergentCells(Renamed(anti, phi), Renamed(mono, phi));
    forall c | c in e ensures InRange(c, |phi|) && Rename(c, phi) in e' {
      EmergentIsInRange(anti, mono, |phi|, c);
      RenamedEmergent(anti, mono, phi, c);
    }
    forall d | d in e' ensures exists c :: c in e && Rename(c, phi) == d {
      GeneralizationsAre(Support(Renamed(mono, phi)), d);
      var c := RenamedCovers(mono, phi, d);
      RenamedEmergent(anti, mono, phi, c);
    }
  }

  lemma EmergentIsInRange(anti: seq<Row>, mono: seq<Row>, n: nat, c: Cell)
    requires RowsInRange(mono, n) && c in EmergentCells(anti, mono)
    ensures InRange(c, n)
  {
    GeneralizationsAre(Support(mono), c);
    var t :| t in Covered(Support(mono), c);
    SupportInRange(mono, n, t);
  }

  lemma RenamedEmergent(anti: seq<Row>, mono: seq<Row>, phi: seq<Id>, c: Cell)
    requires IsRenaming(phi) && RowsInRange(anti, |phi|) && RowsInRange(mono, |phi|) && InRange(c, |phi|)
    ensures Rename(c, phi) in EmergentCells(Renamed(anti, phi), Renamed(mono, phi)) <==> c in EmergentCells(anti, mono)
  {
    EmergentIsPopulated(anti, mono, c);
    EmergentIsPopulated(Renamed(anti, phi), Renamed(mono, phi), Rename(c, phi));
    RenamedReadings(anti, phi, c);
    RenamedReadings(mono, phi, c);
  }

  lemma RenamedUppers(e': set<Cell>, e: set<Cell>, phi: seq<Id>)
    requires IsRenaming(phi) && IsImage(e', e, phi)
    ensures IsImage(UpperCells(e'), UpperCells(e), phi)
  {
    forall c | c in e ensures IsUpper(e', Rename(c, phi)) <==> IsUpper(e, c) {
      forall g | g in e
        ensures IsAncestor(Rename(g, phi), Rename(c, phi)) <==> IsAncestor(g, c)
        ensures Rename(g, phi) == Rename(c, phi) <==> g == c
      {
        RenameReflects(g, c, phi);
      }
    }
  }

  lemma RenamedLowers(e': set<Cell>, e: set<Cell>, phi: seq<Id>)
    requires IsRenaming(phi) && IsImage(e', e, phi)
    ensures IsImage(LowerCells(e'), LowerCells(e), phi)
  {
    forall c | c in e ensures IsLower(e', Rename(c, phi)) <==> IsLower(e, c) {
      forall g | g in e
        ensures IsAncestor(Rename(c, phi), Rename(g, phi)) <==> IsAncestor(c, g)
        ensures Rename(g, phi) == Rename(c, phi) <==> g == c
      {
        RenameReflects(c, g, phi);
      }
    }
  }

  ghost function RenamedCells(cells: seq<Cell>, phi: seq<Id>): (r: seq<Cell>)
    ensures |r| == |cells| && forall i :: 0 <= i < |r| ==> r[i] == Rename(cells[i], phi)
  {
    seq(|cells|, i requires 0 <= i < |cells| => Rename(cells[i], phi))
  }

  lemma RenamedAscending(cells: seq<Cell>, phi: seq<Id>)
    requires IsRenaming(phi) && Ascending(CanonicalOrder, cells) && forall c :: c in cells ==> InRange(c, |phi|)
    ensures Ascending(CanonicalOrder, RenamedCells(cells, phi))
  {
    var renamed := RenamedCells(cells, phi);
    forall i, j | 0 <= i < j < |renamed| ensures CanonicalOrder(renamed[i], renamed[j]) {
      assert cells[i] in cells && cells[j] in cells;
      assert CanonicalOrder(cells[i], cells[j]);
      RenameReflects(cells[i], cells[j], phi);
    }
  }

  lemma RenamedElements(cells: seq<Cell>, s: set<Cell>, s': set<Cell>, phi: seq<Id>)
    requires Elements(cells) == s && IsImage(s', s, phi)
    ensures Elements(RenamedCells(cells, phi)) == s'
  {
    var renamed := RenamedCells(cells, phi);
    hide Rename;
    forall d | d in s' ensures d in renamed {
      var c :| c in s && Rename(c, phi) == d;
      assert c in Elements(cells);
      var i :| 0 <= i < |cells| && cells[i] == c;
      assert renamed[i] == d;
    }
    forall d | d in renamed ensures d in s' {
      var i :| 0 <= i < |renamed| && renamed[i] == d;
      assert cells[i] in Elements(cells);
    }
  }

  lemma RenamedOrder(s': set<Cell>, s: set<Cell>, phi: seq<Id>)
    requires IsRenaming(phi) && IsImage(s', s, phi)
    ensures InOrder(s') == RenamedCells(InOrder(s), phi)
  {
    var cells := InOrder(s);
    forall c | c in cells ensures InRange(c, |phi|) { assert c in Elements(cells); }
    RenamedAscending(cells, phi);
    hide Rename, IsRenaming, InOrder;
    RenamedElements(cells, s, s', phi);
    CanonicalOrderIsTotal();
    AscendingUnique(CanonicalOrder, InOrder(s'), RenamedCells(cells, phi));
  }

  lemma RenamedBorderCell(c: Cell, p: seq<Row>, q: seq<Row>, labels: seq<Text>, dict: seq<Text>, phi: seq<Id>)
    requires Carries(labels, dict, phi) && RowsInRange(p, |dict|) && RowsInRange(q, |dict|) && InRange(c, |dict|)
    ensures InRange(Rename(c, phi), |labels|)
    ensures BorderCell(Rename(c, phi), Renamed(p, phi), Renamed(q, phi), labels) == BorderCell(c, p, q, dict)
  {
    RenamedReadings(p, phi, c);
    RenamedReadings(q, phi, c);
  }

  lemma RenamedSide(cells': seq<Cell>, cells: seq<Cell>, p: seq<Row>, q: seq<Row>, labels: seq<Text>, dict: seq<Text>,
                    phi: seq<Id>)
    requires Carries(labels, dict, phi) && RowsInRange(p, |dict|) && RowsInRange(q, |dict|)
    requires cells' == RenamedCells(cells, phi) && CellsInRange(cells', |labels|) && CellsInRange(cells, |dict|)
    ensures BorderCells(cells', Renamed(p, phi), Renamed(q, phi), labels) == BorderCells(cells, p, q, dict)
  {
    hide Renamed, Rename, BorderCell, Carries, InRange, RowsInRange;
    forall i | 0 <= i < |cells|
      ensures BorderCells(cells', Renamed(p, phi), Renamed(q, phi), labels)[i] == BorderCells(cells, p, q, dict)[i]
    {
      assert cells[i] in cells;
      RenamedBorderCell(cells[i], p, q, labels, dict, phi);
    }
  }

  lemma RenamedBorder(anti: seq<Row>, mono: seq<Row>, p: seq<Row>, c: seq<Row>, labels: seq<Text>, dict: seq<Text>,
                      phi: seq<Id>)
    requires Carries(labels, dict, phi)
    requires RowsInRange(anti, |dict|) && RowsInRange(mono, |dict|) && RowsInRange(p, |dict|) && RowsInRange(c, |dict|)
    ensures RowsInRange(Renamed(mono, phi), |labels|)
    ensures BorderOf(Renamed(anti, phi), Renamed(mono, phi), Renamed(p, phi), Renamed(c, phi), labels)
        == BorderOf(anti, mono, p, c, dict)
  {
    assert IsRenaming(phi) && |phi| == |dict|;
    hide *;
    RenamedInRange(mono, labels, dict, phi);
    RenamedRegion(anti, mono, phi);
    var e, e' := EmergentCells(anti, mono), EmergentCells(Renamed(anti, phi), Renamed(mono, phi));
    RenamedUppers(e', e, phi);
    RenamedLowers(e', e, phi);
    RenamedOrder(UpperCells(e'), UpperCells(e), phi);
    RenamedOrder(LowerCells(e'), LowerCells(e), phi);
    BorderFromSides(anti, mono, p, c, dict);
    BorderFromSides(Renamed(anti, phi), Renamed(mono, phi), Renamed(p, phi), Renamed(c, phi), labels);
    RenamedSide(InOrder(UpperCells(e')), InOrder(UpperCells(e)), p, c, labels, dict, phi);
    RenamedSide(InOrder(LowerCells(e')), InOrder(LowerCells(e)), p, c, labels, dict, phi);
  }

  lemma RenamedShifts(base: seq<Row>, labels: seq<Text>, dict: seq<Text>, phi: seq<Id>, shifts: map<Text, Drift>)
    requires Carries(labels, dict, phi) && RowsInRange(base, |dict|)
    ensures Shifted(Renamed(base, phi), labels, shifts) == Renamed(Shifted(base, dict, shifts), phi)
  {
    forall i | 0 <= i < |base|
      ensures Shifted(Renamed(base, phi), labels, shifts)[i] == Renamed(Shifted(base, dict, shifts), phi)[i]
    {
      assert base[i] in base;
    }
  }

  /** A diff does not depend on the dictionary its two bases share. */
  lemma RenamedDiff(p: seq<Row>, c: seq<Row>, labels: seq<Text>, dict: seq<Text>, phi: seq<Id>, shifts: map<Text,
                    Drift>, s: CollapseState)
    requires Carries(labels, dict, phi) && RowsInRange(p, |dict|) && RowsInRange(c, |dict|)
    ensures RowsInRange(Renamed(p, phi), |labels|) && RowsInRange(Renamed(c, phi), |labels|)
    ensures DiffBases(Renamed(p, phi), Renamed(c, phi), labels, shifts, s) == DiffBases(p, c, dict, shifts, s)
  {
    RenamedInRange(p, labels, dict, phi);
    RenamedInRange(c, labels, dict, phi);
    RenamedShifts(c, labels, dict, phi, shifts);
    ShiftedInRange(c, dict, shifts);
    var d := Shifted(c, dict, shifts);
    hide Renamed, Shifted, BorderOf, RowsInRange, Carries;
    RenamedBorder(p, d, p, d, labels, dict, phi);
    RenamedBorder(d, p, p, d, labels, dict, phi);
  }

  // ---------------------------------------------------------------- the diff of two joints

  /** The diff of two joints, over their own dictionary. */
  ghost function DiffJoints(x: seq<BaseRow>, y: seq<BaseRow>, shifts: map<Text, Drift>, s: CollapseState): CubeDiff
    requires FitsIds(x + y)
  {
    DictIsDict(x + y);
    var labels := DictOf(x + y);
    IdRowsInRange(x, labels);
    IdRowsInRange(y, labels);
    DiffBases(IdRows(x, labels), IdRows(y, labels), labels, shifts, s)
  }

  lemma DiffOver(x: seq<BaseRow>, y: seq<BaseRow>, labels: seq<Text>, shifts: map<Text, Drift>, s: CollapseState)
    requires Covers(labels, x + y)
    ensures FitsIds(x + y) && RowsInRange(IdRows(x, labels), |labels|) && RowsInRange(IdRows(y, labels), |labels|)
    ensures DiffBases(IdRows(x, labels), IdRows(y, labels), labels, shifts, s) == DiffJoints(x, y, shifts, s)
  {
    FewerElements(LabelsOf(x + y), labels);
    PooledLabels(x, y);
    DictIsDict(x + y);
    var dict := DictOf(x + y);
    var phi := IdsIn(dict, labels);
    assert Covers(labels, x) && Covers(labels, y) && Covers(dict, x) && Covers(dict, y);
    SubDictionaryCarries(labels, dict);
    hide DiffBases, Renamed, Covers, Carries, IdsIn;
    RenamedIdRows(x, dict, labels);
    RenamedIdRows(y, dict, labels);
    RenamedDiff(IdRows(x, dict), IdRows(y, dict), labels, dict, phi, shifts, s);
  }

  lemma RenamedIdRows(x: seq<BaseRow>, dict: seq<Text>, labels: seq<Text>)
    requires Covers(dict, x) && Covers(labels, x) && Elements(dict) <= Elements(labels)
    ensures RowsInRange(IdRows(x, dict), |dict|) && RowsInRange(IdRows(x, labels), |labels|)
    ensures Renamed(IdRows(x, dict), IdsIn(dict, labels)) == IdRows(x, labels)
  {
    ReadInterned(x, dict);
    ReadInterned(x, labels);
    ReadingDecides(IdRows(x, dict), dict, IdRows(x, labels), labels);
  }

  /** Two bases that read as two joints diff as those joints do. */
  lemma DiffOfReadings(p: seq<Row>, c: seq<Row>, labels: seq<Text>, x: seq<BaseRow>, y: seq<BaseRow>,
                       shifts: map<Text, Drift>, s: CollapseState)
    requires IsDict(labels) && RowsInRange(p, |labels|) && RowsInRange(c, |labels|) && NoShift(p) && NoShift(c)
    requires SameJoint(Read(p, labels), x) && SameJoint(Read(c, labels), y)
    ensures FitsIds(x + y) && DiffBases(p, c, labels, shifts, s) == DiffJoints(x, y, shifts, s)
  {
    ReadingCovers(p, labels, x);
    ReadingCovers(c, labels, y);
    PooledLabels(x, y);
    assert Covers(labels, x + y);
    hide *;
    DiffOver(x, y, labels, shifts, s);
    EquivalentDiff(p, IdRows(x, labels), c, IdRows(y, labels), labels, shifts, s);
  }

  lemma ReadingCovers(p: seq<Row>, labels: seq<Text>, x: seq<BaseRow>)
    requires IsDict(labels) && RowsInRange(p, |labels|) && NoShift(p) && SameJoint(Read(p, labels), x)
    ensures Covers(labels, x) && RowsInRange(IdRows(x, labels), |labels|) && Equivalent(p, IdRows(x, labels))
  {
    LabelsOfRead(p, labels);
    SameJointSymmetric(Read(p, labels), x);
    SameLabels(x, Read(p, labels));
    ReadInterned(x, labels);
    hide SameJoint;
    SameJointIff(p, IdRows(x, labels), labels);
  }

  /** A diff depends only on the two blocks' joints read at their minimal common collapse. */
  lemma DiffReadsJoints(previous: CubeBlock, current: CubeBlock, shifts: map<Text, Drift>)
    requires Composable(previous, current)
    ensures var s := CommonState(previous, current);
            && FitsIds(CollapsedRows(Contents(previous), s) + CollapsedRows(Contents(current), s))
            && DiffBlocks(previous, current, shifts)
               == DiffJoints(CollapsedRows(Contents(previous), s), CollapsedRows(Contents(current), s), shifts, s)
  {
    InternedInRange(previous);
    InternedInRange(current);
    var (prevBase, prevDict) := InternedBase(previous);
    var (curBase, curDict) := InternedBase(current);
    MergedIsDict(prevDict, curDict);
    var labels, s := Merged(prevDict, curDict), CommonState(previous, current);
    hide InternedBase, Projected, SameJoint, DiffBases, DiffJoints;
    ProjectedReads(prevBase, prevDict, labels, s);
    ProjectedReads(curBase, curDict, labels, s);
    ContentsIs(previous, prevBase, prevDict);
    ContentsIs(current, curBase, curDict);
    DiffOfReadings(Projected(prevBase, prevDict, labels, s), Projected(curBase, curDict, labels, s), labels,
                   CollapsedRows(Contents(previous), s), CollapsedRows(Contents(current), s), shifts, s);
  }

  lemma SameJointSameDiff(x: seq<BaseRow>, x': seq<BaseRow>, y: seq<BaseRow>, y': seq<BaseRow>, shifts: map<Text,
                          Drift>, s: CollapseState)
    requires SameJoint(x, x') && SameJoint(y, y') && FitsIds(x + y)
    ensures FitsIds(x' + y') && DiffJoints(x, y, shifts, s) == DiffJoints(x', y', shifts, s)
  {
    DictIsDict(x + y);
    PooledLabels(x, y);
    var labels := DictOf(x + y);
    assert Covers(labels, x) && Covers(labels, y);
    hide DiffBases, SameJoint, Covers;
    ReadInterned(x, labels);
    ReadInterned(y, labels);
    DiffOfReadings(IdRows(x, labels), IdRows(y, labels), labels, x', y', shifts, s);
  }

  lemma BuiltReading(rows: seq<BaseRow>, s: CollapseState, u: CollapseState)
    requires FitsIds(rows) && BlockInRange(BuildRows(rows, s)) && Coarser(u, StateOfAxes(BuildRows(rows, s).axes))
    requires FitsIds(Contents(BuildRows(rows, s)))
    ensures SameJoint(CollapsedRows(Contents(BuildRows(rows, s)), u), CollapsedRows(rows, u))
  {
    hide *;
    ContentsOfBuilt(rows, s);
    var t := StateOfAxes(BuildRows(rows, s).axes);
    CollapsedJoint(Contents(BuildRows(rows, s)), CollapsedRows(rows, t), u);
    CollapsedRowsAbsorb(rows, t, u);
  }

  lemma ContentsFit(a: CubeBlock, b: CubeBlock)
    requires Composable(a, b)
    ensures FitsIds(Contents(a)) && FitsIds(Contents(b))
  {
    InternedInRange(a);
    InternedInRange(b);
    var (baseA, dictA) := InternedBase(a);
    var (baseB, dictB) := InternedBase(b);
    hide InternedBase;
    LabelsOfRead(baseA, dictA);
    LabelsOfRead(baseB, dictB);
    FewerElements(LabelsOf(Read(baseA, dictA)), dictA);
    FewerElements(LabelsOf(Read(baseB, dictB)), dictB);
  }

  lemma CommonIsCoarser(a: CubeBlock, b: CubeBlock)
    ensures Coarser(CommonState(a, b), StateOfAxes(a.axes)) && Coarser(CommonState(a, b), StateOfAxes(b.axes))
  {}

  /** Diffing two stored cubes, collapsed each in its own way, is diffing the raw rows they were
      built from read at the common state: the storage collapse leaves no other trace. */
  lemma DiffOfBuilt(x: seq<BaseRow>, y: seq<BaseRow>, s: CollapseState, t: CollapseState, shifts: map<Text, Drift>)
    requires FitsIds(x) && FitsIds(y) && Composable(BuildRows(x, s), BuildRows(y, t))
    ensures var u := CommonState(BuildRows(x, s), BuildRows(y, t));
            && FitsIds(CollapsedRows(x, u) + CollapsedRows(y, u))
            && DiffBlocks(BuildRows(x, s), BuildRows(y, t), shifts)
                == DiffJoints(CollapsedRows(x, u), CollapsedRows(y, u), shifts, u)
  {
    var a, b := BuildRows(x, s), BuildRows(y, t);
    var u := CommonState(a, b);
    hide *;
    CommonIsCoarser(a, b);
    ContentsFit(a, b);
    BuiltInRange(x, s);
    BuiltInRange(y, t);
    BuiltReading(x, s, u);
    BuiltReading(y, t, u);
    DiffReadsJoints(a, b, shifts);
    SameJointSameDiff(CollapsedRows(Contents(a), u), CollapsedRows(x, u), CollapsedRows(Contents(b), u),
                      CollapsedRows(y, u), shifts, u);
  }
}
