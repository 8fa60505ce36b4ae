/** The diff of two cubes: both bases read at the minimal common collapse, the current side pinned
    with its latency shifts, and the two borders between them. */
module CubeDiff {
  import opened Options
  import opened Orders
  import opened Bytes
  import opened Cells
  import opened Bases
  import opened Closure
  import opened Population
  import opened Collapse
  import opened Blocks
  import opened BoundedCube
  import opened Interning
  import opened Renaming
  import opened Joints
  import opened Composition
  import opened CubeAlgebra
  import opened Border

  // ---------------------------------------------------------------- latency shifts

  datatype ShiftSize = Unshifted | Low | Med | High

  datatype Direction = NoDirection | Up | Down

  datatype Drift = Drift(size: ShiftSize, direction: Direction)

  const MAGNITUDE_BANDS: Id := 3

  function SignedShiftId(drift: Drift): Id {
    var magnitude := match drift.size case Unshifted => 0 case Low => 1 case Med => 2 case High => 3;
    if drift.size == Unshifted then STAR
    else if drift.direction == Down then magnitude + MAGNITUDE_BANDS else magnitude
  }

  function PinCell(c: Cell, labels: seq<Text>, shifts: map<Text, Drift>): Cell {
    if c.component < |labels| && labels[c.component] in shifts && shifts[labels[c.component]].size != Unshifted
    then c.(shift := SignedShiftId(shifts[labels[c.component]])) else c
  }

  function Pinning(labels: seq<Text>, shifts: map<Text, Drift>): Cell -> Cell { c => PinCell(c, labels, shifts) }

  ghost function Shifted(base: seq<Row>, labels: seq<Text>, shifts: map<Text, Drift>): seq<Row> {
    MapRows(base, Pinning(labels, shifts))
  }

  lemma ShiftedInRange(base: seq<Row>, labels: seq<Text>, shifts: map<Text, Drift>)
    requires RowsInRange(base, |labels|)
    ensures RowsInRange(Shifted(base, labels, shifts), |labels|)
  {
    var b := Shifted(base, labels, shifts);
    forall r | r in b ensures InRange(r.cell, |labels|) {
      var i :| 0 <= i < |b| && b[i] == r;
      assert base[i] in base;
    }
  }

  lemma UnshiftedIsSame(base: seq<Row>, labels: seq<Text>)
    ensures Shifted(base, labels, map[]) == base
  {}

  // ---------------------------------------------------------------- the diff of two bases

  datatype CubeDiff = CubeDiff(axes: seq<CubeAxis>, emerging: Option<CubeBorder>, vanishing: Option<CubeBorder>)

  const LATENCY_SHIFT_AXIS := CubeAxis("latency_shift", None, None)

  function NonEmpty(border: CubeBorder): Option<CubeBorder> {
    if border.lower != [] || border.upper != [] then Some(border) else None
  }

  function DiffAxes(s: CollapseState, shifted: bool): seq<CubeAxis> {
    Stamp(REFERENCE_AXES, s) + if shifted then [LATENCY_SHIFT_AXIS] else []
  }

  ghost function DiffBases(previous: seq<Row>, current: seq<Row>, labels: seq<Text>, shifts: map<Text, Drift>,
                           s: CollapseState): CubeDiff
    requires RowsInRange(previous, |labels|) && RowsInRange(current, |labels|)
  {
    ShiftedInRange(current, labels, shifts);
    var shifted := Shifted(current, labels, shifts);
    CubeDiff(DiffAxes(s, shifts != map[]),
             NonEmpty(BorderOf(previous, shifted, previous, shifted, labels)),
             NonEmpty(BorderOf(shifted, previous, previous, shifted, labels)))
  }

  /** A block's base moved to a collapse state and to a larger dictionary. */
  ghost function Projected(base: seq<Row>, dict: seq<Text>, labels: seq<Text>, s: CollapseState): seq<Row>
    requires |labels| <= STAR && RowsInRange(base, |dict|)
  {
    CollapsedInRange(base, s, |dict|);
    Reduced(Relabelled(CollapsedBase(base, s), dict, labels))
  }

  lemma ProjectedReads(base: seq<Row>, dict: seq<Text>, labels: seq<Text>, s: CollapseState)
    requires IsDict(dict) && IsDict(labels) && Elements(dict) <= Elements(labels) && RowsInRange(base, |dict|)
        && NoShift(base)
    ensures var p := Projected(base, dict, labels, s);
            RowsInRange(p, |labels|) && NoShift(p) && SameJoint(Read(p, labels), CollapsedRows(Read(base, dict), s))
  {
    ReadCollapsed(base, dict, s);
    RelabelledReads(CollapsedBase(base, s), dict, labels);
    ReducedReads(Relabelled(CollapsedBase(base, s), dict, labels), labels);
    hide SameJoint, CollapsedBase, Reduced;
    SameJointTransitive(Read(Projected(base, dict, labels, s), labels), Read(CollapsedBase(base, s), dict),
                        CollapsedRows(Read(base, dict), s));
  }

  ghost function DiffBlocks(previous: CubeBlock, current: CubeBlock, shifts: map<Text, Drift>): CubeDiff
    requires Composable(previous, current)
  {
    InternedInRange(previous);
    InternedInRange(current);
    var (prevBase, prevDict) := InternedBase(previous);
    var (curBase, curDict) := InternedBase(current);
    MergedIsDict(prevDict, curDict);
    var labels, s := Merged(prevDict, curDict), CommonState(previous, current);
    ProjectedReads(prevBase, prevDict, labels, s);
    ProjectedReads(curBase, curDict, labels, s);
    DiffBases(Projected(prevBase, prevDict, labels, s), Projected(curBase, curDict, labels, s), labels, shifts, s)
  }

  method PinShifts(base: seq<Row>, labels: seq<Text>, shifts: map<Text, Drift>) returns (r: seq<Row>)
    requires |labels| <= STAR && RowsInRange(base, |labels|)
    ensures r == Shifted(base, labels, shifts)
  {
    r := base;
    for k := 0 to |base|
      invariant |r| == |base| && r[k..] == base[k..]
      invariant forall i :: 0 <= i < k ==> r[i] == Row(PinCell(base[i].cell, labels, shifts), base[i].count)
    {
      assert base[k] in base;
      assert r[k] == r[k..][0] == base[k..][0] == base[k];
      var component := r[k].cell.component;
      if component == STAR {
        continue;
      }
      if labels[component] in shifts && shifts[labels[component]].size != Unshifted {
        var drift := shifts[labels[component]];
        r := r[k := r[k].(cell := r[k].cell.(shift := SignedShiftId(drift)))];
      }
    }
  }

  method CubeDiffOf(previous: CubeBlock, current: CubeBlock, shifts: map<Text, Drift>) returns (diff: CubeDiff)
    requires Composable(previous, current)
    ensures diff == DiffBlocks(previous, current, shifts)
  {
    var previousState := CollapseStateOf(previous.axes);
    var currentState := CollapseStateOf(current.axes);
    var common := MinCommon(previousState, currentState);
    InternedInRange(previous);
    InternedInRange(current);
    var prevBase, prevDict := InternedBaseOf(previous);
    var curBase, curDict := InternedBaseOf(current);
    MergedIsDict(prevDict, curDict);
    var labels := MergeDicts(prevDict, curDict);
    DictContained(prevDict, labels);
    DictContained(curDict, labels);
    hide Reduced, CollapsedBase, InternedBase, BorderOf, Composable;
    ProjectedReads(prevBase, prevDict, labels, common);
    ProjectedReads(curBase, curDict, labels, common);
    CollapsedInRange(prevBase, common, |prevDict|);
    CollapsedInRange(curBase, common, |curDict|);
    var prevCollapsed := CollapseBase(prevBase, common);
    var prevRemapped := RemapBase(prevCollapsed, prevDict, labels);
    var curCollapsed := CollapseBase(curBase, common);
    var curRemapped := RemapBase(curCollapsed, curDict, labels);
    diff := DiffRemapped(prevRemapped, curRemapped, labels, shifts, common);
  }

  lemma DictContained(dict: seq<Text>, labels: seq<Text>)
    requires Elements(dict) <= Elements(labels)
    ensures forall t :: t in dict ==> t in labels
  {
    forall t | t in dict ensures t in labels { assert t in Elements(dict); }
  }

  method DiffRemapped(previous: seq<Row>, current: seq<Row>, labels: seq<Text>, shifts: map<Text, Drift>,
                      common: CollapseState)
    returns (diff: CubeDiff)
    requires |labels| <= STAR && RowsInRange(previous, |labels|) && RowsInRange(current, |labels|)
    ensures diff == DiffBases(previous, current, labels, shifts, common)
  {
    hide BorderOf, Populated, IsPopulated;
    var hasShift := |shifts| != 0;
    var pinned := current;
    if hasShift {
      pinned := PinShifts(current, labels, shifts);
    } else {
      UnshiftedIsSame(current, labels);
    }
    ShiftedInRange(current, labels, shifts);
    var cubePrev := Populate(previous);
    var cubeCur := Populate(pinned);
    var axes := StampCollapse(REFERENCE_AXES, common);
    if hasShift {
      axes := axes + [LATENCY_SHIFT_AXIS];
    }
    var emerging := FindBorder(cubePrev, cubeCur, cubePrev, cubeCur, labels, previous, pinned, previous, pinned);
    var vanishing := FindBorder(cubeCur, cubePrev, cubePrev, cubeCur, labels, pinned, previous, previous, pinned);
    diff := CubeDiff(axes, None, None);
    if emerging.lower != [] || emerging.upper != [] {
      diff := diff.(emerging := Some(emerging));
    }
    if vanishing.lower != [] || vanishing.upper != [] {
      diff := diff.(vanishing := Some(vanishing));
    }
  }

  // ---------------------------------------------------------------- self-diff and duality

  lemma SideOf(s: set<Cell>)
    ensures InOrder(s) == [] <==> s == {}
  {
    NoElements(InOrder(s));
  }

  lemma NothingEmerges(base: seq<Row>, labels: seq<Text>)
    requires RowsInRange(base, |labels|)
    ensures NonEmpty(BorderOf(base, base, base, base, labels)) == None
  {
    var e := EmergentCells(base, base);
    assert e == {};
    SideOf(UpperCells(e));
    SideOf(LowerCells(e));
  }

  /** A cube diffed with itself shows no border. */
  lemma SelfDiffIsEmpty(block: CubeBlock)
    requires Composable(block, block)
    ensures DiffBlocks(block, block, map[]).emerging == None && DiffBlocks(block, block, map[]).vanishing == None
  {
    InternedInRange(block);
    var (base, dict) := InternedBase(block);
    MergedIsDict(dict, dict);
    var labels, s := Merged(dict, dict), CommonState(block, block);
    ProjectedReads(base, dict, labels, s);
    var p := Projected(base, dict, labels, s);
    hide InternedBase, Projected, BorderOf;
    UnshiftedIsSame(p, labels);
    NothingEmerges(p, labels);
  }

  function Swapped(cells: seq<CubeBorderCell>): (r: seq<CubeBorderCell>)
    ensures |r| == |cells|
    ensures forall i :: 0 <= i < |r| ==>
        r[i] == CubeBorderCell(cells[i].coord, cells[i].currentCount, cells[i].previousCount)
  {
    seq(|cells|, i requires 0 <= i < |cells| =>
        CubeBorderCell(cells[i].coord, cells[i].currentCount, cells[i].previousCount))
  }

  function SwappedBorder(border: Option<CubeBorder>): Option<CubeBorder> {
    match border
    case None => None
    case Some(b) => Some(CubeBorder(Swapped(b.lower), Swapped(b.upper)))
  }

  lemma BorderDual(anti: seq<Row>, mono: seq<Row>, previous: seq<Row>, current: seq<Row>, labels: seq<Text>)
    requires RowsInRange(mono, |labels|)
    ensures NonEmpty(BorderOf(anti, mono, current, previous, labels))
        == SwappedBorder(NonEmpty(BorderOf(anti, mono, previous, current, labels)))
  {
    var e := EmergentCells(anti, mono);
    EmergentInRange(anti, mono, |labels|, UpperCells(e));
    EmergentInRange(anti, mono, |labels|, LowerCells(e));
    hide EmergentCells, UpperCells, LowerCells, CellsInRange, RowsInRange;
    SideDual(InOrder(UpperCells(e)), previous, current, labels);
    SideDual(InOrder(LowerCells(e)), previous, current, labels);
  }

  lemma SideDual(cells: seq<Cell>, previous: seq<Row>, current: seq<Row>, labels: seq<Text>)
    requires CellsInRange(cells, |labels|)
    ensures BorderCells(cells, current, previous, labels) == Swapped(BorderCells(cells, previous, current, labels))
  {}

  // ---------------------------------------------------------------- what a shift changes

  lemma ShiftedReadings(base: seq<Row>, labels: seq<Text>, shifts: map<Text, Drift>, c: Cell)
    requires c.shift == STAR
    ensures Count(Shifted(base, labels, shifts), c) == Count(base, c)
  {
    TotalOfImage(base, Pinning(labels, shifts), Under(c));
    TotalSame(base, Image(Under(c), Pinning(labels, shifts)), Under(c));
  }

  lemma PinnedUncounted(base: seq<Row>, c: Cell)
    requires NoShift(base) && c.shift != STAR
    ensures Count(base, c) == 0
  {
    TotalNone(base, Under(c));
  }

  /** Pinning shifts on the current side moves no count of an unpinned cell, and every cell that pins
      a shift emerges as soon as it counts anything, with a previous count of zero. */
  lemma ShiftsOnlyEmerge(previous: seq<Row>, current: seq<Row>, labels: seq<Text>, shifts: map<Text, Drift>, c: Cell)
    requires NoShift(previous)
    ensures var shifted := Shifted(current, labels, shifts);
            && (c.shift == STAR ==>
                  (Emergent(previous, shifted, c) <==> Emergent(previous, current, c))
                  && (Emergent(shifted, previous, c) <==> Emergent(current, previous, c)))
            && (c.shift != STAR ==>
                  Count(previous, c) == 0 && !Emergent(shifted, previous, c)
                  && (Emergent(previous, shifted, c) <==> Count(shifted, c) > 0))
  {
    if c.shift == STAR {
      ShiftedReadings(current, labels, shifts, c);
    } else {
      PinnedUncounted(previous, c);
    }
  }

  lemma ShiftLeavesRegion(previous: seq<Row>, current: seq<Row>, labels: seq<Text>, shifts: map<Text, Drift>)
    requires NoShift(previous)
    ensures EmergentCells(Shifted(current, labels, shifts), previous) == EmergentCells(current, previous)
    ensures forall c :: c in EmergentCells(current, previous) ==> c.shift == STAR
  {
    var shifted := Shifted(current, labels, shifts);
    forall c
      ensures c in EmergentCells(shifted, previous) <==> c in EmergentCells(current, previous)
      ensures c in EmergentCells(current, previous) ==> c.shift == STAR
    {
      ShiftsOnlyEmerge(previous, current, labels, shifts, c);
      EmergentIsPopulated(shifted, previous, c);
      EmergentIsPopulated(current, previous, c);
    }
  }

  /** What vanishes does not depend on the shifts at all. */
  lemma ShiftLeavesVanishing(previous: seq<Row>, current: seq<Row>, labels: seq<Text>, shifts: map<Text, Drift>,
                             s: CollapseState)
    requires RowsInRange(previous, |labels|) && RowsInRange(current, |labels|) && NoShift(previous)
    ensures DiffBases(previous, current, labels, shifts, s).vanishing
        == DiffBases(previous, current, labels, map[], s).vanishing
  {
    var shifted, e := Shifted(current, labels, shifts), EmergentCells(current, previous);
    ShiftedInRange(current, labels, shifts);
    UnshiftedIsSame(current, labels);
    ShiftLeavesRegion(previous, current, labels, shifts);
    EmergentInRange(current, previous, |labels|, UpperCells(e));
    EmergentInRange(current, previous, |labels|, LowerCells(e));
    hide EmergentCells, Shifted, PinCell, CellsInRange, InRange, RowsInRange, IsUpper, IsLower;
    SideShifted(previous, current, labels, shifts, UpperCells(e));
    SideShifted(previous, current, labels, shifts, LowerCells(e));
    hide UpperCells, LowerCells;
    assert BorderOf(shifted, previous, previous, shifted, labels)
        == BorderOf(current, previous, previous, current, labels);
    hide BorderOf;
  }

  lemma SideShifted(previous: seq<Row>, current: seq<Row>, labels: seq<Text>, shifts: map<Text, Drift>, side: set<Cell>)
    requires CellsInRange(InOrder(side), |labels|) && forall c :: c in side ==> c.shift == STAR
    ensures BorderCells(InOrder(side), previous, Shifted(current, labels, shifts), labels)
         == BorderCells(InOrder(side), previous, current, labels)
  {
    var cells := InOrder(side);
    forall i | 0 <= i < |cells|
      ensures BorderCells(cells, previous, Shifted(current, labels, shifts), labels)[i]
          == BorderCells(cells, previous, current, labels)[i]
    {
      assert cells[i] in Elements(cells);
      ShiftedReadings(current, labels, shifts, cells[i]);
    }
  }
}
