/** The emitted cube block: coordinates by label, closed cells, the retained base and its
    dictionary, and the way back from a block to an interned base. */
module Blocks {
  import opened Options
  import opened Orders
  import opened Bytes
  import opened Cells
  import opened Bases
  import opened Closure
  import opened Population
  import opened ClosedCube
  import opened Collapse

  /** An absent axis key means aggregated; `where` is the chain prefix, one component deep today. */
  datatype CubeCoord = CubeCoord(level: Option<Id>, path: Option<seq<Text>>, role: Option<Id>, shift: Option<Id>)

  datatype CubeCell = CubeCell(coord: CubeCoord, count: nat)

  datatype CubeAxis = CubeAxis(name: string, floorDepth: Option<nat>, bandFloor: Option<Id>)

  datatype CubeBaseRow = CubeBaseRow(level: Id, componentId: Id, role: Id, count: nat)

  datatype CubeBlock = CubeBlock(axes: seq<CubeAxis>, cells: seq<CubeCell>, cellCount: nat, rawCellCount: nat,
                                 cellBudget: Option<nat>, base: seq<CubeBaseRow>, dict: seq<Text>)

  /** A component dictionary: distinct non-empty labels in order, few enough for a 32-bit id. */
  ghost predicate IsDict(labels: seq<Text>) {
    Ascending(TextOrder, labels) && |labels| <= STAR && forall t :: t in labels ==> t != []
  }

  predicate InRange(c: Cell, n: nat) { c.component == STAR || c.component < n }

  ghost predicate RowsInRange(base: seq<Row>, n: nat) { forall r :: r in base ==> InRange(r.cell, n) }

  function Pin(v: Id): Option<Id> { if v == STAR then None else Some(v) }

  function CoordOf(c: Cell, labels: seq<Text>): CubeCoord
    requires InRange(c, |labels|)
  {
    CubeCoord(Pin(c.level), if c.component == STAR then None else Some([labels[c.component]]), Pin(c.role),
              Pin(c.shift))
  }

  /** The id of a label in a dictionary; an empty or unknown component reads as the star. */
  function IdOf(labels: seq<Text>, t: Text): (id: Id)
    requires |labels| <= STAR
    ensures t in labels && t != [] ==> id < |labels| && labels[id] == t
    ensures t !in labels || t == [] ==> id == STAR
  {
    if t == [] || labels == [] then STAR
    else if labels[|labels| - 1] == t then |labels| - 1
    else IdOf(labels[..|labels| - 1], t)
  }

  method ComponentId(labels: seq<Text>, component: Text) returns (id: Id)
    requires IsDict(labels)
    ensures id == IdOf(labels, component)
  {
    if component == [] { return STAR; }
    TextOrderIsTotal();
    var found := LowerBound(TextOrder, labels, component);
    if found != |labels| && labels[found] == component {
      DictIndex(labels, found, IdOf(labels, component));
      return found;
    }
    return STAR;
  }

  lemma DictIndex(labels: seq<Text>, i: nat, j: nat)
    requires IsDict(labels) && i < |labels| && j < |labels| && labels[i] == labels[j]
    ensures i == j
  {
    TextOrderIsTotal();
    AscendingIsSorted(TextOrder, labels);
  }

  function Unpin(v: Option<Id>): Id { match v case None => STAR case Some(id) => id }

  /** Reading a coordinate back; a stored coordinate never pins the shift. */
  function CellOf(coord: CubeCoord, labels: seq<Text>): Cell
    requires |labels| <= STAR
  {
    Cell(Unpin(coord.level),
         if coord.path.Some? && coord.path.value != [] then IdOf(labels, coord.path.value[|coord.path.value| - 1])
             else STAR,
         Unpin(coord.role),
         STAR)
  }

  // ---------------------------------------------------------------- axes

  const REFERENCE_AXES: seq<CubeAxis> :=
    [CubeAxis("level", None, None), CubeAxis("where", Some(1), None), CubeAxis("structural_role", None, None)]

  function StampAxis(axis: CubeAxis, s: CollapseState): CubeAxis {
    if axis.name == "level" && s.floor > 0 then axis.(bandFloor := Some(s.floor))
    else if axis.name == "where" then axis.(floorDepth := Some(s.depth))
    else axis
  }

  function Stamp(axes: seq<CubeAxis>, s: CollapseState): (r: seq<CubeAxis>)
    ensures |r| == |axes| && forall i :: 0 <= i < |r| ==> r[i] == StampAxis(axes[i], s)
  {
    seq(|axes|, i requires 0 <= i < |axes| => StampAxis(axes[i], s))
  }

  function ReadAxis(state: CollapseState, axis: CubeAxis): CollapseState {
    var s := if axis.name == "level" && axis.bandFloor.Some? then state.(floor := axis.bandFloor.value) else state;
    if axis.name == "where" && axis.floorDepth.Some? then s.(depth := axis.floorDepth.value) else s
  }

  function StateOfAxes(axes: seq<CubeAxis>): CollapseState {
    if axes == [] then UNCOLLAPSED else ReadAxis(StateOfAxes(axes[..|axes| - 1]), axes[|axes| - 1])
  }

  method StampCollapse(axes: seq<CubeAxis>, s: CollapseState) returns (r: seq<CubeAxis>)
    ensures r == Stamp(axes, s)
  {
    r := axes;
    for k := 0 to |axes|
      invariant |r| == |axes| && r == Stamp(axes[..k], s) + axes[k..]
    {
      r := r[k := StampAxis(axes[k], s)];
    }
  }

  method CollapseStateOf(axes: seq<CubeAxis>) returns (s: CollapseState)
    ensures s == StateOfAxes(axes)
  {
    s := UNCOLLAPSED;
    for k := 0 to |axes|
      invariant s == StateOfAxes(axes[..k])
    {
      assert axes[..k + 1][..k] == axes[..k];
      s := ReadAxis(s, axes[k]);
    }
    assert axes[..|axes|] == axes;
  }

  /** The stamped axes name their collapse state, so two cubes compare only at known depths. */
  lemma AxesRoundTrip(s: CollapseState)
    ensures StateOfAxes(Stamp(REFERENCE_AXES, s)) == s
  {
    var axes := Stamp(REFERENCE_AXES, s);
    assert axes[..2][..1] == axes[..1] && axes[..1][..0] == [];
    assert StateOfAxes(axes[..1]) == ReadAxis(UNCOLLAPSED, axes[0]);
    assert StateOfAxes(axes[..2]) == ReadAxis(StateOfAxes(axes[..1]), axes[1]);
    assert StateOfAxes(axes) == ReadAxis(StateOfAxes(axes[..2]), axes[2]);
  }

  // ---------------------------------------------------------------- the WHERE tree

  /** No value sits under two parents at one depth. */
  ghost predicate IsTree(paths: seq<seq<Text>>) {
    forall i, j, d {:trigger paths[i][d], paths[j][d]} ::
      0 <= i < |paths| && 0 <= j < |paths| && 0 <= d < |paths[i]| && d < |paths[j]| && paths[i][d] == paths[j][d] ==>
        ParentAt(paths[i], d) == ParentAt(paths[j], d)
  }

  function ParentAt(path: seq<Text>, d: nat): Text
    requires d <= |path|
  {
    if d == 0 then [] else path[d - 1]
  }

  ghost predicate Seen(paths: seq<seq<Text>>, i: nat, depth: nat, p: nat, d: nat) {
    p < |paths| && d < |paths[p]| && (p < i || (p == i && d < depth))
  }

  ghost predicate ParentsOf(parentOf: map<(nat, Text), Text>, paths: seq<seq<Text>>, i: nat, depth: nat) {
    && (forall p: nat, d: nat {:trigger paths[p][d]} :: Seen(paths, i, depth, p, d) ==>
          (d, paths[p][d]) in parentOf && parentOf[(d, paths[p][d])] == ParentAt(paths[p], d))
    && (forall key {:trigger key in parentOf} :: key in parentOf ==>
          exists p: nat, d: nat :: Seen(paths, i, depth, p, d) && key == (d, paths[p][d]))
  }

  lemma NoParents(paths: seq<seq<Text>>)
    ensures ParentsOf(map[], paths, 0, 0)
  {}

  /** One more value seen, under a parent the table agrees with or has not met. */
  lemma ParentSeen(parentOf: map<(nat, Text), Text>, paths: seq<seq<Text>>, i: nat, depth: nat)
    requires i < |paths| && depth < |paths[i]| && ParentsOf(parentOf, paths, i, depth)
    requires var key := (depth, paths[i][depth]); key !in parentOf || parentOf[key] == ParentAt(paths[i], depth)
    ensures ParentsOf(parentOf[(depth, paths[i][depth]) := ParentAt(paths[i], depth)], paths, i, depth + 1)
  {
    var key, parent := (depth, paths[i][depth]), ParentAt(paths[i], depth);
    var after := parentOf[key := parent];
    forall p: nat, d: nat {:trigger paths[p][d]} | Seen(paths, i, depth + 1, p, d)
      ensures (d, paths[p][d]) in after && after[(d, paths[p][d])] == ParentAt(paths[p], d)
    {
      assert Seen(paths, i, depth, p, d) || (p == i && d == depth);
    }
    forall k {:trigger k in after} | k in after
        ensures exists p: nat, d: nat :: Seen(paths, i, depth + 1, p, d) && k == (d, paths[p][d]) {
      if k == key {
        assert Seen(paths, i, depth + 1, i, depth);
      } else {
        var p: nat, d: nat :| Seen(paths, i, depth, p, d) && k == (d, paths[p][d]);
        assert Seen(paths, i, depth + 1, p, d);
      }
    }
  }

  /** A value already seen under another parent: two parents, so no tree. */
  lemma TwoParents(parentOf: map<(nat, Text), Text>, paths: seq<seq<Text>>, i: nat, depth: nat)
    requires i < |paths| && depth < |paths[i]| && ParentsOf(parentOf, paths, i, depth)
    requires var key := (depth, paths[i][depth]); key in parentOf && parentOf[key] != ParentAt(paths[i], depth)
    ensures !IsTree(paths)
  {
    var key := (depth, paths[i][depth]);
    var p: nat, d: nat :| Seen(paths, i, depth, p, d) && key == (d, paths[p][d]);
    assert paths[p][depth] == paths[i][depth] && ParentAt(paths[p], depth) != ParentAt(paths[i], depth);
  }

  lemma NextPath(parentOf: map<(nat, Text), Text>, paths: seq<seq<Text>>, i: nat)
    requires i < |paths| && ParentsOf(parentOf, paths, i, |paths[i]|)
    ensures ParentsOf(parentOf, paths, i + 1, 0)
  {
    assert forall p: nat, d: nat :: Seen(paths, i, |paths[i]|, p, d) <==> Seen(paths, i + 1, 0, p, d);
  }

  lemma AllSeen(parentOf: map<(nat, Text), Text>, paths: seq<seq<Text>>)
    requires ParentsOf(parentOf, paths, |paths|, 0)
    ensures IsTree(paths)
  {
    forall i, j, d | 0 <= i < |paths| && 0 <= j < |paths| && 0 <= d < |paths[i]| && d < |paths[j]|
        && paths[i][d] == paths[j][d]
      ensures ParentAt(paths[i], d) == ParentAt(paths[j], d)
    {
      assert Seen(paths, |paths|, 0, i, d) && Seen(paths, |paths|, 0, j, d);
    }
  }

  method WhereChainIsTree(paths: seq<seq<Text>>) returns (tree: bool)
    ensures tree == IsTree(paths)
  {
    hide ParentsOf, IsTree, ParentAt;
    var parentOf: map<(nat, Text), Text> := map[];
    NoParents(paths);
    for i := 0 to |paths|
      invariant ParentsOf(parentOf, paths, i, 0)
    {
      var path := paths[i];
      for depth := 0 to |path|
        invariant ParentsOf(parentOf, paths, i, depth)
      {
        var key, parent := (depth, path[depth]), ParentAt(path, depth);
        if key in parentOf && parentOf[key] != parent {
          TwoParents(parentOf, paths, i, depth);
          return false;
        }
        ParentSeen(parentOf, paths, i, depth);
        parentOf := parentOf[key := parent];
      }
      NextPath(parentOf, paths, i);
    }
    AllSeen(parentOf, paths);
    return true;
  }

  /** A list of paths is a tree exactly when wherever two of them agree on a value at a depth they agree on the one
      before it. */
  lemma TreeReads(paths: seq<seq<Text>>)
    ensures IsTree(paths)
       <==> forall i, j, d {:trigger paths[i][d], paths[j][d]} ::
              0 <= i < |paths| && 0 <= j < |paths| && 1 <= d < |paths[i]| && d < |paths[j]| ==>
                paths[i][d] == paths[j][d] ==> paths[i][d - 1] == paths[j][d - 1]
  {}
}
