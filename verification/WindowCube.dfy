/** The cube of a closed window over the ingested lines themselves. */
module WindowCube {
  import opened Options
  import opened Identifiers
  import opened Orders
  import opened Sums
  import opened Bytes
  import opened Cells
  import opened Collapse
  import opened Blocks
  import opened Interning
  import opened Joints
  import opened CubeReading
  import opened BoundedTable
  import opened KeyCap
  import opened WindowState
  import opened WindowDocument

  /** A line as a row of its own: its level, its component as capped, its role. */
  function LineRow(e: Event, config: DocumentConfig): BaseRow {
    BaseRow(e.level, if config.isLong(e.component) then config.capText(e.component) else e.component, e.role, 1)
  }

  function LineRows(events: seq<Event>, config: DocumentConfig): (rows: seq<BaseRow>)
    ensures |rows| == |events| && forall i :: 0 <= i < |rows| ==> rows[i] == LineRow(events[i], config)
  {
    seq(|events|, i requires 0 <= i < |events| => LineRow(events[i], config))
  }

  ghost function Move(config: DocumentConfig): WindowState.Joint -> WindowState.Joint {
    Recap(LongJoint(config.isLong), CapJoint(config.capText))
  }

  // ---------------------------------------------------------------- counting by what a key becomes

  /** How many items become a value. */
  ghost function Becoming<K(!new)>(items: seq<K>, move: K -> K, y: K): nat {
    if items == [] then 0
    else Becoming(items[..|items| - 1], move, y) + if move(items[|items| - 1]) == y then 1 else 0
  }

  lemma {:induction false} FiberCounts<K(!new)>(items: seq<K>, keys: set<K>, move: K -> K, y: K)
    requires Elements(items) <= keys
    ensures SetSum(Fiber(keys, move, y), OccurrenceOf(items)) == Becoming(items, move, y)
  {
    var fiber := Fiber(keys, move, y);
    if items == [] {
      SetSumZero(fiber, OccurrenceOf(items));
    } else {
      var front, last := items[..|items| - 1], items[|items| - 1];
      assert items == front + [last];
      assert Elements(items) == Elements(front) + {last};
      FiberCounts(front, keys, move, y);
      forall x ensures OccurrenceOf(items)(x) == OccurrenceOf(front)(x) + One(last)(x) {
        OccurrencesSnoc(front, last, x);
      }
      SetSumPlus(fiber, OccurrenceOf(front), One(last), OccurrenceOf(items));
      OneInFiber(fiber, last);
    }
  }

  lemma OneInFiber<K>(fiber: set<K>, x: K)
    ensures SetSum(fiber, One(x)) == if x in fiber then 1 else 0
  {
    if x in fiber {
      SetSumRemove(fiber, x, One(x));
      SetSumZero(fiber - {x}, One(x));
    } else {
      SetSumZero(fiber, One(x));
    }
  }

  lemma CappedCounts(base: map<WindowState.Joint, nat>, events: seq<Event>, config: DocumentConfig,
                     capped: map<WindowState.Joint, nat>, j: WindowState.Joint)
    requires Tallied(base, WindowState.Joints(events)) && Recapped(base, base.Keys, Move(config), capped)
    ensures (if j in capped then capped[j] else 0) == Becoming(WindowState.Joints(events), Move(config), j)
    ensures j in capped <==> exists e :: e in events && Move(config)(JointOf(e)) == j
  {
    var items, move := WindowState.Joints(events), Move(config);
    FiberCounts(items, base.Keys, move, j);
    SetSumSame(Fiber(base.Keys, move, j), CountOf(base), OccurrenceOf(items));
    hide Move;
    assert j in capped <==> j in Image(base.Keys, move);
    if j !in capped { NoneBecomes(base.Keys, items, move, j); }
    if x :| x in base.Keys && move(x) == j {
      assert x in Elements(items);
      var i :| 0 <= i < |items| && items[i] == x;
      assert events[i] in events;
    }
    if e :| e in events && move(JointOf(e)) == j {
      var i :| 0 <= i < |events| && events[i] == e;
      assert items[i] in Elements(items);
    }
  }

  lemma NoneBecomes<K(!new)>(keys: set<K>, items: seq<K>, move: K -> K, y: K)
    requires y !in Image(keys, move) && Elements(items) <= keys
    ensures Becoming(items, move, y) == 0
  {
    FiberCounts(items, keys, move, y);
    assert Fiber(keys, move, y) == {};
    SetSumZero({}, OccurrenceOf(items));
  }

  // ---------------------------------------------------------------- one joint

  lemma {:induction false} LineRowsCount(events: seq<Event>, config: DocumentConfig, j: WindowState.Joint)
    ensures JointCount(LineRows(events, config), Tuple(j.level, j.component, j.role))
         == Becoming(WindowState.Joints(events), Move(config), j)
  {
    var t := Tuple(j.level, j.component, j.role);
    if events != [] {
      var front, last := events[..|events| - 1], events[|events| - 1];
      LineRowsCount(front, config, j);
      assert LineRows(events, config) == LineRows(front, config) + [LineRow(last, config)];
      SumSnoc(LineRows(front, config), LineRow(last, config), At(t));
      assert At(t)(LineRow(last, config)) == CountAt(t, LineRow(last, config));
      assert WindowState.Joints(events) == WindowState.Joints(front) + [JointOf(last)];
      assert WindowState.Joints(events)[..|events| - 1] == WindowState.Joints(front);
    }
  }

  lemma LineRowsName(events: seq<Event>, config: DocumentConfig, j: WindowState.Joint)
    ensures Names(LineRows(events, config), Tuple(j.level, j.component, j.role))
       <==> exists e :: e in events && Move(config)(JointOf(e)) == j
  {
    var rows, t := LineRows(events, config), Tuple(j.level, j.component, j.role);
    if Names(rows, t) {
      var i :| 0 <= i < |rows| && TupleOf(rows[i]) == t;
      assert events[i] in events && Move(config)(JointOf(events[i])) == j;
    }
    if e :| e in events && Move(config)(JointOf(e)) == j {
      var i :| 0 <= i < |events| && events[i] == e;
      assert rows[i] in rows && TupleOf(rows[i]) == t;
    }
  }

  lemma ListedCount(rows: seq<BaseRow>, joints: seq<WindowState.Joint>, base: map<WindowState.Joint, nat>,
                    j: WindowState.Joint)
    requires Lists(rows, joints, base)
    ensures JointCount(rows, Tuple(j.level, j.component, j.role)) == if j in base then base[j] else 0
    ensures Names(rows, Tuple(j.level, j.component, j.role)) <==> j in base
  {
    var t := Tuple(j.level, j.component, j.role);
    ListedJoint(rows, joints, base, t);
    hide JointCount, Names, Lists;
    if j in base {
      SetSumRemove(base.Keys, j, CountFor(t, base));
      SetSumZero(base.Keys - {j}, CountFor(t, base));
    } else {
      SetSumZero(base.Keys, CountFor(t, base));
    }
  }

  lemma OutsideCount(rows: seq<BaseRow>, t: Tuple)
    requires LevelsAndRoles(rows) && (t.level >= LEVELS || t.role >= ROLES)
    ensures JointCount(rows, t) == 0 && !Names(rows, t)
  {
    UnnamedCount(rows, t);
  }

  lemma ListedJointIsLines(rows: seq<BaseRow>, joints: seq<WindowState.Joint>, capped: map<WindowState.Joint, nat>,
                           base: map<WindowState.Joint, nat>, events: seq<Event>, config: DocumentConfig)
    requires Tallied(base, WindowState.Joints(events)) && Recapped(base, base.Keys, Move(config), capped)
    requires Lists(rows, joints, capped)
    ensures SameJoint(rows, LineRows(events, config))
  {
    var lines := LineRows(events, config);
    assert LevelsAndRoles(rows);
    assert LevelsAndRoles(lines);
    hide JointCount, Names, Lists, Move, Recapped, Tallied, LevelsAndRoles;
    forall t
      ensures JointCount(rows, t) == JointCount(lines, t)
      ensures Names(rows, t) <==> Names(lines, t)
    {
      if t.level < LEVELS && t.role < ROLES {
        var j := WindowState.Joint(t.level, t.component, t.role);
        ListedCount(rows, joints, capped, j);
        CappedCounts(base, events, config, capped, j);
        LineRowsCount(events, config, j);
        LineRowsName(events, config, j);
      } else {
        OutsideCount(rows, t);
        OutsideCount(lines, t);
      }
    }
  }

  /** A window's cube is the cube of its lines, each a row of its own with its component as capped: nothing is lost or
      added between ingesting a line and counting it in a cell. */
  lemma CubeOfLines(cube: CubeBlock, base: map<WindowState.Joint, nat>, events: seq<Event>, config: DocumentConfig)
    requires Tallied(base, WindowState.Joints(events)) && CubeFor(cube, base, config)
    ensures FitsIds(LineRows(events, config)) && cube == BuildRows(LineRows(events, config), UNCOLLAPSED)
  {
    var capped: map<WindowState.Joint, nat>, joints: seq<WindowState.Joint>, rows: seq<BaseRow> :|
      Recapped(base, base.Keys, Recap(LongJoint(config.isLong), CapJoint(config.capText)), capped)
      && Lists(rows, joints, capped) && FitsIds(rows) && cube == BuildRows(rows, UNCOLLAPSED);
    assert Recapped(base, base.Keys, Move(config), capped);
    hide *;
    ListedJointIsLines(rows, joints, capped, base, events, config);
    SameJointSameCube(rows, LineRows(events, config), UNCOLLAPSED);
  }

  // ---------------------------------------------------------------- a cell's count

  /** The lines whose level as banded, component as capped and located, and role are what the coordinate names. */
  function LinesAt(events: seq<Event>, config: DocumentConfig, s: CollapseState, q: CubeCoord): nat {
    if events == [] then 0
    else LinesAt(events[..|events| - 1], config, s, q) + if IsAt(events[|events| - 1], config, s, q) then 1 else 0
  }

  predicate IsAt(e: Event, config: DocumentConfig, s: CollapseState, q: CubeCoord) {
    var component := if s.depth == 0 then [] else if config.isLong(e.component) then config.capText(e.component)
                     else e.component;
    && (q.level == None || q.level == Some(if e.level < s.floor then s.floor - 1 else e.level))
    && (q.path == None || (q.path == Some([component]) && component != []))
    && (q.role == None || q.role == Some(e.role))
  }

  lemma {:induction false} LinesAtAre(events: seq<Event>, config: DocumentConfig, s: CollapseState, q: CubeCoord)
    requires q.shift == None
    ensures LinesUnder(CollapsedRows(LineRows(events, config), s), q, map[]) == LinesAt(events, config, s, q)
  {
    if events != [] {
      var front, last := events[..|events| - 1], events[|events| - 1];
      LinesAtAre(front, config, s, q);
      var rows := CollapsedRows(LineRows(events, config), s);
      assert rows == CollapsedRows(LineRows(front, config), s) + [CollapseRow(LineRow(last, config), s)];
      LinesSnoc(CollapsedRows(LineRows(front, config), s), CollapseRow(LineRow(last, config), s), q, map[]);
    }
  }

  /** Beside every coordinate of a closed window's cube stands the number of ingested lines it covers: those of its
      level, once the banded levels are read as the highest of them, of its component, if locations are kept, and of
      its role. */
  lemma CellsCountLines(cube: CubeBlock, base: map<WindowState.Joint, nat>, events: seq<Event>, config: DocumentConfig,
                        i: nat)
    requires Tallied(base, WindowState.Joints(events)) && CubeFor(cube, base, config) && i < |cube.cells|
    ensures cube.cells[i].count == LinesAt(events, config, StateOfAxes(cube.axes), cube.cells[i].coord)
  {
    hide *;
    CubeOfLines(cube, base, events, config);
    EmittedCounts(LineRows(events, config), UNCOLLAPSED, i);
    LinesAtAre(events, config, StateOfAxes(cube.axes), cube.cells[i].coord);
  }

  /** The cube answers every question about the ingested lines at its own grain: how many lie under a coordinate is the
      greatest count among the cells it covers. */
  lemma CubeAnswers(cube: CubeBlock, base: map<WindowState.Joint, nat>, events: seq<Event>, config: DocumentConfig,
                    q: CubeCoord)
    requires Tallied(base, WindowState.Joints(events)) && CubeFor(cube, base, config) && IsQuery(q) && q.shift == None
    ensures var lines := LinesAt(events, config, StateOfAxes(cube.axes), q);
            && (forall cell :: cell in cube.cells && Generalizes(q, cell.coord) ==> cell.count <= lines)
            && (lines > 0 ==> exists cell :: cell in cube.cells && Generalizes(q, cell.coord) && cell.count == lines)
  {
    hide *;
    CubeOfLines(cube, base, events, config);
    QueryAnswered(LineRows(events, config), UNCOLLAPSED, q);
    LinesAtAre(events, config, StateOfAxes(cube.axes), q);
  }
}
