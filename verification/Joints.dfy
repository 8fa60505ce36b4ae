/** Joints by label: what a base says once its component ids are read through its dictionary,
    and the canonical form that makes a cube a function of exactly that. */
module Joints {
  import opened Orders
  import opened Bytes
  import opened Cells
  import opened Bases
  import opened Collapse
  import opened Guardrail
  import opened Blocks
  import opened Emission
  import opened BoundedCube
  import opened Interning
  import opened Renaming

  datatype Tuple = Tuple(level: Id, component: Text, role: Id)

  function TupleOf(r: BaseRow): Tuple { Tuple(r.level, r.component, r.role) }

  function CountAt(t: Tuple, r: BaseRow): nat { if TupleOf(r) == t then r.count else 0 }

  function At(t: Tuple): BaseRow -> nat { (r: BaseRow) => CountAt(t, r) }

  /** The count a joint gives one labelled tuple. */
  function JointCount(rows: seq<BaseRow>, t: Tuple): nat { Sum(rows, At(t)) }

  ghost predicate Names(rows: seq<BaseRow>, t: Tuple) { exists r :: r in rows && TupleOf(r) == t }

  /** The same tuples with the same counts, however the rows are ordered or split. */
  ghost predicate SameJoint(a: seq<BaseRow>, b: seq<BaseRow>) {
    forall t {:trigger JointCount(a, t)} {:trigger JointCount(b, t)} ::
      JointCount(a, t) == JointCount(b, t) && (Names(a, t) <==> Names(b, t))
  }

  lemma SameJointSymmetric(a: seq<BaseRow>, b: seq<BaseRow>)
    requires SameJoint(a, b)
    ensures SameJoint(b, a)
  {
    hide JointCount, Names;
    forall t ensures JointCount(b, t) == JointCount(a, t) && (Names(b, t) <==> Names(a, t)) {
      assert JointCount(a, t) == JointCount(b, t);
    }
  }

  lemma SameJointTransitive(a: seq<BaseRow>, b: seq<BaseRow>, c: seq<BaseRow>)
    requires SameJoint(a, b) && SameJoint(b, c)
    ensures SameJoint(a, c)
  {
    hide JointCount, Names;
    forall t ensures JointCount(a, t) == JointCount(c, t) && (Names(a, t) <==> Names(c, t)) {
      assert JointCount(a, t) == JointCount(b, t);
    }
  }

  lemma PooledJoint(a: seq<BaseRow>, a': seq<BaseRow>, b: seq<BaseRow>, b': seq<BaseRow>)
    requires SameJoint(a, a') && SameJoint(b, b')
    ensures SameJoint(a + b, a' + b')
  {
    forall t ensures JointCount(a + b, t) == JointCount(a' + b', t) && (Names(a + b, t) <==> Names(a' + b', t)) {
      PooledCount(a, b, t);
      PooledCount(a', b', t);
      hide Names;
      assert JointCount(a, t) == JointCount(a', t);
      assert JointCount(b, t) == JointCount(b', t);
    }
  }

  lemma PooledCount(a: seq<BaseRow>, b: seq<BaseRow>, t: Tuple)
    ensures JointCount(a + b, t) == JointCount(a, t) + JointCount(b, t)
    ensures Names(a + b, t) <==> Names(a, t) || Names(b, t)
  {
    SumConcat(a, b, At(t));
    assert forall r :: r in a + b <==> r in a || r in b;
  }

  /** Pooling does not depend on which side comes first. */
  lemma PoolingCommutes(a: seq<BaseRow>, b: seq<BaseRow>)
    ensures SameJoint(a + b, b + a)
  {
    forall t ensures JointCount(a + b, t) == JointCount(b + a, t) && (Names(a + b, t) <==> Names(b + a, t)) {
      PooledCount(a, b, t);
      PooledCount(b, a, t);
    }
  }

  // ---------------------------------------------------------------- reading ids back

  function LabelAt(c: Cell, labels: seq<Text>): Text
    requires InRange(c, |labels|)
  {
    if c.component == STAR then [] else labels[c.component]
  }

  function ReadCell(c: Cell, labels: seq<Text>): Tuple
    requires InRange(c, |labels|)
  {
    Tuple(c.level, LabelAt(c, labels), c.role)
  }

  function ReadRow(r: Row, labels: seq<Text>): BaseRow
    requires InRange(r.cell, |labels|)
  {
    BaseRow(r.cell.level, LabelAt(r.cell, labels), r.cell.role, r.count)
  }

  ghost predicate NoShift(base: seq<Row>) { forall r :: r in base ==> r.cell.shift == STAR }

  ghost function Read(base: seq<Row>, labels: seq<Text>): (rows: seq<BaseRow>)
    requires RowsInRange(base, |labels|)
    ensures |rows| == |base|
    ensures forall i :: 0 <= i < |rows| ==> base[i] in base && rows[i] == ReadRow(base[i], labels)
  {
    seq(|base|, i requires 0 <= i < |base| => assert base[i] in base; ReadRow(base[i], labels))
  }

  lemma ReadConcat(a: seq<Row>, b: seq<Row>, labels: seq<Text>)
    requires RowsInRange(a, |labels|) && RowsInRange(b, |labels|)
    ensures RowsInRange(a + b, |labels|) && Read(a + b, labels) == Read(a, labels) + Read(b, labels)
  {
    assert forall r :: r in a + b <==> r in a || r in b;
    assert RowsInRange(a + b, |labels|);
  }

  ghost predicate Covers(labels: seq<Text>, rows: seq<BaseRow>) {
    IsDict(labels) && LabelsOf(rows) <= Elements(labels)
  }

  lemma RowLabelled(rows: seq<BaseRow>, labels: seq<Text>, i: nat)
    requires Covers(labels, rows) && i < |rows|
    ensures InRange(CellOfRow(rows[i], labels), |labels|)
        && LabelAt(CellOfRow(rows[i], labels), labels) == rows[i].component
  {
    assert rows[i] in rows;
    if rows[i].component != [] {
      assert rows[i].component in LabelsOf(rows);
      assert rows[i].component in Elements(labels);
    }
  }

  /** Interning rows and reading them back changes nothing. */
  lemma ReadInterned(rows: seq<BaseRow>, labels: seq<Text>)
    requires Covers(labels, rows)
    ensures RowsInRange(IdRows(rows, labels), |labels|) && NoShift(IdRows(rows, labels))
    ensures Read(IdRows(rows, labels), labels) == rows
  {
    IdRowsInRange(rows, labels);
    forall i | 0 <= i < |rows| ensures Read(IdRows(rows, labels), labels)[i] == rows[i]
        { RowLabelled(rows, labels, i); }
    forall r | r in IdRows(rows, labels) ensures r.cell.shift == STAR {
      var i :| 0 <= i < |rows| && IdRows(rows, labels)[i] == r;
    }
  }

  lemma SameReading(c: Cell, d: Cell, labels: seq<Text>)
    requires IsDict(labels) && InRange(c, |labels|) && InRange(d, |labels|) && c.shift == d.shift == STAR
    ensures ReadCell(c, labels) == ReadCell(d, labels) <==> c == d
  {
    if c.component != STAR { assert labels[c.component] in labels; }
    if d.component != STAR { assert labels[d.component] in labels; }
    if c.component != STAR && d.component != STAR && labels[c.component] == labels[d.component] {
      DictIndex(labels, c.component, d.component);
    }
  }

  lemma {:induction false} ReadCount(base: seq<Row>, labels: seq<Text>, c: Cell)
    requires IsDict(labels) && RowsInRange(base, |labels|) && NoShift(base) && InRange(c, |labels|) && c.shift == STAR
    ensures JointCount(Read(base, labels), ReadCell(c, labels)) == Mass(base, c)
    decreases |base|
  {
    if base != [] {
      var front, last := base[..|base| - 1], base[|base| - 1];
      assert forall r :: r in base <==> r in front || r == last;
      ReadCount(front, labels, c);
      SameReading(c, last.cell, labels);
      assert Read(base, labels) == Read(front, labels) + [ReadRow(last, labels)];
      SumSnoc(Read(front, labels), ReadRow(last, labels), At(ReadCell(c, labels)));
      assert At(ReadCell(c, labels))(ReadRow(last, labels)) == CountAt(ReadCell(c, labels), ReadRow(last, labels));
    }
  }

  lemma ReadNames(base: seq<Row>, labels: seq<Text>, c: Cell)
    requires IsDict(labels) && RowsInRange(base, |labels|) && NoShift(base) && InRange(c, |labels|) && c.shift == STAR
    ensures Names(Read(base, labels), ReadCell(c, labels)) <==> c in Support(base)
  {
    var rows := Read(base, labels);
    if c in Support(base) {
      var r :| r in base && r.cell == c;
      var i :| 0 <= i < |base| && base[i] == r;
      assert rows[i] in rows && TupleOf(rows[i]) == ReadCell(c, labels);
    }
    if x :| x in rows && TupleOf(x) == ReadCell(c, labels) {
      var i :| 0 <= i < |rows| && rows[i] == x;
      SameReading(c, base[i].cell, labels);
      assert base[i] in base;
    }
  }

  lemma {:induction false} UnnamedCount(rows: seq<BaseRow>, t: Tuple)
    requires !Names(rows, t)
    ensures JointCount(rows, t) == 0
  {
    if rows != [] {
      var front, last := rows[..|rows| - 1], rows[|rows| - 1];
      assert forall r :: r in front ==> r in rows;
      UnnamedCount(front, t);
      assert last in rows && TupleOf(last) != t;
      assert At(t)(last) == CountAt(t, last);
    }
  }

  /** A cell for a labelled tuple, when the dictionary has one. */
  lemma CellFor(base: seq<Row>, labels: seq<Text>, t: Tuple) returns (c: Cell)
    requires IsDict(labels) && RowsInRange(base, |labels|) && Names(Read(base, labels), t)
    ensures InRange(c, |labels|) && c.shift == STAR && ReadCell(c, labels) == t
  {
    var rows := Read(base, labels);
    var r :| r in rows && TupleOf(r) == t;
    var i :| 0 <= i < |rows| && rows[i] == r;
    c := base[i].cell.(shift := STAR);
  }

  lemma CountByCell(a: seq<Row>, b: seq<Row>, labels: seq<Text>, t: Tuple)
    requires IsDict(labels) && RowsInRange(a, |labels|) && RowsInRange(b, |labels|) && NoShift(a) && NoShift(b)
    requires Equivalent(a, b)
    ensures JointCount(Read(a, labels), t) == JointCount(Read(b, labels), t)
    ensures Names(Read(a, labels), t) <==> Names(Read(b, labels), t)
  {
    hide Names, JointCount;
    if Names(Read(a, labels), t) || Names(Read(b, labels), t) {
      var c: Cell;
      if Names(Read(a, labels), t) { c := CellFor(a, labels, t); } else { c := CellFor(b, labels, t); }
      ReadCount(a, labels, c);
      ReadCount(b, labels, c);
      ReadNames(a, labels, c);
      ReadNames(b, labels, c);
      assert Total(a, Exactly(c)) == Total(b, Exactly(c));
    } else {
      UnnamedCount(Read(a, labels), t);
      UnnamedCount(Read(b, labels), t);
    }
  }

  /** Over one dictionary, equivalent bases are exactly those with the same joint. */
  lemma SameJointIff(a: seq<Row>, b: seq<Row>, labels: seq<Text>)
    requires IsDict(labels) && RowsInRange(a, |labels|) && RowsInRange(b, |labels|) && NoShift(a) && NoShift(b)
    ensures Equivalent(a, b) <==> SameJoint(Read(a, labels), Read(b, labels))
  {
    if Equivalent(a, b) {
      forall t
        ensures JointCount(Read(a, labels), t) == JointCount(Read(b, labels), t)
        ensures Names(Read(a, labels), t) <==> Names(Read(b, labels), t)
      {
        CountByCell(a, b, labels, t);
      }
    }
    if SameJoint(Read(a, labels), Read(b, labels)) {
      forall c ensures Mass(a, c) == Mass(b, c) && (c in Support(a) <==> c in Support(b))
          { MassByJoint(a, b, labels, c); }
      MassesDecide(a, b);
    }
  }

  lemma MassByJoint(a: seq<Row>, b: seq<Row>, labels: seq<Text>, c: Cell)
    requires IsDict(labels) && RowsInRange(a, |labels|) && RowsInRange(b, |labels|) && NoShift(a) && NoShift(b)
    requires SameJoint(Read(a, labels), Read(b, labels))
    ensures Mass(a, c) == Mass(b, c) && (c in Support(a) <==> c in Support(b))
  {
    if InRange(c, |labels|) && c.shift == STAR {
      ReadCount(a, labels, c);
      ReadCount(b, labels, c);
      ReadNames(a, labels, c);
      ReadNames(b, labels, c);
      hide Names, JointCount;
      assert JointCount(Read(a, labels), ReadCell(c, labels)) == JointCount(Read(b, labels), ReadCell(c, labels));
    } else {
      TotalNone(a, Exactly(c));
      TotalNone(b, Exactly(c));
    }
  }

  lemma MassesDecide(a: seq<Row>, b: seq<Row>)
    requires forall c :: Mass(a, c) == Mass(b, c) && (c in Support(a) <==> c in Support(b))
    ensures Equivalent(a, b)
  {
    ReducedIs(a);
    hide Reduced, Mass;
    assert Support(a) == Support(b);
    assert IsReduction(Reduced(a), b);
    ReductionUnique(Reduced(a), b);
    EquivalentReduced(a, b);
  }

  // ---------------------------------------------------------------- coarse joints

  function CollapseRow(r: BaseRow, s: CollapseState): BaseRow {
    var banded := if r.level < s.floor then r.(level := s.floor - 1) else r;
    if s.depth < FULL_WHERE_DEPTH then banded.(component := []) else banded
  }

  /** The joint read at a collapse state. */
  function CollapsedRows(rows: seq<BaseRow>, s: CollapseState): (r: seq<BaseRow>)
    ensures |r| == |rows| && forall i :: 0 <= i < |r| ==> r[i] == CollapseRow(rows[i], s)
  {
    seq(|rows|, i requires 0 <= i < |rows| => CollapseRow(rows[i], s))
  }

  lemma ReadCollapsed(base: seq<Row>, labels: seq<Text>, s: CollapseState)
    requires IsDict(labels) && RowsInRange(base, |labels|) && NoShift(base)
    ensures RowsInRange(CollapsedBase(base, s), |labels|) && NoShift(CollapsedBase(base, s))
    ensures SameJoint(Read(CollapsedBase(base, s), labels), CollapsedRows(Read(base, labels), s))
  {
    var coarse := MapRows(base, Collapsing(s));
    forall i | 0 <= i < |base| ensures InRange(coarse[i].cell, |labels|) && coarse[i].cell.shift == STAR {
      assert base[i] in base;
    }
    forall i | 0 <= i < |base| ensures Read(coarse, labels)[i] == CollapsedRows(Read(base, labels), s)[i] {
      assert base[i] in base;
    }
    assert Read(coarse, labels) == CollapsedRows(Read(base, labels), s);
    CollapsedInRange(base, s, |labels|);
    CollapsedNoShift(base, s);
    ReducedEquivalent(coarse);
    SameJointIff(CollapsedBase(base, s), coarse, labels);
  }

  lemma CollapsedNoShift(base: seq<Row>, s: CollapseState)
    requires NoShift(base)
    ensures NoShift(CollapsedBase(base, s))
  {
    CollapsedSupport(base, s);
    hide CollapsedBase;
    forall r | r in CollapsedBase(base, s) ensures r.cell.shift == STAR {
      assert r.cell in Support(CollapsedBase(base, s));
      var o :| o in Support(base) && CollapseCell(o, s) == r.cell;
      var q :| q in base && q.cell == o;
    }
  }

  // ---------------------------------------------------------------- canonical dictionaries

  ghost function IdsIn(dict: seq<Text>, labels: seq<Text>): (phi: seq<Id>)
    requires |labels| <= STAR
    ensures |phi| == |dict| && forall j :: 0 <= j < |phi| ==> phi[j] == IdOf(labels, dict[j])
  {
    seq(|dict|, j requires 0 <= j < |dict| => IdOf(labels, dict[j]))
  }

  lemma SubDictionaryCarries(labels: seq<Text>, dict: seq<Text>)
    requires IsDict(labels) && IsDict(dict) && Elements(dict) <= Elements(labels)
    ensures Carries(labels, dict, IdsIn(dict, labels))
  {
    var phi := IdsIn(dict, labels);
    TextOrderIsTotal();
    SubDictionarySize(labels, dict);
    forall j | 0 <= j < |phi| ensures phi[j] < |labels| && labels[phi[j]] == dict[j] {
      assert dict[j] in dict && dict[j] in Elements(labels);
    }
    forall i, j | 0 <= i < j < |phi| ensures phi[i] < phi[j] {
      var x, y := dict[i], dict[j];
      assert TextOrder(x, y);
      assert !TextOrder(y, x) by { LexIrreflexive(x); if TextOrder(y, x) { LexTransitive(x, y, x); } }
      assert x != y by { LexIrreflexive(x); }
      var p, q := phi[j], phi[i];
      var u, v := labels[p], labels[q];
      assert p >= q || TextOrder(u, v);
    }
  }

  lemma SubDictionarySize(labels: seq<Text>, dict: seq<Text>)
    requires IsDict(labels) && IsDict(dict)
    ensures |dict| <= STAR
  {}

  /** Two bases that read alike through a dictionary and a larger one differ by the renaming alone. */
  lemma ReadingDecides(a: seq<Row>, dict: seq<Text>, b: seq<Row>, labels: seq<Text>)
    requires IsDict(labels) && IsDict(dict) && Elements(dict) <= Elements(labels)
    requires RowsInRange(a, |dict|) && RowsInRange(b, |labels|) && NoShift(a) && NoShift(b)
    requires Read(a, dict) == Read(b, labels)
    ensures Renamed(a, IdsIn(dict, labels)) == b
  {
    var phi := IdsIn(dict, labels);
    SubDictionaryCarries(labels, dict);
    assert |a| == |Read(a, dict)| == |b|;
    forall i | 0 <= i < |a| ensures Renamed(a, phi)[i] == b[i] {
      assert Read(a, dict)[i] == Read(b, labels)[i];
      var c, d := a[i].cell, b[i].cell;
      assert a[i] in a && b[i] in b;
      assert c.component != STAR ==> dict[c.component] in dict;
      assert d.component != STAR ==> labels[d.component] in labels;
      if c.component != STAR && d.component != STAR {
        DictIndex(labels, phi[c.component], d.component);
      }
    }
  }

  // ---------------------------------------------------------------- cubes of rows

  /** The block of labelled rows over their own dictionary. */
  ghost function BuildRows(rows: seq<BaseRow>, s: CollapseState): CubeBlock
    requires FitsIds(rows)
  {
    DictIsDict(rows);
    IdRowsInRange(rows, DictOf(rows));
    BoundedBlock(IdRows(rows, DictOf(rows)), DictOf(rows), s)
  }

  lemma LabelsOfRead(base: seq<Row>, labels: seq<Text>)
    requires RowsInRange(base, |labels|)
    ensures LabelsOf(Read(base, labels)) <= Elements(labels)
  {
    var rows := Read(base, labels);
    forall t | t in LabelsOf(rows) ensures t in Elements(labels) {
      var r :| r in rows && r.component != [] && r.component == t;
      var i :| 0 <= i < |rows| && rows[i] == r;
      assert labels[base[i].cell.component] == t;
    }
  }

  lemma {:induction false} FewerElements(small: set<Text>, large: seq<Text>)
    requires small <= Elements(large)
    ensures |small| <= |large|
  {
    if large == [] {
      assert small == {};
    } else {
      var front, last := large[..|large| - 1], large[|large| - 1];
      assert large == front + [last];
      FewerElements(small - {last}, front);
    }
  }

  /** A cube depends only on what its base says by label, never on the dictionary it was interned in. */
  lemma BlockOfReading(base: seq<Row>, labels: seq<Text>, s: CollapseState)
    requires IsDict(labels) && RowsInRange(base, |labels|) && NoShift(base)
    ensures FitsIds(Read(base, labels))
    ensures BoundedBlock(base, labels, s) == BuildRows(Read(base, labels), s)
  {
    var rows := Read(base, labels);
    LabelsOfRead(base, labels);
    FewerElements(LabelsOf(rows), labels);
    DictIsDict(rows);
    var dict := DictOf(rows);
    assert Covers(dict, rows);
    ReadInterned(rows, dict);
    ReadingDecides(IdRows(rows, dict), dict, base, labels);
    SubDictionaryCarries(labels, dict);
    hide *;
    RenamedBlock(IdRows(rows, dict), labels, dict, IdsIn(dict, labels), s);
    BuildRowsIs(rows, s);
  }

  lemma BuildRowsIs(rows: seq<BaseRow>, s: CollapseState)
    requires FitsIds(rows)
    ensures IsDict(DictOf(rows)) && RowsInRange(IdRows(rows, DictOf(rows)), |DictOf(rows)|)
    ensures BuildRows(rows, s) == BoundedBlock(IdRows(rows, DictOf(rows)), DictOf(rows), s)
  {
    DictIsDict(rows);
    IdRowsInRange(rows, DictOf(rows));
  }

  lemma EquivalentBlocks(a: seq<Row>, b: seq<Row>, labels: seq<Text>, s: CollapseState)
    requires |labels| <= STAR && RowsInRange(a, |labels|) && RowsInRange(b, |labels|) && Equivalent(a, b)
    ensures BoundedBlock(a, labels, s) == BoundedBlock(b, labels, s)
  {
    hide CollapsedBase, Equivalent;
    forall t ensures Counting(a)(t) == Counting(b)(t) { EquivalentCollapse(a, b, t); }
    SameSearch(Counting(a), Counting(b), s);
    EquivalentCollapse(a, b, FinalState(Counting(a), s));
  }

  lemma SameLabels(a: seq<BaseRow>, b: seq<BaseRow>)
    requires SameJoint(a, b)
    ensures LabelsOf(a) <= LabelsOf(b)
  {
    forall t | t in LabelsOf(a) ensures t in LabelsOf(b) {
      var r :| r in a && r.component != [] && r.component == t;
      assert Names(a, TupleOf(r));
      assert JointCount(a, TupleOf(r)) == JointCount(b, TupleOf(r));
      var q :| q in b && TupleOf(q) == TupleOf(r);
    }
  }

  /** Rows with one joint build one cube: order, repetition and splitting of rows do not matter. */
  lemma SameJointSameCube(a: seq<BaseRow>, b: seq<BaseRow>, s: CollapseState)
    requires SameJoint(a, b) && FitsIds(a)
    ensures FitsIds(b) && BuildRows(a, s) == BuildRows(b, s)
  {
    SameJointSymmetric(a, b);
    SameLabels(a, b);
    SameLabels(b, a);
    assert LabelsOf(a) == LabelsOf(b);
    var labels := DictOf(a);
    DictIsDict(a);
    ReadInterned(a, labels);
    ReadInterned(b, labels);
    SameJointIff(IdRows(a, labels), IdRows(b, labels), labels);
    hide SameJoint;
    EquivalentBlocks(IdRows(a, labels), IdRows(b, labels), labels, s);
  }
}
