/** Composing the labels of one template: count first, then the smaller label, never the operand. */
module ComposeLabels {
  import opened Options
  import opened Orders
  import opened Bytes

  type LevelId = n: nat | n < 7

  const UNKNOWN: LevelId := 6

  datatype EventLevel = EventLevel(value: LevelId, declared: bool)

  /** The first bytes of the seven spellings DEBUG, ERROR, FATAL, INFO, TRACE, UNKNOWN and WARN
      already differ, so a spelling is ordered by its initial. */
  function SpellingInitial(level: LevelId): Byte {
    match level
    case 0 => 0x54
    case 1 => 0x44
    case 2 => 0x49
    case 3 => 0x57
    case 4 => 0x45
    case 5 => 0x46
    case _ => 0x55
  }

  predicate LevelLess(a: EventLevel, b: EventLevel) {
    if SpellingInitial(a.value) != SpellingInitial(b.value) then SpellingInitial(a.value) < SpellingInitial(b.value)
    else a.declared && !b.declared
  }

  const LevelOrder: (EventLevel, EventLevel) -> bool := (a: EventLevel, b: EventLevel) => LevelLess(a, b)

  lemma LevelOrderIsTotal()
    ensures StrictTotal(LevelOrder)
  {}

  /** std::vector's order: element by element, a prefix first. */
  predicate PathLess(a: seq<Text>, b: seq<Text>) {
    if b == [] then false
    else if a == [] then true
    else if a[0] != b[0] then LexLess(a[0], b[0])
    else PathLess(a[1..], b[1..])
  }

  const PathOrder: (seq<Text>, seq<Text>) -> bool := (a: seq<Text>, b: seq<Text>) => PathLess(a, b)

  lemma {:induction false} PathIrreflexive(a: seq<Text>)
    ensures !PathLess(a, a)
  {
    if a != [] { PathIrreflexive(a[1..]); }
  }

  lemma {:induction false} PathTransitive(a: seq<Text>, b: seq<Text>, c: seq<Text>)
    requires PathLess(a, b) && PathLess(b, c)
    ensures PathLess(a, c)
  {
    hide LexLess;
    if a != [] {
      if a[0] == b[0] && b[0] == c[0] {
        PathTransitive(a[1..], b[1..], c[1..]);
      } else if a[0] != b[0] && b[0] != c[0] {
        LexTransitive(a[0], b[0], c[0]);
        LexIrreflexive(a[0]);
      }
    }
  }

  lemma {:induction false} PathTrichotomy(a: seq<Text>, b: seq<Text>)
    ensures a == b || PathLess(a, b) || PathLess(b, a)
  {
    hide LexLess;
    if a != [] && b != [] {
      LexTrichotomy(a[0], b[0]);
      if a[0] == b[0] {
        PathTrichotomy(a[1..], b[1..]);
        assert a == [a[0]] + a[1..] && b == [b[0]] + b[1..];
      }
    }
  }

  lemma PathOrderIsTotal()
    ensures StrictTotal(PathOrder)
  {
    hide PathLess;
    forall x: seq<Text> ensures !PathOrder(x, x) { PathIrreflexive(x); }
    forall x: seq<Text>, y: seq<Text>, z: seq<Text> | PathOrder(x, y) && PathOrder(y, z)
        ensures PathOrder(x, z) { PathTransitive(x, y, z); }
    forall x: seq<Text>, y: seq<Text> ensures x == y || PathOrder(x, y) || PathOrder(y, x) { PathTrichotomy(x, y); }
  }

  // ---------------------------------------------------------------- one label

  /** The label of the input that contributed the higher count, the smaller at equal counts, the
      present one when only one input carries it. */
  function ResolveLabel<T>(lhs: Option<T>, lhsCount: nat, rhs: Option<T>, rhsCount: nat,
                           less: (T, T) -> bool): Option<T> {
    if lhs.None? then rhs
    else if rhs.None? then lhs
    else if lhsCount != rhsCount then (if lhsCount > rhsCount then lhs else rhs)
    else if less(rhs.value, lhs.value) then rhs
    else lhs
  }

  /** No label depends on which operand carried it. */
  lemma ResolveLabelCommutes<T(!new)>(lhs: Option<T>, lhsCount: nat, rhs: Option<T>, rhsCount: nat,
                                      less: (T, T) -> bool)
    requires StrictTotal(less)
    ensures ResolveLabel(lhs, lhsCount, rhs, rhsCount, less) == ResolveLabel(rhs, rhsCount, lhs, lhsCount, less)
  {
    if lhs.Some? && rhs.Some? {
      var x, y := lhs.value, rhs.value;
      assert x == y || less(x, y) || less(y, x);
      assert !(less(x, y) && less(y, x)) || less(x, x);
    }
  }

  // ---------------------------------------------------------------- one template

  /** One input's own view of a template; a role is carried by its canonical name. */
  datatype InputTemplate = InputTemplate(count: nat, level: Option<EventLevel>, component: Option<Text>,
                                         role: Option<Text>,
                                         where: Option<seq<Text>>)

  const NOT_CARRIED := InputTemplate(0, None, None, None, None)

  datatype Labels = Labels(level: Option<EventLevel>, component: Option<Text>, role: Option<Text>,
                           where: Option<seq<Text>>)

  function Carried(view: InputTemplate): Option<EventLevel> {
    if view.level.Some? && view.level.value.value != UNKNOWN then view.level else None
  }

  /** A level the wire carries wins over one it omits; an engaged Unknown survives only alone. */
  function ResolveLevel(lhs: InputTemplate, rhs: InputTemplate): Option<EventLevel> {
    var chosen := ResolveLabel(Carried(lhs), lhs.count, Carried(rhs), rhs.count, LevelOrder);
    if chosen.Some? then chosen
    else if lhs.level.Some? || rhs.level.Some? then Some(EventLevel(UNKNOWN, false))
    else None
  }

  function ResolveLabels(lhs: InputTemplate, rhs: InputTemplate): Labels {
    Labels(ResolveLevel(lhs, rhs),
           ResolveLabel(lhs.component, lhs.count, rhs.component, rhs.count, TextOrder),
           ResolveLabel(lhs.role, lhs.count, rhs.role, rhs.count, TextOrder),
           ResolveLabel(lhs.where, lhs.count, rhs.where, rhs.count, PathOrder))
  }

  lemma LabelsCommute(lhs: InputTemplate, rhs: InputTemplate)
    ensures ResolveLabels(lhs, rhs) == ResolveLabels(rhs, lhs)
  {
    LevelOrderIsTotal();
    TextOrderIsTotal();
    PathOrderIsTotal();
    ResolveLabelCommutes(Carried(lhs), lhs.count, Carried(rhs), rhs.count, LevelOrder);
    ResolveLabelCommutes(lhs.component, lhs.count, rhs.component, rhs.count, TextOrder);
    ResolveLabelCommutes(lhs.role, lhs.count, rhs.role, rhs.count, TextOrder);
    ResolveLabelCommutes(lhs.where, lhs.count, rhs.where, rhs.count, PathOrder);
    hide ResolveLabel;
  }

  // ---------------------------------------------------------------- whose label it is

  /** The label kept of two: the only one there is, that of the side with more lines, and at as many lines the one no
      other comes before. */
  ghost predicate IsKept<T(!new)>(kept: Option<T>, lhs: Option<T>, lhsCount: nat, rhs: Option<T>, rhsCount: nat,
                                  less: (T, T) -> bool) {
    && (lhs == None ==> kept == rhs)
    && (rhs == None ==> kept == lhs)
    && (lhs.Some? && rhs.Some? ==>
          && (lhsCount > rhsCount ==> kept == lhs)
          && (rhsCount > lhsCount ==> kept == rhs)
          && (lhsCount == rhsCount ==>
                (kept == lhs && !less(rhs.value, lhs.value)) || (kept == rhs && !less(lhs.value, rhs.value))))
  }

  lemma KeptIsResolved<T(!new)>(lhs: Option<T>, lhsCount: nat, rhs: Option<T>, rhsCount: nat, less: (T, T) -> bool)
    requires StrictTotal(less)
    ensures IsKept(ResolveLabel(lhs, lhsCount, rhs, rhsCount, less), lhs, lhsCount, rhs, rhsCount, less)
  {
    if lhs.Some? && rhs.Some? {
      var x, y := lhs.value, rhs.value;
      assert !(less(x, y) && less(y, x)) || less(x, x);
    }
  }

  /** Every label of a composed template is that of the document with more of its lines, and at as many lines the
      smaller text; a level that is named wins over Unknown, which stays only where neither names one. */
  lemma LouderLabelsWin(lhs: InputTemplate, rhs: InputTemplate)
    ensures var l := ResolveLabels(lhs, rhs);
            && IsKept(l.component, lhs.component, lhs.count, rhs.component, rhs.count,
                      (x: Text, y: Text) => LexLess(x, y))
            && IsKept(l.role, lhs.role, lhs.count, rhs.role, rhs.count, (x: Text, y: Text) => LexLess(x, y))
            && IsKept(l.where, lhs.where, lhs.count, rhs.where, rhs.count,
                      (x: seq<Text>, y: seq<Text>) => PathLess(x, y))
            && (Known(lhs).Some? || Known(rhs).Some? ==>
                  IsKept(l.level, Known(lhs), lhs.count, Known(rhs), rhs.count,
                         (x: EventLevel, y: EventLevel) => LexLess(Spelling(x), Spelling(y))))
            && (Known(lhs) == None && Known(rhs) == None ==>
                  l.level == if lhs.level == None && rhs.level == None then None else Some(EventLevel(6, false)))
  {
    TextOrderIsTotal();
    PathOrderIsTotal();
    LevelOrderIsTotal();
    KeptIsResolved(lhs.component, lhs.count, rhs.component, rhs.count, TextOrder);
    KeptIsResolved(lhs.role, lhs.count, rhs.role, rhs.count, TextOrder);
    KeptIsResolved(lhs.where, lhs.count, rhs.where, rhs.count, PathOrder);
    KeptIsResolved(Known(lhs), lhs.count, Known(rhs), rhs.count, LevelOrder);
    forall x: EventLevel, y: EventLevel ensures LexLess(Spelling(x), Spelling(y)) <==> LevelOrder(x, y) {
      SpellingsDecide(x, y);
    }
    hide ResolveLabel, LexLess, PathLess, Spelling;
  }

  /** A level some line was seen at. */
  function Known(view: InputTemplate): Option<EventLevel> {
    if view.level.Some? && view.level.value.value < 6 then view.level else None
  }

  /** The level as it is spelled, a declared one before an inferred one of the same spelling. */
  function Spelling(level: EventLevel): Text {
    (match level.value
     case 0 => Ascii("TRACE")
     case 1 => Ascii("DEBUG")
     case 2 => Ascii("INFO")
     case 3 => Ascii("WARN")
     case 4 => Ascii("ERROR")
     case 5 => Ascii("FATAL")
     case _ => Ascii("UNKNOWN"))
    + if level.declared then [] else [0]
  }

  lemma SpellingsDecide(x: EventLevel, y: EventLevel)
    ensures LexLess(Spelling(x), Spelling(y)) <==> LevelOrder(x, y)
  {
    var a, b := Spelling(x), Spelling(y);
    if x.value == y.value {
      if x.declared == y.declared {
        LexIrreflexive(a);
      } else if x.declared {
        assert b == a + [0];
        LexCommonPrefix(a, [], [0]);
        assert a + [] == a;
      } else {
        assert a == b + [0];
        LexCommonPrefix(b, [0], []);
        assert b + [] == b;
      }
    }
  }
}
