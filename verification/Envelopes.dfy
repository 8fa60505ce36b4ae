/** Window envelopes: merging two, and the time order of two. */
module Envelopes {
  import opened Options
  import opened Bytes
  import opened Rfc3339

  datatype Envelope = Envelope(startIso: Text, endIso: Text, duration: nat)

  datatype Stamped = Stamped(start: int, end: int)

  /** Both bounds are accepted instants. */
  predicate IsStamped(e: Envelope) { Parse(e.startIso).Some? && Parse(e.endIso).Some? }

  predicate Accepted(e: Option<Envelope>) { e.Some? ==> IsStamped(e.value) }

  function StampOf(e: Envelope): Stamped
    requires IsStamped(e)
  {
    Stamped(Parse(e.startIso).value, Parse(e.endIso).value)
  }

  function IsoMin(a: Text, b: Text): Text { if LexLess(a, b) then a else b }

  function IsoMax(a: Text, b: Text): Text { if LexLess(b, a) then a else b }

  /** Seconds from the earliest start to the latest end; an inverted span reads 0. */
  function Span(a: Stamped, b: Stamped): nat {
    var start, end := if b.start < a.start then b.start else a.start, if a.end < b.end then b.end else a.end;
    if end < start then 0 else end - start
  }

  function ComposedEnvelope(a: Option<Envelope>, b: Option<Envelope>): Option<Envelope>
    requires Accepted(a) && Accepted(b)
  {
    if a.None? then b
    else if b.None? then a
    else Some(Envelope(IsoMin(a.value.startIso, b.value.startIso), IsoMax(a.value.endIso, b.value.endIso),
                       Span(StampOf(a.value), StampOf(b.value))))
  }

  lemma MinIsEarlier(s: Text, t: Text)
    requires Parse(s).Some? && Parse(t).Some?
    ensures Parse(IsoMin(s, t)) == Some(if Parse(t).value < Parse(s).value then Parse(t).value else Parse(s).value)
    ensures Parse(IsoMax(s, t)) == Some(if Parse(s).value < Parse(t).value then Parse(t).value else Parse(s).value)
    ensures IsoMin(s, t) == IsoMin(t, s) && IsoMax(s, t) == IsoMax(t, s)
  {
    hide Parse, LexLess;
    BytesCompareAsInstants(s, t);
    BytesCompareAsInstants(t, s);
  }

  /** The merged envelope writes the earliest start and the latest end, and its duration is their
      difference: ordering the strings is ordering the instants. */
  lemma EnvelopeSpansBounds(a: Envelope, b: Envelope)
    requires IsStamped(a) && IsStamped(b)
    ensures var e := ComposedEnvelope(Some(a), Some(b)).value;
            && IsStamped(e)
            && StampOf(e).start == (if StampOf(b).start < StampOf(a).start then StampOf(b).start else StampOf(a).start)
            && StampOf(e).end == (if StampOf(a).end < StampOf(b).end then StampOf(b).end else StampOf(a).end)
            && e.duration == if StampOf(e).end < StampOf(e).start then 0 else StampOf(e).end - StampOf(e).start
  {
    hide Parse, IsoMin, IsoMax;
    MinIsEarlier(a.startIso, b.startIso);
    MinIsEarlier(a.endIso, b.endIso);
  }

  /** Envelopes merge commutatively, with the unstamped one as identity. */
  lemma EnvelopesCommute(a: Option<Envelope>, b: Option<Envelope>)
    requires Accepted(a) && Accepted(b)
    ensures ComposedEnvelope(a, b) == ComposedEnvelope(b, a) && Accepted(ComposedEnvelope(a, b))
    ensures ComposedEnvelope(a, None) == a == ComposedEnvelope(None, a)
  {
    hide Parse, IsoMin, IsoMax;
    if a.Some? && b.Some? {
      MinIsEarlier(a.value.startIso, b.value.startIso);
      MinIsEarlier(a.value.endIso, b.value.endIso);
    }
  }

  lemma SameInstantSameText(s: Text, t: Text)
    requires Parse(s).Some? && Parse(s) == Parse(t)
    ensures s == t
  {
    hide Parse, LexLess;
    BytesCompareAsInstants(s, t);
  }

  function Lesser(a: int, b: int): int { if b < a then b else a }

  function Greater(a: int, b: int): int { if a < b then b else a }

  /** An envelope holding these instants and their span. */
  predicate Holds(e: Envelope, start: int, end: int) {
    IsStamped(e) && StampOf(e) == Stamped(start, end) && e.duration == if end < start then 0 else end - start
  }

  lemma ComposedHolds(a: Envelope, b: Envelope, s: int, e: int, t: int, f: int)
    requires IsStamped(a) && IsStamped(b) && StampOf(a) == Stamped(s, e) && StampOf(b) == Stamped(t, f)
    ensures Holds(ComposedEnvelope(Some(a), Some(b)).value, Lesser(s, t), Greater(e, f))
  {
    EnvelopeSpansBounds(a, b);
  }

  lemma HoldsDetermines(x: Envelope, y: Envelope, start: int, end: int)
    requires Holds(x, start, end) && Holds(y, start, end)
    ensures x == y
  {
    hide Parse;
    SameInstantSameText(x.startIso, y.startIso);
    SameInstantSameText(x.endIso, y.endIso);
  }

  lemma ThreeAssociate(a: Envelope, b: Envelope, c: Envelope)
    requires IsStamped(a) && IsStamped(b) && IsStamped(c)
    ensures var ab, bc := ComposedEnvelope(Some(a), Some(b)), ComposedEnvelope(Some(b), Some(c));
            Accepted(ab) && Accepted(bc) && ComposedEnvelope(ab, Some(c)) == ComposedEnvelope(Some(a), bc)
  {
    var x, y, z := StampOf(a), StampOf(b), StampOf(c);
    ComposedHolds(a, b, x.start, x.end, y.start, y.end);
    ComposedHolds(b, c, y.start, y.end, z.start, z.end);
    var ab, bc := ComposedEnvelope(Some(a), Some(b)).value, ComposedEnvelope(Some(b), Some(c)).value;
    ComposedHolds(ab, c, Lesser(x.start, y.start), Greater(x.end, y.end), z.start, z.end);
    ComposedHolds(a, bc, x.start, x.end, Lesser(y.start, z.start), Greater(y.end, z.end));
    hide Parse, Holds;
    HoldsDetermines(ComposedEnvelope(Some(ab), Some(c)).value, ComposedEnvelope(Some(a), Some(bc)).value,
                    Lesser(Lesser(x.start, y.start), z.start), Greater(Greater(x.end, y.end), z.end));
  }

  lemma EnvelopesAssociate(a: Option<Envelope>, b: Option<Envelope>, c: Option<Envelope>)
    requires Accepted(a) && Accepted(b) && Accepted(c)
    ensures Accepted(ComposedEnvelope(a, b)) && Accepted(ComposedEnvelope(b, c))
    ensures ComposedEnvelope(ComposedEnvelope(a, b), c) == ComposedEnvelope(a, ComposedEnvelope(b, c))
  {
    EnvelopesCommute(a, b);
    EnvelopesCommute(b, c);
    hide Parse, Span, IsoMin, IsoMax;
    if a.Some? && b.Some? && c.Some? { ThreeAssociate(a.value, b.value, c.value); }
  }

  // ---------------------------------------------------------------- time order

  datatype WindowOrder = LhsEarlier | RhsEarlier | Unordered

  /** An order exists only between disjoint envelopes. */
  function OrderOf(a: Option<Envelope>, b: Option<Envelope>): WindowOrder
    requires Accepted(a) && Accepted(b)
  {
    if a.None? || b.None? then Unordered
    else
      var x, y := StampOf(a.value), StampOf(b.value);
      if x.end <= y.start && x.start < y.start then LhsEarlier
      else if y.end <= x.start && y.start < x.start then RhsEarlier
      else Unordered
  }

  function Flipped(o: WindowOrder): WindowOrder {
    match o case LhsEarlier => RhsEarlier case RhsEarlier => LhsEarlier case Unordered => Unordered
  }

  /** Swapping the operands flips the order: argument position never supplies one. */
  lemma OrderFlips(a: Option<Envelope>, b: Option<Envelope>)
    requires Accepted(a) && Accepted(b)
    ensures OrderOf(b, a) == Flipped(OrderOf(a, b))
  {
    hide Parse;
  }
}
