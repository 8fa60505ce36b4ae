/** The latency shift between two windows: durations pooled by component, and an exact Wasserstein-1 verdict. */
module Latency {
  import opened Options
  import opened Orders
  import opened Bytes
  import opened ComposeStats
  import CubeDiff

  datatype OrdinalHistogram = OrdinalHistogram(field: Text, schedule: Text, counts: seq<nat>, total: nat)

  /** The pooled durations of one component. */
  datatype Durations = Durations(counts: seq<nat>, total: nat)

  const NO_DURATIONS := Durations([], 0)

  // ---------------------------------------------------------------- pooling by component

  function CountAt(counts: seq<nat>, i: nat): nat { if i < |counts| then counts[i] else 0 }

  /** Bin by bin, the shorter histogram padded with zeros. */
  function Pooled(a: seq<nat>, b: seq<nat>): (r: seq<nat>)
    ensures |r| == Max(|a|, |b|) && forall i :: 0 <= i < |r| ==> r[i] == CountAt(a, i) + CountAt(b, i)
  {
    seq(Max(|a|, |b|), i requires 0 <= i < Max(|a|, |b|) => CountAt(a, i) + CountAt(b, i))
  }

  function At(table: map<Text, Durations>, component: Text): Durations
      { if component in table then table[component] else NO_DURATIONS }

  function AddHistogram(table: map<Text, Durations>, component: Text, h: OrdinalHistogram): map<Text, Durations> {
    table[component := Durations(Pooled(At(table, component).counts, h.counts), At(table, component).total + h.total)]
  }

  /** The duration histograms of one component, pooled into its row. */
  function AddHistograms(table: map<Text, Durations>, component: Text, list: seq<OrdinalHistogram>,
                         schedule: Text): map<Text, Durations> {
    if list == [] then table
    else
      var before, h := AddHistograms(table, component, list[..|list| - 1], schedule), list[|list| - 1];
      if h.schedule == schedule then AddHistogram(before, component, h) else before
  }

  predicate Located(e: TopKEntry) { e.component.Some? && e.component.value != [] }

  function OrdinalsAt(ordinals: seq<seq<OrdinalHistogram>>, i: nat): seq<OrdinalHistogram>
      { if i < |ordinals| then ordinals[i] else [] }

  /** The durations of every component, over the first `n` entries of top_k and their ordinal histograms. */
  function DurationsIn(entries: seq<TopKEntry>, ordinals: seq<seq<OrdinalHistogram>>, schedule: Text,
                       n: nat): map<Text, Durations>
    requires n <= |entries|
  {
    if n == 0 then map[]
    else
      var before, e := DurationsIn(entries, ordinals, schedule, n - 1), entries[n - 1];
      if Located(e) then AddHistograms(before, e.component.value, OrdinalsAt(ordinals, n - 1), schedule) else before
  }

  method Pool(a: seq<nat>, b: seq<nat>) returns (r: seq<nat>)
    ensures r == Pooled(a, b)
  {
    r := a;
    if |r| < |b| {
      r := r + seq(|b| - |r|, _ => 0);
    }
    assert forall i :: 0 <= i < |r| ==> r[i] == CountAt(a, i);
    for i := 0 to |b|
      invariant |r| == Max(|a|, |b|)
      invariant forall j :: 0 <= j < |r| ==> r[j] == CountAt(a, j) + if j < i then CountAt(b, j) else 0
    {
      r := r[i := r[i] + b[i]];
    }
  }

  method AggregateDurationByComponent(entries: seq<TopKEntry>, ordinals: seq<seq<OrdinalHistogram>>, schedule: Text)
    returns (table: map<Text, Durations>)
    ensures table == DurationsIn(entries, ordinals, schedule, |entries|)
  {
    table := map[];
    for i := 0 to |entries|
      invariant table == DurationsIn(entries, ordinals, schedule, i)
    {
      if !Located(entries[i]) {
        continue;
      }
      var component, list := entries[i].component.value, OrdinalsAt(ordinals, i);
      ghost var start := table;
      for k := 0 to |list|
        invariant table == AddHistograms(start, component, list[..k], schedule)
      {
        assert list[..k + 1][..k] == list[..k];
        if list[k].schedule != schedule {
          continue;
        }
        var row := At(table, component);
        var counts := Pool(row.counts, list[k].counts);
        table := table[component := Durations(counts, row.total + list[k].total)];
      }
      assert list[..|list|] == list;
    }
  }

  /** What one entry's histograms on the schedule hold in one bin, and in all. */
  function BinOf(list: seq<OrdinalHistogram>, schedule: Text, bin: nat): nat {
    if list == [] then 0
    else
      var h := list[|list| - 1];
      BinOf(list[..|list| - 1], schedule, bin)
      + if h.schedule == schedule && bin < |h.counts| then h.counts[bin] else 0
  }

  function SizeOn(list: seq<OrdinalHistogram>, schedule: Text): nat {
    if list == [] then 0
    else SizeOn(list[..|list| - 1], schedule)
         + if list[|list| - 1].schedule == schedule then list[|list| - 1].total else 0
  }

  /** The same over the first `n` entries that name the component. */
  function BinAt(entries: seq<TopKEntry>, ordinals: seq<seq<OrdinalHistogram>>, schedule: Text, component: Text,
                 bin: nat, n: nat): nat
    requires n <= |entries|
  {
    if n == 0 then 0
    else BinAt(entries, ordinals, schedule, component, bin, n - 1)
         + if entries[n - 1].component == Some(component) && n <= |ordinals| then BinOf(ordinals[n - 1], schedule, bin)
           else 0
  }

  function SizeAt(entries: seq<TopKEntry>, ordinals: seq<seq<OrdinalHistogram>>, schedule: Text, component: Text,
                  n: nat): nat
    requires n <= |entries|
  {
    if n == 0 then 0
    else SizeAt(entries, ordinals, schedule, component, n - 1)
         + if entries[n - 1].component == Some(component) && n <= |ordinals| then SizeOn(ordinals[n - 1], schedule)
           else 0
  }

  lemma {:induction false} HistogramsPooled(table: map<Text, Durations>, component: Text, list: seq<OrdinalHistogram>,
                                            schedule: Text, other: Text, bin: nat)
    ensures CountAt(At(AddHistograms(table, component, list, schedule), other).counts, bin)
         == CountAt(At(table, other).counts, bin) + if other == component then BinOf(list, schedule, bin) else 0
    ensures At(AddHistograms(table, component, list, schedule), other).total
         == At(table, other).total + if other == component then SizeOn(list, schedule) else 0
  {
    if list != [] { HistogramsPooled(table, component, list[..|list| - 1], schedule, other, bin); }
  }

  /** A component's pooled durations hold, bin by bin and in all, what the histograms on the schedule hold that belong
      to the entries naming that component. */
  lemma {:induction false} DurationsArePooled(entries: seq<TopKEntry>, ordinals: seq<seq<OrdinalHistogram>>,
                                              schedule: Text, component: Text, bin: nat, n: nat)
    requires n <= |entries| && component != []
    ensures var row := At(DurationsIn(entries, ordinals, schedule, n), component);
            && CountAt(row.counts, bin) == BinAt(entries, ordinals, schedule, component, bin, n)
            && row.total == SizeAt(entries, ordinals, schedule, component, n)
  {
    if n > 0 {
      DurationsArePooled(entries, ordinals, schedule, component, bin, n - 1);
      if Located(entries[n - 1]) {
        HistogramsPooled(DurationsIn(entries, ordinals, schedule, n - 1), entries[n - 1].component.value,
                         OrdinalsAt(ordinals, n - 1), schedule, component, bin);
      }
    }
  }

  // ---------------------------------------------------------------- the Wasserstein-1 verdict

  /** What the first `n` bins hold together. */
  function Cumulative(counts: seq<nat>, n: nat): nat
    requires n <= |counts|
  {
    if n == 0 then 0 else Cumulative(counts, n - 1) + counts[n - 1]
  }

  /** One bin's gap between the two cumulative shares, over the common denominator. */
  function Gap(a: seq<nat>, b: seq<nat>, aTotal: nat, bTotal: nat, i: nat): int
    requires i < |a| && i < |b|
  {
    Cumulative(b, i + 1) * aTotal - Cumulative(a, i + 1) * bTotal
  }

  function Moved(a: seq<nat>, b: seq<nat>, aTotal: nat, bTotal: nat, n: nat): int
    requires n <= |a| && n <= |b|
  {
    if n == 0 then 0 else Moved(a, b, aTotal, bTotal, n - 1) + Gap(a, b, aTotal, bTotal, n - 1)
  }

  /** The distance itself, times the product of the totals. */
  function Distance(a: seq<nat>, b: seq<nat>, aTotal: nat, bTotal: nat, n: nat): nat
    requires n <= |a| && n <= |b|
  {
    if n == 0 then 0 else Distance(a, b, aTotal, bTotal, n - 1) + Magnitude(Gap(a, b, aTotal, bTotal, n - 1))
  }

  /** Five octaves, two, and half of one, by cross-multiplying. */
  function SizeOf(distance: nat, denominator: nat): CubeDiff.ShiftSize {
    if distance >= 5 * denominator then CubeDiff.High
    else if distance >= 2 * denominator then CubeDiff.Med
    else if distance * 2 >= denominator then CubeDiff.Low
    else CubeDiff.Unshifted
  }

  /** Mass moved towards longer durations lowers the cumulative shares. */
  function DirectionOf(moved: int): CubeDiff.Direction {
    if moved < 0 then CubeDiff.Up else if moved > 0 then CubeDiff.Down else CubeDiff.NoDirection
  }

  const NO_DRIFT := CubeDiff.Drift(CubeDiff.Unshifted, CubeDiff.NoDirection)

  function OrdinalW1(a: seq<nat>, b: seq<nat>, aTotal: nat, bTotal: nat): CubeDiff.Drift {
    if aTotal == 0 || bTotal == 0 then NO_DRIFT
    else
      var n := Min(|a|, |b|);
      CubeDiff.Drift(SizeOf(Distance(a, b, aTotal, bTotal, n), aTotal * bTotal),
                     DirectionOf(Moved(a, b, aTotal, bTotal, n)))
  }

  method ComputeOrdinalW1(a: seq<nat>, b: seq<nat>, aTotal: nat, bTotal: nat) returns (drift: CubeDiff.Drift)
    ensures drift == OrdinalW1(a, b, aTotal, bTotal)
  {
    if aTotal == 0 || bTotal == 0 {
      return NO_DRIFT;
    }
    var n := Min(|a|, |b|);
    var distance, moved, cumA, cumB := 0, 0, 0, 0;
    for i := 0 to n
      invariant cumA == Cumulative(a, i) && cumB == Cumulative(b, i)
      invariant distance == Distance(a, b, aTotal, bTotal, i) && moved == Moved(a, b, aTotal, bTotal, i)
    {
      cumA, cumB := cumA + a[i], cumB + b[i];
      var signed: int := cumB * aTotal - cumA * bTotal;
      assert signed == Gap(a, b, aTotal, bTotal, i);
      moved := moved + signed;
      distance := distance + if signed >= 0 then signed else -signed;
    }
    return CubeDiff.Drift(SizeOf(distance, aTotal * bTotal), DirectionOf(moved));
  }

  function Turned(direction: CubeDiff.Direction): CubeDiff.Direction {
    match direction case Up => CubeDiff.Down case Down => CubeDiff.Up case NoDirection => CubeDiff.NoDirection
  }

  lemma {:induction false} GapsTurn(a: seq<nat>, b: seq<nat>, aTotal: nat, bTotal: nat, n: nat)
    requires n <= |a| && n <= |b|
    ensures Moved(b, a, bTotal, aTotal, n) == -Moved(a, b, aTotal, bTotal, n)
    ensures Distance(b, a, bTotal, aTotal, n) == Distance(a, b, aTotal, bTotal, n)
  {
    if n > 0 {
      GapsTurn(a, b, aTotal, bTotal, n - 1);
      assert Gap(b, a, bTotal, aTotal, n - 1) == -Gap(a, b, aTotal, bTotal, n - 1);
    }
  }

  lemma {:induction false} NoGaps(a: seq<nat>, total: nat, n: nat)
    requires n <= |a|
    ensures Moved(a, a, total, total, n) == 0 && Distance(a, a, total, total, n) == 0
  {
    if n > 0 { NoGaps(a, total, n - 1); }
  }

  /** The verdict is symmetric in size and turns its direction; a histogram has not moved from itself. */
  lemma VerdictTurns(a: seq<nat>, b: seq<nat>, aTotal: nat, bTotal: nat)
    ensures OrdinalW1(b, a, bTotal, aTotal)
        == CubeDiff.Drift(OrdinalW1(a, b, aTotal, bTotal).size, Turned(OrdinalW1(a, b, aTotal, bTotal).direction))
    ensures OrdinalW1(a, a, aTotal, aTotal) == NO_DRIFT
  {
    GapsTurn(a, b, aTotal, bTotal, Min(|a|, |b|));
    NoGaps(a, aTotal, |a|);
    ProductsAgree(aTotal, bTotal);
    if aTotal > 0 { ProductsAgree(aTotal, aTotal); }
    hide Distance, Moved;
  }

  lemma ProductsAgree(x: nat, y: nat)
    ensures x * y == y * x && (x > 0 && y > 0 ==> x * y > 0)
  {}

  // ---------------------------------------------------------------- what the verdict means

  /** The bins weighed by what they hold. */
  function Weighed(counts: seq<nat>, n: nat): nat
    requires n <= |counts|
  {
    if n == 0 then 0 else Weighed(counts, n - 1) + (n - 1) * counts[n - 1]
  }

  function CumulativeSum(counts: seq<nat>, n: nat): nat
    requires n <= |counts|
  {
    if n == 0 then 0 else CumulativeSum(counts, n - 1) + Cumulative(counts, n)
  }

  /** Every bin is counted once for each place at or after its own. */
  lemma {:induction false} CumulativeWeighs(counts: seq<nat>, n: nat)
    requires n <= |counts|
    ensures CumulativeSum(counts, n) + Weighed(counts, n) == n * Cumulative(counts, n)
  {
    if n > 0 {
      CumulativeWeighs(counts, n - 1);
      WeighStep(n - 1, Cumulative(counts, n - 1), counts[n - 1]);
    }
  }

  lemma WeighStep(n: nat, total: nat, count: nat)
    ensures n * total + total + count + n * count == (n + 1) * (total + count)
  {}

  lemma {:induction false} MovedIsSums(a: seq<nat>, b: seq<nat>, aTotal: nat, bTotal: nat, n: nat)
    requires n <= |a| && n <= |b|
    ensures Moved(a, b, aTotal, bTotal, n) == CumulativeSum(b, n) * aTotal - CumulativeSum(a, n) * bTotal
  {
    if n > 0 {
      MovedIsSums(a, b, aTotal, bTotal, n - 1);
      DistributeGap(CumulativeSum(b, n - 1), Cumulative(b, n), aTotal);
      DistributeGap(CumulativeSum(a, n - 1), Cumulative(a, n), bTotal);
    }
  }

  lemma DistributeGap(x: nat, y: nat, total: nat)
    ensures (x + y) * total == x * total + y * total
  {}

  lemma MomentsDecide(n: nat, aTotal: nat, bTotal: nat, aSum: nat, bSum: nat, aWeighed: nat, bWeighed: nat)
    requires aSum + aWeighed == n * aTotal && bSum + bWeighed == n * bTotal
    ensures bSum * aTotal - aSum * bTotal == aWeighed * bTotal - bWeighed * aTotal
  {
    calc {
      bSum * aTotal - aSum * bTotal;
      (n * bTotal - bWeighed) * aTotal - (n * aTotal - aWeighed) * bTotal;
      n * bTotal * aTotal - bWeighed * aTotal - (n * aTotal * bTotal - aWeighed * bTotal);
      aWeighed * bTotal - bWeighed * aTotal;
    }
  }

  /** The drift is upwards exactly when the mean bin of the later durations is the higher one, and downwards when it is
      the lower one. */
  lemma DirectionIsOfMeans(a: seq<nat>, b: seq<nat>, aTotal: nat, bTotal: nat)
    requires |a| == |b| && aTotal > 0 && bTotal > 0
    requires Cumulative(a, |a|) == aTotal && Cumulative(b, |b|) == bTotal
    ensures var was, now := Weighed(a, |a|) as real / aTotal as real, Weighed(b, |b|) as real / bTotal as real;
            && (OrdinalW1(a, b, aTotal, bTotal).direction == CubeDiff.Up <==> now > was)
            && (OrdinalW1(a, b, aTotal, bTotal).direction == CubeDiff.Down <==> now < was)
  {
    var n := |a|;
    CumulativeWeighs(a, n);
    CumulativeWeighs(b, n);
    MovedIsSums(a, b, aTotal, bTotal, n);
    MomentsDecide(n, aTotal, bTotal, CumulativeSum(a, n), CumulativeSum(b, n), Weighed(a, n), Weighed(b, n));
    hide Distance, Moved, Weighed, CumulativeSum, Cumulative;
    MeansCompare(Weighed(a, n), aTotal, Weighed(b, n), bTotal);
  }

  lemma MeansCompare(x: nat, xTotal: nat, y: nat, yTotal: nat)
    requires xTotal > 0 && yTotal > 0
    ensures y as real / yTotal as real > x as real / xTotal as real <==> x * yTotal < y * xTotal
    ensures y as real / yTotal as real < x as real / xTotal as real <==> x * yTotal > y * xTotal
  {
    var p, q := x as real / xTotal as real, y as real / yTotal as real;
    assert x as real == p * xTotal as real && y as real == q * yTotal as real;
    var z := xTotal as real * yTotal as real;
    assert (x * yTotal) as real == p * z && (y * xTotal) as real == q * z;
    if p < q { MeansOrdered(p, q, z); }
    if q < p { MeansOrdered(q, p, z); }
  }

  lemma MeansOrdered(p: real, q: real, z: real)
    requires p < q && z > 0.0
    ensures p * z < q * z
  {}

  /** The drift is sized by the distance between the two: high from five bins, medium from two, low from a half. */
  lemma SizeIsOfDistance(a: seq<nat>, b: seq<nat>, aTotal: nat, bTotal: nat)
    requires aTotal > 0 && bTotal > 0
    ensures var w1 := Distance(a, b, aTotal, bTotal, Min(|a|, |b|)) as real / (aTotal * bTotal) as real;
            var size := OrdinalW1(a, b, aTotal, bTotal).size;
            && (size == CubeDiff.High <==> w1 >= 5.0) && (size == CubeDiff.Med <==> 5.0 > w1 >= 2.0)
            && (size == CubeDiff.Low <==> 2.0 > w1 >= 0.5) && (size == CubeDiff.Unshifted <==> w1 < 0.5)
  {
    ProductsAgree(aTotal, bTotal);
    var n, product := Min(|a|, |b|), aTotal * bTotal;
    hide Distance, Moved, SizeOf, DirectionOf;
    SizeOfRatio(Distance(a, b, aTotal, bTotal, n), product);
  }

  lemma SizeOfRatio(distance: nat, denominator: nat)
    requires denominator > 0
    ensures var w1, size := distance as real / denominator as real, SizeOf(distance, denominator);
            && (size == CubeDiff.High <==> w1 >= 5.0) && (size == CubeDiff.Med <==> 5.0 > w1 >= 2.0)
            && (size == CubeDiff.Low <==> 2.0 > w1 >= 0.5) && (size == CubeDiff.Unshifted <==> w1 < 0.5)
  {
    var x, z := distance as real, denominator as real;
    AtLeast(x, z, 5.0);
    AtLeast(x, z, 2.0);
    AtLeast(x, z, 0.5);
  }

  lemma AtLeast(x: real, z: real, bins: real)
    requires z > 0.0
    ensures x / z >= bins <==> x >= bins * z
  {
    var w1 := x / z;
    assert x == w1 * z;
    if w1 >= bins { Scale(bins, w1, z); } else { MeansOrdered(w1, bins, z); }
  }

  lemma Scale(x: real, y: real, z: real)
    requires x <= y && z > 0.0
    ensures x * z <= y * z
  {}

  /** All of `count` in one bin. */
  ghost predicate InOneBin(counts: seq<nat>, bin: nat, count: nat) {
    bin < |counts| && forall i :: 0 <= i < |counts| ==> counts[i] == if i == bin then count else 0
  }

  lemma {:induction false} OneBinCumulative(counts: seq<nat>, bin: nat, count: nat, n: nat)
    requires InOneBin(counts, bin, count) && n <= |counts|
    ensures Cumulative(counts, n) == if bin < n then count else 0
  {
    if n > 0 { OneBinCumulative(counts, bin, count, n - 1); }
  }

  lemma {:induction false} OneBinDistance(a: seq<nat>, b: seq<nat>, i: nat, j: nat, x: nat, y: nat, n: nat)
    requires InOneBin(a, i, x) && InOneBin(b, j, y) && n <= |a| && n <= |b|
    ensures var low, high := Min(i, j), Max(i, j);
            Distance(a, b, x, y, n) == (if n <= low then 0 else if n <= high then n - low else high - low) * (x * y)
  {
    if n > 0 {
      OneBinDistance(a, b, i, j, x, y, n - 1);
      OneBinCumulative(a, i, x, n);
      OneBinCumulative(b, j, y, n);
      ProductsAgree(x, y);
    }
  }

  /** Durations that all lie in one bin and then all lie in another have moved by the bins between the two: unshifted
      where they stay, low by one, medium from two, high from five, upwards to the longer. */
  lemma OneBinShift(a: seq<nat>, b: seq<nat>, i: nat, j: nat, x: nat, y: nat)
    requires |a| == |b| && InOneBin(a, i, x) && InOneBin(b, j, y) && x > 0 && y > 0
    ensures var drift, bins := OrdinalW1(a, b, x, y), if i < j then j - i else i - j;
            && drift.size == (if bins >= 5 then CubeDiff.High else if bins >= 2 then CubeDiff.Med
                              else if bins == 1 then CubeDiff.Low else CubeDiff.Unshifted)
            && drift.direction == if i < j then CubeDiff.Up else if j < i then CubeDiff.Down else CubeDiff.NoDirection
  {
    OneBinDistance(a, b, i, j, x, y, |a|);
    OneBinCumulative(a, i, x, |a|);
    OneBinCumulative(b, j, y, |b|);
    OneBinWeighed(a, i, x, |a|);
    OneBinWeighed(b, j, y, |b|);
    SizeIsOfDistance(a, b, x, y);
    DirectionIsOfMeans(a, b, x, y);
    hide Distance, Moved, Weighed, Cumulative, OrdinalW1;
    OneMean(i, x);
    OneMean(j, y);
    BinsApart(if i < j then j - i else i - j, x, y);
  }

  lemma {:induction false} OneBinWeighed(counts: seq<nat>, bin: nat, count: nat, n: nat)
    requires InOneBin(counts, bin, count) && n <= |counts|
    ensures Weighed(counts, n) == if bin < n then bin * count else 0
  {
    if n > 0 { OneBinWeighed(counts, bin, count, n - 1); }
  }

  lemma OneMean(bin: nat, count: nat)
    requires count > 0
    ensures (bin * count) as real / count as real == bin as real
  {
    assert (bin * count) as real == bin as real * count as real;
  }

  lemma BinsApart(bins: nat, x: nat, y: nat)
    requires x > 0 && y > 0
    ensures x * y > 0 && (bins * (x * y)) as real / (x * y) as real == bins as real
  {
    ProductsAgree(x, y);
    OneMean(bins, x * y);
  }

  // ---------------------------------------------------------------- the shift map

  /** Below this many paired events the axis is inadmissible and the component stays unshifted. */
  const SHIFT_SAMPLE_FLOOR := 32

  function DriftOf(prev: Durations, cur: Durations): CubeDiff.Drift
      { OrdinalW1(prev.counts, cur.counts, prev.total, cur.total) }

  predicate Shifted(prev: Durations, cur: Durations) {
    && Min(prev.total, cur.total) >= SHIFT_SAMPLE_FLOOR
    && DriftOf(prev, cur).size != CubeDiff.Unshifted && DriftOf(prev, cur).direction != CubeDiff.NoDirection
  }

  /** Components timed on both sides often enough, whose durations moved one way. */
  function ShiftsBetween(prev: map<Text, Durations>, cur: map<Text, Durations>): map<Text, CubeDiff.Drift> {
    map component | component in cur && component in prev
        && Shifted(prev[component], cur[component]) :: DriftOf(prev[component], cur[component])
  }

  /** A component shifts exactly when both sides time it thirty-two times or more and its durations moved one way. */
  lemma ShiftedExactly(prev: map<Text, Durations>, cur: map<Text, Durations>, component: Text)
    ensures component in ShiftsBetween(prev, cur)
       <==> && component in prev && prev[component].total >= 32 && component in cur && cur[component].total >= 32
            && var p, c := prev[component], cur[component];
               && OrdinalW1(p.counts, c.counts, p.total, c.total).size != CubeDiff.Unshifted
               && OrdinalW1(p.counts, c.counts, p.total, c.total).direction != CubeDiff.NoDirection
  {
    hide OrdinalW1;
  }

  method ComponentLatencyShifts(prev: map<Text, Durations>, cur: map<Text, Durations>)
      returns (shifts: map<Text, CubeDiff.Drift>)
    ensures shifts == ShiftsBetween(prev, cur)
  {
    hide OrdinalW1;
    shifts := map[];
    var left := cur.Keys;
    while left != {}
      invariant left <= cur.Keys
      invariant shifts == map component | component in cur && component !in left && component in prev
          && Shifted(prev[component], cur[component])
                                        :: DriftOf(prev[component], cur[component])
      decreases left
    {
      var component :| component in left;
      left := left - {component};
      if component !in prev || Min(prev[component].total, cur[component].total) < SHIFT_SAMPLE_FLOOR {
        continue;
      }
      var drift := ComputeOrdinalW1(prev[component].counts, cur[component].counts, prev[component].total,
                                    cur[component].total);
      if drift.size != CubeDiff.Unshifted && drift.direction != CubeDiff.NoDirection {
        shifts := shifts[component := drift];
      }
    }
  }

  /** No component has shifted from itself. */
  lemma SelfShifts(table: map<Text, Durations>)
    ensures ShiftsBetween(table, table) == map[]
  {
    hide OrdinalW1;
    forall component | component in table ensures !Shifted(table[component], table[component]) {
      VerdictTurns(table[component].counts, table[component].counts, table[component].total, table[component].total);
    }
  }

  /** Seen from the other side the same components shifted by as much, the other way. */
  lemma ShiftsTurn(prev: map<Text, Durations>, cur: map<Text, Durations>)
    ensures ShiftsBetween(cur, prev).Keys == ShiftsBetween(prev, cur).Keys
    ensures forall c :: c in ShiftsBetween(prev, cur) ==>
              ShiftsBetween(cur, prev)[c] == CubeDiff.Drift(ShiftsBetween(prev, cur)[c].size,
                                                            Turned(ShiftsBetween(prev, cur)[c].direction))
  {
    hide OrdinalW1;
    forall c | c in cur && c in prev
      ensures DriftOf(cur[c], prev[c])
          == CubeDiff.Drift(DriftOf(prev[c], cur[c]).size, Turned(DriftOf(prev[c], cur[c]).direction))
      ensures Shifted(prev[c], cur[c]) <==> Shifted(cur[c], prev[c])
    {
      VerdictTurns(prev[c].counts, cur[c].counts, prev[c].total, cur[c].total);
    }
  }
}
