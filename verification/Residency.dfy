/** Bounded trace rings: a trace's records fall into stays, one for each time it is admitted, and only the records of
    one stay form n-grams together. */
module Residency {
  import opened Options
  import opened Orders
  import opened Streams

  /** The `number`th stay of a stream among the live rings; the global stream has one, which never ends. */
  datatype Stay = Stay(stream: Stream, number: nat)

  type History = seq<Observation<Stream>>

  /** The live traces, oldest first, after a record of one of them; at the bound a new one evicts the oldest. */
  function LiveWith(live: seq<TraceId>, bound: nat, t: TraceId): seq<TraceId> {
    if t in live then live
    else if bound > 0 && |live| >= bound && live != [] then live[1..] + [t]
    else live + [t]
  }

  function LiveAfter(live: seq<TraceId>, bound: nat, o: Observation<Stream>): seq<TraceId> {
    if o.stream.Some? && o.stream.value.Trace? then LiveWith(live, bound, o.stream.value.id) else live
  }

  function Live(history: History, bound: nat): seq<TraceId> {
    if history == [] then []
    else LiveAfter(Live(history[..|history| - 1], bound), bound, history[|history| - 1])
  }

  /** How often a trace was admitted, and how often it was evicted. */
  function Admissions(history: History, bound: nat, t: TraceId): nat {
    if history == [] then 0
    else
      var front, last := history[..|history| - 1], history[|history| - 1];
      Admissions(front, bound, t) + if last.stream == Some(Trace(t)) && t !in Live(front, bound) then 1 else 0
  }

  function Evictions(history: History, bound: nat, t: TraceId): nat {
    if history == [] then 0
    else
      var front := history[..|history| - 1];
      Evictions(front, bound, t) + if t in Live(front, bound) && t !in Live(history, bound) then 1 else 0
  }

  function LatestStay(history: History, bound: nat, s: Stream): (stay: Stay)
    ensures stay.stream == s
  {
    match s
    case Global => Stay(s, 0)
    case Trace(t) => Stay(s, Admissions(history, bound, t))
  }

  /** The history with every record put under the stay it falls in. */
  function Resident(history: History, bound: nat): (r: seq<Observation<Stay>>) {
    if history == [] then []
    else
      var front, last := history[..|history| - 1], history[|history| - 1];
      Resident(front, bound) + [Observation(if last.stream.None? then None
                                            else Some(LatestStay(history, bound, last.stream.value)), last.id)]
  }

  lemma {:induction false} ResidentIds(history: History, bound: nat, m: nat)
    requires IdsBelow(history, m)
    ensures IdsBelow(Resident(history, bound), m)
  {
    if history != [] {
      var front, last := history[..|history| - 1], history[|history| - 1];
      assert forall o :: o in front ==> o in history;
      assert last in history;
      ResidentIds(front, bound, m);
    }
  }

  // ---------------------------------------------------------------- one record more

  lemma LiveDistinct(history: History, bound: nat)
    ensures NoDuplicates(Live(history, bound)) && (bound > 0 ==> |Live(history, bound)| <= bound)
  {
    if history != [] { LiveDistinct(history[..|history| - 1], bound); }
  }

  lemma HistorySnoc(history: History, o: Observation<Stream>, bound: nat)
    ensures Live(history + [o], bound) == LiveAfter(Live(history, bound), bound, o)
    ensures forall t ::
      Admissions(history + [o], bound, t)
      == Admissions(history, bound, t) + (if o.stream == Some(Trace(t)) && t !in Live(history, bound) then 1 else 0)
    ensures forall t ::
      Evictions(history + [o], bound, t)
      == Evictions(history, bound, t)
         + (if t in Live(history, bound) && t !in Live(history + [o], bound) then 1 else 0)
  {
    assert (history + [o])[..|history|] == history;
  }

  lemma ResidentSnoc(history: History, o: Observation<Stream>, bound: nat)
    ensures Resident(history + [o], bound) == Resident(history, bound)
        + [Observation(if o.stream.None? then None else Some(LatestStay(history + [o], bound, o.stream.value)), o.id)]
  {
    assert (history + [o])[..|history|] == history;
  }

  /** A stay other than the record's own is left as it was. */
  lemma StaySnoc(history: History, o: Observation<Stream>, bound: nat, stay: Stay)
    ensures StreamOf(Resident(history + [o], bound), stay)
        == if o.stream == Some(stay.stream) && stay == LatestStay(history + [o], bound, stay.stream)
           then StreamOf(Resident(history, bound), stay) + [o.id] else StreamOf(Resident(history, bound), stay)
  {
    hide Resident, LatestStay, StreamOf;
    ResidentSnoc(history, o, bound);
    var latest := if o.stream.None? then None else Some(LatestStay(history + [o], bound, o.stream.value));
    StreamSnoc(Resident(history, bound), Observation(latest, o.id), stay);
  }

  /** A stay that has not begun holds nothing; traces are admitted before their first record. */
  lemma {:induction false} NotBegun(history: History, bound: nat, stay: Stay)
    requires stay.number > LatestStay(history, bound, stay.stream).number || (stay.stream.Trace? && stay.number == 0)
    ensures StreamOf(Resident(history, bound), stay) == []
  {
    if history != [] {
      var front, last := history[..|history| - 1], history[|history| - 1];
      assert history == front + [last];
      HistorySnoc(front, last, bound);
      NotBegun(front, bound, stay);
      StaySnoc(front, last, bound, stay);
      if last.stream == Some(stay.stream) && stay.stream.Trace? { Begun(front, last, bound, stay.stream.id); }
    }
  }

  lemma Begun(front: History, last: Observation<Stream>, bound: nat, t: TraceId)
    requires last.stream == Some(Trace(t))
    ensures Admissions(front + [last], bound, t) > 0
  {
    HistorySnoc(front, last, bound);
    LiveIsAdmitted(front, bound, t);
  }

  /** A trace is live after as many admissions as evictions and one more. */
  lemma {:induction false} LiveIsAdmitted(history: History, bound: nat, t: TraceId)
    ensures Admissions(history, bound, t)
        == Evictions(history, bound, t) + if t in Live(history, bound) then 1 else 0
  {
    if history != [] {
      var front, last := history[..|history| - 1], history[|history| - 1];
      assert history == front + [last];
      LiveIsAdmitted(front, bound, t);
      HistorySnoc(front, last, bound);
      LiveDistinct(front, bound);
    }
  }

  /** The records of a stream's present stay, and those its next record goes on from. */
  function Present(history: History, bound: nat, s: Stream): seq<InternalId> {
    StreamOf(Resident(history, bound), LatestStay(history, bound, s))
  }

  function Resumed(history: History, bound: nat, s: Stream): seq<InternalId> {
    if s.Trace? && s.id !in Live(history, bound) then [] else Present(history, bound, s)
  }

  lemma LatestSnoc(history: History, o: Observation<Stream>, bound: nat, s: Stream)
    ensures var before, after := LatestStay(history, bound, s), LatestStay(history + [o], bound, s);
            && (o.stream != Some(s) || s.Global? || s.id in Live(history, bound) ==> after == before)
            && (o.stream == Some(s) && s.Trace? && s.id !in Live(history, bound) ==> after.number == before.number + 1)
  {
    HistorySnoc(history, o, bound);
  }

  /** The next record of a stream goes on from its present stay while it is live, and begins another when not. */
  lemma NextStay(history: History, o: Observation<Stream>, bound: nat, s: Stream)
    requires o.stream == Some(s)
    ensures StreamOf(Resident(history, bound), LatestStay(history + [o], bound, s)) == Resumed(history, bound, s)
  {
    LatestSnoc(history, o, bound, s);
    hide Resident, StreamOf, LatestStay;
    if s.Trace? && s.id !in Live(history, bound) { NotBegun(history, bound, LatestStay(history + [o], bound, s)); }
  }

  lemma PresentSnoc(history: History, o: Observation<Stream>, bound: nat, s: Stream)
    ensures Present(history + [o], bound, s)
        == if o.stream == Some(s) then Resumed(history, bound, s) + [o.id] else Present(history, bound, s)
  {
    LatestSnoc(history, o, bound, s);
    hide Resident, StreamOf, LatestStay;
    if o.stream == Some(s) { NextStay(history, o, bound, s); }
    StaySnoc(history, o, bound, LatestStay(history + [o], bound, s));
  }

  // ---------------------------------------------------------------- stays are segments

  /** The stays of a stream up to one, put after one another. */
  function Joined(r: seq<Observation<Stay>>, s: Stream, number: nat): seq<InternalId> {
    if number == 0 then StreamOf(r, Stay(s, 0)) else Joined(r, s, number - 1) + StreamOf(r, Stay(s, number))
  }

  lemma {:induction false} JoinedSame(r: seq<Observation<Stay>>, r': seq<Observation<Stay>>, s: Stream, number: nat)
    requires forall k :: 0 <= k <= number ==> StreamOf(r', Stay(s, k)) == StreamOf(r, Stay(s, k))
    ensures Joined(r', s, number) == Joined(r, s, number)
  {
    if number > 0 { JoinedSame(r, r', s, number - 1); }
  }

  /** One id more in the last of some stays, which may only begin with it. */
  lemma JoinedGrows(r: seq<Observation<Stay>>, r': seq<Observation<Stay>>, s: Stream, before: nat, number: nat,
                    id: InternalId)
    requires before <= number <= before + 1
    requires forall k :: 0 <= k < number ==> StreamOf(r', Stay(s, k)) == StreamOf(r, Stay(s, k))
    requires StreamOf(r', Stay(s, number)) == StreamOf(r, Stay(s, number)) + [id]
    requires number > before ==> StreamOf(r, Stay(s, number)) == []
    ensures Joined(r', s, number) == Joined(r, s, before) + [id]
  {
    hide StreamOf;
    if number > 0 { JoinedSame(r, r', s, number - 1); }
  }

  /** The stays of a stream are consecutive segments of its own records, and all of them. */
  lemma {:induction false} StaysAreSegments(history: History, bound: nat, s: Stream)
    ensures StreamOf(history, s) == Joined(Resident(history, bound), s, LatestStay(history, bound, s).number)
  {
    if history != [] {
      var front, last := history[..|history| - 1], history[|history| - 1];
      assert history == front + [last];
      StaysAreSegments(front, bound, s);
      JoinedSnoc(front, last, bound, s);
      StreamSnoc(front, last, s);
    }
  }

  lemma JoinedSnoc(history: History, o: Observation<Stream>, bound: nat, s: Stream)
    ensures Joined(Resident(history + [o], bound), s, LatestStay(history + [o], bound, s).number)
        == Joined(Resident(history, bound), s, LatestStay(history, bound, s).number)
           + if o.stream == Some(s) then [o.id] else []
  {
    hide Resident, StreamOf, LatestStay, Joined, Live;
    var r, r', before, latest := Resident(history, bound), Resident(history + [o], bound),
        LatestStay(history, bound, s), LatestStay(history + [o], bound, s);
    LatestSnoc(history, o, bound, s);
    forall k | 0 <= k <= latest.number ensures StreamOf(r', Stay(s, k))
        == if o.stream == Some(s) && Stay(s, k) == latest then StreamOf(r, Stay(s, k)) + [o.id]
           else StreamOf(r, Stay(s, k)) { StaySnoc(history, o, bound, Stay(s, k)); }
    if o.stream == Some(s) {
      if latest.number > before.number { NotBegun(history, bound, latest); }
      JoinedGrows(r, r', s, before.number, latest.number, o.id);
    } else {
      JoinedSame(r, r', s, latest.number);
    }
  }

  // ---------------------------------------------------------------- what an eviction costs

  /** The windows of a stream's stays up to one, a stay at a time. */
  function KeptWindows(r: seq<Observation<Stay>>, s: Stream, number: nat, n: nat): seq<NGramKey>
    requires n > 0
  {
    var own := Windows(StreamOf(r, Stay(s, number)), n);
    if number == 0 then own else KeptWindows(r, s, number - 1, n) + own
  }

  /** What a bounded engine keeps of a stream: the windows within its stays. */
  function Kept(history: History, bound: nat, s: Stream, n: nat): seq<NGramKey>
    requires n > 0
  {
    KeptWindows(Resident(history, bound), s, LatestStay(history, bound, s).number, n)
  }

  /** Cutting a sequence in two loses the windows across the cut, fewer than a window is long. */
  lemma WindowsOfJoin(a: seq<InternalId>, b: seq<InternalId>, n: nat) returns (lost: seq<NGramKey>)
    requires n > 0
    ensures Windows(a + b, n) == Windows(a, n) + lost + Windows(b, n)
    ensures |lost| <= n - 1 && (a == [] ==> lost == [])
  {
    var all, left, right := Windows(a + b, n), Windows(a, n), Windows(b, n);
    lost := all[|left|..|all| - |right|];
    forall i | 0 <= i < |left| ensures all[i] == left[i] {
      assert (a + b)[i..i + n] == a[i..i + n];
    }
    forall i | 0 <= i < |right| ensures all[|all| - |right| + i] == right[i] {
      assert (a + b)[|a| + i..|a| + i + n] == b[i..i + n];
    }
    assert all == left + lost + right;
  }

  /** Most of `all` was kept: some of it, and all but `loss` of it. */
  ghost predicate KeptMost(kept: seq<NGramKey>, all: seq<NGramKey>, loss: nat) {
    multiset(kept) <= multiset(all) && |all| <= |kept| + loss
  }

  lemma MoreKept(kept: seq<NGramKey>, all: seq<NGramKey>, lost: seq<NGramKey>, own: seq<NGramKey>, loss: nat)
    requires KeptMost(kept, all, loss)
    ensures KeptMost(kept + own, all + lost + own, loss + |lost|)
  {}

  lemma NothingLost(all: seq<NGramKey>, own: seq<NGramKey>)
    ensures all + [] + own == all + own
  {}

  /** At most `n` - 1 windows for every stay but the first. */
  function Loss(number: nat, n: nat): nat
    requires n > 0
  {
    if number <= 1 then 0 else Loss(number - 1, n) + (n - 1)
  }

  /** Stays form only windows of the whole, and lose at most `n` - 1 of them where one stay follows another. */
  lemma {:induction false} JoinedWindows(r: seq<Observation<Stay>>, s: Stream, number: nat, n: nat)
    requires n > 0 && (number > 0 ==> StreamOf(r, Stay(s, 0)) == [])
    ensures var kept, all := KeptWindows(r, s, number, n), Windows(Joined(r, s, number), n);
            KeptMost(kept, all, Loss(number, n)) && (number <= 1 ==> kept == all)
  {
    hide Windows, StreamOf;
    if number == 0 {
    } else {
      var before, own := Joined(r, s, number - 1), StreamOf(r, Stay(s, number));
      JoinedWindows(r, s, number - 1, n);
      var lost := WindowsOfJoin(before, own, n);
      var kept, all := KeptWindows(r, s, number - 1, n), Windows(before, n);
      hide KeptMost;
      MoreKept(kept, all, lost, Windows(own, n), Loss(number - 1, n));
      NothingLost(all, Windows(own, n));
      LessKept(KeptWindows(r, s, number, n), Windows(Joined(r, s, number), n), Loss(number - 1, n) + |lost|,
               Loss(number, n));
    }
  }

  lemma LessKept(kept: seq<NGramKey>, all: seq<NGramKey>, loss: nat, more: nat)
    requires KeptMost(kept, all, loss) && loss <= more
    ensures KeptMost(kept, all, more)
  {}

  lemma {:induction false} LossWithin(number: nat, n: nat, evictions: nat)
    requires n > 0 && number <= evictions + 1
    ensures Loss(number, n) <= (n - 1) * evictions
  {
    if number > 1 {
      LossWithin(number - 1, n, evictions - 1);
      assert (n - 1) * evictions == (n - 1) * (evictions - 1) + (n - 1);
    }
  }

  /** A trace forms only n-grams of its own records, and every eviction costs it at most `n` - 1 of them. */
  lemma EvictionCosts(history: History, bound: nat, t: TraceId, n: nat)
    requires n > 0
    ensures var kept, all := Kept(history, bound, Trace(t), n), Windows(StreamOf(history, Trace(t)), n);
            && multiset(kept) <= multiset(all)
            && |all| - |kept| <= (n - 1) * Evictions(history, bound, t)
            && (Evictions(history, bound, t) == 0 ==> kept == all)
  {
    var r, number := Resident(history, bound), Admissions(history, bound, t);
    hide Windows, StreamOf, Resident;
    StaysAreSegments(history, bound, Trace(t));
    NotBegun(history, bound, Stay(Trace(t), 0));
    JoinedWindows(r, Trace(t), number, n);
    LiveIsAdmitted(history, bound, t);
    LossWithin(number, n, Evictions(history, bound, t));
  }

  /** The global stream is never evicted and loses nothing. */
  lemma GlobalKeepsAll(history: History, bound: nat, n: nat)
    requires n > 0
    ensures Kept(history, bound, Global, n) == Windows(StreamOf(history, Global), n)
  {
    hide Windows, StreamOf, Resident;
    StaysAreSegments(history, bound, Global);
  }

  // ---------------------------------------------------------------- one n-gram an eviction, for bigrams only

  /** How many n-grams of its own records a trace did not form. */
  function Missed(history: History, bound: nat, t: TraceId, n: nat): int
    requires n > 0
  {
    |Windows(StreamOf(history, Trace(t)), n)| - |Kept(history, bound, Trace(t), n)|
  }

  function Record(t: TraceId, id: InternalId): Observation<Stream> { Observation(Some(Trace(t)), id) }

  /** What a bound of one leaves of trace 0: who is live, how often 0 came and went, its ids and its stays. */
  ghost predicate FirstTrace(h: History, live: TraceId, came: nat, went: nat, ids: seq<InternalId>,
                             stays: seq<seq<InternalId>>) {
    && Live(h, 1) == [live] && Admissions(h, 1, 0) == came && Evictions(h, 1, 0) == went
    && StreamOf(h, Trace(0)) == ids && |stays| == 3
    && forall k :: 0 <= k < 3 ==> StreamOf(Resident(h, 1), Stay(Trace(0), k)) == stays[k]
  }

  lemma BeforeAny(bound: nat, t: TraceId)
    ensures Live([], bound) == [] && Admissions([], bound, t) == Evictions([], bound, t) == 0
    ensures StreamOf<Stream>([], Trace(t)) == []
    ensures forall stay :: StreamOf(Resident([], bound), stay) == []
  {}

  lemma FirstRecord(id: InternalId)
    ensures FirstTrace([] + [Record(0, id)], 0, 1, 0, [id], [[], [id], []])
  {
    hide Resident, StreamOf, Live, Admissions, Evictions;
    var o := Record(0, id);
    BeforeAny(1, 0);
    HistorySnoc([], o, 1);
    StreamSnoc([], o, Trace(0));
    forall k | 0 <= k < 3 ensures StreamOf(Resident([] + [o], 1), Stay(Trace(0), k)) == if k == 1 then [id] else []
        { StaySnoc([], o, 1, Stay(Trace(0), k)); }
  }

  lemma OneRecordMore(h: History, t: TraceId, id: InternalId, live: TraceId, came: nat, went: nat,
                      ids: seq<InternalId>, stays: seq<seq<InternalId>>)
    requires FirstTrace(h, live, came, went, ids, stays) && came + (if t == 0 && live != 0 then 1 else 0) < 3
    ensures var came' := came + if t == 0 && live != 0 then 1 else 0;
            FirstTrace(h + [Record(t, id)], t, came', went + if live == 0 && t != 0 then 1 else 0,
                       if t == 0 then ids + [id] else ids,
                       if t == 0 then stays[came' := stays[came'] + [id]] else stays)
  {
    var o := Record(t, id);
    HistorySnoc(h, o, 1);
    StreamSnoc(h, o, Trace(0));
    forall k | 0 <= k < 3 ensures StreamOf(Resident(h + [o], 1), Stay(Trace(0), k))
        == if t == 0 && k == Admissions(h + [o], 1, 0)
           then StreamOf(Resident(h, 1), Stay(Trace(0), k)) + [id]
           else StreamOf(Resident(h, 1), Stay(Trace(0), k)) { StaySnoc(h, o, 1, Stay(Trace(0), k)); }
    hide Resident, StreamOf, Live, Admissions, Evictions;
  }

  /** Two records of a trace, one of another that evicts it, two more of the first: one eviction, two trigrams. */
  lemma OneEvictionTwoTrigrams() returns (h: History)
    ensures Evictions(h, 1, 0) == 1 && Missed(h, 1, 0, 3) == 2
  {
    hide FirstTrace;
    FirstRecord(0);
    h := [] + [Record(0, 0)];
    OneRecordMore(h, 0, 1, 0, 1, 0, [0], [[], [0], []]);
    assert [0] + [1] == [0, 1] && [[], [0], []][1 := [0] + [1]] == [[], [0, 1], []];
    h := h + [Record(0, 1)];
    OneRecordMore(h, 1, 2, 0, 1, 0, [0, 1], [[], [0, 1], []]);
    h := h + [Record(1, 2)];
    OneRecordMore(h, 0, 3, 1, 1, 1, [0, 1], [[], [0, 1], []]);
    assert [0, 1] + [3] == [0, 1, 3] && [] + [3] == [3] && [[], [0, 1], []][2 := [3]] == [[], [0, 1], [3]];
    h := h + [Record(0, 3)];
    OneRecordMore(h, 0, 4, 0, 2, 1, [0, 1, 3], [[], [0, 1], [3]]);
    assert [0, 1, 3] + [4] == [0, 1, 3, 4] && [3] + [4] == [3, 4];
    assert [[], [0, 1], [3]][2 := [3, 4]] == [[], [0, 1], [3, 4]];
    h := h + [Record(0, 4)];
    NoneInShortStays(h);
  }

  lemma NoneInShortStays(h: History)
    requires FirstTrace(h, 0, 2, 1, [0, 1, 3, 4], [[], [0, 1], [3, 4]])
    ensures Evictions(h, 1, 0) == 1 && Missed(h, 1, 0, 3) == 2
  {
    var r := Resident(h, 1);
    hide Resident, StreamOf;
    assert KeptWindows(r, Trace(0), 0, 3) == [];
    assert KeptWindows(r, Trace(0), 1, 3) == [];
    assert KeptWindows(r, Trace(0), 2, 3) == [];
  }

  /** An eviction costs a trace at most one n-gram if and only if n-grams are bigrams. */
  lemma OneEvictionOneNgram(n: nat)
    requires n == 2 || n == 3
    ensures n == 2 <==> forall history, bound, t :: Missed(history, bound, t, n) <= Evictions(history, bound, t)
  {
    if n == 2 {
      forall history, bound, t ensures Missed(history, bound, t, n) <= Evictions(history, bound, t) {
        EvictionCosts(history, bound, t, n);
      }
    } else {
      var h := OneEvictionTwoTrigrams();
      assert Missed(h, 1, 0, n) > Evictions(h, 1, 0);
    }
  }

  // ---------------------------------------------------------------- what is formed is what is kept

  /** What the streams keep, together. */
  ghost function KeptTogether(history: History, bound: nat, streams: seq<Stream>, n: nat): multiset<NGramKey>
    requires n > 0
  {
    if streams == [] then multiset{}
    else
      var front, s := streams[..|streams| - 1], streams[|streams| - 1];
      KeptTogether(history, bound, front, n) + KeysIn(Kept(history, bound, s, n))
  }

  lemma {:induction false} KeptSame(r: seq<Observation<Stay>>, r': seq<Observation<Stay>>, s: Stream, number: nat,
                                    n: nat)
    requires n > 0 && forall k :: 0 <= k <= number ==> StreamOf(r', Stay(s, k)) == StreamOf(r, Stay(s, k))
    ensures KeptWindows(r', s, number, n) == KeptWindows(r, s, number, n)
  {
    if number > 0 { KeptSame(r, r', s, number - 1, n); }
  }

  lemma NoWindows(n: nat)
    requires n > 0
    ensures Windows([], n) == []
  {}

  /** The n-grams one more record forms. */
  ghost function FormedNext(history: History, o: Observation<Stream>, bound: nat, n: nat): seq<NGramKey>
    requires n > 0
  {
    if o.stream.None? then [] else Completed(Resumed(history, bound, o.stream.value), o.id, n)
  }

  lemma ResidentForms(history: History, o: Observation<Stream>, bound: nat, n: nat)
    requires n > 0
    ensures Formed(Resident(history + [o], bound), n)
        == Formed(Resident(history, bound), n) + FormedNext(history, o, bound, n)
  {
    var latest := if o.stream.None? then None else Some(LatestStay(history + [o], bound, o.stream.value));
    hide Resident, Completed, StreamOf, LatestStay, Resumed;
    ResidentSnoc(history, o, bound);
    if o.stream.Some? { NextStay(history, o, bound, o.stream.value); }
    FormedSnoc(Resident(history, bound), Observation(latest, o.id), n);
  }

  /** One id more in the last of some stays. */
  lemma KeptGrows(r: seq<Observation<Stay>>, r': seq<Observation<Stay>>, s: Stream, number: nat, id: InternalId,
                  n: nat)
    requires n > 0 && forall k :: 0 <= k < number ==> StreamOf(r', Stay(s, k)) == StreamOf(r, Stay(s, k))
    requires StreamOf(r', Stay(s, number)) == StreamOf(r, Stay(s, number)) + [id]
    ensures KeptWindows(r', s, number, n)
        == KeptWindows(r, s, number, n) + Completed(StreamOf(r, Stay(s, number)), id, n)
  {
    hide StreamOf, Windows, Completed;
    WindowsSnoc(StreamOf(r, Stay(s, number)), id, n);
    if number > 0 { KeptSame(r, r', s, number - 1, n); }
  }

  lemma KeptNotBegun(history: History, bound: nat, s: Stream, number: nat, n: nat)
    requires n > 0 && LatestStay(history, bound, s).number <= number <= LatestStay(history, bound, s).number + 1
    ensures Kept(history, bound, s, n) == KeptWindows(Resident(history, bound), s, number, n)
  {
    hide Resident, LatestStay, StreamOf, Windows;
    if number > LatestStay(history, bound, s).number {
      NotBegun(history, bound, Stay(s, number));
      NoWindows(n);
    }
  }

  lemma KeptSnoc(history: History, o: Observation<Stream>, bound: nat, s: Stream, n: nat)
    requires n > 0
    ensures Kept(history + [o], bound, s, n)
        == Kept(history, bound, s, n) + if o.stream == Some(s) then FormedNext(history, o, bound, n) else []
  {
    var r, r', latest := Resident(history, bound), Resident(history + [o], bound), LatestStay(history + [o], bound, s);
    hide Resident, StreamOf, Windows, Completed, LatestStay, KeptWindows, Resumed;
    LatestSnoc(history, o, bound, s);
    KeptNotBegun(history, bound, s, latest.number, n);
    forall k | 0 <= k <= latest.number ensures StreamOf(r', Stay(s, k))
        == if o.stream == Some(s) && Stay(s, k) == latest then StreamOf(r, Stay(s, k)) + [o.id]
           else StreamOf(r, Stay(s, k)) { StaySnoc(history, o, bound, Stay(s, k)); }
    if o.stream == Some(s) {
      NextStay(history, o, bound, s);
      KeptGrows(r, r', s, latest.number, o.id, n);
    } else {
      KeptSame(r, r', s, latest.number, n);
    }
  }

  ghost function KeptNext(history: History, o: Observation<Stream>, bound: nat, streams: seq<Stream>,
                          n: nat): multiset<NGramKey>
    requires n > 0
  {
    if o.stream.Some? && o.stream.value in streams then KeysIn(FormedNext(history, o, bound, n)) else multiset{}
  }

  lemma KeysOfBoth(a: seq<NGramKey>, b: seq<NGramKey>)
    ensures KeysIn(a + b) == KeysIn(a) + KeysIn(b)
  {}

  lemma {:induction false} KeptTogetherSnoc(history: History, o: Observation<Stream>, bound: nat,
                                            streams: seq<Stream>, n: nat)
    requires n > 0 && NoDuplicates(streams)
    ensures KeptTogether(history + [o], bound, streams, n)
        == KeptTogether(history, bound, streams, n) + KeptNext(history, o, bound, streams, n)
  {
    if streams != [] {
      var front, s := streams[..|streams| - 1], streams[|streams| - 1];
      LastStream(streams);
      hide NoDuplicates, Kept, FormedNext, KeysIn;
      KeptTogetherSnoc(history, o, bound, front, n);
      KeptSnoc(history, o, bound, s, n);
      if o.stream == Some(s) { KeysOfBoth(Kept(history, bound, s, n), FormedNext(history, o, bound, n)); }
    }
  }

  lemma {:induction false} NothingKept(bound: nat, streams: seq<Stream>, n: nat)
    requires n > 0
    ensures KeptTogether([], bound, streams, n) == multiset{}
  {
    if streams != [] { NothingKept(bound, streams[..|streams| - 1], n); }
  }

  /** Over any enumeration of the streams, the stays of a history form exactly what the streams keep, together. */
  lemma {:induction false} FormedIsKept(history: History, bound: nat, streams: seq<Stream>, n: nat)
    requires n > 0 && NoDuplicates(streams) && Opened(history) <= Elements(streams)
    ensures multiset(Formed(Resident(history, bound), n)) == KeptTogether(history, bound, streams, n)
  {
    if history == [] {
      NothingKept(bound, streams, n);
    } else {
      var front, last := history[..|history| - 1], history[|history| - 1];
      assert history == front + [last];
      assert forall o :: o in front ==> o in history;
      if last.stream.Some? { assert last.stream.value in Opened(history); }
      FormedIsKept(front, bound, streams, n);
      hide Resident, Formed, FormedNext, KeptTogether;
      ResidentForms(front, last, bound, n);
      KeptTogetherSnoc(front, last, bound, streams, n);
      KeysOfBoth(Formed(Resident(front, bound), n), FormedNext(front, last, bound, n));
      if last.stream.None? { NothingNext(front, last, bound, n); }
    }
  }

  lemma NothingNext(history: History, o: Observation<Stream>, bound: nat, n: nat)
    requires n > 0 && o.stream.None?
    ensures FormedNext(history, o, bound, n) == []
  {}

  // ---------------------------------------------------------------- while the traces fit

  ghost function TracesOf(history: History): set<TraceId> {
    set o | o in history && o.stream.Some? && o.stream.value.Trace? :: o.stream.value.id
  }

  lemma TracesSnoc(history: History, o: Observation<Stream>)
    ensures TracesOf(history + [o])
        == if o.stream.Some? && o.stream.value.Trace? then TracesOf(history) + {o.stream.value.id}
           else TracesOf(history)
  {
    assert forall x :: x in history + [o] <==> x in history || x == o;
    if o.stream.Some? && o.stream.value.Trace? { assert o in history + [o]; }
  }

  lemma {:induction false} DistinctSize(s: seq<TraceId>)
    requires NoDuplicates(s)
    ensures |Elements(s)| == |s|
  {
    if s != [] {
      var front, last := s[..|s| - 1], s[|s| - 1];
      assert s == front + [last] && last !in front;
      DistinctSize(front);
      assert Elements(s) == Elements(front) + {last};
    }
  }

  /** While the traces fit the bound all of them stay live. */
  lemma {:induction false} FittingIsLive(history: History, bound: nat, t: TraceId)
    requires bound == 0 || |TracesOf(history)| <= bound
    ensures Elements(Live(history, bound)) == TracesOf(history) && Evictions(history, bound, t) == 0
  {
    if history != [] {
      var front, last := history[..|history| - 1], history[|history| - 1];
      assert history == front + [last];
      TracesSnoc(front, last);
      HistorySnoc(front, last, bound);
      LiveDistinct(front, bound);
      DistinctSize(Live(front, bound));
      hide Evictions, TracesOf, NoDuplicates, Live;
      FewerTraces(TracesOf(front), TracesOf(history));
      FittingIsLive(front, bound, t);
      AdmittedWhileRoom(Live(front, bound), bound, last);
    }
  }

  lemma FewerTraces(a: set<TraceId>, b: set<TraceId>)
    requires a <= b
    ensures |a| <= |b| && (a != b ==> |a| < |b|)
  {
    assert b == a + (b - a) && |b| == |a| + |b - a|;
    if b - a == {} { assert a == b; }
  }

  lemma AdmittedWhileRoom(live: seq<TraceId>, bound: nat, o: Observation<Stream>)
    ensures var traces := if o.stream.Some? && o.stream.value.Trace? then {o.stream.value.id} else {};
            (bound == 0 || traces <= Elements(live) || |live| < bound) ==>
              Elements(LiveAfter(live, bound, o)) == Elements(live) + traces
  {}

  /** While the traces fit the bound every stream keeps all its windows. */
  lemma {:induction false} FittingKeepsAll(history: History, bound: nat, streams: seq<Stream>, n: nat)
    requires n > 0 && (bound == 0 || |TracesOf(history)| <= bound)
    ensures KeptTogether(history, bound, streams, n) == FormedTogether(history, streams, n)
  {
    hide TracesOf, Kept, Windows, KeysIn;
    if streams != [] {
      var s := streams[|streams| - 1];
      FittingKeepsAll(history, bound, streams[..|streams| - 1], n);
      match s {
        case Global => GlobalKeepsAll(history, bound, n);
        case Trace(t) =>
          FittingIsLive(history, bound, t);
          EvictionCosts(history, bound, t, n);
      }
    }
  }
}
