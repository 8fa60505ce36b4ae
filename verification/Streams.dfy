/** Observation streams and the n-grams they form: every trace is its own stream. */
module Streams {
  import opened Options
  import opened Orders

  type InternalId = nat

  type TraceId = nat

  datatype Stream = Global | Trace(id: TraceId)

  /** One accepted record: the stream it belongs to, none for a span record, and its template. */
  datatype Observation<S> = Observation(stream: Option<S>, id: InternalId)

  type NGramKey = seq<InternalId>

  /** The templates of one stream, in observed order. */
  function StreamOf<S(==)>(history: seq<Observation<S>>, s: S): seq<InternalId> {
    if history == [] then []
    else
      var front, last := StreamOf(history[..|history| - 1], s), history[|history| - 1];
      if last.stream == Some(s) then front + [last.id] else front
  }

  /** The n-gram an id completes after the ids before it, once there are enough of them. */
  function Completed(before: seq<InternalId>, id: InternalId, n: nat): seq<NGramKey>
    requires n > 0
  {
    if |before| + 1 >= n then [before[|before| + 1 - n..] + [id]] else []
  }

  /** The n-grams a history forms, each within its own stream. */
  function Formed<S(==)>(history: seq<Observation<S>>, n: nat): seq<NGramKey>
    requires n > 0
  {
    if history == [] then []
    else
      var front, last := history[..|history| - 1], history[|history| - 1];
      Formed(front, n) + if last.stream.None? then [] else Completed(StreamOf(front, last.stream.value), last.id, n)
  }

  lemma StreamSnoc<S>(history: seq<Observation<S>>, o: Observation<S>, s: S)
    ensures StreamOf(history + [o], s)
        == if o.stream == Some(s) then StreamOf(history, s) + [o.id] else StreamOf(history, s)
  {
    assert (history + [o])[..|history|] == history;
  }

  lemma FormedSnoc<S>(history: seq<Observation<S>>, o: Observation<S>, n: nat)
    requires n > 0
    ensures Formed(history + [o], n) == Formed(history, n)
        + if o.stream.None? then [] else Completed(StreamOf(history, o.stream.value), o.id, n)
  {
    assert (history + [o])[..|history|] == history;
  }

  /** The consecutive windows of a sequence. */
  function Windows(ids: seq<InternalId>, n: nat): (r: seq<NGramKey>)
    requires n > 0
    ensures |r| == if |ids| >= n then |ids| - n + 1 else 0
    ensures forall i :: 0 <= i < |r| ==> r[i] == ids[i..i + n]
  {
    if |ids| < n then [] else seq(|ids| - n + 1, i requires 0 <= i < |ids| - n + 1 => ids[i..i + n])
  }

  lemma WindowBefore(ids: seq<InternalId>, id: InternalId, i: nat, n: nat)
    requires i + n <= |ids|
    ensures (ids + [id])[i..i + n] == ids[i..i + n]
  {}

  lemma LastWindow(ids: seq<InternalId>, id: InternalId, i: nat, n: nat)
    requires i + n == |ids| + 1 && n > 0
    ensures (ids + [id])[i..i + n] == ids[i..] + [id]
  {}

  lemma CompletedIs(ids: seq<InternalId>, id: InternalId, n: nat)
    requires n > 0
    ensures |ids| + 1 < n ==> Completed(ids, id, n) == []
    ensures |ids| + 1 >= n ==> Completed(ids, id, n) == [(ids + [id])[|ids| + 1 - n..|ids| + 1]]
  {
    if |ids| + 1 >= n { LastWindow(ids, id, |ids| + 1 - n, n); }
  }

  lemma WindowsSnoc(ids: seq<InternalId>, id: InternalId, n: nat)
    requires n > 0
    ensures Windows(ids + [id], n) == Windows(ids, n) + Completed(ids, id, n)
  {
    hide Windows, Completed;
    CompletedIs(ids, id, n);
    if |ids| + 1 >= n { OneWindowMore(ids, id, n); }
  }

  lemma OneWindowMore(ids: seq<InternalId>, id: InternalId, n: nat)
    requires 0 < n <= |ids| + 1
    ensures Windows(ids + [id], n) == Windows(ids, n) + [(ids + [id])[|ids| + 1 - n..|ids| + 1]]
  {
    hide Windows;
    var after, before := Windows(ids + [id], n), Windows(ids, n);
    forall i | 0 <= i < |before| ensures after[i] == before[i] { WindowBefore(ids, id, i, n); }
    OneAfter(after, before, (ids + [id])[|ids| + 1 - n..|ids| + 1]);
  }

  lemma OneAfter(after: seq<NGramKey>, before: seq<NGramKey>, last: NGramKey)
    requires |after| == |before| + 1 && after[|before|] == last
    requires forall i :: 0 <= i < |before| ==> after[i] == before[i]
    ensures after == before + [last]
  {}

  ghost predicate IdsBelow<S>(history: seq<Observation<S>>, m: nat) { forall o :: o in history ==> o.id < m }

  lemma {:induction false} StreamIds<S>(history: seq<Observation<S>>, s: S, m: nat)
    requires IdsBelow(history, m)
    ensures forall id :: id in StreamOf(history, s) ==> id < m
  {
    if history != [] {
      var front := history[..|history| - 1];
      assert forall o :: o in front ==> o in history;
      assert history[|history| - 1] in history;
      StreamIds(front, s, m);
    }
  }

  /** An n-gram is made of ids observed. */
  lemma {:induction false} FormedIds<S>(history: seq<Observation<S>>, n: nat, m: nat)
    requires n > 0 && IdsBelow(history, m)
    ensures forall key, i :: key in Formed(history, n) && 0 <= i < |key| ==> key[i] < m
  {
    if history != [] {
      var front, last := history[..|history| - 1], history[|history| - 1];
      assert forall o :: o in front ==> o in history;
      assert last in history;
      FormedIds(front, n, m);
      if last.stream.Some? { CompletedIds(front, last.stream.value, last.id, n, m); }
    }
  }

  lemma CompletedIds<S>(history: seq<Observation<S>>, s: S, id: InternalId, n: nat, m: nat)
    requires n > 0 && IdsBelow(history, m) && id < m
    ensures forall key, i :: key in Completed(StreamOf(history, s), id, n) && 0 <= i < |key| ==> key[i] < m
  {
    StreamIds(history, s, m);
    var before := StreamOf(history, s);
    hide StreamOf, IdsBelow;
    if |before| + 1 >= n {
      var key := before[|before| + 1 - n..] + [id];
      forall i | 0 <= i < |key| ensures key[i] < m {
        if i < |key| - 1 { assert key[i] == before[|before| + 1 - n + i] && key[i] in before; }
      }
    }
  }

  /** The streams a history has opened. */
  ghost function Opened<S>(history: seq<Observation<S>>): set<S>
      { set o | o in history && o.stream.Some? :: o.stream.value }

  ghost function KeysIn(keys: seq<NGramKey>): multiset<NGramKey> { multiset(keys) }

  ghost function FormedTogether<S>(history: seq<Observation<S>>, streams: seq<S>, n: nat): multiset<NGramKey>
    requires n > 0
  {
    if streams == [] then multiset{}
    else
        FormedTogether(history, streams[..|streams| - 1], n)
            + KeysIn(Windows(StreamOf(history, streams[|streams| - 1]), n))
  }

  /** What one more observation adds to what some streams form together. */
  ghost function Added<S>(history: seq<Observation<S>>, o: Observation<S>, streams: seq<S>, n: nat): multiset<NGramKey>
    requires n > 0
  {
    if o.stream.Some? && o.stream.value in streams then KeysIn(Completed(StreamOf(history, o.stream.value), o.id, n))
        else multiset{}
  }

  lemma AddedSplits<S>(history: seq<Observation<S>>, o: Observation<S>, front: seq<S>, s: S, n: nat)
    requires n > 0 && s !in front
    ensures Added(history, o, front + [s], n) == Added(history, o, front, n) + Added(history, o, [s], n)
  {
    hide KeysIn, Completed, StreamOf;
  }

  lemma Regrouped<K>(a: multiset<K>, x: multiset<K>, b: multiset<K>, y: multiset<K>)
    ensures (a + x) + (b + y) == (a + b) + (x + y)
  {}

  lemma TogetherIs<S>(history: seq<Observation<S>>, front: seq<S>, s: S, n: nat)
    requires n > 0
    ensures FormedTogether(history, front + [s], n) == FormedTogether(history, front, n)
        + KeysIn(Windows(StreamOf(history, s), n))
  {
    assert (front + [s])[..|front|] == front;
    hide KeysIn, Windows, StreamOf;
  }

  lemma {:induction false} TogetherSnoc<S>(history: seq<Observation<S>>, o: Observation<S>, streams: seq<S>, n: nat)
    requires n > 0 && NoDuplicates(streams)
    ensures FormedTogether(history + [o], streams, n) == FormedTogether(history, streams, n)
        + Added(history, o, streams, n)
  {
    hide *;
    if streams == [] {
      NoStreams(history, o, n);
    } else {
      var front, s := streams[..|streams| - 1], streams[|streams| - 1];
      LastStream(streams);
      TogetherSnoc(history, o, front, n);
      WindowsOfOne(history, o, s, n);
      AddedSplits(history, o, front, s, n);
      TogetherIs(history, front, s, n);
      TogetherIs(history + [o], front, s, n);
      Regrouped(FormedTogether(history, front, n), Added(history, o, front, n),
                KeysIn(Windows(StreamOf(history, s), n)), Added(history, o, [s], n));
    }
  }

  lemma LastStream<S>(s: seq<S>)
    requires NoDuplicates(s) && s != []
    ensures var front, last := s[..|s| - 1], s[|s| - 1]; NoDuplicates(front) && last !in front && s == front + [last]
  {}

  lemma NoStreams<S>(history: seq<Observation<S>>, o: Observation<S>, n: nat)
    requires n > 0
    ensures FormedTogether(history + [o], [], n) == FormedTogether(history, [], n) + Added(history, o, [], n)
  {}

  lemma WindowsOfOne<S>(history: seq<Observation<S>>, o: Observation<S>, s: S, n: nat)
    requires n > 0
    ensures KeysIn(Windows(StreamOf(history + [o], s), n)) == KeysIn(Windows(StreamOf(history, s), n))
        + Added(history, o, [s], n)
  {
    assert (history + [o])[..|history|] == history;
    if o.stream == Some(s) { WindowsSnoc(StreamOf(history, s), o.id, n); }
    hide Windows, Completed;
  }

  lemma {:induction false} NothingTogether<S>(streams: seq<S>, n: nat)
    requires n > 0
    ensures FormedTogether([], streams, n) == multiset{}
  {
    if streams != [] { NothingTogether(streams[..|streams| - 1], n); }
  }

  /** Over any enumeration of the streams it opened, a history forms exactly their windows, together. */
  lemma {:induction false} FormedAreWindows<S>(history: seq<Observation<S>>, streams: seq<S>, n: nat)
    requires n > 0 && NoDuplicates(streams) && Opened(history) <= Elements(streams)
    ensures multiset(Formed(history, n)) == FormedTogether(history, streams, n)
  {
    if history == [] {
      NothingTogether(streams, n);
    } else {
      var front, last := history[..|history| - 1], history[|history| - 1];
      assert history == front + [last];
      assert forall o :: o in front ==> o in history;
      FormedAreWindows(front, streams, n);
      TogetherSnoc(front, last, streams, n);
      if last.stream.Some? { assert last.stream.value in Opened(history); }
    }
  }

  // ---------------------------------------------------------------- rings

  /** The last two ids of a stream. */
  datatype Ring = Ring(recent0: InternalId, recent1: InternalId, filled: nat)

  const EMPTY_RING := Ring(0, 0, 0)

  function Pushed(ring: Ring, id: InternalId): Ring
      { Ring(id, ring.recent0, if ring.filled < 2 then ring.filled + 1 else ring.filled) }

  ghost predicate Holds(ring: Ring, ids: seq<InternalId>) {
    && ring.filled == (if |ids| < 2 then |ids| else 2)
    && (|ids| >= 1 ==> ring.recent0 == ids[|ids| - 1])
    && (|ids| >= 2 ==> ring.recent1 == ids[|ids| - 2])
  }

  /** The n-gram a ring completes with the next id. */
  function RingKey(ring: Ring, id: InternalId, n: nat): seq<NGramKey> {
    if n == 2 && ring.filled >= 1 then [[ring.recent0, id]]
    else if n == 3 && ring.filled >= 2 then [[ring.recent1, ring.recent0, id]]
    else []
  }

  lemma LastTwo(ids: seq<InternalId>, id: InternalId)
    ensures |ids| >= 1 ==> ids[|ids| - 1..] + [id] == [ids[|ids| - 1], id]
    ensures |ids| >= 2 ==> ids[|ids| - 2..] + [id] == [ids[|ids| - 2], ids[|ids| - 1], id]
  {
    if |ids| >= 1 { assert ids[|ids| - 1..] == [ids[|ids| - 1]]; }
    if |ids| >= 2 { assert ids[|ids| - 2..] == [ids[|ids| - 2], ids[|ids| - 1]]; }
  }

  lemma RingHoldsOn(ring: Ring, ids: seq<InternalId>, id: InternalId)
    requires Holds(ring, ids)
    ensures Holds(Pushed(ring, id), ids + [id])
  {}

  /** A ring that holds a stream's last ids forms what the stream forms, and goes on holding them. */
  lemma RingFollows(ring: Ring, ids: seq<InternalId>, id: InternalId, n: nat)
    requires Holds(ring, ids) && (n == 2 || n == 3)
    ensures RingKey(ring, id, n) == Completed(ids, id, n) && Holds(Pushed(ring, id), ids + [id])
  {
    RingHoldsOn(ring, ids, id);
    LastTwo(ids, id);
    var m := |ids|;
    assert m + 1 - n == if n == 2 then m - 1 else m - 2;
  }
}
