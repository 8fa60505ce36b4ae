/** The behavior block of a closed window: its n-grams named by content, each with its share of its prefix. */
module WindowBehavior {
  import opened Options
  import opened Identifiers
  import opened Orders
  import opened Sums
  import opened BoundedTable
  import opened Streams
  import opened Behaviors

  /** An n-gram without its last id. */
  function PrefixOf(key: NGramKey): NGramKey { if key == [] then [] else key[..|key| - 1] }

  /** What every n-gram that goes on from a prefix counts, together. */
  ghost function PrefixTotal(counts: map<NGramKey, nat>, prefix: NGramKey): nat {
    SetSum(Fiber(counts.Keys, PrefixOf, prefix), CountOf(counts))
  }

  /** The contents of the ids; an id beyond the table names nothing. */
  function NameOf(key: NGramKey, templates: seq<TemplateId>): seq<TemplateId> {
    if key == [] then []
    else
      var front, last := NameOf(key[..|key| - 1], templates), key[|key| - 1];
      if last < |templates| then front + [templates[last]] else front
  }

  function Share(count: nat, total: nat): real { if total > 0 then count as real / total as real else 0.0 }

  ghost function NGramOf(key: NGramKey, counts: map<NGramKey, nat>, templates: seq<TemplateId>): NGram {
    NGram(NameOf(key, templates), CountOf(counts)(key), Share(CountOf(counts)(key), PrefixTotal(counts, PrefixOf(key))))
  }

  ghost function NGramsOf(counts: map<NGramKey, nat>, templates: seq<TemplateId>): set<NGram> {
    set key | key in counts :: NGramOf(key, counts, templates)
  }

  /** Every n-gram of the window, the most frequent first. */
  ghost function AllNgrams(counts: map<NGramKey, nat>, templates: seq<TemplateId>): (r: seq<NGram>)
    ensures Ascending(TableOrder, r) && Elements(r) == NGramsOf(counts, templates)
  {
    TableOrderIsTotal();
    SortedOf(TableOrder, NGramsOf(counts, templates))
  }

  /** A window without n-grams, or that keeps none, has no block. */
  ghost function BehaviorFor(counts: map<NGramKey, nat>, total: nat, dropped: nat, templates: seq<TemplateId>,
                             ngramSize: nat, top: nat): Option<Behavior> {
    if top == 0 || total == 0 then None
    else Some(Behavior(ngramSize, Truncated(AllNgrams(counts, templates), top), top,
                       if dropped > 0 then Some(dropped) else None))
  }

  /** Ids the table knows, each content once: what the window engine keeps. */
  ghost predicate Nameable(counts: map<NGramKey, nat>, templates: seq<TemplateId>) {
    NoDuplicates(templates) && forall key, i :: key in counts && 0 <= i < |key| ==> key[i] < |templates|
  }

  // ---------------------------------------------------------------- names and shares

  lemma {:induction false} NamedInFull(key: NGramKey, templates: seq<TemplateId>)
    requires forall i :: 0 <= i < |key| ==> key[i] < |templates|
    ensures |NameOf(key, templates)| == |key|
    ensures forall i :: 0 <= i < |key| ==> NameOf(key, templates)[i] == templates[key[i]]
  {
    if key != [] { NamedInFull(key[..|key| - 1], templates); }
  }

  /** Two n-grams of known ids have one name if and only if they are one. */
  lemma NamesTellApart(key: NGramKey, other: NGramKey, counts: map<NGramKey, nat>, templates: seq<TemplateId>)
    requires Nameable(counts, templates) && key in counts && other in counts
    ensures NameOf(key, templates) == NameOf(other, templates) <==> key == other
  {
    NamedInFull(key, templates);
    NamedInFull(other, templates);
    if NameOf(key, templates) == NameOf(other, templates) {
      forall i | 0 <= i < |key| ensures key[i] == other[i] {
        assert templates[key[i]] == templates[other[i]];
      }
    }
  }

  ghost function ShareSum(keys: set<NGramKey>, counts: map<NGramKey, nat>, total: nat): real
    decreases |keys|
  {
    if keys == {} then 0.0
    else var key :| key in keys; Share(CountOf(counts)(key), total) + ShareSum(keys - {key}, counts, total)
  }

  lemma SharesAdd(a: nat, b: nat, total: nat)
    requires total > 0
    ensures Share(a, total) + Share(b, total) == Share(a + b, total)
  {}

  lemma {:induction false} SharesAddUp(keys: set<NGramKey>, counts: map<NGramKey, nat>, total: nat)
    requires total > 0
    ensures ShareSum(keys, counts, total) == Share(SetSum(keys, CountOf(counts)), total)
    decreases |keys|
  {
    hide Share, CountOf;
    if keys == {} {
      NoShare(total);
    } else {
      var key :| key in keys && ShareSum(keys, counts, total)
          == Share(CountOf(counts)(key), total) + ShareSum(keys - {key}, counts, total);
      SharesAddUp(keys - {key}, counts, total);
      SetSumRemove(keys, key, CountOf(counts));
      SharesAdd(CountOf(counts)(key), SetSum(keys - {key}, CountOf(counts)), total);
    }
  }

  lemma NoShare(total: nat)
    requires total > 0
    ensures Share(0, total) == 0.0
  {}

  /** The probabilities after one prefix add up to one: each is the share of its prefix's going on. */
  lemma ProbabilitiesAddUp(counts: map<NGramKey, nat>, prefix: NGramKey)
    requires PrefixTotal(counts, prefix) > 0
    ensures ShareSum(Fiber(counts.Keys, PrefixOf, prefix), counts, PrefixTotal(counts, prefix)) == 1.0
  {
    hide Share, ShareSum, SetSum, Fiber;
    SharesAddUp(Fiber(counts.Keys, PrefixOf, prefix), counts, PrefixTotal(counts, prefix));
    WholeShare(PrefixTotal(counts, prefix));
  }

  lemma WholeShare(total: nat)
    requires total > 0
    ensures Share(total, total) == 1.0
  {}

  // ---------------------------------------------------------------- building the block

  /** What goes on from each prefix, over some of the keys. */
  ghost predicate PrefixesAre(totals: map<NGramKey, nat>, counts: map<NGramKey, nat>, keys: set<NGramKey>) {
    totals.Keys == Image(keys, PrefixOf)
    && forall p :: p in totals ==> totals[p] == SetSum(Fiber(keys, PrefixOf, p), CountOf(counts))
  }

  lemma PrefixCounted(totals: map<NGramKey, nat>, counts: map<NGramKey, nat>, keys: set<NGramKey>, key: NGramKey)
    requires PrefixesAre(totals, counts, keys) && key in counts && key !in keys
    ensures var p := PrefixOf(key);
            PrefixesAre(totals[p := (if p in totals then totals[p] else 0) + counts[key]], counts, keys + {key})
  {
    hide PrefixOf, Fiber, Image;
    var p := PrefixOf(key);
    forall q ensures Fiber(keys + {key}, PrefixOf, q) == if q == p then Fiber(keys, PrefixOf, q) + {key}
        else Fiber(keys, PrefixOf, q) { FiberGrows(keys, key, q); }
    PrefixSum(counts, keys, key);
    ImageGrows(keys, key);
  }

  lemma FiberGrows(keys: set<NGramKey>, key: NGramKey, q: NGramKey)
    ensures Fiber(keys + {key}, PrefixOf, q)
        == if q == PrefixOf(key) then Fiber(keys, PrefixOf, q) + {key} else Fiber(keys, PrefixOf, q)
  {
    hide PrefixOf;
  }

  lemma ImageGrows(keys: set<NGramKey>, key: NGramKey)
    ensures Image(keys + {key}, PrefixOf) == Image(keys, PrefixOf) + {PrefixOf(key)}
  {
    hide PrefixOf;
  }

  lemma PrefixSum(counts: map<NGramKey, nat>, keys: set<NGramKey>, key: NGramKey)
    requires key in counts && key !in keys
    ensures var own := Fiber(keys, PrefixOf, PrefixOf(key));
            SetSum(own + {key}, CountOf(counts)) == SetSum(own, CountOf(counts)) + counts[key]
    ensures PrefixOf(key) !in Image(keys, PrefixOf) ==> Fiber(keys, PrefixOf, PrefixOf(key)) == {}
  {
    hide PrefixOf;
    SetSumAdd(Fiber(keys, PrefixOf, PrefixOf(key)), key, CountOf(counts));
    if k :| k in Fiber(keys, PrefixOf, PrefixOf(key)) { assert PrefixOf(k) in Image(keys, PrefixOf); }
  }

  method CountPrefixes(counts: map<NGramKey, nat>) returns (totals: map<NGramKey, nat>)
    ensures PrefixesAre(totals, counts, counts.Keys)
  {
    hide PrefixesAre, PrefixOf;
    totals := map[];
    NoPrefixes(counts);
    var left := counts.Keys;
    assert counts.Keys - left == {};
    while left != {}
      invariant left <= counts.Keys && PrefixesAre(totals, counts, counts.Keys - left)
      decreases left
    {
      var key :| key in left;
      PrefixCounted(totals, counts, counts.Keys - left, key);
      assert counts.Keys - (left - {key}) == counts.Keys - left + {key};
      var p := PrefixOf(key);
      totals := totals[p := (if p in totals then totals[p] else 0) + counts[key]];
      left := left - {key};
    }
    assert counts.Keys - left == counts.Keys;
  }

  lemma NoPrefixes(counts: map<NGramKey, nat>)
    ensures PrefixesAre(map[], counts, {})
  {
    assert Image({}, PrefixOf) == {};
  }

  method NameNgram(key: NGramKey, templates: seq<TemplateId>) returns (name: seq<TemplateId>)
    ensures name == NameOf(key, templates)
  {
    name := [];
    for i := 0 to |key|
      invariant name == NameOf(key[..i], templates)
    {
      assert key[..i + 1][..i] == key[..i];
      if key[i] < |templates| {
        name := name + [templates[key[i]]];
      }
    }
    assert key[..|key|] == key;
  }

  method BuildTopNgrams(counts: map<NGramKey, nat>, templates: seq<TemplateId>, top: nat) returns (r: seq<NGram>)
    requires Nameable(counts, templates)
    ensures r == Truncated(AllNgrams(counts, templates), top)
  {
    hide Nameable, PrefixesAre, NameOf, PrefixTotal;
    var totals := CountPrefixes(counts);
    var list: seq<NGram>;
    ghost var keys: seq<NGramKey>;
    list, keys := NameAll(counts, templates, totals);
    TableOrderIsTotal();
    NGramOrderIsPartial();
    DistinctNames(list, keys, counts, templates);
    r := Sort(NGramOrder, list);
    SortedIsTable(r, list);
    ListIsAll(list, keys, counts, templates);
    AscendingUnique(TableOrder, r, AllNgrams(counts, templates));
    if |r| > top {
      r := r[..top];
    }
  }

  /** The n-grams in whatever order the table yields them. */
  method NameAll(counts: map<NGramKey, nat>, templates: seq<TemplateId>, totals: map<NGramKey, nat>)
    returns (list: seq<NGram>, ghost keys: seq<NGramKey>)
    requires PrefixesAre(totals, counts, counts.Keys)
    ensures NoDuplicates(keys) && Elements(keys) == counts.Keys && list == NamedList(keys, counts, templates)
  {
    hide NameOf, PrefixTotal, PrefixOf, NGramOf, PrefixesAre;
    list, keys := [], [];
    var left := counts.Keys;
    while left != {}
      invariant left <= counts.Keys && Elements(keys) == counts.Keys - left && NoDuplicates(keys)
      invariant list == NamedList(keys, counts, templates)
      decreases left
    {
      var key :| key in left;
      NewItem(keys, key);
      PrefixKnown(totals, counts, key);
      var name := NameNgram(key, templates);
      NGramIs(key, counts, templates, totals);
      list := list + [NGram(name, counts[key], Share(counts[key], totals[PrefixOf(key)]))];
      keys := keys + [key];
      left := left - {key};
    }
  }

  ghost function NamedList(keys: seq<NGramKey>, counts: map<NGramKey, nat>, templates: seq<TemplateId>): (r: seq<NGram>)
    ensures |r| == |keys| && forall i :: 0 <= i < |r| ==> r[i] == NGramOf(keys[i], counts, templates)
  {
    seq(|keys|, i requires 0 <= i < |keys| => NGramOf(keys[i], counts, templates))
  }

  lemma PrefixKnown(totals: map<NGramKey, nat>, counts: map<NGramKey, nat>, key: NGramKey)
    requires PrefixesAre(totals, counts, counts.Keys) && key in counts
    ensures PrefixOf(key) in totals
  {
    assert PrefixOf(key) in Image(counts.Keys, PrefixOf);
  }

  lemma NGramIs(key: NGramKey, counts: map<NGramKey, nat>, templates: seq<TemplateId>, totals: map<NGramKey, nat>)
    requires PrefixesAre(totals, counts, counts.Keys) && key in counts && PrefixOf(key) in totals
    ensures NGramOf(key, counts, templates)
        == NGram(NameOf(key, templates), counts[key], Share(counts[key], totals[PrefixOf(key)]))
  {}

  lemma DistinctNames(list: seq<NGram>, keys: seq<NGramKey>, counts: map<NGramKey, nat>, templates: seq<TemplateId>)
    requires Nameable(counts, templates) && NoDuplicates(keys) && Elements(keys) == counts.Keys
    requires list == NamedList(keys, counts, templates)
    ensures forall i, j :: 0 <= i < j < |list| ==> list[i].sequence != list[j].sequence
  {
    hide Nameable, NameOf;
    forall i, j | 0 <= i < j < |list| ensures list[i].sequence != list[j].sequence {
      assert keys[i] in Elements(keys) && keys[j] in Elements(keys);
      NamesTellApart(keys[i], keys[j], counts, templates);
    }
  }

  lemma ListIsAll(list: seq<NGram>, keys: seq<NGramKey>, counts: map<NGramKey, nat>, templates: seq<TemplateId>)
    requires Elements(keys) == counts.Keys && list == NamedList(keys, counts, templates)
    ensures Elements(list) == NGramsOf(counts, templates)
  {
    hide NGramOf;
    forall key | key in counts ensures NGramOf(key, counts, templates) in list {
      assert key in Elements(keys);
      var i :| 0 <= i < |keys| && keys[i] == key;
      assert list[i] in list;
    }
    forall e | e in list ensures e in NGramsOf(counts, templates) {
      var i :| 0 <= i < |list| && list[i] == e;
      assert keys[i] in Elements(keys);
    }
  }

  method BuildBehavior(counts: map<NGramKey, nat>, total: nat, dropped: nat, templates: seq<TemplateId>,
                       ngramSize: nat, top: nat) returns (behavior: Option<Behavior>)
    requires Nameable(counts, templates)
    ensures behavior == BehaviorFor(counts, total, dropped, templates, ngramSize, top)
  {
    hide Nameable, AllNgrams, Truncated;
    if top == 0 || total == 0 {
      return None;
    }
    var ngrams := BuildTopNgrams(counts, templates, top);
    return Some(Behavior(ngramSize, ngrams, top, if dropped > 0 then Some(dropped) else None));
  }

  // ---------------------------------------------------------------- what the block accounts for

  const NGramCount: NGram -> nat := (e: NGram) => e.count

  lemma {:induction false} Enumerated(s: set<NGramKey>) returns (keys: seq<NGramKey>)
    ensures NoDuplicates(keys) && Elements(keys) == s
    decreases |s|
  {
    keys := [];
    if key :| key in s {
      keys := Enumerated(s - {key});
      assert key !in Elements(keys);
      NewItem(keys, key);
      keys := keys + [key];
    }
  }

  lemma AllCounted(counts: map<NGramKey, nat>, templates: seq<TemplateId>)
    requires Nameable(counts, templates)
    ensures |AllNgrams(counts, templates)| == |counts|
    ensures Sum(AllNgrams(counts, templates), NGramCount) == SetSum(counts.Keys, CountOf(counts))
  {
    hide *;
    var keys := Enumerated(counts.Keys);
    var list := NamedList(keys, counts, templates);
    DistinctNames(list, keys, counts, templates);
    ListIsAll(list, keys, counts, templates);
    ListedOnce(list);
    NgramsOnce(counts, templates);
    SequenceSum(AllNgrams(counts, templates), NGramCount);
    SequenceSum(list, NGramCount);
    SequenceSum(keys, CountOf(counts));
    CountsListed(keys, counts, templates);
    SameSums(list, keys, NGramCount, CountOf(counts));
    assert |counts| == |counts.Keys|;
  }

  lemma NgramsOnce(counts: map<NGramKey, nat>, templates: seq<TemplateId>)
    ensures NoDuplicates(AllNgrams(counts, templates))
        && Elements(AllNgrams(counts, templates)) == NGramsOf(counts, templates)
  {
    hide NGramsOf, TableOrder;
    TableOrderIsTotal();
    AscendingIsSorted(TableOrder, AllNgrams(counts, templates));
  }

  lemma CountsListed(keys: seq<NGramKey>, counts: map<NGramKey, nat>, templates: seq<TemplateId>)
    ensures var list := NamedList(keys, counts, templates);
            |list| == |keys| && forall i :: 0 <= i < |list| ==> NGramCount(list[i]) == CountOf(counts)(keys[i])
  {}

  lemma ListedOnce(list: seq<NGram>)
    requires forall i, j :: 0 <= i < j < |list| ==> list[i].sequence != list[j].sequence
    ensures NoDuplicates(list)
  {}

  /** The block keeps the most frequent n-grams: all that was counted while they fit, never more. */
  lemma BlockCounts(counts: map<NGramKey, nat>, templates: seq<TemplateId>, top: nat)
    requires Nameable(counts, templates)
    ensures var kept := Truncated(AllNgrams(counts, templates), top);
            && |kept| == Min(top, |counts|) && Sum(kept, NGramCount) <= SetSum(counts.Keys, CountOf(counts))
            && (|counts| <= top ==> Sum(kept, NGramCount) == SetSum(counts.Keys, CountOf(counts)))
  {
    hide AllNgrams, SetSum, Nameable, Sum, NGramCount;
    AllCounted(counts, templates);
    CutCounts(AllNgrams(counts, templates), top);
  }

  lemma CutCounts(all: seq<NGram>, top: nat)
    ensures var kept := Truncated(all, top);
            |kept| == Min(top, |all|) && Sum(kept, NGramCount) <= Sum(all, NGramCount) && (|all| <= top ==> kept == all)
  {
    hide Sum;
    if |all| > top {
      assert all == all[..top] + all[top..];
      SumConcat(all[..top], all[top..], NGramCount);
    }
  }
}
