/** What a window's tables count, over the ingested lines themselves. */
module WindowCounts {
  import opened Identifiers
  import opened Orders
  import opened Bytes
  import opened ComposeLabels
  import opened SalienceScores
  import opened BoundedTable
  import opened WindowState
  import WindowClose

  /** How many of the lines are as asked. */
  function LinesThat(events: seq<Event>, asked: Event -> bool): nat {
    if events == [] then 0
    else LinesThat(events[..|events| - 1], asked) + if asked(events[|events| - 1]) then 1 else 0
  }

  function CountAt<K>(table: map<K, nat>, k: K): nat { if k in table then table[k] else 0 }

  lemma TalliedAt<K>(table: map<K, nat>, s: seq<K>, k: K)
    requires Tallied(table, s)
    ensures CountAt(table, k) == Occurrences(s, k)
  {
    assert k in s <==> k in Elements(s);
  }

  lemma {:induction false} JointsCounted(events: seq<Event>, j: Joint)
    ensures Occurrences(Joints(events), j)
         == LinesThat(events, (e: Event) => e.level == j.level && e.component == j.component && e.role == j.role)
  {
    if events != [] {
      var front, last := events[..|events| - 1], events[|events| - 1];
      assert Joints(events) == Joints(front) + [JointOf(last)];
      OccurrencesSnoc(Joints(front), JointOf(last), j);
      JointsCounted(front, j);
      assert JointOf(last) == j <==> last.level == j.level && last.component == j.component && last.role == j.role;
    }
  }

  /** The lines of one template that are as asked. */
  function OwnLines(events: seq<Event>, identify: Identify, id: TemplateId, asked: Event -> bool): nat {
    LinesThat(events, (e: Event) => identify(e.template) == id && asked(e))
  }

  lemma OwnLinesSnoc(front: seq<Event>, last: Event, identify: Identify, id: TemplateId, asked: Event -> bool)
    ensures OwnLines(front + [last], identify, id, asked)
         == OwnLines(front, identify, id, asked) + if identify(last.template) == id && asked(last) then 1 else 0
  {
    assert (front + [last])[..|front|] == front;
  }

  lemma {:induction false} OwnLevels(events: seq<Event>, identify: Identify, id: TemplateId, level: LevelId)
    ensures var own := Own(events, identify, id);
            && |own| == OwnLines(events, identify, id, _ => true)
            && Occurrences(LevelsOf(own), level) == OwnLines(events, identify, id, (e: Event) => e.level == level)
            && Occurrences(DeclaredOf(own), level)
                == OwnLines(events, identify, id, (e: Event) => e.declared && e.level == level)
  {
    if events != [] {
      var front, last := events[..|events| - 1], events[|events| - 1];
      assert events == front + [last];
      OwnLevels(front, identify, id, level);
      OwnSnoc(front, last, identify, id);
      var own := Own(front, identify, id);
      OwnProjections(own, last);
      OccurrencesSnoc(LevelsOf(own), last.level, level);
      OccurrencesSnoc(DeclaredOf(own), last.level, level);
      OwnLinesSnoc(front, last, identify, id, _ => true);
      OwnLinesSnoc(front, last, identify, id, (e: Event) => e.level == level);
      OwnLinesSnoc(front, last, identify, id, (e: Event) => e.declared && e.level == level);
      hide Own, LevelsOf, DeclaredOf, Occurrences, OwnLines;
    }
  }

  lemma {:induction false} OwnPlaces(events: seq<Event>, identify: Identify, id: TemplateId, role: RoleId,
                                     component: Text)
    requires component != []
    ensures var own := Own(events, identify, id);
            && Occurrences(RolesOf(own), role) == OwnLines(events, identify, id, (e: Event) => e.role == role)
            && Occurrences(ComponentsOf(own), component)
                == OwnLines(events, identify, id, (e: Event) => e.component == component)
  {
    if events != [] {
      var front, last := events[..|events| - 1], events[|events| - 1];
      assert events == front + [last];
      OwnPlaces(front, identify, id, role, component);
      OwnSnoc(front, last, identify, id);
      var own := Own(front, identify, id);
      OwnProjections(own, last);
      OccurrencesSnoc(RolesOf(own), last.role, role);
      OccurrencesSnoc(ComponentsOf(own), last.component, component);
      OwnLinesSnoc(front, last, identify, id, (e: Event) => e.role == role);
      OwnLinesSnoc(front, last, identify, id, (e: Event) => e.component == component);
      hide Own, RolesOf, ComponentsOf, Occurrences, OwnLines;
    }
  }

  lemma {:induction false} OwnEchoed(events: seq<Event>, identify: Identify, id: TemplateId)
    ensures AllEchoed(Own(events, identify, id))
       <==> forall e :: e in events && identify(e.template) == id ==> e.echoed
  {
    if events != [] {
      var front, last := events[..|events| - 1], events[|events| - 1];
      assert forall e :: e in events <==> e in front || e == last;
      OwnEchoed(front, identify, id);
      assert events == front + [last];
      OwnSnoc(front, last, identify, id);
      OwnProjections(Own(front, identify, id), last);
    }
  }

  lemma {:induction false} FirstIndexIs<T>(s: seq<T>, x: T)
    requires x in s
    ensures FirstIndex(s, x) < |s| && s[FirstIndex(s, x)] == x
    ensures forall i :: 0 <= i < FirstIndex(s, x) ==> s[i] != x
  {
    if s[0] != x {
      assert s == [s[0]] + s[1..];
      FirstIndexIs(s[1..], x);
    }
  }

  /** The joint the cube is built from counts, for every level, component and role, the ingested lines that have all
      three. */
  lemma JointCounts(lines: nat, buckets: map<TemplateId, Bucket>, base: map<Joint, nat>, events: seq<Event>,
                    identify: Identify, level: LevelId, component: Text, role: RoleId)
    requires CountingValid(lines, buckets, base, events, identify)
    ensures CountAt(base, Joint(level, component, role))
         == LinesThat(events, (e: Event) => e.level == level && e.component == component && e.role == role)
  {
    var j := Joint(level, component, role);
    hide LinesThat;
    TalliedAt(base, Joints(events), j);
    JointsCounted(events, j);
    SameLines(events, (e: Event) => e.level == j.level && e.component == j.component && e.role == j.role,
              (e: Event) => e.level == level && e.component == component && e.role == role);
  }

  lemma {:induction false} SameLines(events: seq<Event>, p: Event -> bool, q: Event -> bool)
    requires forall e :: p(e) == q(e)
    ensures LinesThat(events, p) == LinesThat(events, q)
  {
    if events != [] { SameLines(events[..|events| - 1], p, q); }
  }

  /** A template has a bucket exactly when it has a line. */
  lemma BucketsAreTemplates(lines: nat, buckets: map<TemplateId, Bucket>, base: map<Joint, nat>, events: seq<Event>,
                            identify: Identify, id: TemplateId)
    requires CountingValid(lines, buckets, base, events, identify)
    ensures lines == |events|
    ensures id in buckets <==> exists e :: e in events && identify(e.template) == id
  {
    var contents := Contents(events, identify);
    assert id in buckets <==> id in contents;
    if id in contents {
      var i :| 0 <= i < |contents| && contents[i] == id;
      assert events[i] in events;
    }
    if e :| e in events && identify(e.template) == id {
      var i :| 0 <= i < |events| && events[i] == e;
      assert contents[i] == id;
    }
  }

  lemma BucketFirst(b: Bucket, events: seq<Event>, identify: Identify, id: TemplateId)
    requires BucketIs(b, events, identify, id) && id in Contents(events, identify)
    ensures b.firstSeen < |events| && identify(events[b.firstSeen].template) == id
    ensures forall i :: 0 <= i < b.firstSeen ==> identify(events[i].template) != id
    ensures b.allEchoed <==> forall e :: e in events && identify(e.template) == id ==> e.echoed
  {
    FirstIndexIs(Contents(events, identify), id);
    OwnEchoed(events, identify, id);
    hide Own, FirstIndex, Tallied, AllEchoed;
  }

  lemma BucketTallies(b: Bucket, events: seq<Event>, identify: Identify, id: TemplateId, level: LevelId,
                      role: RoleId, component: Text)
    requires BucketIs(b, events, identify, id) && component != []
    ensures b.count == OwnLines(events, identify, id, _ => true)
    ensures CountAt(b.levels, level) == OwnLines(events, identify, id, (e: Event) => e.level == level)
    ensures CountAt(b.declared, level) == OwnLines(events, identify, id, (e: Event) => e.declared && e.level == level)
    ensures CountAt(b.roles, role) == OwnLines(events, identify, id, (e: Event) => e.role == role)
    ensures CountAt(b.components, component) == OwnLines(events, identify, id, (e: Event) => e.component == component)
    ensures [] !in b.components
  {
    var own := Own(events, identify, id);
    OwnLevels(events, identify, id, level);
    OwnPlaces(events, identify, id, role, component);
    hide Own, LevelsOf, DeclaredOf, RolesOf, ComponentsOf, Occurrences, OwnLines, AllEchoed, FirstIndex, CountAt,
         Tallied;
    TalliedAt(b.levels, LevelsOf(own), level);
    TalliedAt(b.declared, DeclaredOf(own), level);
    TalliedAt(b.roles, RolesOf(own), role);
    TalliedAt(b.components, ComponentsOf(own), component);
    NoEmptyTally(b.components, own);
  }

  lemma NoEmptyTally(table: map<Text, nat>, own: seq<Event>)
    requires Tallied(table, ComponentsOf(own))
    ensures [] !in table
  {
    NoEmptyComponent(own);
  }

  /** A bucket speaks of its own template's lines and no others: their number, how many have a level, declared it,
      have a role or name a component, where the first one stands, and whether every one was echoed. */
  lemma BucketCounts(lines: nat, buckets: map<TemplateId, Bucket>, base: map<Joint, nat>, events: seq<Event>,
                     identify: Identify, id: TemplateId, level: LevelId, role: RoleId, component: Text)
    requires CountingValid(lines, buckets, base, events, identify) && component != [] && id in buckets
    ensures var b := buckets[id];
            && b.count == OwnLines(events, identify, id, _ => true)
            && CountAt(b.levels, level) == OwnLines(events, identify, id, (e: Event) => e.level == level)
            && CountAt(b.declared, level)
                == OwnLines(events, identify, id, (e: Event) => e.declared && e.level == level)
            && CountAt(b.roles, role) == OwnLines(events, identify, id, (e: Event) => e.role == role)
            && CountAt(b.components, component)
                == OwnLines(events, identify, id, (e: Event) => e.component == component)
            && [] !in b.components
            && (b.allEchoed <==> forall e :: e in events && identify(e.template) == id ==> e.echoed)
            && b.firstSeen < |events| && identify(events[b.firstSeen].template) == id
            && (forall i :: 0 <= i < b.firstSeen ==> identify(events[i].template) != id)
  {
    assert id in Contents(events, identify) && BucketIs(buckets[id], events, identify, id);
    hide BucketIs, OwnLines, CountAt, Tallied;
    BucketTallies(buckets[id], events, identify, id, level, role, component);
    BucketFirst(buckets[id], events, identify, id);
  }

  lemma {:induction false} NoEmptyComponent(own: seq<Event>)
    ensures [] !in ComponentsOf(own)
  {
    if own != [] { NoEmptyComponent(own[..|own| - 1]); }
  }

  /** A template's level counts as declared when some of its lines declared it. */
  lemma DeclaredReads(b: Bucket, events: seq<Event>, identify: Identify, id: TemplateId, l: WindowClose.Label)
    requires BucketIs(b, events, identify, id) && WindowClose.IsLabel(b, l) && l.level.Some?
    ensures l.level.value.declared
       <==> OwnLines(events, identify, id, (e: Event) => e.declared && e.level == l.level.value.value) > 0
  {
    var level := l.level.value.value;
    OwnLevels(events, identify, id, level);
    TalliedAt(b.declared, DeclaredOf(Own(events, identify, id)), level);
    hide Own, DeclaredOf, Occurrences, OwnLines, Tallied, IsDominantLevel, IsDominantRole, IsDominantText;
    SameOwn(events, identify, id, (e: Event) => e.declared && e.level == level,
            (e: Event) => e.declared && e.level == l.level.value.value);
  }

  lemma SameOwn(events: seq<Event>, identify: Identify, id: TemplateId, p: Event -> bool, q: Event -> bool)
    requires forall e :: p(e) == q(e)
    ensures OwnLines(events, identify, id, p) == OwnLines(events, identify, id, q)
  {
    SameLines(events, (e: Event) => identify(e.template) == id && p(e),
              (e: Event) => identify(e.template) == id && q(e));
  }
}
