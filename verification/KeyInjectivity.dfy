/** Canonical keys determine what they are keys of. */
module KeyInjectivity {
  import opened Options
  import opened Orders
  import opened Bytes
  import opened Utf16Order
  import opened Json
  import opened CanonicalKeys

  function Named(ms: seq<Member>, name: Text): seq<Member> {
    if ms == [] then []
    else
      var front, last := Named(ms[..|ms| - 1], name), ms[|ms| - 1];
      if last.name == name then front + [last] else front
  }

  lemma {:induction false} NamedConcat(a: seq<Member>, b: seq<Member>, name: Text)
    ensures Named(a + b, name) == Named(a, name) + Named(b, name)
  {
    if b == [] {
      assert a + b == a;
    } else {
      assert (a + b)[..|a + b| - 1] == a + b[..|b| - 1];
      NamedConcat(a, b[..|b| - 1], name);
    }
  }

  predicate OnlyNamed(ms: seq<Member>, name: Text) { |ms| <= 1 && forall m :: m in ms ==> m.name == name }

  lemma NamedPart(ms: seq<Member>, name: Text, asked: Text)
    requires OnlyNamed(ms, name)
    ensures Named(ms, asked) == if asked == name then ms else []
  {
    if ms != [] { assert ms == [ms[0]] && ms[0] in ms; }
  }

  predicate Distinct(a: Text, b: Text, c: Text, d: Text, e: Text) {
    a != b && a != c && a != d && a != e && b != c && b != d && b != e && c != d && c != e && d != e
  }

  lemma AscendDistinct(a: Text, b: Text, c: Text, d: Text, e: Text)
    requires FiveAscend(a, b, c, d, e)
    ensures Distinct(a, b, c, d, e)
  {
    hide KeyLess;
    forall x: Text ensures !KeyLess(x, x) { KeyIrreflexive(x); }
  }

  lemma KeyIrreflexive(x: Text)
    ensures !KeyLess(x, x)
  {
    LexIrreflexive(Remapped(x));
  }

  lemma NamedOfFive(a: seq<Member>, b: seq<Member>, c: seq<Member>, d: seq<Member>, e: seq<Member>, asked: Text)
    ensures Named(a + b + c + d + e, asked) == Named(a, asked) + Named(b, asked) + Named(c, asked) + Named(d, asked)
        + Named(e, asked)
  {
    NamedConcat(a + b + c + d, e, asked);
    NamedConcat(a + b + c, d, asked);
    NamedConcat(a + b, c, asked);
    NamedConcat(a, b, asked);
  }

  ghost predicate FiveNamed(a: seq<Member>, b: seq<Member>, c: seq<Member>, d: seq<Member>, e: seq<Member>,
                            na: Text, nb: Text, nc: Text, nd: Text, ne: Text) {
    OnlyNamed(a, na) && OnlyNamed(b, nb) && OnlyNamed(c, nc) && OnlyNamed(d, nd) && OnlyNamed(e, ne)
  }

  /** Parts under distinct names can be told apart in the object they make. */
  lemma PartOf(a: seq<Member>, b: seq<Member>, c: seq<Member>, d: seq<Member>, e: seq<Member>,
               na: Text, nb: Text, nc: Text, nd: Text, ne: Text)
    requires FiveNamed(a, b, c, d, e, na, nb, nc, nd, ne) && Distinct(na, nb, nc, nd, ne)
    ensures var ms := a + b + c + d + e;
            Named(ms, na) == a && Named(ms, nb) == b && Named(ms, nc) == c && Named(ms, nd) == d && Named(ms, ne) == e
  {
    hide Named, OnlyNamed;
    PartNamed(a, b, c, d, e, na, nb, nc, nd, ne, na);
    PartNamed(a, b, c, d, e, na, nb, nc, nd, ne, nb);
    PartNamed(a, b, c, d, e, na, nb, nc, nd, ne, nc);
    PartNamed(a, b, c, d, e, na, nb, nc, nd, ne, nd);
    PartNamed(a, b, c, d, e, na, nb, nc, nd, ne, ne);
  }

  lemma PartNamed(a: seq<Member>, b: seq<Member>, c: seq<Member>, d: seq<Member>, e: seq<Member>,
                  na: Text, nb: Text, nc: Text, nd: Text, ne: Text, asked: Text)
    requires FiveNamed(a, b, c, d, e, na, nb, nc, nd, ne) && Distinct(na, nb, nc, nd, ne)
    ensures Named(a + b + c + d + e, asked)
         == if asked == na then a else if asked == nb then b else if asked == nc then c
            else if asked == nd then d else if asked == ne then e else []
  {
    NamedOfFive(a, b, c, d, e, asked);
    NamedPart(a, na, asked);
    NamedPart(b, nb, asked);
    NamedPart(c, nc, asked);
    NamedPart(d, nd, asked);
    NamedPart(e, ne, asked);
  }

  // ---------------------------------------------------------------- sources

  lemma TagAt(t: map<Text, Text>, u: map<Text, Text>, i: nat)
    requires TagMembers(t) == TagMembers(u) && i < |TagNames(t)| && i < |TagNames(u)|
    ensures TagNames(t)[i] == TagNames(u)[i] && TagNames(t)[i] in t && TagNames(t)[i] in u
    ensures t[TagNames(t)[i]] == u[TagNames(t)[i]]
  {
    assert TagMembers(t)[i] == TagMembers(u)[i];
  }

  lemma TagNamesEqual(t: map<Text, Text>, u: map<Text, Text>)
    requires TagMembers(t) == TagMembers(u)
    ensures TagNames(t) == TagNames(u) && t.Keys == u.Keys
  {
    var a, b := TagNames(t), TagNames(u);
    assert |a| == |TagMembers(t)| == |b|;
    hide TagMembers, Ascending;
    forall i | 0 <= i < |a| ensures a[i] == b[i] { TagAt(t, u, i); }
    assert a == b;
    assert t.Keys == Elements(a) == u.Keys;
  }

  lemma TagsInjective(t: map<Text, Text>, u: map<Text, Text>)
    requires TagMembers(t) == TagMembers(u)
    ensures t == u
  {
    TagNamesEqual(t, u);
    hide TagMembers, Ascending;
    forall k | k in t ensures t[k] == u[k] {
      var i := TagIndex(t, k);
      TagAt(t, u, i);
    }
  }

  lemma TagIndex(t: map<Text, Text>, k: Text) returns (i: nat)
    requires k in t
    ensures i < |TagNames(t)| && TagNames(t)[i] == k
  {
    assert k in Elements(TagNames(t));
    i :| 0 <= i < |TagNames(t)| && TagNames(t)[i] == k;
  }

  lemma SourceParts(s: Source)
    ensures var ms := SourceMembers(s);
            && Named(ms, FLEET) == TextMember(FLEET, s.fleet) && Named(ms, HOST) == TextMember(HOST, s.host)
            && Named(ms, HOST_COUNT) == NumberMember(HOST_COUNT, s.hostCount)
            && Named(ms, SERVICE) == TextMember(SERVICE, s.service) && Named(ms, TAGS) == TagsMember(s.tags)
  {
    SourceNamesOrder();
    AscendDistinct(FLEET, HOST, HOST_COUNT, SERVICE, TAGS);
    hide KeyLess, TagMembers, Named;
    PartOf(TextMember(FLEET, s.fleet), TextMember(HOST, s.host), NumberMember(HOST_COUNT, s.hostCount),
           TextMember(SERVICE, s.service), TagsMember(s.tags), FLEET, HOST, HOST_COUNT, SERVICE, TAGS);
  }

  lemma TextMemberInjective(name: Text, x: Option<Text>, y: Option<Text>)
    requires TextMember(name, x) == TextMember(name, y)
    ensures x == y
  {
    if x.Some? { assert TextMember(name, x)[0] == TextMember(name, y)[0]; }
  }

  lemma NumberMemberInjective(name: Text, x: Option<nat>, y: Option<nat>)
    requires NumberMember(name, x) == NumberMember(name, y)
    ensures x == y
  {
    if x.Some? { assert NumberMember(name, x)[0] == NumberMember(name, y)[0]; }
  }

  lemma SourceInjective(s: Source, u: Source)
    requires SourceMembers(s) == SourceMembers(u)
    ensures s == u
  {
    SourceParts(s);
    SourceParts(u);
    hide Named, SourceMembers, TagMembers, TextMember, NumberMember;
    TextMemberInjective(FLEET, s.fleet, u.fleet);
    TextMemberInjective(HOST, s.host, u.host);
    NumberMemberInjective(HOST_COUNT, s.hostCount, u.hostCount);
    TextMemberInjective(SERVICE, s.service, u.service);
    TagsMemberInjective(s.tags, u.tags);
  }

  lemma TagsMemberInjective(t: map<Text, Text>, u: map<Text, Text>)
    requires TagsMember(t) == TagsMember(u)
    ensures t == u
  {
    if t != map[] {
      assert TagsMember(t)[0] == TagsMember(u)[0];
      TagsInjective(t, u);
    }
  }

  // ---------------------------------------------------------------- coordinates

  lemma CoordinateParts(c: Coordinate)
    ensures var ms := CoordinateMembers(c);
            && Named(ms, BOUNDS) == BoundsMembers(c.bounds)
            && Named(ms, CANONICALIZATION_VERSION) == TextMember(CANONICALIZATION_VERSION, c.canonicalizationVersion)
            && Named(ms, CHILDREN) == ChildrenMember(c.children)
            && Named(ms, CONFIG_HASH) == TextMember(CONFIG_HASH, c.configHash)
            && Named(ms, SOURCE_REF) == RefMembers(c.sourceRef)
  {
    CoordinateNamesOrder();
    AscendDistinct(BOUNDS, CANONICALIZATION_VERSION, CHILDREN, CONFIG_HASH, SOURCE_REF);
    hide KeyLess, CoordinateValues, Named;
    PartOf(BoundsMembers(c.bounds), TextMember(CANONICALIZATION_VERSION, c.canonicalizationVersion),
           ChildrenMember(c.children),
           TextMember(CONFIG_HASH, c.configHash), RefMembers(c.sourceRef),
           BOUNDS, CANONICALIZATION_VERSION, CHILDREN, CONFIG_HASH, SOURCE_REF);
  }

  lemma BoundsInjective(x: Option<TickBounds>, y: Option<TickBounds>)
    requires BoundsMembers(x) == BoundsMembers(y)
    ensures x == y
  {
    if x.Some? {
      var a, b := BoundsMembers(x)[0].value.members, BoundsMembers(y)[0].value.members;
      assert a[0] == b[0] && a[1] == b[1];
    }
  }

  lemma RefInjective(x: Option<SourceRef>, y: Option<SourceRef>)
    requires RefMembers(x) == RefMembers(y)
    ensures x == y
  {
    if x.Some? {
      var a, b := RefMembers(x)[0].value.members, RefMembers(y)[0].value.members;
      assert a[0] == b[0] && a[1] == b[1];
    }
  }

  lemma {:induction false} CoordinateInjective(c: Coordinate, d: Coordinate)
    requires CoordinateMembers(c) == CoordinateMembers(d)
    ensures c == d
    decreases c, 0
  {
    if c.children.Children? && d.children.Children?
       && CoordinateValues(c.children.list) == CoordinateValues(d.children.list) {
      CoordinatesInjective(c.children.list, d.children.list);
    }
    hide *;
    CoordinateParts(c);
    CoordinateParts(d);
    BoundsInjective(c.bounds, d.bounds);
    TextMemberInjective(CANONICALIZATION_VERSION, c.canonicalizationVersion, d.canonicalizationVersion);
    TextMemberInjective(CONFIG_HASH, c.configHash, d.configHash);
    RefInjective(c.sourceRef, d.sourceRef);
    ChildrenMembersAgree(c.children, d.children);
  }

  lemma ChildrenMembersAgree(c: Children, d: Children)
    requires ChildrenMember(c) == ChildrenMember(d)
    ensures c.Children? <==> d.Children?
    ensures c.Children? && d.Children? ==> CoordinateValues(c.list) == CoordinateValues(d.list)
  {
    hide CoordinateValues;
    if c.Children? { assert ChildrenMember(c)[0] == ChildrenMember(d)[0]; }
  }

  lemma {:induction false} CoordinatesInjective(cs: seq<Coordinate>, ds: seq<Coordinate>)
    requires CoordinateValues(cs) == CoordinateValues(ds)
    ensures cs == ds
    decreases cs, 1
  {
    hide *;
    assert |cs| == |CoordinateValues(cs)| == |ds|;
    if cs != [] {
      var n := |cs| - 1;
      LastValue(cs, ds);
      CoordinatesInjective(cs[..n], ds[..n]);
      CoordinateInjective(cs[n], ds[n]);
      SameFrontAndLast(cs, ds);
    }
  }

  lemma SameFrontAndLast<T>(s: seq<T>, t: seq<T>)
    requires |s| == |t| > 0 && s[..|s| - 1] == t[..|t| - 1] && s[|s| - 1] == t[|t| - 1]
    ensures s == t
  {
    assert s == s[..|s| - 1] + [s[|s| - 1]] && t == t[..|t| - 1] + [t[|t| - 1]];
  }

  lemma LastValue(cs: seq<Coordinate>, ds: seq<Coordinate>)
    requires CoordinateValues(cs) == CoordinateValues(ds) && cs != [] && ds != [] && |cs| == |ds|
    ensures CoordinateValues(cs[..|cs| - 1]) == CoordinateValues(ds[..|ds| - 1])
    ensures CoordinateMembers(cs[|cs| - 1]) == CoordinateMembers(ds[|ds| - 1])
  {
    hide *;
    ValuesSnoc(cs);
    ValuesSnoc(ds);
  }

  lemma ValuesSnoc(cs: seq<Coordinate>)
    requires cs != []
    ensures var vs, n := CoordinateValues(cs), |cs| - 1;
            |vs| == n + 1 && vs[..n] == CoordinateValues(cs[..n]) && vs[n] == JObject(CoordinateMembers(cs[n]))
  {
    hide CoordinateMembers;
  }

  // ---------------------------------------------------------------- entries

  lemma EntryNamesDistinct()
    ensures Distinct(COORDINATE, DOCUMENT_ID, LINES_OBSERVED, SOURCE, WINDOW)
  {
    EntryNamesOrder();
    hide KeyLess;
    AscendDistinct(COORDINATE, DOCUMENT_ID, LINES_OBSERVED, SOURCE, WINDOW);
  }

  lemma EntryPartsNamed(e: Entry)
    ensures FiveNamed(CoordinateMember(e.coordinate), TextMember(DOCUMENT_ID, e.documentId),
                      [Member(LINES_OBSERVED, JNumber(e.linesObserved))], SourceMember(e.source),
                          WindowMembers(e.window),
                      COORDINATE, DOCUMENT_ID, LINES_OBSERVED, SOURCE, WINDOW)
  {
    hide CoordinateMembers, SourceMembers;
  }

  lemma EntryMembersAre(e: Entry)
    ensures EntryMembers(e) == CoordinateMember(e.coordinate) + TextMember(DOCUMENT_ID, e.documentId)
              + [Member(LINES_OBSERVED, JNumber(e.linesObserved))] + SourceMember(e.source) + WindowMembers(e.window)
  {
    hide CoordinateMembers, SourceMembers, WindowMembers, TextMember;
  }

  lemma EntryParts(e: Entry)
    ensures var ms := EntryMembers(e);
            && Named(ms, COORDINATE) == CoordinateMember(e.coordinate)
            && Named(ms, DOCUMENT_ID) == TextMember(DOCUMENT_ID, e.documentId)
            && Named(ms, LINES_OBSERVED) == [Member(LINES_OBSERVED, JNumber(e.linesObserved))]
            && Named(ms, SOURCE) == SourceMember(e.source)
            && Named(ms, WINDOW) == WindowMembers(e.window)
  {
    EntryNamesDistinct();
    EntryPartsNamed(e);
    hide Named, FiveNamed, Distinct, CoordinateMember, SourceMember, TextMember, WindowMembers;
    EntryMembersAre(e);
    hide EntryMembers;
    PartOf(CoordinateMember(e.coordinate), TextMember(DOCUMENT_ID, e.documentId),
           [Member(LINES_OBSERVED, JNumber(e.linesObserved))],
           SourceMember(e.source), WindowMembers(e.window), COORDINATE, DOCUMENT_ID, LINES_OBSERVED, SOURCE, WINDOW);
  }

  lemma WindowInjective(x: Option<WindowBounds>, y: Option<WindowBounds>)
    requires WindowMembers(x) == WindowMembers(y)
    ensures x == y
  {
    var a, b := WindowMembers(x)[0].value.members, WindowMembers(y)[0].value.members;
    assert a == b;
    if x.Some? { assert a[0] == b[0] && a[1] == b[1]; }
  }

  /** An entry is determined by its members: the omitted source is exactly the empty one. */
  lemma EntryInjective(e: Entry, f: Entry)
    requires EntryMembers(e) == EntryMembers(f)
    ensures e == f
  {
    EntryParts(e);
    EntryParts(f);
    TextMemberInjective(DOCUMENT_ID, e.documentId, f.documentId);
    WindowInjective(e.window, f.window);
    hide Named, EntryMembers, WindowMembers, TextMember, CoordinateMembers, SourceMembers;
    LinesInjective(e.linesObserved, f.linesObserved);
    OptionalCoordinateInjective(e.coordinate, f.coordinate);
    SourceMemberInjective(e.source, f.source);
  }

  lemma LinesInjective(n: nat, m: nat)
    requires [Member(LINES_OBSERVED, JNumber(n))] == [Member(LINES_OBSERVED, JNumber(m))]
    ensures n == m
  {
    assert [Member(LINES_OBSERVED, JNumber(n))][0] == [Member(LINES_OBSERVED, JNumber(m))][0];
  }

  lemma OptionalCoordinateInjective(c: Option<Coordinate>, d: Option<Coordinate>)
    requires CoordinateMember(c) == CoordinateMember(d)
    ensures c == d
  {
    hide CoordinateMembers;
    if c.Some? {
      assert CoordinateMember(c)[0] == CoordinateMember(d)[0];
      CoordinateInjective(c.value, d.value);
    }
  }

  lemma SourceMemberInjective(s: Source, u: Source)
    requires SourceMember(s) == SourceMember(u)
    ensures s == u
  {
    hide SourceMembers;
    if SourceMembers(s) != [] {
      assert SourceMember(s)[0] == SourceMember(u)[0];
    }
    SourceInjective(s, u);
  }

  // ---------------------------------------------------------------- keys

  /** The RFC 8785 bytes, then the exact-decimal bytes; compared as a pair. */
  datatype CanonicalKey = CanonicalKey(ecma: Text, exact: Text)

  predicate KeyBefore(a: CanonicalKey, b: CanonicalKey) {
    LexLess(a.ecma, b.ecma) || (a.ecma == b.ecma && LexLess(a.exact, b.exact))
  }

  ghost function EntryKey(e: Entry, ecma: nat -> Text): CanonicalKey {
    var v := JObject(EntryMembers(e));
    CanonicalKey(Print(v, Ecma, ecma), Print(v, Exact, ecma))
  }

  function CoordinateKey(c: Coordinate, ecma: nat -> Text): CanonicalKey {
    var v := JObject(CoordinateMembers(c));
    CanonicalKey(Print(v, Ecma, ecma), Print(v, Exact, ecma))
  }

  /** Two keys tie only on equal values, whatever digits the rounded form writes. */
  lemma KeysTieOnlyOnEqual(e: Entry, f: Entry, c: Coordinate, d: Coordinate, ecma: nat -> Text)
    ensures EntryKey(e, ecma) == EntryKey(f, ecma) <==> e == f
    ensures CoordinateKey(c, ecma) == CoordinateKey(d, ecma) <==> c == d
  {
    hide *;
    if EntryKey(e, ecma) == EntryKey(f, ecma) { EntryKeyDecides(e, f, ecma); }
    if CoordinateKey(c, ecma) == CoordinateKey(d, ecma) { CoordinateKeyDecides(c, d, ecma); }
  }

  lemma EntryKeyDecides(e: Entry, f: Entry, ecma: nat -> Text)
    requires EntryKey(e, ecma) == EntryKey(f, ecma)
    ensures e == f
  {
    var v, w := JObject(EntryMembers(e)), JObject(EntryMembers(f));
    hide Print, EntryMembers;
    ExactIgnoresEcma(v, ecma);
    ExactIgnoresEcma(w, ecma);
    ExactTextDecodes(v, w);
    EntryInjective(e, f);
  }

  lemma CoordinateKeyDecides(c: Coordinate, d: Coordinate, ecma: nat -> Text)
    requires CoordinateKey(c, ecma) == CoordinateKey(d, ecma)
    ensures c == d
  {
    var v, w := JObject(CoordinateMembers(c)), JObject(CoordinateMembers(d));
    hide Print, CoordinateMembers;
    ExactIgnoresEcma(v, ecma);
    ExactIgnoresEcma(w, ecma);
    ExactTextDecodes(v, w);
    CoordinateInjective(c, d);
  }
}
