/** Coordinates, sources and provenance entries as canonical JSON, and the keys that order them. */
module CanonicalKeys {
  import opened Options
  import opened Orders
  import opened Bytes
  import opened Utf16Order
  import opened Json

  datatype SourceRef = SourceRef(resolverKind: Text, handle: Text)

  datatype TickBounds = TickBounds(startTick: nat, endTick: nat)

  datatype Coordinate = Coordinate(sourceRef: Option<SourceRef>, bounds: Option<TickBounds>,
                                   canonicalizationVersion: Option<Text>, configHash: Option<Text>,
                                   children: Children)

  /** A raw coordinate has no children; a composed one holds the set of its members'. */
  datatype Children = NoChildren | Children(list: seq<Coordinate>)

  datatype Source = Source(service: Option<Text>, fleet: Option<Text>, hostCount: Option<nat>, host: Option<Text>,
                           tags: map<Text, Text>)

  datatype WindowBounds = WindowBounds(startIso: Text, endIso: Text)

  datatype Entry = Entry(window: Option<WindowBounds>, source: Source, linesObserved: nat, documentId: Option<Text>,
                         coordinate: Option<Coordinate>)

  const FLEET := Ascii("fleet")
  const HOST := Ascii("host")
  const HOST_COUNT := Ascii("host_count")
  const SERVICE := Ascii("service")
  const TAGS := Ascii("tags")
  const BOUNDS := Ascii("bounds")
  const END_TICK := Ascii("end_tick")
  const START_TICK := Ascii("start_tick")
  const CANONICALIZATION_VERSION := Ascii("canonicalization_version")
  const CHILDREN := Ascii("children")
  const CONFIG_HASH := Ascii("config_hash")
  const SOURCE_REF := Ascii("source_ref")
  const HANDLE := Ascii("handle")
  const RESOLVER_KIND := Ascii("resolver_kind")
  const COORDINATE := Ascii("coordinate")
  const DOCUMENT_ID := Ascii("document_id")
  const LINES_OBSERVED := Ascii("lines_observed")
  const SOURCE := Ascii("source")
  const WINDOW := Ascii("window")
  const END := Ascii("end")
  const START := Ascii("start")

  // ---------------------------------------------------------------- as JSON values

  function TextMember(name: Text, value: Option<Text>): seq<Member> {
    if value.Some? then [Member(name, JString(value.value))] else []
  }

  function NumberMember(name: Text, value: Option<nat>): seq<Member> {
    if value.Some? then [Member(name, JNumber(value.value))] else []
  }

  ghost function TagNames(tags: map<Text, Text>): (names: seq<Text>)
    ensures Ascending(KeyOrder, names) && Elements(names) == tags.Keys
    ensures forall n :: n in names ==> n in tags
  {
    KeyOrderIsTotal();
    var names := SortedOf(KeyOrder, tags.Keys);
    assert forall n :: n in names ==> n in Elements(names);
    names
  }

  ghost function TagMembers(tags: map<Text, Text>): (members: seq<Member>)
    ensures |members| == |TagNames(tags)|
    ensures forall i :: 0 <= i < |members| ==>
              TagNames(tags)[i] in tags && members[i] == Member(TagNames(tags)[i], JString(tags[TagNames(tags)[i]]))
  {
    var names := TagNames(tags);
    seq(|names|, i requires 0 <= i < |names| => assert names[i] in names; Member(names[i], JString(tags[names[i]])))
  }

  ghost function SourceMembers(source: Source): seq<Member> {
    TextMember(FLEET, source.fleet) + TextMember(HOST, source.host) + NumberMember(HOST_COUNT, source.hostCount)
    + TextMember(SERVICE, source.service)
    + TagsMember(source.tags)
  }

  ghost function TagsMember(tags: map<Text, Text>): seq<Member> {
    if tags != map[] then [Member(TAGS, JObject(TagMembers(tags)))] else []
  }

  function BoundsMembers(bounds: Option<TickBounds>): seq<Member> {
    if bounds.None? then []
    else
        [Member(BOUNDS, JObject([Member(END_TICK, JNumber(bounds.value.endTick)),
                                 Member(START_TICK, JNumber(bounds.value.startTick))]))]
  }

  function RefMembers(ref: Option<SourceRef>): seq<Member> {
    if ref.None? then []
    else
        [Member(SOURCE_REF, JObject([Member(HANDLE, JString(ref.value.handle)),
                                     Member(RESOLVER_KIND, JString(ref.value.resolverKind))]))]
  }

  function CoordinateMembers(c: Coordinate): seq<Member>
    decreases c, 0
  {
    BoundsMembers(c.bounds) + TextMember(CANONICALIZATION_VERSION, c.canonicalizationVersion)
    + ChildrenMember(c.children)
    + TextMember(CONFIG_HASH, c.configHash) + RefMembers(c.sourceRef)
  }

  function ChildrenMember(children: Children): seq<Member>
    decreases children, 2
  {
    if children.Children? then [Member(CHILDREN, JArray(CoordinateValues(children.list)))] else []
  }

  function CoordinateValues(cs: seq<Coordinate>): (vs: seq<Value>)
    ensures |vs| == |cs|
    decreases cs, 1
  {
    if cs == [] then [] else CoordinateValues(cs[..|cs| - 1]) + [JObject(CoordinateMembers(cs[|cs| - 1]))]
  }

  function WindowMembers(window: Option<WindowBounds>): seq<Member> {
    [Member(WINDOW, JObject(if window.Some?
                            then [Member(END, JString(window.value.endIso)),
                                  Member(START, JString(window.value.startIso))]
                            else []))]
  }

  ghost function CoordinateMember(c: Option<Coordinate>): seq<Member> {
    if c.Some? then [Member(COORDINATE, JObject(CoordinateMembers(c.value)))] else []
  }

  ghost function SourceMember(s: Source): seq<Member> {
    if SourceMembers(s) != [] then [Member(SOURCE, JObject(SourceMembers(s)))] else []
  }

  ghost function EntryMembers(e: Entry): seq<Member> {
    CoordinateMember(e.coordinate)
    + TextMember(DOCUMENT_ID, e.documentId)
    + [Member(LINES_OBSERVED, JNumber(e.linesObserved))]
    + SourceMember(e.source)
    + WindowMembers(e.window)
  }

  // ---------------------------------------------------------------- members in canonical order

  ghost predicate NamesAscend(ms: seq<Member>) {
    forall i, j {:trigger ms[i], ms[j]} :: 0 <= i < j < |ms| ==> KeyLess(ms[i].name, ms[j].name)
  }

  /** Section 3.2.3 of RFC 8785, at every level of the value. */
  ghost predicate Canonical(v: Value)
    decreases v
  {
    match v
    case JString(_) => true
    case JNumber(_) => true
    case JArray(items) => forall i {:trigger items[i]} :: 0 <= i < |items| ==> Canonical(items[i])
    case JObject(ms) => NamesAscend(ms) && forall i {:trigger ms[i]} :: 0 <= i < |ms| ==> Canonical(ms[i].value)
  }

  /** Names whose bytes first differ at `i`, below any byte the remap moves. */
  lemma NameBefore(a: Text, b: Text, i: nat)
    requires i <= |a| && i < |b| && a[..i] == b[..i] && b[i] < 0x80
    requires i == |a| || a[i] < b[i]
    ensures KeyLess(a, b)
  {
    var x, y := Remapped(a), Remapped(b);
    assert x[..i] == y[..i] by { assert forall k :: 0 <= k < i ==> a[..i][k] == b[..i][k]; }
    assert x == x[..i] + x[i..] && y == y[..i] + y[i..];
    LexCommonPrefix(x[..i], x[i..], y[i..]);
  }

  lemma SourceNamesOrder()
    ensures KeyLess(FLEET, HOST) && KeyLess(FLEET, HOST_COUNT) && KeyLess(FLEET, SERVICE) && KeyLess(FLEET, TAGS)
    ensures KeyLess(HOST, HOST_COUNT) && KeyLess(HOST, SERVICE) && KeyLess(HOST, TAGS)
    ensures KeyLess(HOST_COUNT, SERVICE) && KeyLess(HOST_COUNT, TAGS) && KeyLess(SERVICE, TAGS)
  {
    NameBefore(FLEET, HOST, 0);
    NameBefore(FLEET, HOST_COUNT, 0);
    NameBefore(FLEET, SERVICE, 0);
    NameBefore(FLEET, TAGS, 0);
    assert HOST == HOST_COUNT[..4];
    NameBefore(HOST, HOST_COUNT, 4);
    NameBefore(HOST, SERVICE, 0);
    NameBefore(HOST, TAGS, 0);
    NameBefore(HOST_COUNT, SERVICE, 0);
    NameBefore(HOST_COUNT, TAGS, 0);
    NameBefore(SERVICE, TAGS, 0);
  }

  lemma CoordinateNamesOrder()
    ensures KeyLess(BOUNDS, CANONICALIZATION_VERSION) && KeyLess(BOUNDS, CHILDREN) && KeyLess(BOUNDS, CONFIG_HASH)
        && KeyLess(BOUNDS, SOURCE_REF)
    ensures KeyLess(CANONICALIZATION_VERSION, CHILDREN) && KeyLess(CANONICALIZATION_VERSION, CONFIG_HASH)
        && KeyLess(CANONICALIZATION_VERSION, SOURCE_REF)
    ensures KeyLess(CHILDREN, CONFIG_HASH) && KeyLess(CHILDREN, SOURCE_REF) && KeyLess(CONFIG_HASH, SOURCE_REF)
    ensures KeyLess(END_TICK, START_TICK) && KeyLess(HANDLE, RESOLVER_KIND) && KeyLess(END, START)
  {
    NameBefore(BOUNDS, CANONICALIZATION_VERSION, 0);
    NameBefore(BOUNDS, CHILDREN, 0);
    NameBefore(BOUNDS, CONFIG_HASH, 0);
    NameBefore(BOUNDS, SOURCE_REF, 0);
    NameBefore(CANONICALIZATION_VERSION, CHILDREN, 1);
    NameBefore(CANONICALIZATION_VERSION, CONFIG_HASH, 1);
    NameBefore(CANONICALIZATION_VERSION, SOURCE_REF, 0);
    NameBefore(CHILDREN, CONFIG_HASH, 1);
    NameBefore(CHILDREN, SOURCE_REF, 0);
    NameBefore(CONFIG_HASH, SOURCE_REF, 0);
    NameBefore(END_TICK, START_TICK, 0);
    NameBefore(HANDLE, RESOLVER_KIND, 0);
    NameBefore(END, START, 0);
  }

  lemma EntryNamesOrder()
    ensures KeyLess(COORDINATE, DOCUMENT_ID) && KeyLess(COORDINATE, LINES_OBSERVED) && KeyLess(COORDINATE, SOURCE)
        && KeyLess(COORDINATE, WINDOW)
    ensures KeyLess(DOCUMENT_ID, LINES_OBSERVED) && KeyLess(DOCUMENT_ID, SOURCE) && KeyLess(DOCUMENT_ID, WINDOW)
    ensures KeyLess(LINES_OBSERVED, SOURCE) && KeyLess(LINES_OBSERVED, WINDOW) && KeyLess(SOURCE, WINDOW)
  {
    NameBefore(COORDINATE, DOCUMENT_ID, 0);
    NameBefore(COORDINATE, LINES_OBSERVED, 0);
    NameBefore(COORDINATE, SOURCE, 0);
    NameBefore(COORDINATE, WINDOW, 0);
    NameBefore(DOCUMENT_ID, LINES_OBSERVED, 0);
    NameBefore(DOCUMENT_ID, SOURCE, 0);
    NameBefore(DOCUMENT_ID, WINDOW, 0);
    NameBefore(LINES_OBSERVED, SOURCE, 0);
    NameBefore(LINES_OBSERVED, WINDOW, 0);
    NameBefore(SOURCE, WINDOW, 0);
  }

  /** At most one member, under the given name, its value canonical. */
  ghost predicate IsPart(ms: seq<Member>, name: Text) {
    |ms| <= 1 && forall m :: m in ms ==> m.name == name && Canonical(m.value)
  }

  ghost predicate FiveAscend(a: Text, b: Text, c: Text, d: Text, e: Text) {
    && KeyLess(a, b) && KeyLess(a, c) && KeyLess(a, d) && KeyLess(a, e) && KeyLess(b, c)
    && KeyLess(b, d) && KeyLess(b, e) && KeyLess(c, d) && KeyLess(c, e) && KeyLess(d, e)
  }

  lemma PartsCanonical(a: seq<Member>, b: seq<Member>, c: seq<Member>, d: seq<Member>, e: seq<Member>,
                       na: Text, nb: Text, nc: Text, nd: Text, ne: Text)
    requires IsPart(a, na) && IsPart(b, nb) && IsPart(c, nc) && IsPart(d, nd) && IsPart(e, ne)
        && FiveAscend(na, nb, nc, nd, ne)
    ensures Canonical(JObject(a + b + c + d + e))
  {
    hide KeyLess;
    var ms := a + b + c + d + e;
    assert forall i :: 0 <= i < |ms| ==> ms[i] in a || ms[i] in b || ms[i] in c || ms[i] in d || ms[i] in e;
  }

  lemma TagsCanonical(tags: map<Text, Text>)
    ensures Canonical(JObject(TagMembers(tags)))
  {
    var names := TagNames(tags);
    forall i, j | 0 <= i < j < |names| ensures KeyLess(names[i], names[j]) { assert KeyOrder(names[i], names[j]); }
  }

  lemma TagsPart(tags: map<Text, Text>)
    ensures IsPart(TagsMember(tags), TAGS)
  {
    TagsCanonical(tags);
    hide TagMembers;
  }

  lemma LeafParts(name: Text, text: Option<Text>, other: Text, number: Option<nat>)
    ensures IsPart(TextMember(name, text), name) && IsPart(NumberMember(other, number), other)
  {}

  lemma SourceCanonical(source: Source)
    ensures Canonical(JObject(SourceMembers(source)))
  {
    SourceNamesOrder();
    TagsPart(source.tags);
    hide KeyLess, TagMembers, Canonical;
    LeafParts(FLEET, source.fleet, HOST_COUNT, source.hostCount);
    LeafParts(HOST, source.host, HOST_COUNT, source.hostCount);
    LeafParts(SERVICE, source.service, HOST_COUNT, source.hostCount);
    PartsCanonical(TextMember(FLEET, source.fleet), TextMember(HOST, source.host),
                   NumberMember(HOST_COUNT, source.hostCount),
                   TextMember(SERVICE, source.service),
                   TagsMember(source.tags), FLEET, HOST, HOST_COUNT, SERVICE, TAGS);
  }

  lemma {:induction false} CoordinateCanonical(c: Coordinate)
    ensures Canonical(JObject(CoordinateMembers(c)))
    decreases c, 0
  {
    CoordinateNamesOrder();
    if c.children.Children? { CoordinatesCanonical(c.children.list); }
    BoundsCanonical(c.bounds);
    RefCanonical(c.sourceRef);
    hide KeyLess, CoordinateValues, BoundsMembers, RefMembers;
    PartsCanonical(BoundsMembers(c.bounds), TextMember(CANONICALIZATION_VERSION, c.canonicalizationVersion),
                   ChildrenMember(c.children),
                   TextMember(CONFIG_HASH, c.configHash), RefMembers(c.sourceRef),
                   BOUNDS, CANONICALIZATION_VERSION, CHILDREN, CONFIG_HASH, SOURCE_REF);
  }

  lemma PairCanonical(a: Member, b: Member)
    requires KeyLess(a.name, b.name) && Canonical(a.value) && Canonical(b.value)
    ensures Canonical(JObject([a, b]))
  {
    hide KeyLess;
  }

  lemma BoundsCanonical(bounds: Option<TickBounds>)
    ensures IsPart(BoundsMembers(bounds), BOUNDS)
  {
    CoordinateNamesOrder();
    hide KeyLess;
    if bounds.Some? {
      PairCanonical(Member(END_TICK, JNumber(bounds.value.endTick)),
                    Member(START_TICK, JNumber(bounds.value.startTick)));
    }
  }

  lemma RefCanonical(ref: Option<SourceRef>)
    ensures IsPart(RefMembers(ref), SOURCE_REF)
  {
    CoordinateNamesOrder();
    hide KeyLess;
    if ref.Some? {
      PairCanonical(Member(HANDLE, JString(ref.value.handle)), Member(RESOLVER_KIND, JString(ref.value.resolverKind)));
    }
  }

  lemma {:induction false} CoordinatesCanonical(cs: seq<Coordinate>)
    ensures Canonical(JArray(CoordinateValues(cs)))
    decreases cs, 1
  {
    if cs != [] {
      CoordinatesCanonical(cs[..|cs| - 1]);
      CoordinateCanonical(cs[|cs| - 1]);
    }
  }

  lemma WindowCanonical(window: Option<WindowBounds>)
    ensures IsPart(WindowMembers(window), WINDOW)
  {
    CoordinateNamesOrder();
    hide KeyLess;
    if window.Some? {
      PairCanonical(Member(END, JString(window.value.endIso)), Member(START, JString(window.value.startIso)));
    }
  }

  /** Every object the printer writes for an entry, a source or a coordinate, however deep, has its
      members in canonical order. */
  lemma EntryCanonical(e: Entry)
    ensures Canonical(JObject(EntryMembers(e)))
  {
    EntryNamesOrder();
    SourceCanonical(e.source);
    if e.coordinate.Some? { CoordinateCanonical(e.coordinate.value); }
    WindowCanonical(e.window);
    hide KeyLess, CoordinateMembers, SourceMembers, WindowMembers;
    PartsCanonical(CoordinateMember(e.coordinate),
                   TextMember(DOCUMENT_ID, e.documentId), [Member(LINES_OBSERVED, JNumber(e.linesObserved))],
                   SourceMember(e.source),
                   WindowMembers(e.window), COORDINATE, DOCUMENT_ID, LINES_OBSERVED, SOURCE, WINDOW);
  }
}
