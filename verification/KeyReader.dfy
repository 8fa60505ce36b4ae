/** Reading a printed entry, source or coordinate back by the names of its fields, as the wire format gives them. */
module KeyReader {
  import opened Options
  import opened Orders
  import opened Bytes
  import opened Utf16Order
  import opened Json
  import opened JsonReader
  import opened CanonicalKeys
  import opened KeyInjectivity

  // ---------------------------------------------------------------- fields by name

  function Lookup(ms: seq<Member>, name: Text): (v: Option<Value>)
    ensures v.Some? ==> exists i :: 0 <= i < |ms| && ms[i].value == v.value
  {
    if ms == [] then None else if ms[0].name == name then Some(ms[0].value) else Lookup(ms[1..], name)
  }

  /** The member of an object under a name. */
  function FieldOf(v: Value, name: string): (f: Option<Value>)
    requires forall c :: c in name ==> c < 128 as char
    ensures f.Some? ==> v.JObject? && exists i :: 0 <= i < |v.members| && v.members[i].value == f.value
  {
    if v.JObject? then Lookup(v.members, Ascii(name)) else None
  }

  function TextField(v: Value, name: string): Option<Text>
    requires forall c :: c in name ==> c < 128 as char
  {
    match FieldOf(v, name) case Some(JString(text)) => Some(text) case _ => None
  }

  function NumberField(v: Value, name: string): Option<nat>
    requires forall c :: c in name ==> c < 128 as char
  {
    match FieldOf(v, name) case Some(JNumber(n)) => Some(n) case _ => None
  }

  // ---------------------------------------------------------------- records

  function ReadBounds(v: Option<Value>): Option<TickBounds> {
    if v.None? || NumberField(v.value, "start_tick").None? || NumberField(v.value, "end_tick").None? then None
    else Some(TickBounds(NumberField(v.value, "start_tick").value, NumberField(v.value, "end_tick").value))
  }

  function ReadRef(v: Option<Value>): Option<SourceRef> {
    if v.None? || TextField(v.value, "resolver_kind").None? || TextField(v.value, "handle").None? then None
    else Some(SourceRef(TextField(v.value, "resolver_kind").value, TextField(v.value, "handle").value))
  }

  function ReadCoordinate(v: Value): Coordinate
    decreases v
  {
    Coordinate(ReadRef(FieldOf(v, "source_ref")), ReadBounds(FieldOf(v, "bounds")),
               TextField(v, "canonicalization_version"), TextField(v, "config_hash"),
               match FieldOf(v, "children")
               case Some(JArray(items)) =>
                 Children(seq(|items|, i requires 0 <= i < |items| => ReadCoordinate(items[i])))
               case _ => NoChildren)
  }

  function ReadTags(ms: seq<Member>): map<Text, Text> {
    if ms == [] then map[]
    else
      var before, last := ReadTags(ms[..|ms| - 1]), ms[|ms| - 1];
      if last.value.JString? then before[last.name := last.value.text] else before
  }

  function ReadSource(v: Value): Source {
    Source(TextField(v, "service"), TextField(v, "fleet"), NumberField(v, "host_count"), TextField(v, "host"),
           match FieldOf(v, "tags") case Some(JObject(tags)) => ReadTags(tags) case _ => map[])
  }

  function ReadWindow(v: Option<Value>): Option<WindowBounds> {
    if v.None? || TextField(v.value, "start").None? || TextField(v.value, "end").None? then None
    else Some(WindowBounds(TextField(v.value, "start").value, TextField(v.value, "end").value))
  }

  /** An omitted source is the empty one. */
  function ReadEntry(v: Value): Entry {
    Entry(ReadWindow(FieldOf(v, "window")),
          ReadSource(match FieldOf(v, "source") case Some(s) => s case None => JObject([])),
          match NumberField(v, "lines_observed") case Some(n) => n case None => 0,
          TextField(v, "document_id"),
          match FieldOf(v, "coordinate") case Some(c) => Some(ReadCoordinate(c)) case None => None)
  }

  // ---------------------------------------------------------------- what is printed is read

  lemma {:induction false} LookupNamed(ms: seq<Member>, name: Text)
    ensures Lookup(ms, name) == if Named(ms, name) == [] then None else Some(Named(ms, name)[0].value)
  {
    if ms != [] {
      assert ms == [ms[0]] + ms[1..];
      NamedConcat([ms[0]], ms[1..], name);
      assert [ms[0]][..0] == [];
      assert Named([ms[0]], name) == if ms[0].name == name then [ms[0]] else [];
      LookupNamed(ms[1..], name);
    }
  }

  lemma PairFields(a: Member, b: Member)
    requires a.name != b.name
    ensures Lookup([a, b], a.name) == Some(a.value) && Lookup([a, b], b.name) == Some(b.value)
  {
    assert [a, b][1..] == [b];
  }

  lemma NamesDiffer()
    ensures END_TICK != START_TICK && HANDLE != RESOLVER_KIND && END != START
  {
    CoordinateNamesOrder();
    hide KeyLess;
    KeyIrreflexive(END_TICK);
    KeyIrreflexive(HANDLE);
    KeyIrreflexive(END);
  }

  lemma BoundsRead(bounds: Option<TickBounds>)
    ensures var ms := BoundsMembers(bounds);
            ReadBounds(if ms == [] then None else Some(ms[0].value)) == bounds
  {
    if bounds.Some? {
      NamesDiffer();
      PairFields(Member(END_TICK, JNumber(bounds.value.endTick)), Member(START_TICK, JNumber(bounds.value.startTick)));
    }
  }

  lemma RefRead(ref: Option<SourceRef>)
    ensures var ms := RefMembers(ref);
            ReadRef(if ms == [] then None else Some(ms[0].value)) == ref
  {
    if ref.Some? {
      NamesDiffer();
      PairFields(Member(HANDLE, JString(ref.value.handle)), Member(RESOLVER_KIND, JString(ref.value.resolverKind)));
    }
  }

  lemma WindowRead(window: Option<WindowBounds>)
    ensures ReadWindow(Some(WindowMembers(window)[0].value)) == window
  {
    if window.Some? {
      NamesDiffer();
      PairFields(Member(END, JString(window.value.endIso)), Member(START, JString(window.value.startIso)));
    }
  }

  lemma {:induction false} TagsRead(ms: seq<Member>, tags: map<Text, Text>, names: seq<Text>)
    requires NoDuplicates(names) && |ms| == |names|
    requires forall i :: 0 <= i < |ms| ==> names[i] in tags && ms[i] == Member(names[i], JString(tags[names[i]]))
    ensures ReadTags(ms) == map name | name in names :: tags[name]
  {
    if ms != [] {
      var front, rest := ms[..|ms| - 1], names[..|names| - 1];
      assert names == rest + [names[|names| - 1]];
      TagsRead(front, tags, rest);
    }
  }

  lemma TagMembersRead(tags: map<Text, Text>)
    ensures ReadTags(TagMembers(tags)) == tags
  {
    var names, ms := TagNames(tags), TagMembers(tags);
    assert |ms| == |names|;
    TagNamesDistinct(tags);
    hide *;
    TagsRead(ms, tags, names);
    MapOfNames(tags, names);
  }

  lemma TagNamesDistinct(tags: map<Text, Text>)
    ensures NoDuplicates(TagNames(tags)) && Elements(TagNames(tags)) == tags.Keys
  {
    hide *;
    KeyOrderIsTotal();
    AscendingIsSorted(KeyOrder, TagNames(tags));
  }

  lemma MapOfNames(tags: map<Text, Text>, names: seq<Text>)
    requires Elements(names) == tags.Keys
    ensures forall name :: name in names ==> name in tags
    ensures (map name | name in names :: tags[name]) == tags
  {
    assert forall name :: name in tags.Keys <==> name in Elements(names);
  }

  lemma TextFieldRead(ms: seq<Member>, name: Text, value: Option<Text>)
    requires Named(ms, name) == TextMember(name, value)
    ensures match Lookup(ms, name)
            case Some(JString(text)) => value == Some(text)
            case _ => value == None
  {
    LookupNamed(ms, name);
  }

  lemma NumberFieldRead(ms: seq<Member>, name: Text, value: Option<nat>)
    requires Named(ms, name) == NumberMember(name, value)
    ensures match Lookup(ms, name)
            case Some(JNumber(n)) => value == Some(n)
            case _ => value == None
  {
    LookupNamed(ms, name);
  }

  lemma TagsFieldRead(ms: seq<Member>, tags: map<Text, Text>)
    requires Named(ms, TAGS) == TagsMember(tags)
    ensures match Lookup(ms, TAGS)
            case Some(JObject(members)) => ReadTags(members) == tags
            case _ => tags == map[]
  {
    LookupNamed(ms, TAGS);
    TagMembersRead(tags);
  }

  /** A printed source, read by the names of its fields, is that source. */
  lemma SourceReads(source: Source)
    ensures ReadSource(JObject(SourceMembers(source))) == source
  {
    var ms := SourceMembers(source);
    SourceParts(source);
    hide Named, SourceMembers, TagsMember, TextMember, NumberMember, Lookup;
    TextFieldRead(ms, FLEET, source.fleet);
    TextFieldRead(ms, HOST, source.host);
    NumberFieldRead(ms, HOST_COUNT, source.hostCount);
    TextFieldRead(ms, SERVICE, source.service);
    TagsFieldRead(ms, source.tags);
  }

  lemma BoundsFieldRead(ms: seq<Member>, bounds: Option<TickBounds>)
    requires Named(ms, BOUNDS) == BoundsMembers(bounds)
    ensures ReadBounds(Lookup(ms, BOUNDS)) == bounds
  {
    LookupNamed(ms, BOUNDS);
    BoundsRead(bounds);
    hide BoundsMembers, ReadBounds, Named, Lookup;
  }

  lemma RefFieldRead(ms: seq<Member>, ref: Option<SourceRef>)
    requires Named(ms, SOURCE_REF) == RefMembers(ref)
    ensures ReadRef(Lookup(ms, SOURCE_REF)) == ref
  {
    LookupNamed(ms, SOURCE_REF);
    RefRead(ref);
    hide RefMembers, ReadRef, Named, Lookup;
  }

  lemma ChildrenFieldRead(ms: seq<Member>, children: Children)
    requires Named(ms, CHILDREN) == ChildrenMember(children)
    requires children.Children? ==>
               forall i :: 0 <= i < |children.list| ==>
                 ReadCoordinate(CoordinateValues(children.list)[i]) == children.list[i]
    ensures children == match Lookup(ms, CHILDREN)
                        case Some(JArray(items)) =>
                          Children(seq(|items|, i requires 0 <= i < |items| => ReadCoordinate(items[i])))
                        case _ => NoChildren
  {
    LookupNamed(ms, CHILDREN);
    hide Named, Lookup, ReadCoordinate, CoordinateValues;
  }

  lemma CoordinateFields(ms: seq<Member>, c: Coordinate)
    requires ReadRef(Lookup(ms, SOURCE_REF)) == c.sourceRef && ReadBounds(Lookup(ms, BOUNDS)) == c.bounds
    requires match Lookup(ms, CANONICALIZATION_VERSION)
             case Some(JString(text)) => c.canonicalizationVersion == Some(text)
             case _ => c.canonicalizationVersion == None
    requires match Lookup(ms, CONFIG_HASH)
             case Some(JString(text)) => c.configHash == Some(text)
             case _ => c.configHash == None
    requires c.children == match Lookup(ms, CHILDREN)
                           case Some(JArray(items)) =>
                             Children(seq(|items|, i requires 0 <= i < |items| => ReadCoordinate(items[i])))
                           case _ => NoChildren
    ensures ReadCoordinate(JObject(ms)) == c
  {
    hide ReadRef, ReadBounds, Lookup;
  }

  /** A printed coordinate, however deep its children go, read by the names of its fields, is that coordinate. */
  lemma {:induction false} CoordinateReads(c: Coordinate)
    ensures ReadCoordinate(JObject(CoordinateMembers(c))) == c
    decreases c, 0
  {
    var ms := CoordinateMembers(c);
    if c.children.Children? { CoordinatesRead(c.children.list); }
    hide Named, CoordinateMembers, TextMember, BoundsMembers, RefMembers, ChildrenMember, CoordinateValues, Lookup,
         ReadRef, ReadBounds, ReadCoordinate;
    CoordinateParts(c);
    BoundsFieldRead(ms, c.bounds);
    RefFieldRead(ms, c.sourceRef);
    ChildrenFieldRead(ms, c.children);
    TextFieldRead(ms, CANONICALIZATION_VERSION, c.canonicalizationVersion);
    TextFieldRead(ms, CONFIG_HASH, c.configHash);
    CoordinateFields(ms, c);
  }

  lemma {:induction false} CoordinatesRead(cs: seq<Coordinate>)
    ensures forall i :: 0 <= i < |cs| ==> ReadCoordinate(CoordinateValues(cs)[i]) == cs[i]
    decreases cs, 1
  {
    if cs != [] {
      var front, last := cs[..|cs| - 1], cs[|cs| - 1];
      CoordinatesRead(front);
      assert CoordinateValues(cs) == CoordinateValues(front) + [JObject(CoordinateMembers(last))];
      hide ReadCoordinate, CoordinateMembers, CoordinateValues;
      CoordinateReads(last);
    }
  }

  lemma EntryFieldsRead(ms: seq<Member>, e: Entry)
    requires Named(ms, COORDINATE) == CoordinateMember(e.coordinate) && Named(ms, SOURCE) == SourceMember(e.source)
    requires Named(ms, LINES_OBSERVED) == [Member(LINES_OBSERVED, JNumber(e.linesObserved))]
    requires Named(ms, WINDOW) == WindowMembers(e.window)
    ensures (match Lookup(ms, COORDINATE) case Some(c) => Some(ReadCoordinate(c)) case None => None) == e.coordinate
    ensures ReadSource(match Lookup(ms, SOURCE) case Some(v) => v case None => JObject([])) == e.source
    ensures Lookup(ms, LINES_OBSERVED) == Some(JNumber(e.linesObserved)) && ReadWindow(Lookup(ms, WINDOW)) == e.window
  {
    LookupNamed(ms, COORDINATE);
    LookupNamed(ms, LINES_OBSERVED);
    LookupNamed(ms, SOURCE);
    LookupNamed(ms, WINDOW);
    assert WindowMembers(e.window) != [];
    hide Named, WindowMembers, ReadWindow, ReadSource, ReadCoordinate, CoordinateMembers, SourceMembers, Lookup;
    WindowRead(e.window);
    SourceReads(e.source);
    if e.coordinate.Some? { CoordinateReads(e.coordinate.value); }
  }

  lemma EntryFields(ms: seq<Member>, e: Entry)
    requires (match Lookup(ms, COORDINATE) case Some(c) => Some(ReadCoordinate(c)) case None => None) == e.coordinate
    requires ReadSource(match Lookup(ms, SOURCE) case Some(v) => v case None => JObject([])) == e.source
    requires Lookup(ms, LINES_OBSERVED) == Some(JNumber(e.linesObserved)) && ReadWindow(Lookup(ms, WINDOW)) == e.window
    requires match Lookup(ms, DOCUMENT_ID)
             case Some(JString(text)) => e.documentId == Some(text)
             case _ => e.documentId == None
    ensures ReadEntry(JObject(ms)) == e
  {
    hide ReadWindow, ReadSource, ReadCoordinate, Lookup;
  }

  /** A printed entry, read by the names of its fields, is that entry: what a source or a member leaves out is read
      as absent. */
  lemma EntryReads(e: Entry)
    ensures ReadEntry(JObject(EntryMembers(e))) == e
  {
    var ms := EntryMembers(e);
    hide Named, EntryMembers, TextMember, CoordinateMember, SourceMember, WindowMembers, ReadEntry, ReadWindow,
         ReadSource, ReadCoordinate, Lookup;
    EntryParts(e);
    EntryFieldsRead(ms, e);
    TextFieldRead(ms, DOCUMENT_ID, e.documentId);
    EntryFields(ms, e);
  }

  /** The key texts are the JSON of what they are keys of: the exact bytes, read by the grammar and by the names of the
      fields, give back the entry or the coordinate. */
  lemma KeysReadBack(e: Entry, c: Coordinate, ecma: nat -> Text)
    ensures match ReadValue(EntryKey(e, ecma).exact)
            case Some(found) => found.rest == [] && ReadEntry(found.it) == e
            case None => false
    ensures match ReadValue(CoordinateKey(c, ecma).exact)
            case Some(found) => found.rest == [] && ReadCoordinate(found.it) == c
            case None => false
  {
    ExactTextReads(JObject(EntryMembers(e)), ecma);
    ExactTextReads(JObject(CoordinateMembers(c)), ecma);
    hide ReadValue, Print, EntryMembers, CoordinateMembers, ReadEntry, ReadCoordinate;
    EntryReads(e);
    CoordinateReads(c);
  }
}
