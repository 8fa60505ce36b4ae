/** The canonical writer as it appends to a byte buffer, proved against the printed text. */
module JcsWriter {
  import opened Options
  import opened Orders
  import opened Bytes
  import opened Utf16Order
  import opened Json
  import opened CanonicalKeys
  import opened KeyInjectivity

  class ByteBuffer {
    var bytes: Text

    constructor ()
      ensures bytes == []
    {
      bytes := [];
    }

    method PushBack(b: Byte)
      modifies this
      ensures bytes == old(bytes) + [b]
    {
      bytes := bytes + [b];
    }

    method Append(t: Text)
      modifies this
      ensures bytes == old(bytes) + t
    {
      bytes := bytes + t;
    }
  }

  // ---------------------------------------------------------------- members one at a time

  lemma {:induction false} MembersSnoc(ms: seq<Member>, m: Member, form: NumberForm, ecma: nat -> Text)
    ensures PrintMembers(ms + [m], form, ecma)
         == PrintMembers(ms, form, ecma) + (if ms == [] then [] else [COMMA]) + PrintMember(m, form, ecma)
  {
    var all := ms + [m];
    MembersUnfold(all, form, ecma);
    if ms == [] {
      assert all == [m];
      EmptyMembers(form, ecma);
    } else {
      assert all[1..] == ms[1..] + [m];
      MembersSnoc(ms[1..], m, form, ecma);
      MembersUnfold(ms, form, ecma);
      EmptyMembers(form, ecma);
      hide PrintMember, PrintMembers;
      assert |ms| == 1 ==> ms[1..] == [];
      JoinSnoc(PrintMember(ms[0], form, ecma), PrintMembers(ms[1..], form, ecma), PrintMember(m, form, ecma), |ms| > 1);
    }
  }

  /** A comma-joined list grows at its end. */
  lemma JoinSnoc(head: Text, rest: Text, last: Text, more: bool)
    requires !more ==> rest == []
    ensures head + ([COMMA] + (rest + (if more then [COMMA] else []) + last))
         == (head + if more then [COMMA] + rest else []) + [COMMA] + last
  {}

  lemma {:induction false} ItemsSnoc(vs: seq<Value>, v: Value, form: NumberForm, ecma: nat -> Text)
    ensures PrintItems(vs + [v], form, ecma) == PrintItems(vs, form, ecma) + (if vs == [] then [] else [COMMA])
        + Print(v, form, ecma)
  {
    var all := vs + [v];
    ItemsUnfold(all, form, ecma);
    if vs == [] {
      assert all == [v];
      NothingWritten(form, ecma);
    } else {
      assert all[1..] == vs[1..] + [v];
      ItemsSnoc(vs[1..], v, form, ecma);
      ItemsUnfold(vs, form, ecma);
      NothingWritten(form, ecma);
      hide Print, PrintItems;
      assert |vs| == 1 ==> vs[1..] == [];
      JoinSnoc(Print(vs[0], form, ecma), PrintItems(vs[1..], form, ecma), Print(v, form, ecma), |vs| > 1);
    }
  }

  /** What an object under construction has written: the text before it, its brace and its members. */
  function Open(start: Text, ms: seq<Member>, form: NumberForm, ecma: nat -> Text): Text {
    start + [LBRACE] + PrintMembers(ms, form, ecma)
  }

  function Comma(ms: seq<Member>): Text { if ms == [] then [] else [COMMA] }

  lemma MemberWritten(start: Text, ms: seq<Member>, name: Text, v: Value, form: NumberForm, ecma: nat -> Text)
    ensures Open(start, ms, form, ecma) + Comma(ms) + Quoted(name) + [COLON] + Print(v, form, ecma)
         == Open(start, ms + [Member(name, v)], form, ecma)
  {
    MembersSnoc(ms, Member(name, v), form, ecma);
    hide PrintMembers, Print, Quoted;
    var a, b, c, d := start + [LBRACE], PrintMembers(ms, form, ecma), Comma(ms),
        PrintMember(Member(name, v), form, ecma);
    assert d == Quoted(name) + [COLON] + Print(v, form, ecma);
    assert a + b + c + Quoted(name) + [COLON] + Print(v, form, ecma) == a + (b + c + d);
  }

  lemma ObjectClosed(start: Text, ms: seq<Member>, form: NumberForm, ecma: nat -> Text)
    ensures Open(start, ms, form, ecma) + [RBRACE] == start + Print(JObject(ms), form, ecma)
    ensures Open(start, [], form, ecma) == start + [LBRACE]
  {
    hide PrintMembers;
    assert Print(JObject(ms), form, ecma) == [LBRACE] + PrintMembers(ms, form, ecma) + [RBRACE];
    EmptyMembers(form, ecma);
  }

  lemma EmptyMembers(form: NumberForm, ecma: nat -> Text)
    ensures PrintMembers([], form, ecma) == []
  {}

  class JcsObject {
    const out: ByteBuffer
    var first: bool

    constructor (out: ByteBuffer)
      modifies out
      ensures this.out == out && first && out.bytes == old(out.bytes) + [LBRACE]
    {
      this.out := out;
      first := true;
      new;
      out.PushBack(LBRACE);
    }

    method Key(name: Text)
      modifies this, out
      ensures !first && out.bytes == old(out.bytes) + (if old(first) then [] else [COMMA]) + Quoted(name) + [COLON]
    {
      if !first {
        out.PushBack(COMMA);
      }
      first := false;
      AppendJcsString(out, name);
      out.PushBack(COLON);
    }

    method Close()
      modifies out
      ensures out.bytes == old(out.bytes) + [RBRACE]
    {
      out.PushBack(RBRACE);
    }
  }

  method AppendJcsString(out: ByteBuffer, text: Text)
    modifies out
    ensures out.bytes == old(out.bytes) + Quoted(text)
  {
    hide EscapeByte;
    ghost var start := out.bytes + [QUOTE];
    out.PushBack(QUOTE);
    for i := 0 to |text|
      invariant out.bytes == start + Escaped(text[..i])
    {
      assert text[..i + 1] == text[..i] + [text[i]];
      EscapedSnoc(text[..i], text[i]);
      hide Escaped;
      AppendEscaped(out, text[i]);
    }
    assert text[..|text|] == text;
    out.PushBack(QUOTE);
  }

  method AppendEscaped(out: ByteBuffer, glyph: Byte)
    modifies out
    ensures out.bytes == old(out.bytes) + EscapeByte(glyph)
  {
    if glyph == QUOTE {
      out.Append([BACKSLASH, QUOTE]);
    } else if glyph == BACKSLASH {
      out.Append([BACKSLASH, BACKSLASH]);
    } else if glyph == 0x08 {
      out.Append([BACKSLASH, 0x62]);
    } else if glyph == 0x0C {
      out.Append([BACKSLASH, 0x66]);
    } else if glyph == 0x0A {
      out.Append([BACKSLASH, 0x6E]);
    } else if glyph == 0x0D {
      out.Append([BACKSLASH, 0x72]);
    } else if glyph == 0x09 {
      out.Append([BACKSLASH, 0x74]);
    } else if glyph < 0x20 {
      out.Append([BACKSLASH, 0x75, 0x30, 0x30]);
      out.PushBack(HexDigit(glyph / 16));
      out.PushBack(HexDigit(glyph % 16));
    } else {
      out.PushBack(glyph);
    }
  }

  method AppendJcsNumber(out: ByteBuffer, value: nat, form: NumberForm, ecma: nat -> Text)
    modifies out
    ensures out.bytes == old(out.bytes) + NumberText(value, form, ecma)
  {
    if form == Exact || value <= EXACT_DOUBLE_LIMIT {
      out.Append(Decimal(value));
      return;
    }
    out.Append(ecma(value));
  }

  method TextField(writer: JcsObject, out: ByteBuffer, name: Text, value: Option<Text>, form: NumberForm,
                   ecma: nat -> Text,
                   ghost start: Text, ghost ms: seq<Member>)
    requires writer.out == out && writer.first == (ms == []) && out.bytes == Open(start, ms, form, ecma)
    modifies writer, out
    ensures var all := ms + TextMember(name, value);
            writer.first == (all == []) && out.bytes == Open(start, all, form, ecma)
  {
    hide Open, Quoted;
    if value.Some? {
      writer.Key(name);
      AppendJcsString(out, value.value);
      MemberWritten(start, ms, name, JString(value.value), form, ecma);
    } else {
      assert ms + TextMember(name, value) == ms;
    }
  }

  method NumberField(writer: JcsObject, out: ByteBuffer, name: Text, value: Option<nat>, form: NumberForm,
                     ecma: nat -> Text,
                     ghost start: Text, ghost ms: seq<Member>)
    requires writer.out == out && writer.first == (ms == []) && out.bytes == Open(start, ms, form, ecma)
    modifies writer, out
    ensures var all := ms + NumberMember(name, value);
            writer.first == (all == []) && out.bytes == Open(start, all, form, ecma)
  {
    hide Open, Quoted, NumberText;
    if value.Some? {
      writer.Key(name);
      AppendJcsNumber(out, value.value, form, ecma);
      MemberWritten(start, ms, name, JNumber(value.value), form, ecma);
    } else {
      assert ms + NumberMember(name, value) == ms;
    }
  }

  // ---------------------------------------------------------------- sources

  /** A map's keys in whatever order iteration yields them. */
  method KeysOf(tags: map<Text, Text>) returns (entries: seq<Text>)
    ensures Elements(entries) == tags.Keys && NoDuplicates(entries)
  {
    entries := [];
    var rest := tags.Keys;
    while rest != {}
      invariant Elements(entries) + rest == tags.Keys && Elements(entries) !! rest
      invariant NoDuplicates(entries)
      decreases |rest|
    {
      hide NoDuplicates, Elements;
      var name: Text :| name in rest;
      assert name !in Elements(entries);
      NewItem(entries, name);
      entries := entries + [name];
      rest := rest - {name};
    }
  }

  method SortTags(tags: map<Text, Text>) returns (names: seq<Text>)
    ensures names == TagNames(tags)
  {
    var entries := KeysOf(tags);
    KeyOrderIsTotal();
    names := Sort(KeyOrder, entries);
    SortedIsRanked(KeyOrder, names, entries);
    hide NoDuplicates, Sorted;
    AscendingUnique(KeyOrder, names, TagNames(tags));
  }

  method AppendTags(out: ByteBuffer, tags: map<Text, Text>, form: NumberForm, ecma: nat -> Text)
    modifies out
    ensures out.bytes == old(out.bytes) + Print(JObject(TagMembers(tags)), form, ecma)
  {
    hide Open, Quoted, Print, TagNames;
    ghost var start, all := out.bytes, TagMembers(tags);
    var names := SortTags(tags);
    ObjectClosed(start, [], form, ecma);
    var writer := new JcsObject(out);
    for i := 0 to |names|
      invariant fresh(writer) && writer.out == out
      invariant writer.first == (all[..i] == []) && out.bytes == Open(start, all[..i], form, ecma)
    {
      assert all[i] == Member(names[i], JString(tags[names[i]]));
      assert all[..i + 1] == all[..i] + TextMember(names[i], Some(tags[names[i]]));
      TextField(writer, out, names[i], Some(tags[names[i]]), form, ecma, start, all[..i]);
    }
    assert all[..|names|] == all;
    writer.Close();
    ObjectClosed(start, all, form, ecma);
  }

  method TagsField(writer: JcsObject, out: ByteBuffer, tags: map<Text, Text>, form: NumberForm, ecma: nat -> Text,
                   ghost start: Text, ghost ms: seq<Member>)
    requires writer.out == out && writer.first == (ms == []) && out.bytes == Open(start, ms, form, ecma)
    modifies writer, out
    ensures out.bytes == Open(start, ms + TagsMember(tags), form, ecma)
  {
    hide Open, Quoted, Print, TagMembers;
    if tags != map[] {
      writer.Key(TAGS);
      AppendTags(out, tags, form, ecma);
      MemberWritten(start, ms, TAGS, JObject(TagMembers(tags)), form, ecma);
    } else {
      assert ms + TagsMember(tags) == ms;
    }
  }

  method AppendJcsSource(out: ByteBuffer, source: Source, form: NumberForm, ecma: nat -> Text)
    modifies out
    ensures out.bytes == old(out.bytes) + Print(JObject(SourceMembers(source)), form, ecma)
  {
    hide Open, Quoted, Print, TagMembers, TagsMember, TextMember, NumberMember;
    ghost var start := out.bytes;
    ObjectClosed(start, [], form, ecma);
    var writer := new JcsObject(out);
    TextField(writer, out, FLEET, source.fleet, form, ecma, start, []);
    ghost var one := [] + TextMember(FLEET, source.fleet);
    TextField(writer, out, HOST, source.host, form, ecma, start, one);
    ghost var two := one + TextMember(HOST, source.host);
    NumberField(writer, out, HOST_COUNT, source.hostCount, form, ecma, start, two);
    ghost var three := two + NumberMember(HOST_COUNT, source.hostCount);
    TextField(writer, out, SERVICE, source.service, form, ecma, start, three);
    ghost var four := three + TextMember(SERVICE, source.service);
    TagsField(writer, out, source.tags, form, ecma, start, four);
    assert one == TextMember(FLEET, source.fleet);
    assert four + TagsMember(source.tags) == SourceMembers(source);
    writer.Close();
    ObjectClosed(start, SourceMembers(source), form, ecma);
  }

  // ---------------------------------------------------------------- coordinates

  method PairField(writer: JcsObject, out: ByteBuffer, name: Text, a: Member, b: Member, form: NumberForm,
                   ecma: nat -> Text,
                   ghost start: Text, ghost ms: seq<Member>)
    requires writer.out == out && writer.first == (ms == []) && out.bytes == Open(start, ms, form, ecma)
    requires (a.value.JString? || a.value.JNumber?) && (b.value.JString? || b.value.JNumber?)
    modifies writer, out
    ensures !writer.first && out.bytes == Open(start, ms + [Member(name, JObject([a, b]))], form, ecma)
  {
    hide Open, Quoted, Print;
    writer.Key(name);
    ghost var inner := out.bytes;
    ObjectClosed(inner, [a, b], form, ecma);
    var pair := new JcsObject(out);
    pair.Key(a.name);
    AppendLeaf(out, a.value, form, ecma);
    MemberWritten(inner, [], a.name, a.value, form, ecma);
    assert [] + [Member(a.name, a.value)] == [a];
    pair.Key(b.name);
    AppendLeaf(out, b.value, form, ecma);
    MemberWritten(inner, [a], b.name, b.value, form, ecma);
    assert [a] + [Member(b.name, b.value)] == [a, b];
    pair.Close();
    MemberWritten(start, ms, name, JObject([a, b]), form, ecma);
  }

  method AppendLeaf(out: ByteBuffer, v: Value, form: NumberForm, ecma: nat -> Text)
    requires v.JString? || v.JNumber?
    modifies out
    ensures out.bytes == old(out.bytes) + Print(v, form, ecma)
  {
    hide Quoted, NumberText;
    if v.JString? {
      AppendJcsString(out, v.text);
    } else {
      AppendJcsNumber(out, v.number, form, ecma);
    }
  }

  method AppendJcsCoordinate(out: ByteBuffer, coord: Coordinate, form: NumberForm, ecma: nat -> Text)
    modifies out
    ensures out.bytes == old(out.bytes) + Print(JObject(CoordinateMembers(coord)), form, ecma)
    decreases coord, 0
  {
    hide Open, Quoted, Print, TextMember, CoordinateValues;
    ghost var start, ms := out.bytes, [];
    ObjectClosed(start, [], form, ecma);
    var writer := new JcsObject(out);
    if coord.bounds.Some? {
      PairField(writer, out, BOUNDS, Member(END_TICK, JNumber(coord.bounds.value.endTick)),
                Member(START_TICK, JNumber(coord.bounds.value.startTick)), form, ecma, start, ms);
    } else {
      assert ms + BoundsMembers(coord.bounds) == ms;
    }
    ms := ms + BoundsMembers(coord.bounds);
    TextField(writer, out, CANONICALIZATION_VERSION, coord.canonicalizationVersion, form, ecma, start, ms);
    ms := ms + TextMember(CANONICALIZATION_VERSION, coord.canonicalizationVersion);
    if coord.children.Children? {
      writer.Key(CHILDREN);
      AppendChildren(out, coord.children.list, form, ecma);
      MemberWritten(start, ms, CHILDREN, JArray(CoordinateValues(coord.children.list)), form, ecma);
    } else {
      assert ms + ChildrenMember(coord.children) == ms;
    }
    ms := ms + ChildrenMember(coord.children);
    TextField(writer, out, CONFIG_HASH, coord.configHash, form, ecma, start, ms);
    ms := ms + TextMember(CONFIG_HASH, coord.configHash);
    if coord.sourceRef.Some? {
      PairField(writer, out, SOURCE_REF, Member(HANDLE, JString(coord.sourceRef.value.handle)),
                Member(RESOLVER_KIND, JString(coord.sourceRef.value.resolverKind)), form, ecma, start, ms);
    } else {
      assert ms + RefMembers(coord.sourceRef) == ms;
    }
    ms := ms + RefMembers(coord.sourceRef);
    assert ms == CoordinateMembers(coord);
    writer.Close();
    ObjectClosed(start, ms, form, ecma);
  }

  method AppendChildren(out: ByteBuffer, children: seq<Coordinate>, form: NumberForm, ecma: nat -> Text)
    modifies out
    ensures out.bytes == old(out.bytes) + Print(JArray(CoordinateValues(children)), form, ecma)
    decreases children, 1
  {
    hide Print, PrintItems, CoordinateMembers, CoordinateValues;
    NoChildren();
    ghost var start := out.bytes + [LBRACKET];
    out.PushBack(LBRACKET);
    NothingWritten(form, ecma);
    for index := 0 to |children|
      invariant out.bytes == start + PrintItems(CoordinateValues(children[..index]), form, ecma)
    {
      ghost var vs, v := CoordinateValues(children[..index]), JObject(CoordinateMembers(children[index]));
      NextChild(children, index);
      if index > 0 {
        out.PushBack(COMMA);
      }
      AppendJcsCoordinate(out, children[index], form, ecma);
      ItemsSnoc(vs, v, form, ecma);
    }
    assert children[..|children|] == children;
    out.PushBack(RBRACKET);
    ArrayPrints(CoordinateValues(children), form, ecma);
  }

  lemma NoChildren()
    ensures CoordinateValues([]) == []
  {}

  lemma NextChild(children: seq<Coordinate>, index: nat)
    requires index < |children|
    ensures CoordinateValues(children[..index + 1])
         == CoordinateValues(children[..index]) + [JObject(CoordinateMembers(children[index]))]
  {
    assert children[..index + 1][..index] == children[..index];
    hide CoordinateMembers;
  }

  lemma NothingWritten(form: NumberForm, ecma: nat -> Text)
    ensures PrintItems([], form, ecma) == []
  {}

  lemma ArrayPrints(vs: seq<Value>, form: NumberForm, ecma: nat -> Text)
    ensures Print(JArray(vs), form, ecma) == [LBRACKET] + PrintItems(vs, form, ecma) + [RBRACKET]
  {}

  // ---------------------------------------------------------------- keys

  method JcsBytesOfEntry(entry: Entry, form: NumberForm, ecma: nat -> Text) returns (bytes: Text)
    ensures bytes == Print(JObject(EntryMembers(entry)), form, ecma)
  {
    hide Open, Quoted, Print, TextMember, CoordinateMembers, SourceMembers;
    var out := new ByteBuffer();
    ghost var start: Text, ms := [], [];
    ObjectClosed(start, [], form, ecma);
    var writer := new JcsObject(out);
    if entry.coordinate.Some? {
      writer.Key(COORDINATE);
      AppendJcsCoordinate(out, entry.coordinate.value, form, ecma);
      MemberWritten(start, ms, COORDINATE, JObject(CoordinateMembers(entry.coordinate.value)), form, ecma);
    } else {
      assert ms + CoordinateMember(entry.coordinate) == ms;
    }
    ms := ms + CoordinateMember(entry.coordinate);
    TextField(writer, out, DOCUMENT_ID, entry.documentId, form, ecma, start, ms);
    ms := ms + TextMember(DOCUMENT_ID, entry.documentId);
    writer.Key(LINES_OBSERVED);
    AppendLeaf(out, JNumber(entry.linesObserved), form, ecma);
    MemberWritten(start, ms, LINES_OBSERVED, JNumber(entry.linesObserved), form, ecma);
    ms := ms + [Member(LINES_OBSERVED, JNumber(entry.linesObserved))];
    var source := entry.source;
    EmptySource(source);
    if source.service.Some? || source.fleet.Some? || source.hostCount.Some? || source.host.Some?
        || source.tags != map[] {
      writer.Key(SOURCE);
      AppendJcsSource(out, source, form, ecma);
      MemberWritten(start, ms, SOURCE, JObject(SourceMembers(source)), form, ecma);
    } else {
      assert ms + SourceMember(source) == ms;
    }
    ms := ms + SourceMember(source);
    AppendWindow(writer, out, entry.window, form, ecma, start, ms);
    ms := ms + WindowMembers(entry.window);
    assert ms == EntryMembers(entry);
    writer.Close();
    ObjectClosed(start, ms, form, ecma);
    bytes := out.bytes;
  }

  lemma EmptySource(s: Source)
    ensures SourceMembers(s) != [] <==>
        s.service.Some? || s.fleet.Some? || s.hostCount.Some? || s.host.Some? || s.tags != map[]
  {}

  method AppendWindow(writer: JcsObject, out: ByteBuffer, window: Option<WindowBounds>, form: NumberForm,
                      ecma: nat -> Text,
                      ghost start: Text, ghost ms: seq<Member>)
    requires writer.out == out && writer.first == (ms == []) && out.bytes == Open(start, ms, form, ecma)
    modifies writer, out
    ensures out.bytes == Open(start, ms + WindowMembers(window), form, ecma)
  {
    hide Open, Quoted, Print;
    if window.Some? {
      PairField(writer, out, WINDOW, Member(END, JString(window.value.endIso)),
                Member(START, JString(window.value.startIso)),
                form, ecma, start, ms);
    } else {
      writer.Key(WINDOW);
      ghost var inner := out.bytes;
      ObjectClosed(inner, [], form, ecma);
      var empty := new JcsObject(out);
      empty.Close();
      MemberWritten(start, ms, WINDOW, JObject([]), form, ecma);
    }
  }

  method KeyOfEntry(entry: Entry, ecma: nat -> Text) returns (key: CanonicalKey)
    ensures key == EntryKey(entry, ecma)
  {
    var rounded := JcsBytesOfEntry(entry, Ecma, ecma);
    var exact := JcsBytesOfEntry(entry, Exact, ecma);
    key := CanonicalKey(rounded, exact);
  }

  method KeyOfCoordinate(coord: Coordinate, ecma: nat -> Text) returns (key: CanonicalKey)
    ensures key == CoordinateKey(coord, ecma)
  {
    hide Print, CoordinateMembers;
    var rounded := new ByteBuffer();
    AppendJcsCoordinate(rounded, coord, Ecma, ecma);
    var exact := new ByteBuffer();
    AppendJcsCoordinate(exact, coord, Exact, ecma);
    key := CanonicalKey(rounded.bytes, exact.bytes);
  }
}
