/** A reader of JSON text, written from the grammar of RFC 8259 and not from the printer: what the printer writes, it
    reads back. */
module JsonReader {
  import opened Options
  import opened Bytes
  import opened Json

  // ---------------------------------------------------------------- the grammar

  /** What was read, and the text after it. */
  datatype Found<T> = Found(it: T, rest: Text)

  function HexValue(b: Byte): Option<nat> {
    if '0' as int <= b <= '9' as int then Some(b - '0' as int)
    else if 'a' as int <= b <= 'f' as int then Some(b - 'a' as int + 10)
    else if 'A' as int <= b <= 'F' as int then Some(b - 'A' as int + 10)
    else None
  }

  /** The byte a short escape stands for, after its backslash; section 7 of RFC 8259. */
  function ShortEscape(b: Byte): Option<Byte> {
    if b == '"' as int then Some(0x22)
    else if b == '\\' as int then Some(0x5C)
    else if b == '/' as int then Some(0x2F)
    else if b == 'b' as int then Some(8)
    else if b == 'f' as int then Some(12)
    else if b == 'n' as int then Some(10)
    else if b == 'r' as int then Some(13)
    else if b == 't' as int then Some(9)
    else None
  }

  /** The ASCII byte four hexadecimal digits stand for; nothing above is written as an escape. */
  function LongEscape(s: Text): Option<Byte>
    requires |s| >= 4
  {
    var a, b, c, d := HexValue(s[0]), HexValue(s[1]), HexValue(s[2]), HexValue(s[3]);
    if a.None? || b.None? || c.None? || d.None? then None
    else
      var n := ((a.value * 16 + b.value) * 16 + c.value) * 16 + d.value;
      if n < 0x80 then Some(n) else None
  }

  function Prepend(b: Byte, r: Option<Found<Text>>): Option<Found<Text>> {
    match r case None => None case Some(found) => Some(Found([b] + found.it, found.rest))
  }

  /** The text up to the closing quote. */
  function ReadChars(s: Text): (r: Option<Found<Text>>)
    ensures r.Some? ==> |r.value.rest| < |s|
  {
    if s == [] then None
    else if s[0] == '"' as int then Some(Found([], s[1..]))
    else if s[0] != '\\' as int then Prepend(s[0], ReadChars(s[1..]))
    else if |s| >= 6 && s[1] == 'u' as int then
      match LongEscape(s[2..]) case None => None case Some(b) => Prepend(b, ReadChars(s[6..]))
    else if |s| >= 2 then
      match ShortEscape(s[1]) case None => None case Some(b) => Prepend(b, ReadChars(s[2..]))
    else None
  }

  /** The number its digits write, the last one counting ones. */
  function NumberOf(digits: Text): nat
    requires forall i :: 0 <= i < |digits| ==> '0' as int <= digits[i] <= '9' as int
  {
    if digits == [] then 0 else 10 * NumberOf(digits[..|digits| - 1]) + (digits[|digits| - 1] - '0' as int)
  }

  /** How many digits the text starts with. */
  function Digits(s: Text): (n: nat)
    ensures n <= |s| && forall i :: 0 <= i < n ==> '0' as int <= s[i] <= '9' as int
  {
    if s != [] && '0' as int <= s[0] <= '9' as int then 1 + Digits(s[1..]) else 0
  }

  function ReadValue(s: Text): (r: Option<Found<Value>>)
    ensures r.Some? ==> |r.value.rest| < |s|
    decreases |s|, 0
  {
    if s == [] then None
    else if s[0] == '"' as int then
      (match ReadChars(s[1..]) case None => None case Some(text) => Some(Found(JString(text.it), text.rest)))
    else if s[0] == '[' as int then
      if |s| >= 2 && s[1] == ']' as int then Some(Found(JArray([]), s[2..]))
      else (match ReadItems(s[1..]) case None => None case Some(items) => Some(Found(JArray(items.it), items.rest)))
    else if s[0] == '{' as int then
      if |s| >= 2 && s[1] == '}' as int then Some(Found(JObject([]), s[2..]))
      else
        (match ReadMembers(s[1..])
         case None => None
         case Some(members) => Some(Found(JObject(members.it), members.rest)))
    else if Digits(s) > 0 then Some(Found(JNumber(NumberOf(s[..Digits(s)])), s[Digits(s)..]))
    else None
  }

  /** The items of an array up to its bracket, one at least. */
  function ReadItems(s: Text): (r: Option<Found<seq<Value>>>)
    ensures r.Some? ==> |r.value.rest| < |s|
    decreases |s|, 1
  {
    match ReadValue(s)
    case None => None
    case Some(first) =>
      if first.rest == [] then None
      else if first.rest[0] == ']' as int then Some(Found([first.it], first.rest[1..]))
      else if first.rest[0] == ',' as int then
        match ReadItems(first.rest[1..])
        case None => None
        case Some(more) => Some(Found([first.it] + more.it, more.rest))
      else None
  }

  function ReadMember(s: Text): (r: Option<Found<Member>>)
    ensures r.Some? ==> |r.value.rest| < |s|
    decreases |s|, 1
  {
    if s == [] || s[0] != '"' as int then None
    else
      match ReadChars(s[1..])
      case None => None
      case Some(name) =>
        if name.rest == [] || name.rest[0] != ':' as int then None
        else
          match ReadValue(name.rest[1..])
          case None => None
          case Some(value) => Some(Found(Member(name.it, value.it), value.rest))
  }

  /** The members of an object up to its brace, one at least. */
  function ReadMembers(s: Text): (r: Option<Found<seq<Member>>>)
    ensures r.Some? ==> |r.value.rest| < |s|
    decreases |s|, 2
  {
    match ReadMember(s)
    case None => None
    case Some(first) =>
      if first.rest == [] then None
      else if first.rest[0] == '}' as int then Some(Found([first.it], first.rest[1..]))
      else if first.rest[0] == ',' as int then
        match ReadMembers(first.rest[1..])
        case None => None
        case Some(more) => Some(Found([first.it] + more.it, more.rest))
      else None
  }

  // ---------------------------------------------------------------- strings read back

  lemma HexReads(n: nat)
    requires n < 16
    ensures HexValue(HexDigit(n)) == Some(n)
  {}

  lemma EscapeReads(b: Byte, s: Text)
    ensures ReadChars(EscapeByte(b) + s) == Prepend(b, ReadChars(s))
  {
    var e := EscapeByte(b);
    assert (e + s)[|e|..] == s;
    if |e| == 6 {
      LongReads(b, s);
    } else if |e| == 2 {
      ShortReads(e[1], b, s);
      assert e == ['\\' as int, e[1]];
    } else {
      PlainReads(b, s);
    }
  }

  lemma PlainReads(b: Byte, s: Text)
    requires b != '"' as int && b != '\\' as int
    ensures ReadChars([b] + s) == Prepend(b, ReadChars(s))
  {
    assert ([b] + s)[1..] == s;
  }

  lemma ShortReads(letter: Byte, b: Byte, s: Text)
    requires letter != 'u' as int && ShortEscape(letter) == Some(b)
    ensures ReadChars(['\\' as int, letter] + s) == Prepend(b, ReadChars(s))
  {
    assert (['\\' as int, letter] + s)[2..] == s;
  }

  lemma LongReads(b: Byte, s: Text)
    requires b < 0x20
    ensures ReadChars([0x5C, 0x75, 0x30, 0x30, HexDigit(b / 16), HexDigit(b % 16)] + s) == Prepend(b, ReadChars(s))
  {
    HexReads(b / 16);
    HexReads(b % 16);
    hide HexDigit, HexValue;
    var t := [0x5C, 0x75, 0x30, 0x30, HexDigit(b / 16), HexDigit(b % 16)] + s;
    assert t[6..] == s && t[2..][0] == 0x30 && t[2..][1] == 0x30 && t[2..][2] == HexDigit(b / 16)
        && t[2..][3] == HexDigit(b % 16);
    assert HexValue(0x30) == Some(0) by { ZeroReads(); }
    assert LongEscape(t[2..]) == Some(b);
  }

  lemma ZeroReads()
    ensures HexValue(0x30) == Some(0)
  {}

  lemma {:induction false} CharsRead(t: Text, s: Text)
    ensures ReadChars(Escaped(t) + (['"' as int] + s)) == Some(Found(t, s))
  {
    if t == [] {
      assert Escaped(t) + (['"' as int] + s) == ['"' as int] + s;
    } else {
      var rest := Escaped(t[1..]) + (['"' as int] + s);
      assert Escaped(t) + (['"' as int] + s) == EscapeByte(t[0]) + rest;
      EscapeReads(t[0], rest);
      CharsRead(t[1..], s);
      assert t == [t[0]] + t[1..];
    }
  }

  lemma {:induction false} DecimalReads(n: nat)
    ensures forall i :: 0 <= i < |Decimal(n)| ==> '0' as int <= Decimal(n)[i] <= '9' as int
    ensures NumberOf(Decimal(n)) == n
  {
    forall i | 0 <= i < |Decimal(n)| ensures IsDigit(Decimal(n)[i]) { assert Decimal(n)[i] in Decimal(n); }
    if n >= 10 {
      var d := Decimal(n);
      assert d[..|d| - 1] == Decimal(n / 10) && d[|d| - 1] == 0x30 + n % 10;
      DecimalReads(n / 10);
    }
  }

  lemma {:induction false} DigitsRead(a: Text, s: Text)
    requires (forall i :: 0 <= i < |a| ==> '0' as int <= a[i] <= '9' as int) && EndsNumber(s)
    ensures Digits(a + s) == |a|
  {
    if a == [] {
      assert a + s == s;
    } else {
      assert (a + s)[1..] == a[1..] + s;
      DigitsRead(a[1..], s);
    }
  }

  lemma NumberReads(n: nat, s: Text)
    requires EndsNumber(s)
    ensures ReadValue(Decimal(n) + s) == Some(Found(JNumber(n), s))
  {
    var d := Decimal(n);
    DecimalReads(n);
    DigitsRead(d, s);
    hide Decimal, NumberOf;
    assert (d + s)[..|d|] == d && (d + s)[|d|..] == s && (d + s)[0] == d[0];
  }

  lemma TextReads(t: Text, s: Text)
    ensures ReadValue(Quoted(t) + s) == Some(Found(JString(t), s))
  {
    CharsRead(t, s);
    var body := Escaped(t) + (['"' as int] + s);
    hide Escaped, ReadChars;
    assert Quoted(t) + s == ['"' as int] + body;
    assert (['"' as int] + body)[1..] == body;
  }

  // ---------------------------------------------------------------- values read back

  /** The text of a value is read back as that value, leaving what follows it. */
  lemma {:induction false} ValueReads(v: Value, s: Text)
    requires EndsNumber(s)
    ensures ReadValue(Exactly(v) + s) == Some(Found(v, s))
    decreases v
  {
    match v
    case JString(t) => TextReads(t, s);
    case JNumber(n) => NumberReads(n, s);
    case JArray(vs) =>
      if vs != [] { ItemsRead(vs, s); }
      ItemsStart(vs, s);
      ArrayReads(vs, s);
    case JObject(ms) =>
      if ms != [] { MembersRead(ms, s); }
      MembersStart(ms, s);
      ObjectReads(ms, s);
  }

  lemma ArrayReads(vs: seq<Value>, s: Text)
    requires var p := PrintItems(vs, Exact, NoEcma()) + ([RBRACKET] + s);
             && p != [] && (p[0] == RBRACKET <==> vs == []) && (vs == [] ==> p == [RBRACKET] + s)
             && (vs != [] ==> ReadItems(p) == Some(Found(vs, s)))
    ensures ReadValue(Exactly(JArray(vs)) + s) == Some(Found(JArray(vs), s))
  {
    var p := PrintItems(vs, Exact, NoEcma()) + ([RBRACKET] + s);
    assert Exactly(JArray(vs)) + s == [LBRACKET] + p;
    hide Exactly, PrintItems, ReadItems;
    assert ([LBRACKET] + p)[1..] == p;
    if vs == [] { assert ([LBRACKET] + p)[2..] == s; }
  }

  lemma ObjectReads(ms: seq<Member>, s: Text)
    requires var p := PrintMembers(ms, Exact, NoEcma()) + ([RBRACE] + s);
             && p != [] && (p[0] == RBRACE <==> ms == []) && (ms == [] ==> p == [RBRACE] + s)
             && (ms != [] ==> ReadMembers(p) == Some(Found(ms, s)))
    ensures ReadValue(Exactly(JObject(ms)) + s) == Some(Found(JObject(ms), s))
  {
    hide PrintMembers, ReadMembers, ReadValue;
    var p := PrintMembers(ms, Exact, NoEcma()) + ([RBRACE] + s);
    assert Exactly(JObject(ms)) + s == [LBRACE] + p;
    BracedReads(p, ms, s);
  }

  lemma BracedReads(p: Text, ms: seq<Member>, s: Text)
    requires p != [] && (p[0] == RBRACE <==> ms == []) && (ms == [] ==> p == [RBRACE] + s)
    requires ms != [] ==> ReadMembers(p) == Some(Found(ms, s))
    ensures ReadValue([LBRACE] + p) == Some(Found(JObject(ms), s))
  {
    hide ReadMembers, ReadItems, ReadChars, NumberOf, Digits;
    var whole := [LBRACE] + p;
    assert whole[1..] == p && whole[0] == '{' as int;
    if ms == [] { assert whole[2..] == s; }
  }

  lemma LastItem(p: Text, v: Value, s: Text)
    requires ReadValue(p) == Some(Found(v, [RBRACKET] + s))
    ensures ReadItems(p) == Some(Found([v], s))
  {
    hide ReadValue;
    assert ([RBRACKET] + s)[1..] == s;
  }

  lemma NextItem(p: Text, v: Value, q: Text, vs: seq<Value>, s: Text)
    requires ReadValue(p) == Some(Found(v, [COMMA] + q)) && ReadItems(q) == Some(Found(vs, s))
    ensures ReadItems(p) == Some(Found([v] + vs, s))
  {
    hide ReadValue;
    assert ([COMMA] + q)[1..] == q;
  }

  lemma {:induction false} ItemsRead(vs: seq<Value>, s: Text)
    requires vs != []
    ensures ReadItems(PrintItems(vs, Exact, NoEcma()) + ([RBRACKET] + s)) == Some(Found(vs, s))
    decreases vs
  {
    var p, q := PrintItems(vs, Exact, NoEcma()) + ([RBRACKET] + s), PrintItems(vs[1..], Exact, NoEcma())
                                                                    + ([RBRACKET] + s);
    ItemsStart(vs, s);
    TailStarts(PrintItems(vs[1..], Exact, NoEcma()), |vs| > 1, RBRACKET, s);
    hide PrintItems, Exactly, ReadValue, ReadItems;
    ValueReads(vs[0], ItemsTail(vs, s));
    if |vs| > 1 {
      ItemsRead(vs[1..], s);
      NextItem(p, vs[0], q, vs[1..], s);
      assert vs == [vs[0]] + vs[1..];
    } else {
      LastItem(p, vs[0], s);
      assert vs == [vs[0]];
    }
  }

  lemma MemberReads(m: Member, s: Text)
    requires ReadValue(Exactly(m.value) + s) == Some(Found(m.value, s))
    ensures ReadMember(PrintMember(m, Exact, NoEcma()) + s) == Some(Found(m, s))
  {
    var rest := [COLON] + (Exactly(m.value) + s);
    MemberText(m, s);
    CharsRead(m.name, rest);
    var p := Escaped(m.name) + (['"' as int] + rest);
    hide Escaped, ReadChars, ReadValue, Exactly, PrintMember;
    assert Quoted(m.name) + rest == ['"' as int] + p;
    assert (['"' as int] + p)[1..] == p && rest[1..] == Exactly(m.value) + s;
  }

  lemma LastMember(p: Text, m: Member, s: Text)
    requires ReadMember(p) == Some(Found(m, [RBRACE] + s))
    ensures ReadMembers(p) == Some(Found([m], s))
  {
    hide ReadMember;
    assert ([RBRACE] + s)[1..] == s;
  }

  lemma NextMember(p: Text, m: Member, q: Text, ms: seq<Member>, s: Text)
    requires ReadMember(p) == Some(Found(m, [COMMA] + q)) && ReadMembers(q) == Some(Found(ms, s))
    ensures ReadMembers(p) == Some(Found([m] + ms, s))
  {
    hide ReadMember;
    assert ([COMMA] + q)[1..] == q;
  }

  lemma {:induction false} MembersRead(ms: seq<Member>, s: Text)
    requires ms != []
    ensures ReadMembers(PrintMembers(ms, Exact, NoEcma()) + ([RBRACE] + s)) == Some(Found(ms, s))
    decreases ms
  {
    var p, q := PrintMembers(ms, Exact, NoEcma()) + ([RBRACE] + s), PrintMembers(ms[1..], Exact, NoEcma())
                                                                    + ([RBRACE] + s);
    MembersStart(ms, s);
    TailStarts(PrintMembers(ms[1..], Exact, NoEcma()), |ms| > 1, RBRACE, s);
    hide PrintMembers, PrintMember, Exactly, ReadMember, ReadMembers, ReadValue;
    ValueReads(ms[0].value, MembersTail(ms, s));
    MemberReads(ms[0], MembersTail(ms, s));
    if |ms| > 1 {
      MembersRead(ms[1..], s);
      NextMember(p, ms[0], q, ms[1..], s);
      assert ms == [ms[0]] + ms[1..];
    } else {
      LastMember(p, ms[0], s);
      assert ms == [ms[0]];
    }
  }

  /** Printing and reading are inverse: the exact text of a value, read by the grammar, is that value and nothing is
      left over. */
  lemma ExactTextReads(v: Value, ecma: nat -> Text)
    ensures ReadValue(Print(v, Exact, ecma)) == Some(Found(v, []))
  {
    ExactIgnoresEcma(v, ecma);
    ValueReads(v, []);
    assert Exactly(v) + [] == Exactly(v);
  }
}
