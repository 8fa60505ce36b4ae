/** The canonical JSON text of RFC 8785: how it is printed, and that it can be read back. */
module Json {
  import opened Bytes

  datatype Value =
    | JString(text: Text)
    | JNumber(number: nat)
    | JArray(items: seq<Value>)
    | JObject(members: seq<Member>)

  datatype Member = Member(name: Text, value: Value)

  const QUOTE: Byte := 0x22
  const COMMA: Byte := 0x2C
  const COLON: Byte := 0x3A
  const LBRACKET: Byte := 0x5B
  const BACKSLASH: Byte := 0x5C
  const RBRACKET: Byte := 0x5D
  const LBRACE: Byte := 0x7B
  const RBRACE: Byte := 0x7D

  // ---------------------------------------------------------------- strings

  /** Section 3.2.2.2 of RFC 8785: the short escapes, else \u00xx in lower case, else the byte itself. */
  function EscapeByte(b: Byte): (t: Text)
    ensures t != [] && t[0] != QUOTE
  {
    if b == QUOTE then [BACKSLASH, QUOTE]
    else if b == BACKSLASH then [BACKSLASH, BACKSLASH]
    else if b == 0x08 then [BACKSLASH, 0x62]
    else if b == 0x0C then [BACKSLASH, 0x66]
    else if b == 0x0A then [BACKSLASH, 0x6E]
    else if b == 0x0D then [BACKSLASH, 0x72]
    else if b == 0x09 then [BACKSLASH, 0x74]
    else if b < 0x20 then [BACKSLASH, 0x75, 0x30, 0x30, HexDigit(b / 16), HexDigit(b % 16)]
    else [b]
  }

  function Escaped(t: Text): Text { if t == [] then [] else EscapeByte(t[0]) + Escaped(t[1..]) }

  function Quoted(t: Text): Text { [QUOTE] + Escaped(t) + [QUOTE] }

  lemma {:induction false} EscapedSnoc(t: Text, b: Byte)
    ensures Escaped(t + [b]) == Escaped(t) + EscapeByte(b)
  {
    if t == [] {
      assert [] + [b] == [b];
      assert Escaped([b][1..]) == [];
    } else {
      assert (t + [b])[1..] == t[1..] + [b];
      EscapedSnoc(t[1..], b);
    }
  }

  /** A quoted text holds no control byte, whatever the text holds. */
  lemma {:induction false} QuotedIsPrintable(t: Text)
    ensures forall b :: b in Quoted(t) ==> b >= 0x20
  {
    if t != [] {
      QuotedIsPrintable(t[1..]);
      assert forall b :: b in Quoted(t) ==> b in EscapeByte(t[0]) || b in Quoted(t[1..]);
    }
  }

  lemma SameHead(a: seq<nat>, s: seq<nat>, b: seq<nat>, t: seq<nat>)
    requires a + s == b + t && a != [] && b != []
    ensures a[0] == b[0]
  {
    assert (a + s)[0] == a[0] && (b + t)[0] == b[0];
  }

  lemma SameSplit(a: seq<nat>, s: seq<nat>, b: seq<nat>, t: seq<nat>)
    requires a + s == b + t && |a| == |b|
    ensures a == b && s == t
  {
    assert (a + s)[..|a|] == a && (b + t)[..|b|] == b;
    assert (a + s)[|a|..] == s && (b + t)[|b|..] == t;
  }

  lemma EscapeLength(a: Byte, s: Text, b: Byte, t: Text)
    requires EscapeByte(a) + s == EscapeByte(b) + t
    ensures |EscapeByte(a)| == |EscapeByte(b)|
  {
    var x, y := EscapeByte(a), EscapeByte(b);
    SameHead(x, s, y, t);
    if |x| > 1 && |y| > 1 {
      assert (x + s)[1] == x[1] && (y + t)[1] == y[1];
    }
  }

  lemma EscapeByteInjective(a: Byte, b: Byte)
    requires EscapeByte(a) == EscapeByte(b)
    ensures a == b
  {
    var x, y := EscapeByte(a), EscapeByte(b);
    if |x| == 2 {
      assert x[1] == y[1];
    } else if |x| == 6 {
      assert x[4] == y[4] && x[5] == y[5];
    } else {
      assert x[0] == y[0];
    }
  }

  lemma EscapedStarts(a: Text, s: Text)
    ensures var p := Escaped(a) + [QUOTE] + s;
            && (p[0] == QUOTE <==> a == [])
            && (a == [] ==> p[1..] == s)
            && (a != [] ==> p == EscapeByte(a[0]) + (Escaped(a[1..]) + [QUOTE] + s))
  {
    hide EscapeByte;
    if a == [] {
      assert Escaped(a) + [QUOTE] + s == [QUOTE] + s;
    } else {
      var e, rest := EscapeByte(a[0]), Escaped(a[1..]);
      assert Escaped(a) == e + rest;
      hide Escaped;
      assert (e + rest) + [QUOTE] + s == e + (rest + [QUOTE] + s);
    }
  }

  lemma {:induction false} EscapedDecodes(a: Text, b: Text, s: Text, t: Text)
    requires Escaped(a) + [QUOTE] + s == Escaped(b) + [QUOTE] + t
    ensures a == b && s == t
    decreases |a|
  {
    EscapedStarts(a, s);
    EscapedStarts(b, t);
    if a != [] {
      var ra, rb := Escaped(a[1..]) + [QUOTE] + s, Escaped(b[1..]) + [QUOTE] + t;
      EscapeLength(a[0], ra, b[0], rb);
      SameSplit(EscapeByte(a[0]), ra, EscapeByte(b[0]), rb);
      EscapeByteInjective(a[0], b[0]);
      EscapedDecodes(a[1..], b[1..], s, t);
      assert a == [a[0]] + a[1..] && b == [b[0]] + b[1..];
    }
  }

  lemma QuotedDecodes(a: Text, b: Text, s: Text, t: Text)
    requires Quoted(a) + s == Quoted(b) + t
    ensures a == b && s == t
  {
    var ea, eb := Escaped(a) + [QUOTE] + s, Escaped(b) + [QUOTE] + t;
    assert Quoted(a) + s == [QUOTE] + ea && Quoted(b) + t == [QUOTE] + eb;
    SameSplit([QUOTE], ea, [QUOTE], eb);
    EscapedDecodes(a, b, s, t);
  }

  // ---------------------------------------------------------------- numbers

  predicate IsDigit(b: Byte) { 0x30 <= b <= 0x39 }

  function Decimal(n: nat): (t: Text)
    ensures t != [] && forall b :: b in t ==> IsDigit(b)
  {
    if n < 10 then [0x30 + n] else Decimal(n / 10) + [0x30 + n % 10]
  }

  lemma {:induction false} DecimalInjective(n: nat, m: nat)
    requires Decimal(n) == Decimal(m)
    ensures n == m
  {
    var a, b := Decimal(n), Decimal(m);
    assert a[|a| - 1] == b[|b| - 1];
    if n >= 10 {
      assert |a| > 1 && m >= 10;
      assert a[..|a| - 1] == Decimal(n / 10) && b[..|b| - 1] == Decimal(m / 10);
      DecimalInjective(n / 10, m / 10);
    }
  }

  /** A tail that cannot extend a number. */
  predicate EndsNumber(s: Text) { s == [] || !IsDigit(s[0]) }

  function DigitRun(t: Text): nat { if t == [] || !IsDigit(t[0]) then 0 else 1 + DigitRun(t[1..]) }

  lemma {:induction false} DigitsEnd(a: Text, s: Text)
    requires EndsNumber(s) && forall x :: x in a ==> IsDigit(x)
    ensures DigitRun(a + s) == |a|
  {
    if a == [] {
      assert a + s == s;
    } else {
      assert (a + s)[1..] == a[1..] + s && a[0] in a;
      assert forall x :: x in a[1..] ==> x in a;
      DigitsEnd(a[1..], s);
    }
  }

  lemma DecimalDecodes(n: nat, m: nat, s: Text, t: Text)
    requires Decimal(n) + s == Decimal(m) + t && EndsNumber(s) && EndsNumber(t)
    ensures n == m && s == t
  {
    DigitsEnd(Decimal(n), s);
    DigitsEnd(Decimal(m), t);
    SameSplit(Decimal(n), s, Decimal(m), t);
    DecimalInjective(n, m);
  }

  // ---------------------------------------------------------------- printing

  const EXACT_DOUBLE_LIMIT: nat := 0x20_0000_0000_0000

  /** Ecma is RFC 8785's own number form, whose digits above 2^53 are those of the nearest double;
      Exact always writes the exact decimal. */
  datatype NumberForm = Ecma | Exact

  function NumberText(n: nat, form: NumberForm, ecma: nat -> Text): Text {
    if form == Exact || n <= EXACT_DOUBLE_LIMIT then Decimal(n) else ecma(n)
  }

  function Print(v: Value, form: NumberForm, ecma: nat -> Text): Text
    decreases v
  {
    match v
    case JString(text) => Quoted(text)
    case JNumber(n) => NumberText(n, form, ecma)
    case JArray(items) => [LBRACKET] + PrintItems(items, form, ecma) + [RBRACKET]
    case JObject(members) => [LBRACE] + PrintMembers(members, form, ecma) + [RBRACE]
  }

  function PrintItems(items: seq<Value>, form: NumberForm, ecma: nat -> Text): Text
    decreases items
  {
    if items == [] then []
    else Print(items[0], form, ecma) + if |items| == 1 then [] else [COMMA] + PrintItems(items[1..], form, ecma)
  }

  function PrintMember(m: Member, form: NumberForm, ecma: nat -> Text): Text
    decreases m
  {
    Quoted(m.name) + [COLON] + Print(m.value, form, ecma)
  }

  function PrintMembers(members: seq<Member>, form: NumberForm, ecma: nat -> Text): Text
    decreases members
  {
    if members == [] then []
    else PrintMember(members[0], form, ecma) + if |members| == 1 then []
        else [COMMA] + PrintMembers(members[1..], form, ecma)
  }

  // ---------------------------------------------------------------- reading back

  function NoEcma(): nat -> Text { (n: nat) => [] }

  /** The exact text of a value. */
  function Exactly(v: Value): Text { Print(v, Exact, NoEcma()) }

  lemma ExactIgnoresEcma(v: Value, ecma: nat -> Text)
    ensures Print(v, Exact, ecma) == Exactly(v)
    decreases v
  {
    match v
    case JString(_) =>
    case JNumber(_) =>
    case JArray(items) => ExactItems(items, ecma);
    case JObject(members) => ExactMembers(members, ecma);
  }

  lemma ExactItems(items: seq<Value>, ecma: nat -> Text)
    ensures PrintItems(items, Exact, ecma) == PrintItems(items, Exact, NoEcma())
    decreases items
  {
    if items != [] {
      ExactIgnoresEcma(items[0], ecma);
      ExactItems(items[1..], ecma);
    }
  }

  lemma ExactMembers(members: seq<Member>, ecma: nat -> Text)
    ensures PrintMembers(members, Exact, ecma) == PrintMembers(members, Exact, NoEcma())
    decreases members
  {
    if members != [] {
      ExactIgnoresEcma(members[0].value, ecma);
      ExactMembers(members[1..], ecma);
    }
  }

  /** The byte a value starts with tells its kind; none starts like a closing bracket or a comma. */
  lemma Head(v: Value)
    ensures var p := Exactly(v);
            p != [] && (v.JString? ==> p[0] == QUOTE) && (v.JNumber? ==> IsDigit(p[0]))
            && (v.JArray? ==> p[0] == LBRACKET) && (v.JObject? ==> p[0] == LBRACE)
  {
    match v
    case JString(_) =>
    case JNumber(n) => assert Decimal(n)[0] in Decimal(n);
    case JArray(_) =>
    case JObject(_) =>
  }

  lemma {:induction false} ValueDecodes(v: Value, w: Value, s: Text, t: Text)
    requires Exactly(v) + s == Exactly(w) + t && EndsNumber(s) && EndsNumber(t)
    ensures v == w && s == t
    decreases v
  {
    Head(v);
    Head(w);
    SameHead(Exactly(v), s, Exactly(w), t);
    match v
    case JString(a) =>
      QuotedDecodes(a, w.text, s, t);
    case JNumber(n) =>
      DecimalDecodes(n, w.number, s, t);
    case JArray(vs) =>
      var ps, qs := PrintItems(vs, Exact, NoEcma()) + ([RBRACKET] + s),
          PrintItems(w.items, Exact, NoEcma()) + ([RBRACKET] + t);
      assert Exactly(v) + s == [LBRACKET] + ps && Exactly(w) + t == [LBRACKET] + qs;
      SameSplit([LBRACKET], ps, [LBRACKET], qs);
      ItemsDecode(vs, w.items, s, t);
    case JObject(ms) =>
      var ps, qs := PrintMembers(ms, Exact, NoEcma()) + ([RBRACE] + s),
          PrintMembers(w.members, Exact, NoEcma()) + ([RBRACE] + t);
      assert Exactly(v) + s == [LBRACE] + ps && Exactly(w) + t == [LBRACE] + qs;
      SameSplit([LBRACE], ps, [LBRACE], qs);
      MembersDecode(ms, w.members, s, t);
  }

  /** What follows a first element: the closing bracket, or a comma and the rest. */
  function Tail(rest: Text, more: bool, close: Byte, s: Text): Text {
    if more then [COMMA] + (rest + ([close] + s)) else [close] + s
  }

  lemma TailStarts(rest: Text, more: bool, close: Byte, s: Text)
    requires close == RBRACKET || close == RBRACE
    ensures var x := Tail(rest, more, close, s);
            EndsNumber(x) && (x[0] == close <==> !more) && x[1..] == if more then rest + ([close] + s) else s
  {}

  lemma JoinStarts(p: Text, rest: Text, more: bool, close: Byte, s: Text)
    requires p != []
    ensures var whole := (p + if more then [COMMA] + rest else []) + ([close] + s);
            whole == p + Tail(rest, more, close, s) && whole[0] == p[0]
  {
    if more {
      assert (p + ([COMMA] + rest)) + ([close] + s) == p + ([COMMA] + (rest + ([close] + s)));
    }
  }

  function ItemsTail(vs: seq<Value>, s: Text): Text
    requires vs != []
  {
    Tail(PrintItems(vs[1..], Exact, NoEcma()), |vs| > 1, RBRACKET, s)
  }

  lemma ItemsUnfold(vs: seq<Value>, form: NumberForm, ecma: nat -> Text)
    requires vs != []
    ensures PrintItems(vs, form, ecma)
         == Print(vs[0], form, ecma) + if |vs| > 1 then [COMMA] + PrintItems(vs[1..], form, ecma) else []
  {
    hide Print;
  }

  lemma NoItems(s: Text)
    ensures PrintItems([], Exact, NoEcma()) + ([RBRACKET] + s) == [RBRACKET] + s
  {}

  lemma ItemsStart(vs: seq<Value>, s: Text)
    ensures var p := PrintItems(vs, Exact, NoEcma()) + ([RBRACKET] + s);
            && p != [] && (p[0] == RBRACKET <==> vs == [])
            && (vs == [] ==> p == [RBRACKET] + s)
            && (vs != [] ==> p == Exactly(vs[0]) + ItemsTail(vs, s))
  {
    if vs == [] {
      NoItems(s);
    } else {
      Head(vs[0]);
      ItemsUnfold(vs, Exact, NoEcma());
      hide PrintItems, Print, Tail;
      JoinStarts(Exactly(vs[0]), PrintItems(vs[1..], Exact, NoEcma()), |vs| > 1, RBRACKET, s);
    }
  }

  lemma {:induction false} ItemsDecode(vs: seq<Value>, ws: seq<Value>, s: Text, t: Text)
    requires PrintItems(vs, Exact, NoEcma()) + ([RBRACKET] + s) == PrintItems(ws, Exact, NoEcma()) + ([RBRACKET] + t)
    ensures vs == ws && s == t
    decreases vs
  {
    ItemsStart(vs, s);
    ItemsStart(ws, t);
    hide PrintItems, Exactly, Tail;
    if vs != [] {
      TailStarts(PrintItems(vs[1..], Exact, NoEcma()), |vs| > 1, RBRACKET, s);
      TailStarts(PrintItems(ws[1..], Exact, NoEcma()), |ws| > 1, RBRACKET, t);
      ValueDecodes(vs[0], ws[0], ItemsTail(vs, s), ItemsTail(ws, t));
      assert vs == [vs[0]] + vs[1..] && ws == [ws[0]] + ws[1..];
      if |vs| > 1 { ItemsDecode(vs[1..], ws[1..], s, t); }
    } else {
      SameSplit([RBRACKET], s, [RBRACKET], t);
    }
  }

  function MembersTail(ms: seq<Member>, s: Text): Text
    requires ms != []
  {
    Tail(PrintMembers(ms[1..], Exact, NoEcma()), |ms| > 1, RBRACE, s)
  }

  lemma MemberText(m: Member, s: Text)
    ensures PrintMember(m, Exact, NoEcma()) + s == Quoted(m.name) + ([COLON] + (Exactly(m.value) + s))
  {
    hide Quoted, Print;
    assert PrintMember(m, Exact, NoEcma()) == Quoted(m.name) + [COLON] + Exactly(m.value);
  }

  lemma MemberDecodes(m: Member, n: Member, s: Text, t: Text)
    requires PrintMember(m, Exact, NoEcma()) + s == PrintMember(n, Exact, NoEcma()) + t
    ensures m.name == n.name && Exactly(m.value) + s == Exactly(n.value) + t
  {
    var p, q := [COLON] + (Exactly(m.value) + s), [COLON] + (Exactly(n.value) + t);
    MemberText(m, s);
    MemberText(n, t);
    hide *;
    QuotedDecodes(m.name, n.name, p, q);
    SameSplit([COLON], Exactly(m.value) + s, [COLON], Exactly(n.value) + t);
  }

  lemma MembersUnfold(ms: seq<Member>, form: NumberForm, ecma: nat -> Text)
    requires ms != []
    ensures PrintMembers(ms, form, ecma)
         == PrintMember(ms[0], form, ecma) + if |ms| > 1 then [COMMA] + PrintMembers(ms[1..], form, ecma) else []
  {
    hide PrintMember;
  }

  lemma NoMembers(s: Text)
    ensures PrintMembers([], Exact, NoEcma()) + ([RBRACE] + s) == [RBRACE] + s
  {}

  lemma MemberStarts(m: Member)
    ensures var p := PrintMember(m, Exact, NoEcma()); p != [] && p[0] == QUOTE
  {
    hide Escaped, Print;
  }

  lemma MembersStart(ms: seq<Member>, s: Text)
    ensures var p := PrintMembers(ms, Exact, NoEcma()) + ([RBRACE] + s);
            && p != [] && (p[0] == RBRACE <==> ms == [])
            && (ms == [] ==> p == [RBRACE] + s)
            && (ms != [] ==> p == PrintMember(ms[0], Exact, NoEcma()) + MembersTail(ms, s))
  {
    if ms == [] {
      NoMembers(s);
    } else {
      MemberStarts(ms[0]);
      MembersUnfold(ms, Exact, NoEcma());
      hide PrintMembers, PrintMember, Tail;
      JoinStarts(PrintMember(ms[0], Exact, NoEcma()), PrintMembers(ms[1..], Exact, NoEcma()), |ms| > 1, RBRACE, s);
    }
  }

  lemma {:induction false} MembersDecode(ms: seq<Member>, ns: seq<Member>, s: Text, t: Text)
    requires PrintMembers(ms, Exact, NoEcma()) + ([RBRACE] + s) == PrintMembers(ns, Exact, NoEcma()) + ([RBRACE] + t)
    ensures ms == ns && s == t
    decreases ms
  {
    MembersStart(ms, s);
    MembersStart(ns, t);
    hide PrintMembers, PrintMember, Exactly, Tail;
    if ms != [] {
      var x, y := MembersTail(ms, s), MembersTail(ns, t);
      TailStarts(PrintMembers(ms[1..], Exact, NoEcma()), |ms| > 1, RBRACE, s);
      TailStarts(PrintMembers(ns[1..], Exact, NoEcma()), |ns| > 1, RBRACE, t);
      MemberDecodes(ms[0], ns[0], x, y);
      ValueDecodes(ms[0].value, ns[0].value, x, y);
      assert ms == [ms[0]] + ms[1..] && ns == [ns[0]] + ns[1..];
      if |ms| > 1 { MembersDecode(ms[1..], ns[1..], s, t); }
    } else {
      SameSplit([RBRACE], s, [RBRACE], t);
    }
  }

  /** The exact text of a value determines it. */
  lemma ExactTextDecodes(v: Value, w: Value)
    ensures Exactly(v) == Exactly(w) <==> v == w
  {
    if Exactly(v) == Exactly(w) {
      assert Exactly(v) + [] == Exactly(v) && Exactly(w) + [] == Exactly(w);
      ValueDecodes(v, w, [], []);
    }
  }
}
