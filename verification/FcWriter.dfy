/** The writer of the list of APIs, and what reading its output gives. */
module FcWriter {
  import opened Bytes
  import opened FcJson
  import opened FcReader

  // -------------------------------------------------------------- encoding

  function Utf8Char(c: char): (r: seq<Byte>)
    ensures |r| >= 1
    ensures c as int < 0x80 ==> r == [c as int]
    ensures c as int >= 0x80 ==> forall b | b in r :: b >= 0x80
    ensures c as int < 0x800 ==> |r| <= 2
  {
    var n := c as int;
    if n < 0x80 then [n]
    else if n < 0x800 then [0xC0 + n / 64, 0x80 + n % 64]
    else if n < 0x10000 then [0xE0 + n / 4096, 0x80 + n / 64 % 64, 0x80 + n % 64]
    else [0xF0 + n / 262144, 0x80 + n / 4096 % 64, 0x80 + n / 64 % 64, 0x80 + n % 64]
  }

  function Utf8(s: string): seq<Byte> {
    if s == [] then [] else Utf8Char(s[0]) + Utf8(s[1..])
  }

  lemma {:induction false} Utf8Concat(s: string, t: string)
    ensures Utf8(s + t) == Utf8(s) + Utf8(t)
  {
    if s == [] {
      assert s + t == t;
    } else {
      assert (s + t)[1..] == s[1..] + t;
      Utf8Concat(s[1..], t);
    }
  }

  lemma Utf8One(c: char)
    ensures Utf8([c]) == Utf8Char(c)
  {
  }

  // --------------------------------------------------------------- writing

  predicate FcEscaped(c: char) { c as int == 0x7F || 0x80 <= c as int <= 0x9F }

  /** Written as a `\u` sequence: control characters other than TAB, LF and CR, DEL, and
      the C1 controls. */
  predicate Spelled(c: char) {
    (c < ' ' && c != '\t' && c != '\n' && c != '\r') || FcEscaped(c)
  }

  function HexDigit(n: nat): char
    requires n < 16
  {
    "0123456789abcdef"[n]
  }

  /** `u` and four hexadecimal digits. */
  function Spelling(c: char): string
    requires c as int < 0x10000
  {
    var n := c as int;
    ['u', HexDigit(n / 4096), HexDigit(n / 256 % 16), HexDigit(n / 16 % 16), HexDigit(n % 16)]
  }

  function Escape(c: char): string {
    if c == '"' then "\\\""
    else if c == '\\' then "\\\\"
    else if c == '\t' then "\\t"
    else if c == '\n' then "\\n"
    else if c == '\r' then "\\r"
    else if c < ' ' || FcEscaped(c) then "\\" + Spelling(c)
    else [c]
  }

  function Escaped(s: string): string {
    if s == [] then [] else Escape(s[0]) + Escaped(s[1..])
  }

  function Quoted(s: string): string {
    "\"" + Escaped(s) + "\""
  }

  lemma {:induction false} EscapedAppend(s: string, c: char)
    ensures Escaped(s + [c]) == Escaped(s) + Escape(c)
  {
    if s == [] {
      assert s + [c] == [c];
    } else {
      assert (s + [c])[1..] == s[1..] + [c];
      EscapedAppend(s[1..], c);
    }
  }

  lemma EscapedNone()
    ensures Escaped([]) == []
  {
  }

  method JsonString(s: string) returns (out: string)
    ensures out == Quoted(s)
  {
    hide Escaped;
    EscapedNone();
    out := "\"";
    var i := 0;
    while i < |s|
      invariant 0 <= i <= |s|
      invariant out == "\"" + Escaped(s[..i])
    {
      var c := s[i];
      assert s[..i + 1] == s[..i] + [c];
      EscapedAppend(s[..i], c);
      var piece := [c];
      if c == '"' { piece := "\\\""; }
      else if c == '\\' { piece := "\\\\"; }
      else if c == '\t' { piece := "\\t"; }
      else if c == '\n' { piece := "\\n"; }
      else if c == '\r' { piece := "\\r"; }
      else if c < ' ' || FcEscaped(c) { piece := "\\" + Spelling(c); }
      out := out + piece;
      i := i + 1;
    }
    assert s[..i] == s;
    out := out + "\"";
  }

  /** The list from an item on, with its closing bracket. */
  function ListFrom(items: seq<string>): string
    requires items != []
  {
    Quoted(items[0]) + if |items| == 1 then "]" else "," + ListFrom(items[1..])
  }

  function ListText(items: seq<string>): string {
    "[" + if items == [] then "]" else ListFrom(items)
  }

  method JsonList(items: seq<string>) returns (out: string)
    ensures out == ListText(items)
  {
    hide Quoted;
    out := "[";
    var i := 0;
    while i < |items|
      invariant 0 <= i <= |items|
      invariant i == 0 ==> out == "["
      invariant 0 < i < |items| ==> out + "," + ListFrom(items[i..]) == ListText(items)
      invariant 0 < i == |items| ==> out + "]" == ListText(items)
    {
      if i != 0 {
        out := out + ",";
      } else {
        assert items[0..] == items;
      }
      var item := JsonString(items[i]);
      assert items[i..][1..] == items[i + 1..];
      assert out + ListFrom(items[i..]) == ListText(items);
      out := out + item;
      i := i + 1;
    }
    out := out + "]";
  }

  // ----------------------------------------------------------- reading back

  /** What a reader makes of an escaped character: a `\u` sequence loses its backslash. */
  function ReadBack(c: char): string {
    if Spelled(c) then Spelling(c) else [c]
  }

  function ReadBackAll(s: string): string {
    if s == [] then [] else ReadBack(s[0]) + ReadBackAll(s[1..])
  }

  predicate Plain(b: Byte) { b != QUOTE && b != BACKSLASH && b != EOT }

  /** `t` stands at `pos` in `s`. */
  predicate At(s: seq<Byte>, pos: nat, t: seq<Byte>) {
    pos + |t| <= |s| && s[pos..pos + |t|] == t
  }

  lemma AtParts(s: seq<Byte>, pos: nat, t: seq<Byte>, u: seq<Byte>)
    ensures At(s, pos, t + u) <==> At(s, pos, t) && At(s, pos + |t|, u)
  {
    if pos + |t| + |u| <= |s| {
      var all := s[pos..pos + |t| + |u|];
      assert all[..|t|] == s[pos..pos + |t|] && all[|t|..] == s[pos + |t|..pos + |t| + |u|];
      assert all == all[..|t|] + all[|t|..];
      assert (t + u)[..|t|] == t && (t + u)[|t|..] == u;
    }
  }

  lemma JoinedTwice(t: seq<Byte>, u: seq<Byte>, rest: Parsed<seq<Byte>>)
    ensures Joined(t, Joined(u, rest)) == Joined(t + u, rest)
  {
    if rest.Got? { assert t + (u + rest.value) == t + u + rest.value; }
  }

  lemma {:induction false} PlainRun(s: seq<Byte>, pos: nat, t: seq<Byte>)
    requires At(s, pos, t) && forall b | b in t :: Plain(b)
    ensures StringFrom(s, pos) == Joined(t, StringFrom(s, pos + |t|))
    decreases |t|
  {
    if t == [] {
      JoinedNone(StringFrom(s, pos));
    } else {
      assert t == [t[0]] + t[1..];
      AtParts(s, pos, [t[0]], t[1..]);
      assert s[pos] == s[pos..pos + 1][0] == t[0];
      assert Plain(t[0]) by { assert t[0] in t; }
      PlainRun(s, pos + 1, t[1..]);
      assert StringFrom(s, pos) == Joined([t[0]], StringFrom(s, pos + 1));
      JoinedTwice([t[0]], t[1..], StringFrom(s, pos + |t|));
    }
  }

  /** A backslash and the byte after it, then plain bytes. */
  lemma EscapedRun(s: seq<Byte>, pos: nat, b: Byte, t: seq<Byte>)
    requires At(s, pos, [BACKSLASH, b] + t) && forall x | x in t :: Plain(x)
    ensures StringFrom(s, pos) == Joined([Unescape(b)] + t, StringFrom(s, pos + 2 + |t|))
  {
    AtParts(s, pos, [BACKSLASH, b], t);
    assert s[pos] == s[pos..pos + 2][0] && s[pos + 1] == s[pos..pos + 2][1];
    PlainRun(s, pos + 2, t);
    JoinedTwice([Unescape(b)], t, StringFrom(s, pos + 2 + |t|));
  }

  lemma {:induction false} Utf8Ascii(s: string)
    requires forall i | 0 <= i < |s| :: s[i] as int < 0x80
    ensures |Utf8(s)| == |s| && forall i | 0 <= i < |s| :: Utf8(s)[i] == s[i] as int
  {
    if s != [] {
      Utf8Ascii(s[1..]);
    }
  }

  lemma SpellingIsHex(c: char)
    requires c as int < 0x10000
    ensures |Spelling(c)| == 5 && Spelling(c)[0] == 'u'
    ensures forall i | 1 <= i < 5 :: '0' <= Spelling(c)[i] <= '9' || 'a' <= Spelling(c)[i] <= 'f'
  {
  }

  lemma SpelledBytes(c: char) returns (t: seq<Byte>)
    requires Spelled(c)
    ensures Utf8(ReadBack(c)) == [117] + t && Utf8(Escape(c)) == [BACKSLASH, 117] + t
    ensures forall b | b in t :: Plain(b)
  {
    var spelling := Spelling(c);
    SpellingIsHex(c);
    hide Spelling;
    Utf8Ascii(spelling);
    Utf8Ascii(['\\'] + spelling);
    t := Utf8(spelling)[1..];
    assert Utf8(['\\'] + spelling) == [BACKSLASH, 117] + t;
  }

  lemma ReadSpelled(s: seq<Byte>, pos: nat, c: char)
    requires Spelled(c) && At(s, pos, Utf8(Escape(c)))
    ensures StringFrom(s, pos) == Joined(Utf8(ReadBack(c)), StringFrom(s, pos + |Utf8(Escape(c))|))
  {
    hide StringFrom, At, Escape, ReadBack, Utf8;
    var t := SpelledBytes(c);
    EscapedRun(s, pos, 117, t);
  }

  lemma ReadShort(s: seq<Byte>, pos: nat, c: char, b: Byte)
    requires Escape(c) == ['\\', b as char] && b < 0x80 && c as int < 0x80 && Unescape(b) == c as int
    requires At(s, pos, Utf8(Escape(c)))
    ensures StringFrom(s, pos) == Joined(Utf8([c]), StringFrom(s, pos + |Utf8(Escape(c))|))
  {
    Utf8Ascii(Escape(c));
    Utf8Ascii([c]);
    assert Utf8(Escape(c)) == [BACKSLASH, b] + [];
    assert [Unescape(b)] + [] == Utf8([c]);
    EscapedRun(s, pos, b, []);
  }

  lemma ReadChar(s: seq<Byte>, pos: nat, c: char)
    requires At(s, pos, Utf8(Escape(c)))
    ensures StringFrom(s, pos) == Joined(Utf8(ReadBack(c)), StringFrom(s, pos + |Utf8(Escape(c))|))
  {
    hide StringFrom, Joined;
    if Spelled(c) { ReadSpelled(s, pos, c); }
    else if c == '"' { ReadShort(s, pos, c, QUOTE); }
    else if c == '\\' { ReadShort(s, pos, c, BACKSLASH); }
    else if c == '\t' { ReadShort(s, pos, c, 116); }
    else if c == '\n' { ReadShort(s, pos, c, 110); }
    else if c == '\r' { ReadShort(s, pos, c, 114); }
    else {
      Utf8One(c);
      PlainRun(s, pos, Utf8([c]));
    }
  }

  /** Reading an escaped string gives back each character's reading, and leaves the cursor
      just past the closing quote. */
  lemma {:induction false} ReadEscaped(s: seq<Byte>, pos: nat, text: string)
    requires At(s, pos, Utf8(Escaped(text)) + [QUOTE])
    ensures StringFrom(s, pos) == Got(Utf8(ReadBackAll(text)), pos + |Utf8(Escaped(text))| + 1)
    decreases |text|
  {
    hide ReadBack, Escape, StringFrom, At, Utf8Char;
    if text == [] {
      ReadQuote(s, pos);
      assert Utf8(Escaped(text)) + [QUOTE] == [QUOTE];
    } else {
      var head, tail := Utf8(Escape(text[0])), Utf8(Escaped(text[1..])) + [QUOTE];
      Utf8Concat(Escape(text[0]), Escaped(text[1..]));
      assert Utf8(Escaped(text)) + [QUOTE] == head + tail;
      AtParts(s, pos, head, tail);
      ReadChar(s, pos, text[0]);
      ReadEscaped(s, pos + |head|, text[1..]);
      Utf8Concat(ReadBack(text[0]), ReadBackAll(text[1..]));
    }
  }

  lemma ReadQuote(s: seq<Byte>, pos: nat)
    ensures At(s, pos, [QUOTE]) ==> StringFrom(s, pos) == Got([], pos + 1)
  {
  }

  // --------------------------------------------------------- the whole list

  function Texts(items: seq<string>): seq<Value> {
    seq(|items|, i requires 0 <= i < |items| => Str(Utf8(ReadBackAll(items[i]))))
  }

  /** A quoted item read as a value. */
  lemma ReadQuoted(s: seq<Byte>, pos: nat, text: string, budget: int)
    requires At(s, pos, Utf8(Quoted(text))) && budget > 0
    ensures ValueAt(s, pos, budget) == Got(Str(Utf8(ReadBackAll(text))), pos + |Utf8(Quoted(text))|)
  {
    hide StringFrom, Escaped, ReadBackAll, Utf8, Quoted, ValueAt;
    var inner := Utf8(Escaped(text)) + [QUOTE];
    QuotedBytes(text);
    AtParts(s, pos, [QUOTE], inner);
    assert s[pos] == s[pos..pos + 1][0];
    ReadEscaped(s, pos + 1, text);
    ValueIsString(s, pos, budget);
  }

  lemma QuotedBytes(text: string)
    ensures Utf8(Quoted(text)) == [QUOTE] + (Utf8(Escaped(text)) + [QUOTE])
  {
    hide Escaped, Utf8;
    Utf8Concat("\"", Escaped(text) + "\"");
    Utf8Concat(Escaped(text), "\"");
    Utf8One('"');
    assert "\"" + (Escaped(text) + "\"") == Quoted(text);
  }

  lemma ValueIsString(s: seq<Byte>, pos: nat, budget: int)
    requires pos < |s| && s[pos] == QUOTE && budget > 0 && StringFrom(s, pos + 1).Got?
    ensures var r := StringFrom(s, pos + 1); ValueAt(s, pos, budget) == Got(Str(r.value), r.pos)
  {
    hide StringFrom;
  }

  /** The bytes of a list from an item on. */
  lemma ListBytes(items: seq<string>)
    requires items != []
    ensures Utf8(ListFrom(items)) == Utf8(Quoted(items[0]))
                                     + (if |items| == 1 then [CLOSE_BRACKET] else [COMMA] + Utf8(ListFrom(items[1..])))
  {
    hide Quoted, Utf8;
    if |items| == 1 {
      Utf8Concat(Quoted(items[0]), "]");
      Utf8One(']');
    } else {
      Utf8Concat(Quoted(items[0]), "," + ListFrom(items[1..]));
      Utf8Concat(",", ListFrom(items[1..]));
      Utf8One(',');
    }
  }

  lemma {:induction false} ReadItems(s: seq<Byte>, pos: nat, items: seq<string>, budget: int, acc: seq<Value>)
    requires items != [] && budget > 1 && At(s, pos, Utf8(ListFrom(items)))
    ensures ItemsFrom(s, pos, budget, acc) == Got(Array(acc + Texts(items)), pos + |Utf8(ListFrom(items))|)
    decreases |items|
  {
    hide ValueAt, Utf8, Quoted, ReadBackAll, ItemsFrom;
    ItemsStep(s, pos, budget, acc);
    ListBytes(items);
    var first := Utf8(Quoted(items[0]));
    var rest := if |items| == 1 then [CLOSE_BRACKET] else [COMMA] + Utf8(ListFrom(items[1..]));
    AtParts(s, pos, first, rest);
    ReadQuoted(s, pos, items[0], budget - 1);
    var c := pos + |first|;
    assert s[c] == s[c..c + |rest|][0] == rest[0];
    assert Skip(s, c, false) == c;
    var next := acc + [Str(Utf8(ReadBackAll(items[0])))];
    assert Texts(items) == [Str(Utf8(ReadBackAll(items[0])))] + Texts(items[1..]);
    assert acc + Texts(items) == next + Texts(items[1..]);
    if |items| > 1 {
      AtParts(s, c, [COMMA], Utf8(ListFrom(items[1..])));
      ReadItems(s, c + 1, items[1..], budget, next);
    } else {
      assert next + Texts(items[1..]) == next;
    }
  }

  /** The answer of the supported-APIs call. */
  function ApisText(items: seq<string>): string {
    "{\"apis\":" + ListText(items) + "}"
  }

  const APIS: seq<Byte> := [97, 112, 105, 115]

  lemma ApisBytes(items: seq<string>)
    ensures Utf8(ApisText(items)) == [OPEN_BRACE, QUOTE] + APIS + [QUOTE, COLON] + Utf8(ListText(items)) + [CLOSE_BRACE]
  {
    hide ListText, Utf8;
    var head := "{\"apis\":";
    Utf8Concat(head + ListText(items), "}");
    Utf8Concat(head, ListText(items));
    ApisHeadBytes();
    Utf8One('}');
  }

  lemma ApisHeadBytes()
    ensures Utf8("{\"apis\":") == [OPEN_BRACE, QUOTE] + APIS + [QUOTE, COLON]
  {
    Utf8Ascii("{\"apis\":");
  }

  lemma ReadList(s: seq<Byte>, pos: nat, items: seq<string>, budget: int)
    requires At(s, pos, Utf8(ListText(items))) && budget > 2
    ensures ValueAt(s, pos, budget) == Got(Array(Texts(items)), pos + |Utf8(ListText(items))|)
  {
    hide ItemsFrom, ListFrom, Utf8;
    Utf8One('[');
    Utf8One(']');
    var tail := if items == [] then "]" else ListFrom(items);
    Utf8Concat("[", tail);
    AtParts(s, pos, [OPEN_BRACKET], Utf8(tail));
    assert s[pos] == s[pos..pos + 1][0];
    if items == [] {
      assert s[pos + 1] == s[pos + 1..pos + 2][0];
    } else {
      ReadItems(s, pos + 1, items, budget - 1, []);
      assert [] + Texts(items) == Texts(items);
      ListStartsQuoted(items);
      assert s[pos + 1] == Utf8(tail)[0] == QUOTE;
    }
  }

  lemma ListStartsQuoted(items: seq<string>)
    requires items != []
    ensures |Utf8(ListFrom(items))| >= 1 && Utf8(ListFrom(items))[0] == QUOTE
  {
  }

  /** The key of the answer, at its place in the text. */
  lemma ReadApisKey(s: seq<Byte>, pos: nat)
    requires At(s, pos, [QUOTE] + APIS + [QUOTE, COLON])
    ensures KeyAt(s, pos) == Got(APIS, pos + 7)
  {
    AtParts(s, pos, [QUOTE] + APIS, [QUOTE, COLON]);
    AtParts(s, pos, [QUOTE], APIS);
    AtParts(s, pos + 5, [QUOTE], [COLON]);
    assert s[pos] == s[pos..pos + 1][0] && s[pos + 6] == s[pos + 6..pos + 7][0];
    PlainRun(s, pos + 1, APIS);
    ReadQuote(s, pos + 5);
    assert APIS + [] == APIS;
    assert StringFrom(s, pos + 1) == Got(APIS, pos + 6);
    assert Skip(s, pos + 6, false) == pos + 6;
  }

  /** Reading the printed answer gives one member, `apis`, with every item in order as the
      reader reads it, and the cursor just past the text. */
  lemma ReadApis(items: seq<string>)
    ensures var s := Utf8(ApisText(items)); FcParams(s) == Got(Object([(APIS, Array(Texts(items)))]), |s|)
  {
    hide KeyAt, ListText, Utf8, Texts;
    var s := Utf8(ApisText(items));
    var key, list := [QUOTE] + APIS + [QUOTE, COLON], Utf8(ListText(items));
    ApisBytes(items);
    assert s == [OPEN_BRACE] + key + list + [CLOSE_BRACE];
    AtWhole([OPEN_BRACE], key, list, [CLOSE_BRACE]);
    assert s[0] == OPEN_BRACE && s[1] == QUOTE && s[|s| - 1] == CLOSE_BRACE;
    ReadApisKey(s, 1);
    ReadList(s, 8, items, FC_BUDGET - 2);
    ReadMembers(s, items);
  }

  lemma AtWhole(a: seq<Byte>, b: seq<Byte>, c: seq<Byte>, d: seq<Byte>)
    ensures var s := a + b + c + d; At(s, |a|, b) && At(s, |a| + |b|, c)
  {
  }

  /** One member and the closing brace. */
  lemma ReadMembers(s: seq<Byte>, items: seq<string>)
    requires |s| >= 9 && s[0] == OPEN_BRACE && s[1] == QUOTE && s[|s| - 1] == CLOSE_BRACE
    requires KeyAt(s, 1) == Got(APIS, 8)
    requires ValueAt(s, 8, FC_BUDGET - 2) == Got(Array(Texts(items)), |s| - 1)
    ensures FcParams(s) == Got(Object([(APIS, Array(Texts(items)))]), |s|)
  {
    hide KeyAt, Texts;
    assert Skip(s, 0, false) == 0 && Skip(s, 1, true) == 1;
    assert Skip(s, |s| - 1, true) == |s| - 1;
    var one := [(APIS, Array(Texts(items)))];
    assert [] + one == one;
    assert MembersFrom(s, |s| - 1, FC_BUDGET - 1, one) == Got(Object(one), |s|);
    assert MembersFrom(s, 1, FC_BUDGET - 1, []) == Got(Object(one), |s|);
  }

  // ------------------------------------------------------ exactly which text

  lemma ReadBackLength(c: char)
    ensures Spelled(c) ==> |Utf8(ReadBack(c))| > |Utf8([c])|
    ensures !Spelled(c) ==> ReadBack(c) == [c]
  {
    Utf8One(c);
    if Spelled(c) {
      SpellingIsHex(c);
      Utf8Ascii(Spelling(c));
    }
  }

  lemma {:induction false} ReadBackLonger(s: string)
    ensures |Utf8(ReadBackAll(s))| >= |Utf8(s)|
    ensures (exists c | c in s :: Spelled(c)) ==> |Utf8(ReadBackAll(s))| > |Utf8(s)|
    ensures (forall c | c in s :: !Spelled(c)) ==> ReadBackAll(s) == s
  {
    hide ReadBack, Spelled, Utf8Char;
    if s != [] {
      ReadBackLength(s[0]);
      ReadBackLonger(s[1..]);
      Utf8Concat(ReadBack(s[0]), ReadBackAll(s[1..]));
      Utf8Concat([s[0]], s[1..]);
      assert s == [s[0]] + s[1..];
    }
  }

  /** Parsing undoes printing exactly for the texts without `\u` escapes: the items come
      back as they were if and only if none of them holds a control character other than
      TAB, LF and CR, a DEL or a C1 control. */
  lemma RoundTripExact(items: seq<string>)
    ensures (FcParams(Utf8(ApisText(items)))
             == Got(Object([(APIS, Array(seq(|items|, i requires 0 <= i < |items| => Str(Utf8(items[i])))))]),
                    |Utf8(ApisText(items))|))
            <==> forall i | 0 <= i < |items| :: forall c | c in items[i] :: !Spelled(c)
  {
    ReadApis(items);
    hide Utf8, ReadBackAll, Spelled, ApisText, FcParams;
    var plain := seq(|items|, i requires 0 <= i < |items| => Str(Utf8(items[i])));
    forall i | 0 <= i < |items|
      ensures Texts(items)[i] == plain[i] <==> forall c | c in items[i] :: !Spelled(c)
    {
      ReadBackLonger(items[i]);
    }
    if Object([(APIS, Array(Texts(items)))]) == Object([(APIS, Array(plain))]) {
      assert [(APIS, Array(Texts(items)))][0] == [(APIS, Array(plain))][0];
      assert Texts(items) == plain;
    }
    if forall i | 0 <= i < |items| :: forall c | c in items[i] :: !Spelled(c) {
      assert Texts(items) == plain;
    }
  }

  /** The answer for one item that is a control character reads back as that character spelled
      out, without its backslash. */
  lemma ControlCharacterChanges()
    ensures var text := Utf8(ApisText(["\U{0001}"]));
            FcParams(text) == Got(Object([(APIS, Array([Str([117, 48, 48, 48, 49])]))]), |text|)
  {
    ReadApis(["\U{0001}"]);
    SpelledOne();
    assert Texts(["\U{0001}"]) == [Str([117, 48, 48, 48, 49])];
  }

  lemma SpelledOne()
    ensures Utf8(ReadBackAll("\U{0001}")) == [117, 48, 48, 48, 49]
  {
    OneReadBack();
    Utf8Ascii("u0001");
  }

  lemma OneReadBack()
    ensures ReadBackAll("\U{0001}") == "u0001"
  {
  }
}
