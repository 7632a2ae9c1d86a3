/** JSON values, their text as JSON.stringify writes it, and a reader: strings escaped to code units, objects
    with their members in insertion order. */
module JsonText {
  /** A UTF-16 code unit, as in a JavaScript string. */
  type CodeUnit = u: int | 0 <= u < 0x1_0000

  type Text = seq<CodeUnit>

  const Quote: CodeUnit := 34
  const Comma: CodeUnit := 44
  const Colon: CodeUnit := 58
  const OpenBracket: CodeUnit := 91
  const Backslash: CodeUnit := 92
  const CloseBracket: CodeUnit := 93
  const OpenBrace: CodeUnit := 123
  const CloseBrace: CodeUnit := 125
  const NullText: Text := [110, 117, 108, 108]
  const TrueText: Text := [116, 114, 117, 101]
  const FalseText: Text := [102, 97, 108, 115, 101]

  /** A JSON value as a program holds it: members in insertion order. A number is the text JavaScript
      prints for it. */
  datatype Json = Null | Bool(b: bool) | Num(token: Text) | Str(s: Text) | Arr(items: seq<Json>) | Obj(members: seq<Member>)

  datatype Member = Member(key: Text, value: Json)

  /** What a JSON value means: an object is a map from keys to values. */
  datatype Value = VNull | VBool(b: bool) | VNum(token: Text) | VStr(s: Text) | VArr(items: seq<Value>) | VObj(members: map<Text, Value>)

  function Meaning(v: Json): Value {
    match v
    case Null => VNull
    case Bool(b) => VBool(b)
    case Num(token) => VNum(token)
    case Str(s) => VStr(s)
    case Arr(items) => VArr(ItemMeanings(items))
    case Obj(members) => VObj(MemberMeanings(members))
  }

  function ItemMeanings(items: seq<Json>): (r: seq<Value>)
    ensures |r| == |items| && forall i :: 0 <= i < |items| ==> r[i] == Meaning(items[i])
  {
    if items == [] then [] else [Meaning(items[0])] + ItemMeanings(items[1..])
  }

  function MemberMeanings(members: seq<Member>): map<Text, Value> {
    if members == [] then map[] else MemberMeanings(members[1..])[members[0].key := Meaning(members[0].value)]
  }

  /** The characters of a printed finite number: digits, `+`, `-`, `.` and `e`. */
  predicate NumberUnit(c: CodeUnit) {
    48 <= c <= 57 || c == 43 || c == 45 || c == 46 || c == 101
  }

  predicate UniqueKeys(members: seq<Member>) {
    forall i, j :: 0 <= i < j < |members| ==> members[i].key != members[j].key
  }

  predicate Valid(v: Json) {
    match v
    case Num(token) => token != [] && forall i :: 0 <= i < |token| ==> NumberUnit(token[i])
    case Arr(items) => forall i :: 0 <= i < |items| ==> Valid(items[i])
    case Obj(members) => UniqueKeys(members) && forall i :: 0 <= i < |members| ==> Valid(members[i].value)
    case _ => true
  }

  // ------------------------------------------------------------------ strings

  predicate HighSurrogate(c: CodeUnit) { 0xd800 <= c < 0xdc00 }

  predicate LowSurrogate(c: CodeUnit) { 0xdc00 <= c < 0xe000 }

  function HexDigit(n: int): (c: CodeUnit)
    requires 0 <= n < 16
    ensures HexValue(c) == n
  {
    if n < 10 then 48 + n else 87 + n
  }

  /** The value of a hexadecimal digit, or -1. */
  function HexValue(c: CodeUnit): (n: int)
    ensures -1 <= n < 16
  {
    if 48 <= c <= 57 then c - 48 else if 97 <= c <= 102 then c - 87 else if 65 <= c <= 70 then c - 55 else -1
  }

  function UnicodeEscape(c: CodeUnit): Text {
    [Backslash, 117, HexDigit(c / 16 / 16 / 16), HexDigit(c / 16 / 16 % 16), HexDigit(c / 16 % 16), HexDigit(c % 16)]
  }

  function Escape(c: CodeUnit): Text {
    if c == 8 then [Backslash, 98]
    else if c == 9 then [Backslash, 116]
    else if c == 10 then [Backslash, 110]
    else if c == 12 then [Backslash, 102]
    else if c == 13 then [Backslash, 114]
    else if c == Quote || c == Backslash then [Backslash, c]
    else if c < 32 || HighSurrogate(c) || LowSurrogate(c) then UnicodeEscape(c)
    else [c]
  }

  predicate StartsWithPair(s: Text) { |s| >= 2 && HighSurrogate(s[0]) && LowSurrogate(s[1]) }

  /** The inside of a JSON string: a surrogate is escaped unless it is one of a pair. */
  function EscapeAll(s: Text): Text {
    if s == [] then [] else EscapeFirst(s) + EscapeAll(s[FirstLength(s)..])
  }

  /** The code units of the first character. */
  function FirstLength(s: Text): (n: nat)
    requires s != []
    ensures 1 <= n <= |s|
  {
    if StartsWithPair(s) then 2 else 1
  }

  function EscapeFirst(s: Text): Text
    requires s != []
  {
    if StartsWithPair(s) then s[..2] else Escape(s[0])
  }

  function StringText(s: Text): Text { [Quote] + EscapeAll(s) + [Quote] }

  // ------------------------------------------------------------------ writing JSON text

  /** JSON.stringify without indentation: members in insertion order. */
  function Plain(v: Json): Text {
    match v
    case Null => NullText
    case Bool(b) => if b then TrueText else FalseText
    case Num(token) => token
    case Str(s) => StringText(s)
    case Arr(items) => [OpenBracket] + ItemsText(items) + [CloseBracket]
    case Obj(members) => [OpenBrace] + MembersText(members) + [CloseBrace]
  }

  function ItemsText(items: seq<Json>): Text {
    if items == [] then []
    else if |items| == 1 then Plain(items[0])
    else Plain(items[0]) + [Comma] + ItemsText(items[1..])
  }

  function MembersText(members: seq<Member>): Text {
    if members == [] then []
    else
      var first := StringText(members[0].key) + [Colon] + Plain(members[0].value);
      if |members| == 1 then first else first + [Comma] + MembersText(members[1..])
  }

  // ------------------------------------------------------------------ reading JSON text

  datatype Parsed<+T> = Fail | Got(value: T, rest: Text)

  function UnescapeOne(c: CodeUnit): int {
    if c == 98 then 8 else if c == 116 then 9 else if c == 110 then 10 else if c == 102 then 12 else if c == 114 then 13
    else if c == Quote || c == Backslash || c == 47 then c else -1
  }

  /** The rest of a string after its opening quote. */
  function ParseChars(t: Text): (r: Parsed<Text>)
    ensures r.Got? ==> |r.rest| < |t|
    decreases |t|
  {
    if t == [] || t[0] < 32 then Fail
    else if t[0] == Quote then Got([], t[1..])
    else if t[0] != Backslash then Prepend(t[0], ParseChars(t[1..]))
    else if |t| == 1 then Fail
    else if t[1] != 117 then
      if UnescapeOne(t[1]) < 0 then Fail else Prepend(UnescapeOne(t[1]), ParseChars(t[2..]))
    else if |t| < 6 || HexValue(t[2]) < 0 || HexValue(t[3]) < 0 || HexValue(t[4]) < 0 || HexValue(t[5]) < 0 then Fail
    else Prepend(HexValue(t[2]) * 4096 + HexValue(t[3]) * 256 + HexValue(t[4]) * 16 + HexValue(t[5]), ParseChars(t[6..]))
  }

  function Prepend(c: CodeUnit, p: Parsed<Text>): Parsed<Text> {
    if p.Got? then Got([c] + p.value, p.rest) else Fail
  }

  /** The length of the number at the start of a text. */
  function NumberLength(t: Text): (n: nat)
    ensures n <= |t| && forall i :: 0 <= i < n ==> NumberUnit(t[i])
    ensures n < |t| ==> !NumberUnit(t[n])
  {
    if t == [] || !NumberUnit(t[0]) then 0 else 1 + NumberLength(t[1..])
  }

  /** JSON text without white space, up to the end of one value. */
  function ParseValue(t: Text): (r: Parsed<Json>)
    ensures r.Got? ==> |r.rest| < |t|
    decreases |t|, 0
  {
    if t == [] then Fail
    else if t[0] == Quote then
      var p := ParseChars(t[1..]);
      if p.Got? then Got(Str(p.value), p.rest) else Fail
    else if t[0] == OpenBracket then
      if |t| >= 2 && t[1] == CloseBracket then Got(Arr([]), t[2..]) else
      var p := ParseItems(t[1..]);
      if p.Got? then Got(Arr(p.value), p.rest) else Fail
    else if t[0] == OpenBrace then
      if |t| >= 2 && t[1] == CloseBrace then Got(Obj([]), t[2..]) else
      var p := ParseMembers(t[1..]);
      if p.Got? then Got(Obj(p.value), p.rest) else Fail
    else if NumberUnit(t[0]) then
      var n := NumberLength(t);
      Got(Num(t[..n]), t[n..])
    else if NullText <= t then Got(Null, t[4..])
    else if TrueText <= t then Got(Bool(true), t[4..])
    else if FalseText <= t then Got(Bool(false), t[5..])
    else Fail
  }

  function ParseItems(t: Text): (r: Parsed<seq<Json>>)
    ensures r.Got? ==> |r.rest| < |t|
    decreases |t|, 1
  {
    var p := ParseValue(t);
    if p.Fail? || p.rest == [] then Fail
    else if p.rest[0] == CloseBracket then Got([p.value], p.rest[1..])
    else if p.rest[0] != Comma then Fail
    else
      var q := ParseItems(p.rest[1..]);
      if q.Got? then Got([p.value] + q.value, q.rest) else Fail
  }

  function ParseMembers(t: Text): (r: Parsed<seq<Member>>)
    ensures r.Got? ==> |r.rest| < |t|
    decreases |t|, 1
  {
    if t == [] || t[0] != Quote then Fail else
    var k := ParseChars(t[1..]);
    if k.Fail? || k.rest == [] || k.rest[0] != Colon then Fail else
    var p := ParseValue(k.rest[1..]);
    if p.Fail? || p.rest == [] then Fail
    else if p.rest[0] == CloseBrace then Got([Member(k.value, p.value)], p.rest[1..])
    else if p.rest[0] != Comma then Fail
    else
      var q := ParseMembers(p.rest[1..]);
      if q.Got? then Got([Member(k.value, p.value)] + q.value, q.rest) else Fail
  }

  // ------------------------------------------------------------------ reading back a string

  lemma EscapeReadsBack(c: CodeUnit, x: Text)
    ensures ParseChars(Escape(c) + x) == Prepend(c, ParseChars(x))
  {
    hide ParseChars, UnicodeEscape;
    if Escape(c) == UnicodeEscape(c) {
      UnicodeReadsBack(c, x);
    } else if Escape(c) == [c] {
      PlainReadsBack(c, x);
    } else {
      ShortReadsBack(Escape(c)[1], c, x);
    }
  }

  lemma PlainReadsBack(c: CodeUnit, x: Text)
    requires c >= 32 && c != Quote && c != Backslash
    ensures ParseChars([c] + x) == Prepend(c, ParseChars(x))
  {
    assert ([c] + x)[1..] == x;
  }

  lemma ShortReadsBack(e: CodeUnit, c: CodeUnit, x: Text)
    requires e != 117 && UnescapeOne(e) == c
    ensures ParseChars([Backslash, e] + x) == Prepend(c, ParseChars(x))
  {
    assert ([Backslash, e] + x)[2..] == x;
  }

  lemma UnicodeReadsBack(c: CodeUnit, x: Text)
    ensures ParseChars(UnicodeEscape(c) + x) == Prepend(c, ParseChars(x))
  {
    HexReadsBack(c);
    var e := UnicodeEscape(c);
    var t := e + x;
    assert t[6..] == x && forall i :: 0 <= i < 6 ==> t[i] == e[i];
  }

  lemma HexReadsBack(c: CodeUnit)
    ensures var e := UnicodeEscape(c);
            HexValue(e[2]) * 4096 + HexValue(e[3]) * 256 + HexValue(e[4]) * 16 + HexValue(e[5]) == c
  {
    HexDigitsAddUp(c, c / 16, c / 16 / 16, c / 16 / 16 / 16);
  }

  lemma HexDigitsAddUp(c: int, q: int, r: int, s: int)
    requires q == c / 16 && r == q / 16 && s == r / 16
    ensures s * 4096 + r % 16 * 256 + q % 16 * 16 + c % 16 == c
  {
    assert c == 16 * q + c % 16 && q == 16 * r + q % 16 && r == 16 * s + r % 16;
  }

  function PrependAll(cs: Text, p: Parsed<Text>): Parsed<Text> {
    if p.Got? then Got(cs + p.value, p.rest) else Fail
  }

  lemma FirstReadsBack(s: Text, y: Text)
    requires s != []
    ensures ParseChars(EscapeFirst(s) + y) == PrependAll(s[..FirstLength(s)], ParseChars(y))
  {
    if StartsWithPair(s) {
      assert s[..2] + y == [s[0]] + ([s[1]] + y);
      assert ([s[0]] + ([s[1]] + y))[1..] == [s[1]] + y && ([s[1]] + y)[1..] == y;
      var p := ParseChars(y);
      assert p.Got? ==> [s[0]] + ([s[1]] + p.value) == s[..2] + p.value;
    } else {
      EscapeReadsBack(s[0], y);
      assert s[..1] == [s[0]];
    }
  }

  lemma EndReadsBack(x: Text)
    ensures ParseChars([Quote] + x) == Got([], x)
  {
  }

  /** The string reader undoes the escaping, whatever follows the closing quote. */
  lemma {:induction false} StringReadsBack(s: Text, x: Text)
    ensures ParseChars(EscapeAll(s) + [Quote] + x) == Got(s, x)
  {
    hide ParseChars, EscapeFirst;
    if s == [] {
      assert EscapeAll(s) + [Quote] + x == [Quote] + x;
      EndReadsBack(x);
    } else {
      var tail := s[FirstLength(s)..];
      StringReadsBack(tail, x);
      var y := EscapeAll(tail) + [Quote] + x;
      assert EscapeAll(s) + [Quote] + x == EscapeFirst(s) + y;
      FirstReadsBack(s, y);
      assert s == s[..FirstLength(s)] + tail;
    }
  }

  // ------------------------------------------------------------------ reading back a value

  /** A text after which a number has ended. */
  predicate Delimited(x: Text) {
    x == [] || x[0] == Comma || x[0] == CloseBracket || x[0] == CloseBrace
  }

  lemma {:induction false} NumberEnds(token: Text, x: Text)
    requires Valid(Num(token)) && Delimited(x)
    ensures NumberLength(token + x) == |token|
  {
    var t := token + x;
    if |token| == 1 {
      assert t[1..] == x;
    } else {
      assert Valid(Num(token[1..]));
      NumberEnds(token[1..], x);
      assert t[1..] == token[1..] + x;
    }
  }

  lemma LiteralsReadBack(v: Json, x: Text)
    requires v.Null? || v.Bool?
    ensures ParseValue(Plain(v) + x) == Got(v, x)
  {
    var t := Plain(v) + x;
    assert t[|Plain(v)|..] == x && Plain(v) <= t;
    assert t[0] == Plain(v)[0];
  }

  lemma NumberReadsBack(v: Json, x: Text)
    requires v.Num? && Valid(v) && Delimited(x)
    ensures ParseValue(Plain(v) + x) == Got(v, x)
  {
    var t := v.token + x;
    NumberEnds(v.token, x);
    assert NumberUnit(t[0]);
    assert t[..|v.token|] == v.token && t[|v.token|..] == x;
  }

  lemma TextReadsBack(s: Text, x: Text)
    ensures StringText(s) + x == [Quote] + (EscapeAll(s) + [Quote] + x)
    ensures ParseChars((StringText(s) + x)[1..]) == Got(s, x)
  {
    StringReadsBack(s, x);
    var inner := EscapeAll(s) + [Quote] + x;
    assert StringText(s) + x == [Quote] + inner;
    assert ([Quote] + inner)[1..] == inner;
  }

  // What the parser does with each shape of text.

  lemma ParseString(t: Text, s: Text, x: Text)
    requires t != [] && t[0] == Quote && ParseChars(t[1..]) == Got(s, x)
    ensures ParseValue(t) == Got(Str(s), x)
  {
  }

  lemma ParseArray(inner: Text, items: seq<Json>, x: Text)
    requires inner != [] && inner[0] != CloseBracket && ParseItems(inner) == Got(items, x)
    ensures ParseValue([OpenBracket] + inner) == Got(Arr(items), x)
  {
    assert ([OpenBracket] + inner)[1..] == inner;
  }

  lemma ParseObject(inner: Text, members: seq<Member>, x: Text)
    requires inner != [] && inner[0] != CloseBrace && ParseMembers(inner) == Got(members, x)
    ensures ParseValue([OpenBrace] + inner) == Got(Obj(members), x)
  {
    assert ([OpenBrace] + inner)[1..] == inner;
  }

  lemma ParseLastItem(t: Text, w: Json, x: Text)
    requires ParseValue(t) == Got(w, [CloseBracket] + x)
    ensures ParseItems(t) == Got([w], x)
  {
    assert ([CloseBracket] + x)[1..] == x;
  }

  lemma ParseNextItem(t: Text, w: Json, y: Text, rest: seq<Json>, x: Text)
    requires ParseValue(t) == Got(w, [Comma] + y) && ParseItems(y) == Got(rest, x)
    ensures ParseItems(t) == Got([w] + rest, x)
  {
    assert ([Comma] + y)[1..] == y;
  }

  lemma ParseLastMember(key: Text, t: Text, w: Json, x: Text)
    requires ParseValue(t) == Got(w, [CloseBrace] + x)
    ensures ParseMembers(StringText(key) + ([Colon] + t)) == Got([Member(key, w)], x)
  {
    TextReadsBack(key, [Colon] + t);
    assert ([Colon] + t)[1..] == t && ([CloseBrace] + x)[1..] == x;
  }

  lemma ParseNextMember(key: Text, t: Text, w: Json, y: Text, rest: seq<Member>, x: Text)
    requires ParseValue(t) == Got(w, [Comma] + y) && ParseMembers(y) == Got(rest, x)
    ensures ParseMembers(StringText(key) + ([Colon] + t)) == Got([Member(key, w)] + rest, x)
  {
    TextReadsBack(key, [Colon] + t);
    assert ([Colon] + t)[1..] == t && ([Comma] + y)[1..] == y;
  }

  lemma EmptyReadsBack(v: Json, x: Text)
    requires v == Arr([]) || v == Obj([])
    ensures ParseValue(Plain(v) + x) == Got(v, x)
  {
    var t := Plain(v) + x;
    assert Plain(v) == if v.Arr? then [OpenBracket, CloseBracket] else [OpenBrace, CloseBrace];
    assert t[2..] == x && t[0] == Plain(v)[0] && t[1] == Plain(v)[1];
  }

  lemma LeafReadsBack(v: Json, x: Text)
    requires Valid(v) && Delimited(x) && !v.Arr? && !v.Obj?
    ensures ParseValue(Plain(v) + x) == Got(v, x)
  {
    if v.Num? {
      NumberReadsBack(v, x);
    } else if v.Str? {
      TextReadsBack(v.s, x);
      ParseString(StringText(v.s) + x, v.s, x);
    } else {
      LiteralsReadBack(v, x);
    }
  }

  /** The parser undoes the text of a value, whatever follows it. */
  lemma {:induction false} ReadsBack(v: Json, x: Text)
    requires Valid(v) && Delimited(x)
    ensures ParseValue(Plain(v) + x) == Got(v, x)
    decreases v, 1, 0
  {
    hide ParseValue, Plain, ItemsText, MembersText;
    if v == Arr([]) || v == Obj([]) {
      EmptyReadsBack(v, x);
    } else if v.Arr? {
      ItemsReadBack(v, v.items, x);
      ItemsStart(v.items, [CloseBracket] + x);
      ParseArray(ItemsText(v.items) + ([CloseBracket] + x), v.items, x);
      ArrayShape(v.items, x);
    } else if v.Obj? {
      MembersReadBack(v, v.members, x);
      MembersStart(v.members, [CloseBrace] + x);
      ParseObject(MembersText(v.members) + ([CloseBrace] + x), v.members, x);
      ObjectShape(v.members, x);
    } else {
      LeafReadsBack(v, x);
    }
  }

  lemma ArrayShape(items: seq<Json>, x: Text)
    ensures Plain(Arr(items)) + x == [OpenBracket] + (ItemsText(items) + ([CloseBracket] + x))
  {
  }

  lemma ObjectShape(members: seq<Member>, x: Text)
    ensures Plain(Obj(members)) + x == [OpenBrace] + (MembersText(members) + ([CloseBrace] + x))
  {
  }

  /** No item starts with a closing bracket. */
  lemma ItemsStart(items: seq<Json>, x: Text)
    requires items != [] && forall i :: 0 <= i < |items| ==> Valid(items[i])
    ensures var t := ItemsText(items) + x; t != [] && t[0] != CloseBracket
  {
    FirstUnit(items[0]);
  }

  lemma FirstUnit(v: Json)
    requires Valid(v)
    ensures Plain(v) != [] && Plain(v)[0] != CloseBracket
  {
    if v.Num? { assert NumberUnit(v.token[0]); }
  }

  lemma MembersStart(members: seq<Member>, x: Text)
    requires members != []
    ensures var t := MembersText(members) + x; t != [] && t[0] == Quote
  {
  }

  lemma {:induction false} ItemsReadBack(v: Json, items: seq<Json>, x: Text)
    requires items != [] && forall i :: 0 <= i < |items| ==> items[i] < v && Valid(items[i])
    ensures ParseItems(ItemsText(items) + ([CloseBracket] + x)) == Got(items, x)
    decreases v, 0, |items|
  {
    hide ParseValue, ParseItems, ItemsText, Plain;
    var end := [CloseBracket] + x;
    var first, rest := items[0], items[1..];
    ItemsShape(items, end);
    FirstAndRest(items);
    if |items| == 1 {
      ReadsBack(first, end);
      ParseLastItem(Plain(first) + end, first, x);
    } else {
      ItemsReadBack(v, rest, x);
      var y := ItemsText(rest) + end;
      ReadsBack(first, [Comma] + y);
      ParseNextItem(Plain(first) + ([Comma] + y), first, y, rest, x);
    }
  }

  lemma FirstAndRest(items: seq<Json>)
    requires items != []
    ensures items == [items[0]] + items[1..] && (|items| == 1 ==> items == [items[0]])
  {
  }

  lemma ItemsShape(items: seq<Json>, end: Text)
    requires items != []
    ensures ItemsText(items) + end ==
            Plain(items[0]) + if |items| == 1 then end else [Comma] + (ItemsText(items[1..]) + end)
  {
  }

  lemma {:induction false} MembersReadBack(v: Json, members: seq<Member>, x: Text)
    requires members != [] && forall i :: 0 <= i < |members| ==> members[i].value < v && Valid(members[i].value)
    ensures ParseMembers(MembersText(members) + ([CloseBrace] + x)) == Got(members, x)
    decreases v, 0, |members|
  {
    hide ParseValue, ParseMembers, MembersText, StringText, Plain;
    var key, value := members[0].key, members[0].value;
    var end := [CloseBrace] + x;
    MembersShape(members, end);
    if |members| == 1 {
      ReadsBack(value, end);
      ParseLastMember(key, Plain(value) + end, value, x);
      assert [Member(key, value)] == members;
    } else {
      MembersReadBack(v, members[1..], x);
      var y := MembersText(members[1..]) + end;
      ReadsBack(value, [Comma] + y);
      ParseNextMember(key, Plain(value) + ([Comma] + y), value, y, members[1..], x);
      assert [Member(key, value)] + members[1..] == members;
    }
  }

  lemma MembersShape(members: seq<Member>, end: Text)
    requires members != []
    ensures MembersText(members) + end ==
            StringText(members[0].key) + ([Colon] + (Plain(members[0].value)
              + if |members| == 1 then end else [Comma] + (MembersText(members[1..]) + end)))
  {
    var key, value := StringText(members[0].key), Plain(members[0].value);
    if |members| == 1 {
      hide Plain, StringText;
      Reassociate(key, value, end);
    } else {
      var rest := MembersText(members[1..]);
      assert MembersText(members) == key + [Colon] + value + [Comma] + rest;
      hide Plain, StringText, MembersText;
      JoinRest(key + [Colon] + value, rest, end);
      Reassociate(key, value, [Comma] + (rest + end));
    }
  }

  lemma JoinRest(first: Text, rest: Text, end: Text)
    ensures first + [Comma] + rest + end == first + ([Comma] + (rest + end))
  {
  }

  lemma Reassociate(key: Text, value: Text, end: Text)
    ensures key + [Colon] + value + end == key + ([Colon] + (value + end))
  {
  }

  /** Reading the text of a value gives exactly that value back, members in the same order. */
  lemma ParseUndoesPlain(v: Json)
    requires Valid(v)
    ensures ParseValue(Plain(v)) == Got(v, [])
  {
    ReadsBack(v, []);
    assert Plain(v) + [] == Plain(v);
  }

  // ------------------------------------------------------------------ JSON texts are self-delimiting

  lemma {:induction false} CharsExtend(t: Text, q: Text)
    requires ParseChars(t).Got?
    ensures ParseChars(t + q) == Got(ParseChars(t).value, ParseChars(t).rest + q)
    decreases |t|
  {
    if t[0] == Quote {
      assert (t + q)[1..] == t[1..] + q;
    } else if t[0] != Backslash {
      assert (t + q)[1..] == t[1..] + q;
      CharsExtend(t[1..], q);
    } else if t[1] != 117 {
      assert (t + q)[2..] == t[2..] + q;
      CharsExtend(t[2..], q);
    } else {
      assert (t + q)[6..] == t[6..] + q;
      CharsExtend(t[6..], q);
    }
  }

  lemma {:induction false} NumberExtends(t: Text, q: Text)
    requires NumberLength(t) < |t|
    ensures NumberLength(t + q) == NumberLength(t)
    decreases |t|
  {
    if NumberUnit(t[0]) {
      assert (t + q)[1..] == t[1..] + q;
      NumberExtends(t[1..], q);
    }
  }

  lemma LiteralExtends(lit: Text, t: Text, q: Text)
    requires lit <= t
    ensures lit <= t + q && (t + q)[|lit|..] == t[|lit|..] + q
  {
  }

  /** What the parser has read does not change when more text follows, unless it read a number to the very
      end. */
  lemma {:induction false} ValueExtends(t: Text, q: Text)
    requires ParseValue(t).Got? && (ParseValue(t).rest != [] || !ParseValue(t).value.Num?)
    ensures ParseValue(t + q) == Got(ParseValue(t).value, ParseValue(t).rest + q)
    decreases |t|, 0
  {
    assert (t + q)[1..] == t[1..] + q;
    if t[0] == Quote {
      CharsExtend(t[1..], q);
    } else if t[0] == OpenBracket || t[0] == OpenBrace {
      if |t| >= 2 && t[1] == (if t[0] == OpenBrace then CloseBrace else CloseBracket) {
        assert (t + q)[2..] == t[2..] + q;
      } else {
        hide ParseItems, ParseMembers, ParseChars;
        if t[0] == OpenBrace { MembersExtend(t[1..], q); } else { ItemsExtend(t[1..], q); }
      }
    } else if NumberUnit(t[0]) {
      var n := NumberLength(t);
      NumberExtends(t, q);
      assert (t + q)[..n] == t[..n] && (t + q)[n..] == t[n..] + q;
    } else {
      LiteralsExtend(t, q);
    }
  }

  lemma LiteralsExtend(t: Text, q: Text)
    requires ParseValue(t).Got? && t[0] != Quote && t[0] != OpenBracket && t[0] != OpenBrace && !NumberUnit(t[0])
    ensures ParseValue(t + q) == Got(ParseValue(t).value, ParseValue(t).rest + q)
  {
    if NullText <= t {
      LiteralExtends(NullText, t, q);
    } else if TrueText <= t {
      LiteralExtends(TrueText, t, q);
      assert (t + q)[0] == TrueText[0];
    } else {
      LiteralExtends(FalseText, t, q);
      assert (t + q)[0] == FalseText[0];
    }
  }

  lemma {:induction false} ItemsExtend(t: Text, q: Text)
    requires ParseItems(t).Got?
    ensures ParseItems(t + q) == Got(ParseItems(t).value, ParseItems(t).rest + q)
    decreases |t|, 1
  {
    hide ParseValue;
    var p := ParseValue(t);
    ValueExtends(t, q);
    assert (p.rest + q)[1..] == p.rest[1..] + q;
    if p.rest[0] != CloseBracket { ItemsExtend(p.rest[1..], q); }
  }

  lemma {:induction false} MembersExtend(t: Text, q: Text)
    requires ParseMembers(t).Got?
    ensures ParseMembers(t + q) == Got(ParseMembers(t).value, ParseMembers(t).rest + q)
    decreases |t|, 1
  {
    hide ParseValue, ParseChars;
    assert (t + q)[1..] == t[1..] + q;
    CharsExtend(t[1..], q);
    var k := ParseChars(t[1..]);
    assert (k.rest + q)[1..] == k.rest[1..] + q;
    var p := ParseValue(k.rest[1..]);
    ValueExtends(k.rest[1..], q);
    assert (p.rest + q)[1..] == p.rest[1..] + q;
    if p.rest[0] != CloseBrace { MembersExtend(p.rest[1..], q); }
  }

  /** No proper prefix of a value's text is the text of an object. */
  lemma PrefixIsNoObject(v: Json, k: nat)
    requires Valid(v) && k < |Plain(v)|
    ensures var p := ParseValue(Plain(v)[..k]); !(p.Got? && p.rest == [] && p.value.Obj?)
  {
    var t := Plain(v);
    hide Plain, ParseValue, Valid;
    var p := ParseValue(t[..k]);
    if p.Got? && p.rest == [] && p.value.Obj? {
      ValueExtends(t[..k], t[k..]);
      assert t[..k] + t[k..] == t && [] + t[k..] == t[k..];
      ParseUndoesPlain(v);
      assert false;
    }
  }

  // ------------------------------------------------------------------ an object ends with its brace

  predicate IsSuffix(r: Text, t: Text) {
    |r| <= |t| && t[|t| - |r|..] == r
  }

  lemma SuffixOfSuffix(a: Text, b: Text, c: Text)
    requires IsSuffix(a, b) && IsSuffix(b, c)
    ensures IsSuffix(a, c)
  {
    assert c[|c| - |a|..] == c[|c| - |b|..][|b| - |a|..];
  }

  lemma DropIsSuffix(t: Text, n: nat)
    requires n <= |t|
    ensures IsSuffix(t[n..], t)
  {
  }

  lemma {:induction false} CharsLeaveSuffix(t: Text)
    requires ParseChars(t).Got?
    ensures IsSuffix(ParseChars(t).rest, t)
    decreases |t|
  {
    var n := if t[0] == Quote || t[0] != Backslash then 1 else if t[1] != 117 then 2 else 6;
    DropIsSuffix(t, n);
    if t[0] != Quote {
      CharsLeaveSuffix(t[n..]);
      SuffixOfSuffix(ParseChars(t).rest, t[n..], t);
    }
  }

  lemma {:induction false} ValueLeavesSuffix(t: Text)
    requires ParseValue(t).Got?
    ensures IsSuffix(ParseValue(t).rest, t)
    decreases |t|, 0
  {
    DropIsSuffix(t, 1);
    var r := ParseValue(t).rest;
    if t[0] == Quote {
      CharsLeaveSuffix(t[1..]);
      SuffixOfSuffix(r, t[1..], t);
    } else if t[0] == OpenBracket && !(|t| >= 2 && t[1] == CloseBracket) {
      ItemsLeaveSuffix(t[1..]);
      SuffixOfSuffix(r, t[1..], t);
    } else if t[0] == OpenBrace && !(|t| >= 2 && t[1] == CloseBrace) {
      MembersLeaveSuffix(t[1..]);
      SuffixOfSuffix(r, t[1..], t);
    } else {
      assert exists n: nat :: n <= |t| && r == t[n..];
      var n: nat :| n <= |t| && r == t[n..];
      DropIsSuffix(t, n);
    }
  }

  lemma {:induction false} ItemsLeaveSuffix(t: Text)
    requires ParseItems(t).Got?
    ensures IsSuffix(ParseItems(t).rest, t)
    decreases |t|, 1
  {
    hide ParseValue;
    var p := ParseValue(t);
    ValueLeavesSuffix(t);
    DropIsSuffix(p.rest, 1);
    SuffixOfSuffix(p.rest[1..], p.rest, t);
    if p.rest[0] != CloseBracket {
      ItemsLeaveSuffix(p.rest[1..]);
      SuffixOfSuffix(ParseItems(t).rest, p.rest[1..], t);
    }
  }

  /** What is left after the members of an object is preceded by its closing brace. */
  lemma {:induction false} MembersLeaveSuffix(t: Text)
    requires ParseMembers(t).Got?
    ensures var r := ParseMembers(t).rest; IsSuffix([CloseBrace] + r, t) && IsSuffix(r, t)
    decreases |t|, 1
  {
    hide ParseValue, ParseChars;
    var k := ParseChars(t[1..]);
    CharsLeaveSuffix(t[1..]);
    DropIsSuffix(t, 1);
    SuffixOfSuffix(k.rest, t[1..], t);
    DropIsSuffix(k.rest, 1);
    SuffixOfSuffix(k.rest[1..], k.rest, t);
    var p := ParseValue(k.rest[1..]);
    ValueLeavesSuffix(k.rest[1..]);
    SuffixOfSuffix(p.rest, k.rest[1..], t);
    DropIsSuffix(p.rest, 1);
    SuffixOfSuffix(p.rest[1..], p.rest, t);
    if p.rest[0] == CloseBrace {
      assert [CloseBrace] + p.rest[1..] == p.rest;
    } else {
      MembersLeaveSuffix(p.rest[1..]);
      var r := ParseMembers(t).rest;
      SuffixOfSuffix([CloseBrace] + r, p.rest[1..], t);
      SuffixOfSuffix(r, p.rest[1..], t);
    }
  }

  /** A text that is all of an object ends with a closing brace. */
  lemma ObjectEndsWithBrace(t: Text)
    requires ParseValue(t).Got? && ParseValue(t).rest == [] && ParseValue(t).value.Obj?
    ensures t != [] && t[|t| - 1] == CloseBrace
  {
    ObjectStarts(t);
    if |t| >= 2 && t[1] == CloseBrace {
      assert t[2..] == [];
    } else {
      hide ParseValue, ParseMembers;
      MembersLeaveSuffix(t[1..]);
      LastOfSuffix(t[1..]);
      assert t[|t| - 1] == t[1..][|t[1..]| - 1];
    }
  }

  lemma ObjectStarts(t: Text)
    requires ParseValue(t).Got? && ParseValue(t).value.Obj?
    ensures t != []
    ensures var p := ParseValue(t);
            if |t| >= 2 && t[1] == CloseBrace then p.rest == t[2..] else ParseMembers(t[1..]).Got? && ParseMembers(t[1..]).rest == p.rest
  {
  }

  lemma LastOfSuffix(t: Text)
    requires IsSuffix([CloseBrace] + [], t)
    ensures t != [] && t[|t| - 1] == CloseBrace
  {
    assert t[|t| - 1..][0] == CloseBrace;
  }

  // ------------------------------------------------------------------ the text is one line of whole characters

  const LineFeed: CodeUnit := 10

  /** Every surrogate is one of a pair: the text encodes to UTF-8 and back without loss. */
  predicate WellPaired(t: Text) {
    t == [] || ((StartsWithPair(t) || (!HighSurrogate(t[0]) && !LowSurrogate(t[0]))) && WellPaired(t[FirstLength(t)..]))
  }

  lemma {:induction false} PairedConcat(a: Text, b: Text)
    requires WellPaired(a) && WellPaired(b)
    ensures WellPaired(a + b)
  {
    if a == [] {
      assert a + b == b;
    } else {
      var n := FirstLength(a);
      PairedConcat(a[n..], b);
      assert StartsWithPair(a) <==> StartsWithPair(a + b);
      assert (a + b)[n..] == a[n..] + b;
    }
  }

  lemma {:induction false} NoSurrogateIsPaired(t: Text)
    requires forall i :: 0 <= i < |t| ==> !HighSurrogate(t[i]) && !LowSurrogate(t[i])
    ensures WellPaired(t)
  {
    if t != [] { NoSurrogateIsPaired(t[1..]); }
  }

  /** What record lines need of a text. */
  predicate OneLine(t: Text) { LineFeed !in t && WellPaired(t) }

  lemma OneLineConcat(a: Text, b: Text)
    requires OneLine(a) && OneLine(b)
    ensures OneLine(a + b)
  {
    PairedConcat(a, b);
  }

  lemma PlainUnitsAreOneLine(t: Text)
    requires forall i :: 0 <= i < |t| ==> t[i] != LineFeed && !HighSurrogate(t[i]) && !LowSurrogate(t[i])
    ensures OneLine(t)
  {
    NoSurrogateIsPaired(t);
  }

  lemma {:induction false} EscapedIsOneLine(s: Text)
    ensures OneLine(EscapeAll(s))
  {
    if s != [] {
      EscapedIsOneLine(s[FirstLength(s)..]);
      FirstIsOneLine(s);
      OneLineConcat(EscapeFirst(s), EscapeAll(s[FirstLength(s)..]));
    }
  }

  lemma FirstIsOneLine(s: Text)
    requires s != []
    ensures OneLine(EscapeFirst(s))
  {
    if StartsWithPair(s) {
      assert s[..2][2..] == [] && StartsWithPair(s[..2]);
    } else {
      EscapeIsOneLine(s[0]);
    }
  }

  lemma EscapeIsOneLine(c: CodeUnit)
    ensures OneLine(Escape(c))
  {
    PlainUnitsAreOneLine(Escape(c));
  }

  lemma StringIsOneLine(s: Text)
    ensures OneLine(StringText(s))
  {
    EscapedIsOneLine(s);
    PlainUnitsAreOneLine([Quote]);
    OneLineConcat([Quote], EscapeAll(s));
    OneLineConcat([Quote] + EscapeAll(s), [Quote]);
  }

  /** The text of any value is one line of whole characters. */
  lemma {:induction false} PlainIsOneLine(v: Json)
    requires Valid(v)
    ensures OneLine(Plain(v))
    decreases v, 1, 0
  {
    match v
    case Str(s) => StringIsOneLine(s);
    case Arr(items) => {
      ItemsAreOneLine(v, items);
      Enclosed(OpenBracket, ItemsText(items), CloseBracket);
    }
    case Obj(members) => {
      MembersAreOneLine(v, members);
      Enclosed(OpenBrace, MembersText(members), CloseBrace);
    }
    case Num(token) => {
      assert forall i :: 0 <= i < |token| ==> NumberUnit(token[i]);
      PlainUnitsAreOneLine(token);
    }
    case _ => PlainUnitsAreOneLine(Plain(v));
  }

  lemma Enclosed(open: CodeUnit, t: Text, close: CodeUnit)
    requires OneLine(t) && 32 <= open < 128 && 32 <= close < 128
    ensures OneLine([open] + t + [close])
  {
    PlainUnitsAreOneLine([open]);
    PlainUnitsAreOneLine([close]);
    OneLineConcat([open], t);
    OneLineConcat([open] + t, [close]);
  }

  lemma {:induction false} ItemsAreOneLine(v: Json, items: seq<Json>)
    requires forall i :: 0 <= i < |items| ==> items[i] < v && Valid(items[i])
    ensures OneLine(ItemsText(items))
    decreases v, 0, |items|
  {
    hide OneLine;
    if items == [] {
      PlainUnitsAreOneLine([]);
    } else {
      PlainIsOneLine(items[0]);
      if |items| > 1 {
        ItemsAreOneLine(v, items[1..]);
        PlainUnitsAreOneLine([Comma]);
        OneLineConcat(Plain(items[0]), [Comma]);
        OneLineConcat(Plain(items[0]) + [Comma], ItemsText(items[1..]));
      }
    }
  }

  lemma {:induction false} MembersAreOneLine(v: Json, members: seq<Member>)
    requires forall i :: 0 <= i < |members| ==> members[i].value < v && Valid(members[i].value)
    ensures OneLine(MembersText(members))
    decreases v, 0, |members|
  {
    hide OneLine;
    if members == [] {
      PlainUnitsAreOneLine([]);
    } else {
      var key, value := StringText(members[0].key), Plain(members[0].value);
      StringIsOneLine(members[0].key);
      PlainIsOneLine(members[0].value);
      PlainUnitsAreOneLine([Colon]);
      OneLineConcat(key, [Colon]);
      OneLineConcat(key + [Colon], value);
      if |members| > 1 {
        MembersAreOneLine(v, members[1..]);
        PlainUnitsAreOneLine([Comma]);
        OneLineConcat(key + [Colon] + value, [Comma]);
        OneLineConcat(key + [Colon] + value + [Comma], MembersText(members[1..]));
      }
    }
  }
}
