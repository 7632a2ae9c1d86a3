/** UTF-8 as the runtime writes and reads files: a lone surrogate is written as the replacement character,
    and an ill-formed or truncated sequence is read as one. */
module Utf8 {
  import opened JsonText

  type Byte = b: int | 0 <= b < 256

  type Bytes = seq<Byte>

  const Replacement: CodeUnit := 0xfffd

  // ------------------------------------------------------------------ writing

  /** The bytes of the first character. A pair above the basic plane has 64 added to its high ten bits. */
  function EncodeFirst(t: Text): (b: Bytes)
    requires t != []
    ensures 1 <= |b| <= 4
  {
    var u := t[0];
    if StartsWithPair(t) then
      var hi, lo := u - 0xd800 + 64, t[1] - 0xdc00;
      [0xf0 + hi / 256, 0x80 + hi % 256 / 4, 0x80 + hi % 4 * 16 + lo / 64, 0x80 + lo % 64]
    else if HighSurrogate(u) || LowSurrogate(u) then [0xef, 0xbf, 0xbd]
    else if u < 0x80 then [u]
    else if u < 0x800 then [0xc0 + u / 64, 0x80 + u % 64]
    else [0xe0 + u / 4096, 0x80 + u / 64 % 64, 0x80 + u % 64]
  }

  function Encode(t: Text): Bytes {
    if t == [] then [] else EncodeFirst(t) + Encode(t[FirstLength(t)..])
  }

  // ------------------------------------------------------------------ reading

  /** How many bytes a sequence with this first byte has; 0 if none starts so. */
  function Need(b: Byte): nat {
    if b < 0x80 then 1 else if 0xc2 <= b < 0xe0 then 2 else if 0xe0 <= b < 0xf0 then 3 else if 0xf0 <= b < 0xf5 then 4 else 0
  }

  predicate Continues(b: Byte) { 0x80 <= b < 0xc0 }

  /** The second byte also rules out overlong forms, surrogates and values above the last plane. */
  predicate SecondFits(b: Byte, c: Byte) {
    Continues(c) && (b == 0xe0 ==> c >= 0xa0) && (b == 0xed ==> c < 0xa0) && (b == 0xf0 ==> c >= 0x90) && (b == 0xf4 ==> c < 0x90)
  }

  /** How many bytes, from the first, are the start of a well-formed sequence. */
  function Progress(b: Bytes): (n: nat)
    requires b != []
    ensures 1 <= n <= |b|
  {
    if Need(b[0]) < 2 || |b| < 2 || !SecondFits(b[0], b[1]) then 1
    else if Need(b[0]) == 2 || |b| < 3 || !Continues(b[2]) then 2
    else if Need(b[0]) == 3 || |b| < 4 || !Continues(b[3]) then 3
    else 4
  }

  /** The character of a complete sequence. */
  function Character(b: Bytes): Text
    requires b != [] && Need(b[0]) == Progress(b)
  {
    var b0: int := b[0];
    if Need(b0) == 1 then [b0] else
    var b1: int := b[1];
    if Need(b0) == 2 then [(b0 - 0xc0) * 64 + (b1 - 0x80)] else
    var b2: int := b[2];
    if Need(b0) == 3 then [(b0 - 0xe0) * 4096 + (b1 - 0x80) * 64 + (b2 - 0x80)] else
    var b3: int := b[3];
    [0xd800 - 64 + (b0 - 0xf0) * 256 + (b1 - 0x80) * 4 + (b2 - 0x80) / 16, 0xdc00 + (b2 - 0x80) % 16 * 64 + (b3 - 0x80)]
  }

  /** What the first sequence reads as: a replacement character if it is incomplete or ill-formed. */
  function First(b: Bytes): Text
    requires b != []
  {
    if Need(b[0]) == Progress(b) then Character(b) else [Replacement]
  }

  function Decode(b: Bytes): Text {
    if b == [] then [] else First(b) + Decode(b[Progress(b)..])
  }

  // ------------------------------------------------------------------ round trips

  predicate WholeFirst(t: Text) {
    t != [] && (StartsWithPair(t) || (!HighSurrogate(t[0]) && !LowSurrogate(t[0])))
  }

  lemma PairArithmetic(hi: int, lo: int)
    requires 64 <= hi < 1088 && 0 <= lo < 1024
    ensures 0 <= hi / 256 <= 4 && 0 <= hi % 256 / 4 < 64 && 0 <= hi % 4 * 16 + lo / 64 < 64 && 0 <= lo % 64 < 64
    ensures hi / 256 == 0 ==> hi % 256 / 4 >= 16
    ensures hi / 256 == 4 ==> hi % 256 / 4 < 16
    ensures (hi % 4 * 16 + lo / 64) / 16 == hi % 4 && (hi % 4 * 16 + lo / 64) % 16 == lo / 64
    ensures hi / 256 * 256 + hi % 256 / 4 * 4 + hi % 4 == hi && lo / 64 * 64 + lo % 64 == lo
  {
    var q, r := hi / 256, hi % 256;
    assert hi == 256 * q + r;
    assert r == 4 * (r / 4) + r % 4;
    assert hi % 4 == r % 4 by { ModFour(q, r); }
    assert 0 <= lo / 64 < 16;
  }

  lemma ModFour(q: int, r: int)
    ensures (256 * q + r) % 4 == r % 4
  {
    assert 256 * q + r == 4 * (64 * q + r / 4) + r % 4;
  }

  lemma PairDecodes(t: Text, rest: Bytes)
    requires StartsWithPair(t)
    ensures var b := EncodeFirst(t) + rest; Need(b[0]) == 4 == Progress(b) && Character(b) == t[..2]
  {
    PairArithmetic(t[0] - 0xd800 + 64, t[1] - 0xdc00);
  }

  lemma UnitArithmetic(u: int)
    requires 0 <= u < 0x10000
    ensures u / 4096 * 4096 + u / 64 % 64 * 64 + u % 64 == u
    ensures u / 64 * 64 + u % 64 == u && 0 <= u / 4096 < 16
    ensures u >= 0x800 && u / 4096 == 0 ==> u / 64 % 64 >= 32
    ensures u < 0xd800 && u / 4096 == 13 ==> u / 64 % 64 < 32
  {
    var q := u / 64;
    assert u == 64 * q + u % 64;
    assert q == 64 * (q / 64) + q % 64;
    assert u / 4096 == q / 64;
  }

  /** A whole character reads back, whatever follows. */
  lemma FirstDecodes(t: Text, rest: Bytes)
    requires WholeFirst(t)
    ensures var b := EncodeFirst(t) + rest;
            Need(b[0]) == Progress(b) == |EncodeFirst(t)| && Character(b) == t[..FirstLength(t)]
  {
    if StartsWithPair(t) {
      PairDecodes(t, rest);
    } else {
      UnitArithmetic(t[0]);
      assert t[..1] == [t[0]];
    }
  }

  /** A character cut short reads as one replacement character. */
  lemma CutFirstDecodes(t: Text, k: nat)
    requires WholeFirst(t) && 0 < k < |EncodeFirst(t)|
    ensures Decode(EncodeFirst(t)[..k]) == [Replacement]
  {
    FirstDecodes(t, []);
    var b, c := EncodeFirst(t) + [], EncodeFirst(t)[..k];
    assert b[0] == c[0] && (k > 1 ==> b[1] == c[1]) && (k > 2 ==> b[2] == c[2]);
    assert Progress(c) == k && c[k..] == [];
  }

  /** Reading undoes writing, character by character. */
  lemma {:induction false} DecodeConcat(a: Text, rest: Bytes)
    requires WellPaired(a)
    ensures Decode(Encode(a) + rest) == a + Decode(rest)
  {
    hide Decode, EncodeFirst, Encode, WellPaired, FirstLength;
    if a == [] {
      DecodeNothing(rest);
    } else {
      FirstIsWhole(a);
      EncodeStep(a);
      var n := FirstLength(a);
      var tail := Encode(a[n..]);
      DecodeStep(a, tail + rest);
      DecodeConcat(a[n..], rest);
      Regroup(EncodeFirst(a), tail, rest);
      RegroupText(a, n, Decode(rest));
    }
  }

  lemma DecodeNothing(rest: Bytes)
    ensures Decode(Encode([]) + rest) == [] + Decode(rest)
  {
    assert Encode([]) + rest == rest;
  }

  lemma Regroup(a: Bytes, b: Bytes, d: Bytes)
    ensures a + b + d == a + (b + d)
  {
  }

  lemma RegroupText(a: Text, n: nat, more: Text)
    requires n <= |a|
    ensures a[..n] + (a[n..] + more) == a + more
  {
  }

  lemma FirstIsWhole(t: Text)
    requires WellPaired(t) && t != []
    ensures WholeFirst(t) && WellPaired(t[FirstLength(t)..])
  {
  }

  lemma EncodeStep(t: Text)
    requires t != []
    ensures Encode(t) == EncodeFirst(t) + Encode(t[FirstLength(t)..])
  {
  }

  lemma DecodeStep(t: Text, more: Bytes)
    requires WholeFirst(t)
    ensures Decode(EncodeFirst(t) + more) == t[..FirstLength(t)] + Decode(more)
  {
    FirstDecodes(t, more);
    assert (EncodeFirst(t) + more)[|EncodeFirst(t)|..] == more;
  }

  lemma {:induction false} EncodeConcat(a: Text, b: Text)
    requires WellPaired(a)
    ensures Encode(a + b) == Encode(a) + Encode(b)
  {
    if a == [] {
      assert a + b == b;
    } else {
      SameFirst(a, b);
      hide EncodeFirst, FirstLength;
      EncodeConcat(a[FirstLength(a)..], b);
    }
  }

  /** What follows does not change the first character. */
  lemma SameFirst(a: Text, b: Text)
    requires WholeFirst(a)
    ensures FirstLength(a + b) == FirstLength(a) && EncodeFirst(a + b) == EncodeFirst(a)
    ensures (a + b)[FirstLength(a)..] == a[FirstLength(a)..] + b
  {
    assert StartsWithPair(a) <==> StartsWithPair(a + b);
  }

  // ------------------------------------------------------------------ lines of any bytes

  /** A line break ends any sequence, so each line is read on its own. */
  lemma {:induction false} DecodeBreak(b: Bytes, rest: Bytes)
    ensures Decode(b + [10] + rest) == Decode(b) + [LineFeed] + Decode(rest)
  {
    if b == [] {
      BreakFirst(rest);
    } else {
      BreakLater(b, rest);
      hide Decode, Progress, Character, Need;
      DecodeBreak(b[Progress(b)..], rest);
      JoinAll(First(b), Decode(b[Progress(b)..]), Decode(rest));
    }
  }

  lemma BreakFirst(rest: Bytes)
    ensures Decode([] + [10] + rest) == Decode([]) + [LineFeed] + Decode(rest)
  {
    var all: Bytes := [] + [10] + rest;
    assert all[1..] == rest && First(all) == [LineFeed];
  }

  lemma BreakLater(b: Bytes, rest: Bytes)
    requires b != []
    ensures var n := Progress(b);
            Decode(b) == First(b) + Decode(b[n..]) && Decode(b + [10] + rest) == First(b) + Decode(b[n..] + [10] + rest)
  {
    var all, n := b + [10] + rest, Progress(b);
    assert all[0] == b[0] && (|b| > 1 ==> all[1] == b[1]) && (|b| > 2 ==> all[2] == b[2]) && (|b| > 3 ==> all[3] == b[3]);
    assert |b| < 4 ==> all[|b|] == 10;
    assert Progress(all) == n && First(all) == First(b);
    assert all[n..] == b[n..] + [10] + rest;
  }

  lemma JoinAll(a: Text, b: Text, d: Text)
    ensures a + (b + [LineFeed] + d) == a + b + [LineFeed] + d
  {
  }

  lemma {:induction false} BreakStaysOut(b: Bytes)
    requires 10 !in b
    ensures LineFeed !in Decode(b)
  {
    if b != [] { BreakStaysOut(b[Progress(b)..]); }
  }

  // ------------------------------------------------------------------ a text cut at a byte

  /** How many units of the text the first `k` bytes hold whole. */
  function WholeUnits(t: Text, k: nat): (j: nat)
    ensures j <= |t|
  {
    if t == [] || |EncodeFirst(t)| > k then 0
    else FirstLength(t) + WholeUnits(t[FirstLength(t)..], k - |EncodeFirst(t)|)
  }

  /** The cut falls between two characters. */
  predicate AtBoundary(t: Text, k: nat) { |Encode(t[..WholeUnits(t, k)])| == k }

  /** The cut of a text into `j` units in whole characters and `m` bytes of the next one. */
  predicate Splits(t: Text, k: nat, j: nat) {
    && j <= |t| && WellPaired(t[..j]) && WellPaired(t[j..]) && |Encode(t[..j])| <= k <= |Encode(t)|
    && Encode(t)[..|Encode(t[..j])|] == Encode(t[..j])
    && (k < |Encode(t)| ==>
          && j < |t| && k - |Encode(t[..j])| < |EncodeFirst(t[j..])|
          && Encode(t)[..k] == Encode(t[..j]) + EncodeFirst(t[j..])[..k - |Encode(t[..j])|])
  }

  lemma ShiftPrefix(first: Bytes, e: Bytes, n: nat)
    requires n <= |e|
    ensures (first + e)[..|first| + n] == first + e[..n]
  {
  }

  lemma SplitTail(t: Text, n: nat, i: nat)
    requires n <= |t| && i <= |t| - n
    ensures t[..n + i] == t[..n] + t[n..][..i] && t[n + i..] == t[n..][i..]
  {
  }

  /** One more character in front. */
  lemma SplitsStep(t: Text, k: nat, i: nat)
    requires WellPaired(t) && t != [] && |EncodeFirst(t)| <= k && Splits(t[FirstLength(t)..], k - |EncodeFirst(t)|, i)
    ensures Splits(t, k, FirstLength(t) + i)
  {
    hide Encode, EncodeFirst, FirstLength, WellPaired;
    var n, first := FirstLength(t), EncodeFirst(t);
    var u, j := t[n..], n + i;
    FirstIsWhole(t);
    EncodeStep(t);
    SplitTail(t, n, i);
    FirstPart(t, u[..i]);
    ShiftParts(first, Encode(u), Encode(u[..i]), if k - |first| < |Encode(u)| then EncodeFirst(u[i..])[..k - |first| - |Encode(u[..i])|] else [], k - |first|);
  }

  lemma ShiftParts(first: Bytes, e: Bytes, whole: Bytes, part: Bytes, k: nat)
    requires |whole| <= k <= |e| && e[..|whole|] == whole && (k < |e| ==> e[..k] == whole + part)
    ensures (first + e)[..|first + whole|] == first + whole
    ensures k < |e| ==> (first + e)[..|first| + k] == first + whole + part
  {
    ShiftPrefix(first, e, |whole|);
    ShiftPrefix(first, e, k);
  }

  /** A cut text is its whole characters, and the first bytes of the next one. */
  lemma {:induction false} CutSplits(t: Text, k: nat)
    requires WellPaired(t) && k <= |Encode(t)|
    ensures Splits(t, k, WholeUnits(t, k))
  {
    if t == [] || |EncodeFirst(t)| > k {
      CutInFirst(t, k);
    } else {
      CutSplits(t[FirstLength(t)..], k - |EncodeFirst(t)|);
      SplitsStep(t, k, WholeUnits(t[FirstLength(t)..], k - |EncodeFirst(t)|));
    }
  }

  lemma CutInFirst(t: Text, k: nat)
    requires WellPaired(t) && k <= |Encode(t)| && (t == [] || |EncodeFirst(t)| > k)
    ensures Splits(t, k, 0)
  {
    assert t[..0] == [] && t[0..] == t;
    if t != [] { assert Encode(t)[..k] == EncodeFirst(t)[..k]; }
  }

  /** The first character of a text, followed by whole ones. */
  lemma FirstPart(t: Text, more: Text)
    requires WholeFirst(t) && WellPaired(more)
    ensures var a := t[..FirstLength(t)] + more; WellPaired(a) && Encode(a) == EncodeFirst(t) + Encode(more)
  {
    var n := FirstLength(t);
    var a := t[..n] + more;
    assert StartsWithPair(t) ==> StartsWithPair(a);
    assert !StartsWithPair(t) ==> a[0] == t[0];
    assert a[n..] == more;
  }

  /** Reading a cut text gives its whole characters, and a replacement character exactly when the cut fell
      inside one. */
  lemma CutDecodes(t: Text, k: nat)
    requires WellPaired(t) && k < |Encode(t)|
    ensures var j := WholeUnits(t, k);
            j < |t| && Decode(Encode(t)[..k]) == t[..j] + if AtBoundary(t, k) then [] else [Replacement]
  {
    CutSplits(t, k);
    var j := WholeUnits(t, k);
    var m := k - |Encode(t[..j])|;
    var part := EncodeFirst(t[j..])[..m];
    DecodeConcat(t[..j], part);
    if m == 0 {
      assert part == [] && t[..j] + [] == t[..j];
    } else {
      CutFirstDecodes(t[j..], m);
    }
  }

  /** Writing back what was read of a cut text gives the same bytes exactly when the cut fell between two
      characters. */
  lemma CutSurvivesExactlyAtBoundary(t: Text, k: nat)
    requires WellPaired(t) && k < |Encode(t)|
    ensures Encode(Decode(Encode(t)[..k])) == Encode(t)[..k] <==> AtBoundary(t, k)
  {
    CutSplits(t, k);
    CutDecodes(t, k);
    ReplacementBytes();
    var j := WholeUnits(t, k);
    var whole, m := Encode(t[..j]), k - |Encode(t[..j])|;
    if m > 0 { CutIsNoReplacement(t[j..], m); }
    EncodeConcat(t[..j], [Replacement]);
    hide Encode, Decode, EncodeFirst, WellPaired, WholeUnits;
    if m == 0 {
      assert t[..j] + [] == t[..j] && EncodeFirst(t[j..])[..0] == [] && whole + [] == whole;
    } else {
      DifferentTails(whole, EncodeFirst(t[j..])[..m], [0xef, 0xbf, 0xbd]);
    }
  }

  lemma ReplacementBytes()
    ensures Encode([Replacement]) == [0xef, 0xbf, 0xbd]
  {
    assert [Replacement][1..] == [];
  }

  lemma DifferentTails(whole: Bytes, a: Bytes, b: Bytes)
    requires a != b
    ensures whole + a != whole + b
  {
    assert (whole + a)[|whole|..] == a && (whole + b)[|whole|..] == b;
  }

  lemma CutIsNoReplacement(t: Text, m: nat)
    requires WholeFirst(t) && m < |EncodeFirst(t)|
    ensures EncodeFirst(t)[..m] != [0xef, 0xbf, 0xbd]
  {
    if StartsWithPair(t) { assert EncodeFirst(t)[0] >= 0xf0; }
  }
}
