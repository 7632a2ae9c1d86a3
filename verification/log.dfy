/** The append-only notification log (notification-log.ts): one JSON record a line, a torn last line moved
    to a side file, anything else wrong answered by failing closed. Files are bytes; the log is read as UTF-8. */
module Log {
  import opened Common
  import opened JsonText
  import opened Utf8

  const Newline: CodeUnit := LineFeed
  const Break: Byte := 10

  /** How records are written and read back. */
  datatype Codec<!R> = Codec(render: R -> Text, parse: Text -> Option<R>)

  /** What the log needs of its codec: a record reads back from its text, the text is one line of whole
      characters, and no proper prefix of it is a record (so the empty line is none), nor is one that ends
      in the mark of a cut character. */
  ghost predicate Good<R(!new)>(c: Codec<R>) {
    && (forall r :: c.parse(c.render(r)) == Some(r) && OneLine(c.render(r)) && c.render(r) != [])
    && (forall r, k: nat :: k < |c.render(r)| ==> NoRecord(c, c.render(r)[..k]))
  }

  predicate NoRecord<R>(c: Codec<R>, t: Text) { c.parse(t).None? && c.parse(t + [Replacement]).None? }

  // ------------------------------------------------------------------ lines

  /** raw.split("\n"). */
  function Split(raw: Text): (parts: seq<Text>)
    ensures parts != []
  {
    if raw == [] then [[]]
    else if raw[0] == Newline then [[]] + Split(raw[1..])
    else
      var rest := Split(raw[1..]);
      [[raw[0]] + rest[0]] + rest[1..]
  }

  lemma {:induction false} SplitOne(line: Text)
    requires Newline !in line
    ensures Split(line) == [line]
  {
    if line != [] {
      SplitOne(line[1..]);
      assert [line[0]] + line[1..] == line;
    }
  }

  lemma {:induction false} SplitFirst(line: Text, rest: Text)
    requires Newline !in line
    ensures Split(line + [Newline] + rest) == [line] + Split(rest)
  {
    var raw := line + [Newline] + rest;
    if line == [] {
      assert raw[1..] == rest;
    } else {
      SplitFirst(line[1..], rest);
      assert raw[1..] == line[1..] + [Newline] + rest;
      assert [line[0]] + line[1..] == line;
    }
  }

  /** The text of a well-formed log. */
  function Lines<R>(c: Codec<R>, rs: seq<R>): Text {
    if rs == [] then [] else c.render(rs[0]) + [Newline] + Lines(c, rs[1..])
  }

  function Rendered<R>(c: Codec<R>, rs: seq<R>): (t: seq<Text>)
    ensures |t| == |rs| && forall i :: 0 <= i < |rs| ==> t[i] == c.render(rs[i])
  {
    seq(|rs|, i requires 0 <= i < |rs| => c.render(rs[i]))
  }

  /** Splitting a text that starts with a well-formed log. */
  lemma {:induction false} SplitLines<R(!new)>(c: Codec<R>, rs: seq<R>, rest: Text)
    requires Good(c)
    ensures Split(Lines(c, rs) + rest) == Rendered(c, rs) + Split(rest)
  {
    assert rs != [] ==> Newline !in c.render(rs[0]);
    hide Split, Good, Rendered;
    if rs == [] {
      assert Lines(c, rs) + rest == rest && Rendered(c, rs) + Split(rest) == Split(rest);
    } else {
      SplitLines(c, rs[1..], rest);
      var first, more := c.render(rs[0]), Lines(c, rs[1..]);
      RegroupLine(first, more, rest);
      SplitFirst(first, more + rest);
      RegroupRendered(c, rs, Split(rest));
    }
  }

  lemma RegroupLine(first: Text, more: Text, rest: Text)
    ensures first + [Newline] + more + rest == first + [Newline] + (more + rest)
  {
  }

  lemma RegroupRendered<R>(c: Codec<R>, rs: seq<R>, rest: seq<Text>)
    requires rs != []
    ensures Rendered(c, rs) + rest == [c.render(rs[0])] + (Rendered(c, rs[1..]) + rest)
  {
  }

  lemma {:induction false} LinesAppend<R>(c: Codec<R>, rs: seq<R>, r: R)
    ensures Lines(c, rs + [r]) == Lines(c, rs) + c.render(r) + [Newline]
  {
    if rs == [] {
      assert [r][1..] == [];
      assert Lines(c, [r]) == c.render(r) + [Newline];
    } else {
      LinesAppend(c, rs[1..], r);
      assert (rs + [r])[1..] == rs[1..] + [r];
    }
  }

  // ------------------------------------------------------------------ bytes

  lemma {:induction false} LinesArePaired<R(!new)>(c: Codec<R>, rs: seq<R>)
    requires Good(c)
    ensures WellPaired(Lines(c, rs))
  {
    if rs != [] {
      assert OneLine(c.render(rs[0])) && WellPaired([Newline]);
      LinesArePaired(c, rs[1..]);
      PairedConcat(c.render(rs[0]), [Newline]);
      PairedConcat(c.render(rs[0]) + [Newline], Lines(c, rs[1..]));
    }
  }

  /** What follows the whole lines is read on its own. */
  lemma DecodeLines<R(!new)>(c: Codec<R>, rs: seq<R>, rest: Bytes)
    requires Good(c)
    ensures Decode(Encode(Lines(c, rs)) + rest) == Lines(c, rs) + Decode(rest)
  {
    LinesArePaired(c, rs);
    DecodeConcat(Lines(c, rs), rest);
  }

  lemma EncodeBreak(t: Text)
    requires WellPaired(t)
    ensures Encode(t + [Newline]) == Encode(t) + [Break]
  {
    EncodeConcat(t, [Newline]);
    assert Encode([Newline]) == [Break] by { assert [Newline][1..] == []; }
  }

  lemma EncodeLinesAppend<R(!new)>(c: Codec<R>, rs: seq<R>, r: R)
    requires Good(c)
    ensures Encode(Lines(c, rs + [r])) == Encode(Lines(c, rs)) + Encode(c.render(r)) + [Break]
  {
    var text := c.render(r);
    assert OneLine(text);
    LinesAppend(c, rs, r);
    LinesArePaired(c, rs);
    EncodeBreak(text);
    EncodeConcat(Lines(c, rs), text + [Newline]);
    hide Encode;
    assert Lines(c, rs) + text + [Newline] == Lines(c, rs) + (text + [Newline]);
    Regroup(Encode(Lines(c, rs)), Encode(text), [Break]);
  }

  /** What is read of a record cut after `k` bytes. */
  function TornText<R>(c: Codec<R>, r: R, k: nat): Text
    requires k <= |Encode(c.render(r))|
  {
    Decode(Encode(c.render(r))[..k])
  }

  /** A cut record is one line and no record. */
  lemma TornIsNoRecord<R(!new)>(c: Codec<R>, r: R, k: nat)
    requires Good(c) && 0 < k < |Encode(c.render(r))|
    ensures var t := TornText(c, r, k); t != [] && Newline !in t && c.parse(t).None?
  {
    var text := c.render(r);
    assert OneLine(text);
    CutDecodes(text, k);
    var j := WholeUnits(text, k);
    assert NoRecord(c, text[..j]);
    assert text[..j] + [] == text[..j];
    if j == 0 { assert Encode(text[..j]) == []; }
  }

  // ------------------------------------------------------------------ reading

  datatype ParsedFile<+R> = ParsedFile(records: seq<R>, partial: Option<Text>, corrupt: bool)

  /** The records before the first line that is none, and whether there is such a line. */
  function ParseLines<R>(c: Codec<R>, lines: seq<Text>): (seq<R>, bool) {
    if lines == [] then ([], false) else
    var p := c.parse(lines[0]);
    if p.None? then ([], true) else
    var rest := ParseLines(c, lines[1..]);
    ([p.value] + rest.0, rest.1)
  }

  /** The lines that must be records, and the torn last one. A last line without its break counts if it is
      a record. */
  function Complete<R>(c: Codec<R>, raw: Text): (seq<Text>, Option<Text>)
    requires raw != []
  {
    var parts := Split(raw);
    var init, last := parts[..|parts| - 1], parts[|parts| - 1];
    if raw[|raw| - 1] == Newline then (init, None)
    else if c.parse(last).Some? then (parts, None)
    else (init, Some(last))
  }

  function ParseFile<R>(c: Codec<R>, raw: Text): ParsedFile<R> {
    if raw == [] then ParsedFile([], None, false) else
    var (lines, partial) := Complete(c, raw);
    var (records, corrupt) := ParseLines(c, lines);
    ParsedFile(records, partial, corrupt)
  }

  lemma {:induction false} ParseRendered<R(!new)>(c: Codec<R>, rs: seq<R>)
    requires Good(c)
    ensures ParseLines(c, Rendered(c, rs)) == (rs, false)
  {
    if rs != [] {
      ParseRendered(c, rs[1..]);
      assert Rendered(c, rs)[1..] == Rendered(c, rs[1..]);
      assert [rs[0]] + rs[1..] == rs;
    }
  }

  /** A log whose last append was cut after `k` bytes of its line. */
  function Torn<R>(c: Codec<R>, rs: seq<R>, r: R, k: nat): Bytes {
    Encode(Lines(c, rs)) + Cut(Encode(c.render(r)) + [Break], k)
  }

  function Cut(b: Bytes, n: nat): Bytes { if n < |b| then b[..n] else b }

  /** The records of a torn log: the last one counts exactly when its JSON is complete. */
  function Survivors<R>(c: Codec<R>, rs: seq<R>, r: R, k: nat): seq<R> {
    if k < |Encode(c.render(r))| then rs else rs + [r]
  }

  lemma ParseWhole<R(!new)>(c: Codec<R>, rs: seq<R>)
    requires Good(c)
    ensures ParseFile(c, Lines(c, rs)) == ParsedFile(rs, None, false)
  {
    if rs != [] {
      var raw := Lines(c, rs);
      SplitLines(c, rs, []);
      SplitOne([]);
      assert raw + [] == raw;
      EndsWithBreak(c, rs);
      ParseRendered(c, rs);
      assert (Rendered(c, rs) + [[]])[..|rs|] == Rendered(c, rs);
    }
  }

  lemma {:induction false} EndsWithBreak<R>(c: Codec<R>, rs: seq<R>)
    requires rs != []
    ensures Lines(c, rs) != [] && Lines(c, rs)[|Lines(c, rs)| - 1] == Newline
  {
    if |rs| > 1 { EndsWithBreak(c, rs[1..]); }
  }

  /** A log that ends in part of a line. */
  lemma ParseTail<R(!new)>(c: Codec<R>, rs: seq<R>, last: Text)
    requires Good(c) && last != [] && Newline !in last
    ensures ParseFile(c, Lines(c, rs) + last) ==
            if c.parse(last).Some? then ParsedFile(rs + [c.parse(last).value], None, false) else ParsedFile(rs, Some(last), false)
  {
    var raw := Lines(c, rs) + last;
    SplitLines(c, rs, last);
    SplitOne(last);
    assert raw[|raw| - 1] == last[|last| - 1];
    ParseRendered(c, rs);
    assert (Rendered(c, rs) + [last])[..|rs|] == Rendered(c, rs);
    if c.parse(last).Some? { ParseOneMore(c, Rendered(c, rs), last, rs); }
  }

  lemma {:induction false} ParseOneMore<R(!new)>(c: Codec<R>, lines: seq<Text>, last: Text, rs: seq<R>)
    requires ParseLines(c, lines) == (rs, false) && c.parse(last).Some?
    ensures ParseLines(c, lines + [last]) == (rs + [c.parse(last).value], false)
  {
    if lines == [] {
      assert lines + [last] == [last] && [last][1..] == [] && rs == [];
      assert [c.parse(last).value] + [] == rs + [c.parse(last).value];
    } else {
      var first, rest := c.parse(lines[0]).value, ParseLines(c, lines[1..]).0;
      ParseOneMore(c, lines[1..], last, rest);
      assert (lines + [last])[1..] == lines[1..] + [last];
      assert [first] + (rest + [c.parse(last).value]) == rs + [c.parse(last).value];
    }
  }

  /** A whole record before the end of the file counts, with or without its break. */
  lemma ReadWhole<R(!new)>(c: Codec<R>, rs: seq<R>)
    requires Good(c)
    ensures ParseFile(c, Decode(Encode(Lines(c, rs)))) == ParsedFile(rs, None, false)
  {
    DecodeLines(c, rs, []);
    assert Encode(Lines(c, rs)) + [] == Encode(Lines(c, rs)) && Lines(c, rs) + [] == Lines(c, rs);
    ParseWhole(c, rs);
  }

  lemma ReadUnbroken<R(!new)>(c: Codec<R>, rs: seq<R>, r: R)
    requires Good(c)
    ensures var raw := Decode(Encode(Lines(c, rs)) + Encode(c.render(r)));
            raw != [] && raw[|raw| - 1] != Newline && ParseFile(c, raw) == ParsedFile(rs + [r], None, false)
  {
    var text := c.render(r);
    assert OneLine(text);
    DecodeLines(c, rs, Encode(text));
    DecodeConcat(text, []);
    assert Encode(text) + [] == Encode(text) && text + [] == text;
    ParseTail(c, rs, text);
  }

  lemma ReadCut<R(!new)>(c: Codec<R>, rs: seq<R>, r: R, k: nat)
    requires Good(c) && 0 < k < |Encode(c.render(r))|
    ensures ParseFile(c, Decode(Encode(Lines(c, rs)) + Encode(c.render(r))[..k])) == ParsedFile(rs, Some(TornText(c, r, k)), false)
  {
    DecodeLines(c, rs, Encode(c.render(r))[..k]);
    TornIsNoRecord(c, r, k);
    ParseTail(c, rs, TornText(c, r, k));
  }

  /** No torn append is read as corruption in the middle, and the survivors are read. */
  lemma ParseTorn<R(!new)>(c: Codec<R>, rs: seq<R>, r: R, k: nat)
    requires Good(c)
    ensures ParseFile(c, Decode(Torn(c, rs, r, k))) ==
            ParsedFile(Survivors(c, rs, r, k), if 0 < k < |Encode(c.render(r))| then Some(TornText(c, r, k)) else None, false)
  {
    assert OneLine(c.render(r));
    var whole, text := Encode(Lines(c, rs)), Encode(c.render(r));
    RecordHasBytes(c, r);
    hide Encode, Decode, ParseFile;
    if k == 0 {
      assert Torn(c, rs, r, k) == whole;
      ReadWhole(c, rs);
    } else if k < |text| {
      assert (text + [Break])[..k] == text[..k];
      ReadCut(c, rs, r, k);
    } else if k == |text| {
      assert (text + [Break])[..k] == text;
      ReadUnbroken(c, rs, r);
    } else {
      EncodeLinesAppend(c, rs, r);
      Regroup(whole, text, [Break]);
      ReadWhole(c, rs + [r]);
    }
  }

  lemma RecordHasBytes<R(!new)>(c: Codec<R>, r: R)
    requires Good(c)
    ensures Encode(c.render(r)) != []
  {
    assert c.render(r) != [];
  }

  // ------------------------------------------------------------------ the files

  /** The log, and the side file that torn lines are moved to. */
  datatype Files = Files(content: Bytes, side: Bytes)

  /** `sideCut` is how much of the fragment reaches the side file if that write stops. */
  datatype Plan = Plan(sideCut: Option<nat>, rewrite: Fault, addBreak: Fault)

  const AllWorks := Plan(None, Works, Works)

  datatype Failure = Corrupt | Stopped

  datatype Repaired<+R> = Repaired(files: Files, out: Result<seq<R>, Failure>)

  /** inspectAndRepairSync. The log is rewritten only after the fragment is safe in the side file. */
  function Repair<R>(c: Codec<R>, f: Files, p: Plan): Repaired<R> {
    var raw := Decode(f.content);
    var parsed := ParseFile(c, raw);
    if parsed.corrupt then Repaired(f, Err(Corrupt))
    else if parsed.partial.Some? then
      var fragment := Encode(parsed.partial.value + [Newline]);
      if p.sideCut.Some? then Repaired(f.(side := f.side + Cut(fragment, p.sideCut.value)), Err(Stopped)) else
      var content := if TookEffect(p.rewrite) then Encode(Lines(c, parsed.records)) else f.content;
      Repaired(Files(content, f.side + fragment), if p.rewrite == Works then Ok(parsed.records) else Err(Stopped))
    else if raw != [] && raw[|raw| - 1] != Newline then
      Repaired(f.(content := if TookEffect(p.addBreak) then f.content + [Break] else f.content),
               if p.addBreak == Works then Ok(parsed.records) else Err(Stopped))
    else Repaired(f, Ok(parsed.records))
  }

  /** appendNotificationLog: repair, then append a line, of which a crash may leave any bytes. */
  function Append<R>(c: Codec<R>, f: Files, r: R, p: Plan, cut: nat): Repaired<R> {
    var d := Repair(c, f, p);
    if d.out.Err? then d else
    var line := Encode(c.render(r) + [Newline]);
    Repaired(d.files.(content := d.files.content + Cut(line, cut)), if cut < |line| then Err(Stopped) else d.out)
  }

  // ------------------------------------------------------------------ what repair keeps

  /** The log holds these records: whole, or with a torn line after them, or short of the last break. */
  ghost predicate IsLog<R(!new)>(c: Codec<R>, content: Bytes, kept: seq<R>) {
    || content == Encode(Lines(c, kept))
    || (exists r, k: nat :: IsTorn(c, content, kept, r, k))
    || (kept != [] && content + [Break] == Encode(Lines(c, kept)))
  }

  ghost predicate IsTorn<R>(c: Codec<R>, content: Bytes, kept: seq<R>, r: R, k: nat) {
    0 < k < |Encode(c.render(r))| && content == Encode(Lines(c, kept)) + Encode(c.render(r))[..k]
  }

  /** A log reads as its records, and is whole, torn or short of a break as the text says. */
  lemma LogReads<R(!new)>(c: Codec<R>, content: Bytes, kept: seq<R>)
    requires Good(c) && IsLog(c, content, kept)
    ensures var raw := Decode(content);
            var p := ParseFile(c, raw);
            && p.records == kept && !p.corrupt
            && (p.partial.None? ==>
                  if raw != [] && raw[|raw| - 1] != Newline then content + [Break] == Encode(Lines(c, kept)) else content == Encode(Lines(c, kept)))
  {
    hide Encode, Decode, ParseFile;
    if content == Encode(Lines(c, kept)) {
      ReadWhole(c, kept);
      WholeEnds(c, kept);
    } else if r, k: nat :| IsTorn(c, content, kept, r, k) {
      ReadCut(c, kept, r, k);
    } else {
      var init, last := kept[..|kept| - 1], kept[|kept| - 1];
      assert kept == init + [last];
      EncodeLinesAppend(c, init, last);
      DropBreak(content, Encode(Lines(c, init)) + Encode(c.render(last)));
      ReadUnbroken(c, init, last);
    }
  }

  lemma WholeEnds<R(!new)>(c: Codec<R>, rs: seq<R>)
    requires Good(c)
    ensures var raw := Decode(Encode(Lines(c, rs))); raw == Lines(c, rs) && (raw != [] ==> raw[|raw| - 1] == Newline)
  {
    DecodeLines(c, rs, []);
    assert Encode(Lines(c, rs)) + [] == Encode(Lines(c, rs)) && Lines(c, rs) + [] == Lines(c, rs);
    if rs != [] { EndsWithBreak(c, rs); }
  }

  lemma DropBreak(a: Bytes, b: Bytes)
    requires a + [Break] == b + [Break]
    ensures a == b
  {
    assert (a + [Break])[..|a|] == a && (b + [Break])[..|a|] == b;
  }

  /** Wherever a repair stops, the log holds the same records; one that returns leaves it whole. */
  lemma RepairKeepsLog<R(!new)>(c: Codec<R>, f: Files, kept: seq<R>, p: Plan)
    requires Good(c) && IsLog(c, f.content, kept)
    ensures var d := Repair(c, f, p);
            && IsLog(c, d.files.content, kept) && d.out != Err(Corrupt)
            && (d.out.Ok? ==> d.out.value == kept && d.files.content == Encode(Lines(c, kept)))
            && (p == AllWorks ==> d.out.Ok?)
  {
    hide Encode, Decode, ParseFile, Good;
    LogReads(c, f.content, kept);
  }

  /** An append that was cut leaves the log with the new record exactly when its JSON is complete. */
  lemma AppendKeepsLog<R(!new)>(c: Codec<R>, f: Files, kept: seq<R>, r: R, p: Plan, cut: nat)
    requires Good(c) && IsLog(c, f.content, kept)
    ensures var d := Append(c, f, r, p, cut);
            && (Repair(c, f, p).out.Err? ==> IsLog(c, d.files.content, kept))
            && (Repair(c, f, p).out.Ok? ==> IsLog(c, d.files.content, Survivors(c, kept, r, cut)))
            && d.out != Err(Corrupt)
  {
    hide Encode, Decode, Repair;
    RepairKeepsLog(c, f, kept, p);
    if Repair(c, f, p).out.Ok? {
      assert OneLine(c.render(r));
      EncodeBreak(c.render(r));
      CutKeepsLog(c, kept, r, cut);
    }
  }

  lemma CutKeepsLog<R(!new)>(c: Codec<R>, kept: seq<R>, r: R, cut: nat)
    requires Good(c)
    ensures IsLog(c, Torn(c, kept, r, cut), Survivors(c, kept, r, cut))
  {
    var whole, text := Encode(Lines(c, kept)), Encode(c.render(r));
    hide Encode, Good;
    EncodeLinesAppend(c, kept, r);
    var content := Torn(c, kept, r, cut);
    if cut == 0 {
      RecordHasBytes(c, r);
      assert content == whole;
    } else if cut < |text| {
      assert (text + [Break])[..cut] == text[..cut];
      assert IsTorn(c, content, kept, r, cut);
    } else if cut == |text| {
      assert (text + [Break])[..cut] == text;
      assert content + [Break] == Encode(Lines(c, kept + [r]));
    } else {
      Regroup(whole, text, [Break]);
      assert content == Encode(Lines(c, kept + [r]));
    }
  }

  // ------------------------------------------------------------------ whole runs

  datatype Event<+R> = Write(r: R, p: Plan, cut: nat) | Read(p: Plan)

  function Step<R>(c: Codec<R>, f: Files, e: Event<R>): Files {
    match e
    case Write(r, p, cut) => Append(c, f, r, p, cut).files
    case Read(p) => Repair(c, f, p).files
  }

  function Run<R>(c: Codec<R>, f: Files, events: seq<Event<R>>): Files
    decreases |events|
  {
    if events == [] then f else Run(c, Step(c, f, events[0]), events[1..])
  }

  /** The records whose JSON was written out in full, in order. */
  function Written<R>(c: Codec<R>, f: Files, events: seq<Event<R>>): seq<R>
    decreases |events|
  {
    if events == [] then [] else
    var e := events[0];
    (if e.Write? && Repair(c, f, e.p).out.Ok? && e.cut >= |Encode(c.render(e.r))| then [e.r] else []) + Written(c, Step(c, f, e), events[1..])
  }

  lemma {:induction false} RunKeepsLog<R(!new)>(c: Codec<R>, f: Files, kept: seq<R>, events: seq<Event<R>>)
    requires Good(c) && IsLog(c, f.content, kept)
    ensures IsLog(c, Run(c, f, events).content, kept + Written(c, f, events))
    decreases |events|
  {
    hide Good, IsLog, Repair, Append, Encode;
    if events == [] {
      assert kept + [] == kept;
    } else {
      var e := events[0];
      var more := if e.Write? && Repair(c, f, e.p).out.Ok? && e.cut >= |Encode(c.render(e.r))| then [e.r] else [];
      assert kept + [] == kept;
      if e.Write? { AppendKeepsLog(c, f, kept, e.r, e.p, e.cut); } else { RepairKeepsLog(c, f, kept, e.p); }
      RunKeepsLog(c, Step(c, f, e), kept + more, events[1..]);
      assert kept + more + Written(c, Step(c, f, e), events[1..]) == kept + Written(c, f, events);
    }
  }

  /** After any appends and reads, each of them cut at any byte and each repair stopped at any step: the
      log never fails closed, and the next repair that finishes returns exactly the records whose JSON was
      completely written, oldest first. */
  lemma LogKeepsEveryRecord<R(!new)>(c: Codec<R>, events: seq<Event<R>>, p: Plan)
    requires Good(c)
    ensures var f := Run(c, Files([], []), events);
            var d := Repair(c, f, p);
            d.out != Err(Corrupt) && (d.out.Ok? ==> d.out.value == Written(c, Files([], []), events))
  {
    RunKeepsLog(c, Files([], []), [], events);
    var kept := Written(c, Files([], []), events);
    assert [] + kept == kept;
    RepairKeepsLog(c, Run(c, Files([], []), events), kept, p);
  }

  /** A finished repair leaves nothing for the next one to do. */
  lemma RepairIsIdempotent<R(!new)>(c: Codec<R>, f: Files, kept: seq<R>, p: Plan, q: Plan)
    requires Good(c) && IsLog(c, f.content, kept) && Repair(c, f, p).out.Ok?
    ensures var d := Repair(c, f, p); Repair(c, d.files, q) == d
  {
    RepairKeepsLog(c, f, kept, p);
    hide Encode, Decode, ParseFile;
    ReadWhole(c, kept);
    WholeEnds(c, kept);
  }

  /** Nothing leaves the log, whatever bytes it holds, unless what was read of it is in the side file first. */
  lemma NothingIsThrownAway<R>(c: Codec<R>, f: Files, p: Plan)
    ensures var d := Repair(c, f, p);
            var partial := ParseFile(c, Decode(f.content)).partial;
            d.files.content == f.content
            || d.files.content == f.content + [Break]
            || (partial.Some? && d.files.side == f.side + Encode(partial.value + [Newline]))
  {
  }

  /** The side file holds the very bytes that were cut off exactly when the cut fell between two characters;
      otherwise it holds a replacement character for the bytes of the last one, which are lost. */
  lemma SideFileKeepsBytesExactlyAtBoundary<R(!new)>(c: Codec<R>, f: Files, rs: seq<R>, r: R, k: nat, p: Plan)
    requires Good(c) && IsTorn(c, f.content, rs, r, k) && p.sideCut.None?
    ensures var d := Repair(c, f, p);
            var text := c.render(r);
            var j := WholeUnits(text, k);
            && (d.files.side == f.side + Encode(text)[..k] + [Break] <==> AtBoundary(text, k))
            && (!AtBoundary(text, k) ==> j < |text| && d.files.side == f.side + Encode(text[..j] + [Replacement]) + [Break])
  {
    var text := c.render(r);
    assert OneLine(text);
    CutDecodes(text, k);
    CutSplits(text, k);
    CutSurvivesExactlyAtBoundary(text, k);
    ReadCut(c, rs, r, k);
    var t, j := TornText(c, r, k), WholeUnits(text, k);
    assert WellPaired(t) by {
      PairedConcat(text[..j], if AtBoundary(text, k) then [] else [Replacement]);
    }
    EncodeBreak(t);
    hide Encode, Decode, ParseFile, WellPaired, WholeUnits, AtBoundary, Good, Lines;
    SameMiddle(f.side, Encode(t), Encode(text)[..k]);
    Regroup(f.side, Encode(t), [Break]);
  }

  lemma SameMiddle(side: Bytes, a: Bytes, b: Bytes)
    ensures side + a + [Break] == side + b + [Break] <==> a == b
  {
    if side + a + [Break] == side + b + [Break] {
      DropBreak(side + a, side + b);
      assert (side + a)[|side|..] == a && (side + b)[|side|..] == b;
    }
  }

  /** A line that is no record, whatever bytes it holds, before the last break closes the log: nothing is
      rewritten. */
  lemma MiddleCorruptionFailsClosed<R(!new)>(c: Codec<R>, before: seq<R>, bad: Bytes, after: Bytes, side: Bytes, p: Plan)
    requires Good(c) && Break !in bad && c.parse(Decode(bad)).None?
    ensures var f := Files(Encode(Lines(c, before)) + (bad + [Break] + after), side);
            Repair(c, f, p) == Repaired(f, Err(Corrupt))
  {
    DecodeLines(c, before, bad + [Break] + after);
    DecodeBreak(bad, after);
    BreakStaysOut(bad);
    hide Decode, Encode, Good, Lines, ParseFile;
    BadLineIsCorrupt(c, before, Decode(bad), Decode(after));
  }

  lemma BadLineIsCorrupt<R(!new)>(c: Codec<R>, before: seq<R>, bad: Text, after: Text)
    requires Good(c) && Newline !in bad && c.parse(bad).None?
    ensures ParseFile(c, Lines(c, before) + (bad + [Newline] + after)).corrupt
  {
    hide Good, Lines, Split, ParseLines;
    var rest := bad + [Newline] + after;
    var raw := Lines(c, before) + rest;
    SplitLines(c, before, rest);
    SplitFirst(bad, after);
    assert Split(raw)[|before|] == bad;
    assert |Split(raw)| > |before| + 1;
    ParseStops(c, Complete(c, raw).0, |before|);
  }

  lemma {:induction false} ParseStops<R>(c: Codec<R>, lines: seq<Text>, i: nat)
    requires i < |lines| && c.parse(lines[i]).None?
    ensures ParseLines(c, lines).1
  {
    if i > 0 { ParseStops(c, lines[1..], i - 1); }
  }

  // ------------------------------------------------------------------ the log object

  function Joined<R>(records: seq<R>, p: (seq<R>, bool)): (seq<R>, bool) { (records + p.0, p.1) }

  lemma JoinNone<R>(p: (seq<R>, bool))
    ensures Joined([], p) == p
  {
    assert [] + p.0 == p.0;
  }

  lemma ParseNext<R>(c: Codec<R>, lines: seq<Text>, i: nat, records: seq<R>)
    requires i < |lines|
    ensures var p := c.parse(lines[i]);
            Joined(records, ParseLines(c, lines[i..])) ==
            if p.None? then (records, true) else Joined(records + [p.value], ParseLines(c, lines[i + 1..]))
  {
    assert lines[i..][1..] == lines[i + 1..] && records + [] == records;
    var p, rest := c.parse(lines[i]), ParseLines(c, lines[i + 1..]).0;
    if p.Some? { assert records + ([p.value] + rest) == records + [p.value] + rest; }
  }

  /** The module state of the source. */
  class NotificationLog<R(!new)> {
    var content: Bytes
    var side: Bytes
    var failClosed: bool
    const codec: Codec<R>

    constructor (codec: Codec<R>)
      ensures Now() == Files([], []) && !failClosed && this.codec == codec
    {
      content, side, failClosed, this.codec := [], [], false, codec;
    }

    ghost function Now(): Files
      reads this
    {
      Files(content, side)
    }

    /** parseFileText: its loop over the complete lines. */
    method ParseFileText() returns (r: ParsedFile<R>)
      ensures r == ParseFile(codec, Decode(content))
    {
      var raw := Decode(content);
      if raw == [] { return ParsedFile([], None, false); }
      var parts := Split(raw);
      var complete, partial := parts[..|parts| - 1], None;
      var last := parts[|parts| - 1];
      if raw[|raw| - 1] != Newline {
        if codec.parse(last).Some? { complete := parts; } else { partial := Some(last); }
      }
      var records, corrupt := ReadLines(complete);
      return ParsedFile(records, partial, corrupt);
    }

    method ReadLines(lines: seq<Text>) returns (records: seq<R>, corrupt: bool)
      ensures (records, corrupt) == ParseLines(codec, lines)
    {
      records := [];
      JoinNone(ParseLines(codec, lines));
      assert lines[0..] == lines;
      for i := 0 to |lines|
        invariant ParseLines(codec, lines) == Joined(records, ParseLines(codec, lines[i..]))
      {
        ParseNext(codec, lines, i, records);
        var parsed := codec.parse(lines[i]);
        if parsed.None? { return records, true; }
        records := records + [parsed.value];
      }
      assert lines[|lines|..] == [] && records + [] == records;
      return records, false;
    }

    method InspectAndRepair(p: Plan) returns (out: Result<seq<R>, Failure>)
      modifies this
      ensures Repaired(Now(), out) == Repair(codec, old(Now()), p)
      ensures failClosed == (out == Err(Corrupt))
    {
      var raw := Decode(content);
      var parsed := ParseFileText();
      if parsed.corrupt {
        failClosed := true;
        return Err(Corrupt);
      }
      failClosed := false;
      if parsed.partial.Some? {
        var fragment := Encode(parsed.partial.value + [Newline]);
        if p.sideCut.Some? {
          side := side + Cut(fragment, p.sideCut.value);
          return Err(Stopped);
        }
        side := side + fragment;
        var kept: Text := [];
        for i := 0 to |parsed.records|
          invariant kept == Lines(codec, parsed.records[..i]) && content == old(content) && side == old(side) + fragment && !failClosed
        {
          assert parsed.records[..i + 1] == parsed.records[..i] + [parsed.records[i]];
          LinesAppend(codec, parsed.records[..i], parsed.records[i]);
          kept := kept + codec.render(parsed.records[i]) + [Newline];
        }
        assert parsed.records[..|parsed.records|] == parsed.records;
        if TookEffect(p.rewrite) { content := Encode(kept); }
        if p.rewrite != Works { return Err(Stopped); }
      } else if raw != [] && raw[|raw| - 1] != Newline {
        if TookEffect(p.addBreak) { content := content + [Break]; }
        if p.addBreak != Works { return Err(Stopped); }
      }
      return Ok(parsed.records);
    }

    method AppendNotificationLog(r: R, p: Plan, cut: nat) returns (out: Result<seq<R>, Failure>)
      modifies this
      ensures Repaired(Now(), out) == Append(codec, old(Now()), r, p, cut)
    {
      out := InspectAndRepair(p);
      if out.Err? { return; }
      var line := Encode(codec.render(r) + [Newline]);
      content := content + Cut(line, cut);
      if cut < |line| { out := Err(Stopped); }
    }

    /** loadRecordsOrThrow: once closed, a query does not look at the file again. */
    method LoadRecords(p: Plan) returns (out: Result<seq<R>, Failure>)
      modifies this
      ensures old(failClosed) ==> out == Err(Corrupt) && Now() == old(Now()) && failClosed
      ensures !old(failClosed) ==> Repaired(Now(), out) == Repair(codec, old(Now()), p)
    {
      if failClosed { return Err(Corrupt); }
      out := InspectAndRepair(p);
    }
  }

  // ------------------------------------------------------------------ JSON objects make a good codec

  /** A record as the log holds it: a JSON object, its members in the order they were made. */
  type JsonRecord = v: Json | v.Obj? && Valid(v) witness Obj([])

  function JsonCodec(): Codec<JsonRecord> {
    Codec((v: JsonRecord) => Plain(v), ReadJson)
  }

  function ReadJson(t: Text): Option<JsonRecord> {
    var p := ParseValue(t);
    if p.Got? && p.rest == [] && p.value.Obj? && Valid(p.value) then Some(p.value) else None
  }

  /** The hypotheses on the codec can be met: all JSON objects on one line each meet them. */
  lemma JsonCodecIsGood()
    ensures Good(JsonCodec())
  {
    var c := JsonCodec();
    hide ParseValue, Valid, OneLine, Plain;
    forall r: JsonRecord
      ensures c.parse(c.render(r)) == Some(r) && OneLine(c.render(r)) && c.render(r) != []
    {
      ParseUndoesPlain(r);
      PlainIsOneLine(r);
      FirstUnit(r);
    }
    forall r: JsonRecord, k: nat | k < |c.render(r)|
      ensures NoRecord(c, c.render(r)[..k])
    {
      PrefixIsNoObject(r, k);
      MarkedIsNoObject(c.render(r)[..k]);
    }
  }

  lemma MarkedIsNoObject(t: Text)
    ensures ReadJson(t + [Replacement]).None?
  {
    hide ParseValue, Valid;
    if ReadJson(t + [Replacement]).Some? { ObjectEndsWithBrace(t + [Replacement]); }
  }

  /** A record with an accented key, cut inside that letter: the repaired log is empty, and the side file
      does not hold the byte that was written. */
  lemma CutLetterIsLost()
    ensures var r: JsonRecord := Obj([Member([0xe9], Null)]);
            var d := Repair(JsonCodec(), Files([123, 34, 0xc3], []), AllWorks);
            && 3 < |Encode(Plain(r))| && Encode(Plain(r))[..3] == [123, 34, 0xc3]
            && d == Repaired(Files([], [123, 34, 0xef, 0xbf, 0xbd, 10]), Ok([]))
  {
    hide Repair, Encode, ParseFile, Plain, AtBoundary, WholeUnits, ReadJson, Good;
    var r: JsonRecord := Obj([Member([0xe9], Null)]);
    var c := JsonCodec();
    LetterText(r);
    LetterBytes([34, 58, 110, 117, 108, 108, 125]);
    JsonCodecIsGood();
    var f := Files([123, 34, 0xc3], []);
    NoLines(c);
    assert IsTorn(c, f.content, [], r, 3);
    SideFileKeepsBytesExactlyAtBoundary(c, f, [], r, 3, AllWorks);
    RepairKeepsLog(c, f, [], AllWorks);
  }

  lemma NoLines<R>(c: Codec<R>)
    ensures Encode(Lines(c, [])) == []
  {
  }

  lemma LetterText(v: Json)
    requires v == Obj([Member([0xe9], Null)])
    ensures v.Obj? && Valid(v) && Plain(v) == [123, 34, 0xe9] + [34, 58, 110, 117, 108, 108, 125]
  {
    var m := Member([0xe9], Null);
    assert [m][1..] == [];
    assert [0xe9][1..] == [] && EscapeAll([0xe9]) == [0xe9];
    assert StringText([0xe9]) == [34, 0xe9, 34];
  }

  lemma BasicFirst(u: Byte, t: Text, k: nat)
    requires u < 0x80
    ensures Encode([u] + t) == [u] + Encode(t) && WholeUnits([u] + t, k + 1) == 1 + WholeUnits(t, k)
  {
    assert ([u] + t)[1..] == t;
  }

  lemma LetterAlone(rest: Text)
    ensures var t := [0xe9] + rest; Encode(t) != [] && Encode(t)[0] == 0xc3 && WholeUnits(t, 1) == 0 && Encode([]) == []
  {
  }

  lemma LetterBytes(rest: Text)
    ensures var t := [123, 34, 0xe9] + rest;
            && 3 < |Encode(t)| && Encode(t)[..3] == [123, 34, 0xc3]
            && WholeUnits(t, 3) == 2 && !AtBoundary(t, 3)
            && Encode(t[..2] + [Replacement]) == [123, 34, 0xef, 0xbf, 0xbd]
  {
    hide Encode, WholeUnits;
    var t, letter := [123, 34, 0xe9] + rest, [0xe9] + rest;
    LetterAlone(rest);
    TwoBasics(letter, 1);
    assert t == [123] + ([34] + letter);
    TwoBasics([], 0);
    assert t[..2] == [123] + ([34] + []);
    ReplacementBytes();
    TwoBasics([Replacement], 0);
    assert t[..2] + [Replacement] == [123] + ([34] + [Replacement]);
    LetterLength(rest);
  }

  lemma LetterLength(rest: Text)
    ensures |Encode([0xe9] + rest)| >= 2
  {
    assert EncodeFirst([0xe9] + rest) == [0xc3, 0xa9];
  }

  lemma TwoBasics(t: Text, k: nat)
    ensures Encode([123] + ([34] + t)) == [123] + ([34] + Encode(t)) && WholeUnits([123] + ([34] + t), k + 2) == 2 + WholeUnits(t, k)
  {
    BasicFirst(34, t, k);
    BasicFirst(123, [34] + t, k + 1);
  }
}
