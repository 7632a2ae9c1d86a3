/** The canonical JSON text under request fingerprints (correlation-store.ts). Two requests have the same
    text exactly when they are the same JSON value up to the order of object members. */
module CanonicalJson {
  import opened JsonText

  // ------------------------------------------------------------------ the canonical text

  /** The order of Array.prototype.sort on strings: by code units, a prefix first. */
  predicate Less(a: Text, b: Text) {
    b != [] && (a == [] || a[0] < b[0] || (a[0] == b[0] && Less(a[1..], b[1..])))
  }

  function Insert(m: Member, sorted: seq<Member>): (r: seq<Member>)
    ensures multiset(r) == multiset{m} + multiset(sorted)
  {
    if sorted == [] || Less(m.key, sorted[0].key) then [m] + sorted
    else
      assert sorted == [sorted[0]] + sorted[1..];
      [sorted[0]] + Insert(m, sorted[1..])
  }

  function SortByKey(members: seq<Member>): (r: seq<Member>)
    ensures multiset(r) == multiset(members)
  {
    if members == [] then []
    else
      assert members == [members[0]] + members[1..];
      Insert(members[0], SortByKey(members[1..]))
  }

  lemma SmallerValues(members: seq<Member>)
    ensures forall m :: m in SortByKey(members) ==> m.value < Obj(members)
  {
    forall m | m in SortByKey(members)
      ensures m.value < Obj(members)
    {
      assert m in multiset(members);
      var i :| 0 <= i < |members| && members[i] == m;
      assert members[i] < Obj(members);
    }
  }

  /** canonicalJson. */
  function Canonical(v: Json): Text
    decreases v, 1, 0
  {
    match v
    case Null => NullText
    case Bool(b) => if b then TrueText else FalseText
    case Num(token) => token
    case Str(s) => StringText(s)
    case Arr(items) => [OpenBracket] + CanonicalItems(v, items) + [CloseBracket]
    case Obj(members) =>
      SmallerValues(members);
      [OpenBrace] + CanonicalMembers(v, SortByKey(members)) + [CloseBrace]
  }

  function CanonicalItems(ghost v: Json, items: seq<Json>): Text
    requires forall i :: 0 <= i < |items| ==> items[i] < v
    decreases v, 0, |items|
  {
    if items == [] then []
    else if |items| == 1 then Canonical(items[0])
    else Canonical(items[0]) + [Comma] + CanonicalItems(v, items[1..])
  }

  function CanonicalMembers(ghost v: Json, members: seq<Member>): Text
    requires forall m :: m in members ==> m.value < v
    decreases v, 0, |members|
  {
    if members == [] then []
    else
      var first := StringText(members[0].key) + [Colon] + Canonical(members[0].value);
      if |members| == 1 then first else first + [Comma] + CanonicalMembers(v, members[1..])
  }

  // ------------------------------------------------------------------ the order of members

  lemma {:induction false} LessIsTotal(a: Text, b: Text)
    ensures Less(a, b) || Less(b, a) || a == b
    ensures !(Less(a, b) && Less(b, a)) && !Less(a, a)
  {
    if a != [] && b != [] {
      LessIsTotal(a[1..], b[1..]);
      assert a == [a[0]] + a[1..] && b == [b[0]] + b[1..];
    }
    if a != [] { LessIsTotal(a[1..], a[1..]); }
  }

  lemma {:induction false} LessIsTransitive(a: Text, b: Text, c: Text)
    requires Less(a, b) && Less(b, c)
    ensures Less(a, c)
  {
    if a != [] && a[0] == b[0] == c[0] { LessIsTransitive(a[1..], b[1..], c[1..]); }
  }

  predicate Ascending(members: seq<Member>) {
    forall i, j :: 0 <= i < j < |members| ==> Less(members[i].key, members[j].key)
  }

  predicate FreshKey(key: Text, members: seq<Member>) {
    forall i :: 0 <= i < |members| ==> members[i].key != key
  }

  lemma {:induction false} InsertAscends(m: Member, sorted: seq<Member>)
    requires Ascending(sorted) && FreshKey(m.key, sorted)
    ensures Ascending(Insert(m, sorted))
  {
    if sorted != [] {
      if Less(m.key, sorted[0].key) {
        forall j | 1 <= j < |sorted|
          ensures Less(m.key, sorted[j].key)
        {
          LessIsTransitive(m.key, sorted[0].key, sorted[j].key);
        }
      } else {
        InsertAscends(m, sorted[1..]);
        LessIsTotal(m.key, sorted[0].key);
        var rest := Insert(m, sorted[1..]);
        forall j | 0 <= j < |rest|
          ensures Less(sorted[0].key, rest[j].key)
        {
          assert rest[j] in multiset(rest);
          if rest[j] != m {
            assert rest[j] in sorted[1..];
          }
        }
      }
    }
  }

  lemma {:induction false} SortAscends(members: seq<Member>)
    requires UniqueKeys(members)
    ensures Ascending(SortByKey(members))
  {
    if members != [] {
      SortAscends(members[1..]);
      var rest := SortByKey(members[1..]);
      forall i | 0 <= i < |rest|
        ensures rest[i].key != members[0].key
      {
        assert rest[i] in multiset(rest);
        assert rest[i] in members[1..];
      }
      InsertAscends(members[0], rest);
    }
  }

  lemma SortedMember(members: seq<Member>, m: Member)
    ensures m in SortByKey(members) <==> m in members
  {
    assert m in multiset(SortByKey(members)) <==> m in multiset(members);
  }

  /** The map of an object looks up its members. */
  lemma {:induction false} MeaningOfMembers(members: seq<Member>, key: Text)
    requires UniqueKeys(members)
    ensures key in MemberMeanings(members) <==> exists i :: 0 <= i < |members| && members[i].key == key
    ensures forall i :: 0 <= i < |members| && members[i].key == key ==> key in MemberMeanings(members) && MemberMeanings(members)[key] == Meaning(members[i].value)
  {
    if members != [] {
      MeaningOfMembers(members[1..], key);
      if exists i :: 0 <= i < |members| && members[i].key == key {
        var i :| 0 <= i < |members| && members[i].key == key;
        assert i > 0 ==> members[1..][i - 1].key == key;
      }
      forall i | 0 <= i < |members| && members[i].key == key
        ensures key in MemberMeanings(members) && MemberMeanings(members)[key] == Meaning(members[i].value)
      {
        assert i > 0 ==> members[1..][i - 1] == members[i] && members[0].key != key;
      }
    }
  }

  /** Two lists with unique keys and the same members have the same meaning. */
  lemma SameMembersSameMeaning(a: seq<Member>, b: seq<Member>)
    requires UniqueKeys(a) && UniqueKeys(b) && multiset(a) == multiset(b)
    ensures MemberMeanings(a) == MemberMeanings(b)
  {
    forall key
      ensures key in MemberMeanings(a) <==> key in MemberMeanings(b)
      ensures key in MemberMeanings(a) ==> MemberMeanings(a)[key] == MemberMeanings(b)[key]
    {
      MeaningOfMembers(a, key);
      MeaningOfMembers(b, key);
      if i :| 0 <= i < |a| && a[i].key == key {
        assert a[i] in multiset(b);
      }
      if i :| 0 <= i < |b| && b[i].key == key {
        assert b[i] in multiset(a);
      }
    }
  }

  lemma AscendingIsUnique(members: seq<Member>)
    requires Ascending(members)
    ensures UniqueKeys(members)
  {
    forall i, j | 0 <= i < j < |members|
      ensures members[i].key != members[j].key
    {
      LessIsTotal(members[i].key, members[i].key);
    }
  }

  lemma ValidSorted(members: seq<Member>)
    requires forall i :: 0 <= i < |members| ==> Valid(members[i].value)
    ensures forall i :: 0 <= i < |SortByKey(members)| ==> Valid(SortByKey(members)[i].value)
  {
    forall i | 0 <= i < |SortByKey(members)|
      ensures Valid(SortByKey(members)[i].value)
    {
      SortedMember(members, SortByKey(members)[i]);
    }
  }

  // ------------------------------------------------------------------ the canonical text is that of the sorted value

  /** The value with the members of every object in key order. */
  function InOrder(v: Json): Json {
    match v
    case Arr(items) => Arr(ItemsInOrder(items))
    case Obj(members) => Obj(SortByKey(MembersInOrder(members)))
    case _ => v
  }

  function ItemsInOrder(items: seq<Json>): (r: seq<Json>)
    ensures |r| == |items| && forall i :: 0 <= i < |items| ==> r[i] == InOrder(items[i])
  {
    if items == [] then [] else [InOrder(items[0])] + ItemsInOrder(items[1..])
  }

  function MembersInOrder(members: seq<Member>): (r: seq<Member>)
    ensures |r| == |members| && forall i :: 0 <= i < |members| ==> r[i] == Member(members[i].key, InOrder(members[i].value))
  {
    if members == [] then [] else [Member(members[0].key, InOrder(members[0].value))] + MembersInOrder(members[1..])
  }

  lemma {:induction false} InsertInOrder(m: Member, sorted: seq<Member>)
    ensures Insert(Member(m.key, InOrder(m.value)), MembersInOrder(sorted)) == MembersInOrder(Insert(m, sorted))
  {
    if sorted != [] && !Less(m.key, sorted[0].key) {
      InsertInOrder(m, sorted[1..]);
      assert MembersInOrder(sorted)[1..] == MembersInOrder(sorted[1..]);
      assert ([sorted[0]] + Insert(m, sorted[1..]))[1..] == Insert(m, sorted[1..]);
    } else {
      assert ([m] + sorted)[1..] == sorted;
    }
  }

  /** Sorting looks at keys only. */
  lemma {:induction false} SortInOrder(members: seq<Member>)
    ensures SortByKey(MembersInOrder(members)) == MembersInOrder(SortByKey(members))
  {
    if members != [] {
      SortInOrder(members[1..]);
      assert MembersInOrder(members)[1..] == MembersInOrder(members[1..]);
      InsertInOrder(members[0], SortByKey(members[1..]));
    }
  }

  /** Sorting and then writing is writing the sorted value. */
  lemma {:induction false} CanonicalIsPlain(v: Json)
    ensures Canonical(v) == Plain(InOrder(v))
    decreases v, 1, 0
  {
    match v
    case Arr(items) => ItemsArePlain(v, items);
    case Obj(members) => {
      SmallerValues(members);
      MembersArePlain(v, SortByKey(members));
      SortInOrder(members);
    }
    case _ => {}
  }

  lemma {:induction false} ItemsArePlain(v: Json, items: seq<Json>)
    requires forall i :: 0 <= i < |items| ==> items[i] < v
    ensures CanonicalItems(v, items) == ItemsText(ItemsInOrder(items))
    decreases v, 0, |items|
  {
    if items != [] {
      CanonicalIsPlain(items[0]);
      ItemsArePlain(v, items[1..]);
      assert ItemsInOrder(items)[1..] == ItemsInOrder(items[1..]);
    }
  }

  lemma {:induction false} MembersArePlain(v: Json, members: seq<Member>)
    requires forall m :: m in members ==> m.value < v
    ensures CanonicalMembers(v, members) == MembersText(MembersInOrder(members))
    decreases v, 0, |members|
  {
    if members != [] {
      assert members[0] in members;
      CanonicalIsPlain(members[0].value);
      MembersArePlain(v, members[1..]);
      assert MembersInOrder(members)[1..] == MembersInOrder(members[1..]);
    }
  }

  /** Sorting members changes neither meaning nor validity. */
  lemma {:induction false} InOrderMeansTheSame(v: Json)
    requires Valid(v)
    ensures Meaning(InOrder(v)) == Meaning(v) && Valid(InOrder(v))
    decreases v, 1, 0
  {
    match v
    case Arr(items) => {
      forall i | 0 <= i < |items|
        ensures Meaning(InOrder(items[i])) == Meaning(items[i]) && Valid(InOrder(items[i]))
      {
        InOrderMeansTheSame(items[i]);
      }
      assert ItemMeanings(ItemsInOrder(items)) == ItemMeanings(items);
    }
    case Obj(members) => {
      forall i | 0 <= i < |members|
        ensures Meaning(InOrder(members[i].value)) == Meaning(members[i].value) && Valid(InOrder(members[i].value))
      {
        InOrderMeansTheSame(members[i].value);
      }
      var ordered := MembersInOrder(members);
      SameValuesSameMeaning(ordered, members);
      SortAscends(ordered);
      AscendingIsUnique(SortByKey(ordered));
      SameMembersSameMeaning(ordered, SortByKey(ordered));
      ValidSorted(ordered);
    }
    case _ => {}
  }

  lemma {:induction false} SameValuesSameMeaning(a: seq<Member>, b: seq<Member>)
    requires |a| == |b| && forall i :: 0 <= i < |a| ==> a[i].key == b[i].key && Meaning(a[i].value) == Meaning(b[i].value)
    ensures MemberMeanings(a) == MemberMeanings(b)
  {
    if a != [] { SameValuesSameMeaning(a[1..], b[1..]); }
  }

  // ------------------------------------------------------------------ the main results

  /** Reading the canonical text of a value gives that value back, up to the order of members. */
  lemma ParseUndoesCanonical(v: Json)
    requires Valid(v)
    ensures ParseValue(Canonical(v)) == Got(InOrder(v), [])
    ensures Meaning(InOrder(v)) == Meaning(v) && Valid(InOrder(v))
  {
    CanonicalIsPlain(v);
    InOrderMeansTheSame(v);
    ParseUndoesPlain(InOrder(v));
  }

  /** The canonical text is a fixed point: writing out what was read gives the same text. */
  lemma CanonicalIsStable(v: Json)
    requires Valid(v)
    ensures ParseValue(Canonical(v)).Got? && Canonical(ParseValue(Canonical(v)).value) == Canonical(v)
  {
    ParseUndoesCanonical(v);
    SameMeaningSameText(InOrder(v), v);
  }

  predicate HasKey(members: seq<Member>, key: Text) {
    exists i :: 0 <= i < |members| && members[i].key == key
  }

  ghost predicate SameKeys(a: seq<Member>, b: seq<Member>) {
    forall key :: HasKey(a, key) <==> HasKey(b, key)
  }

  lemma {:induction false} AscendingKeysAgree(a: seq<Member>, b: seq<Member>)
    requires Ascending(a) && Ascending(b) && SameKeys(a, b)
    ensures |a| == |b| && forall i :: 0 <= i < |a| ==> a[i].key == b[i].key
  {
    if a != [] && b != [] {
      FirstKeysAgree(a, b);
      forall key
        ensures HasKey(a[1..], key) <==> HasKey(b[1..], key)
      {
        KeysOfRest(a, key);
        KeysOfRest(b, key);
      }
      AscendingKeysAgree(a[1..], b[1..]);
      forall i | 0 <= i < |a|
        ensures a[i].key == b[i].key
      {
        assert i > 0 ==> a[1..][i - 1].key == b[1..][i - 1].key;
      }
    } else if a != [] {
      assert HasKey(a, a[0].key);
    } else if b != [] {
      assert HasKey(b, b[0].key);
    }
  }

  lemma KeysOfRest(a: seq<Member>, key: Text)
    requires a != [] && Ascending(a)
    ensures HasKey(a[1..], key) <==> HasKey(a, key) && key != a[0].key
  {
    AscendingIsUnique(a);
    if HasKey(a, key) && key != a[0].key {
      var i :| 0 <= i < |a| && a[i].key == key;
      assert a[1..][i - 1].key == key;
    }
    if HasKey(a[1..], key) {
      var i :| 0 <= i < |a[1..]| && a[1..][i].key == key;
      assert a[i + 1].key == key;
    }
  }

  lemma FirstKeysAgree(a: seq<Member>, b: seq<Member>)
    requires a != [] && b != [] && Ascending(a) && Ascending(b) && SameKeys(a, b)
    ensures a[0].key == b[0].key
  {
    assert HasKey(a, a[0].key) && HasKey(b, b[0].key);
    assert HasKey(b, a[0].key) && HasKey(a, b[0].key);
    LessIsTotal(a[0].key, b[0].key);
  }

  /** Values with one meaning have one canonical text. */
  lemma {:induction false} SameMeaningSameText(a: Json, b: Json)
    requires Valid(a) && Valid(b) && Meaning(a) == Meaning(b)
    ensures Canonical(a) == Canonical(b)
    decreases a, 1, 0
  {
    match a
    case Arr(items) => SameItemsSameText(a, items, b, b.items);
    case Obj(members) => {
      var sa, sb := SortByKey(members), SortByKey(b.members);
      SortAscends(members);
      SortAscends(b.members);
      AscendingIsUnique(sa);
      AscendingIsUnique(sb);
      SameMembersSameMeaning(members, sa);
      SameMembersSameMeaning(b.members, sb);
      ValidSorted(members);
      ValidSorted(b.members);
      SmallerValues(members);
      SmallerValues(b.members);
      SortedKeysAgree(sa, sb);
      SameMembersSameText(a, sa, b, sb);
    }
    case _ => {}
  }

  lemma SortedKeysAgree(a: seq<Member>, b: seq<Member>)
    requires Ascending(a) && Ascending(b) && MemberMeanings(a) == MemberMeanings(b)
    ensures |a| == |b| && forall i :: 0 <= i < |a| ==> a[i].key == b[i].key && Meaning(a[i].value) == Meaning(b[i].value)
  {
    AscendingIsUnique(a);
    AscendingIsUnique(b);
    forall key
      ensures HasKey(a, key) <==> HasKey(b, key)
    {
      MeaningOfMembers(a, key);
      MeaningOfMembers(b, key);
    }
    AscendingKeysAgree(a, b);
    forall i | 0 <= i < |a|
      ensures Meaning(a[i].value) == Meaning(b[i].value)
    {
      MeaningOfMembers(a, a[i].key);
      MeaningOfMembers(b, a[i].key);
    }
  }

  lemma {:induction false} SameItemsSameText(a: Json, xs: seq<Json>, b: Json, ys: seq<Json>)
    requires forall i :: 0 <= i < |xs| ==> xs[i] < a && Valid(xs[i])
    requires forall i :: 0 <= i < |ys| ==> ys[i] < b && Valid(ys[i])
    requires ItemMeanings(xs) == ItemMeanings(ys)
    ensures CanonicalItems(a, xs) == CanonicalItems(b, ys)
    decreases a, 0, |xs|
  {
    assert |xs| == |ItemMeanings(xs)| == |ys|;
    if xs != [] {
      assert Meaning(xs[0]) == ItemMeanings(xs)[0] == Meaning(ys[0]);
      SameMeaningSameText(xs[0], ys[0]);
      assert ItemMeanings(xs[1..]) == ItemMeanings(xs)[1..] && ItemMeanings(ys[1..]) == ItemMeanings(ys)[1..];
      SameItemsSameText(a, xs[1..], b, ys[1..]);
    }
  }

  lemma {:induction false} SameMembersSameText(a: Json, xs: seq<Member>, b: Json, ys: seq<Member>)
    requires |xs| == |ys|
    requires forall m :: m in xs ==> m.value < a
    requires forall m :: m in ys ==> m.value < b
    requires forall i :: 0 <= i < |xs| ==> Valid(xs[i].value) && Valid(ys[i].value)
    requires forall i :: 0 <= i < |xs| ==> xs[i].key == ys[i].key && Meaning(xs[i].value) == Meaning(ys[i].value)
    ensures CanonicalMembers(a, xs) == CanonicalMembers(b, ys)
    decreases a, 0, |xs|
  {
    if xs != [] {
      assert xs[0] in xs && ys[0] in ys;
      SameMeaningSameText(xs[0].value, ys[0].value);
      SameMembersSameText(a, xs[1..], b, ys[1..]);
    }
  }

  /** Two requests have the same canonical text, and so up to hash collision the same fingerprint,
      exactly when they are the same JSON value up to the order of members. */
  lemma SameTextExactlyWhenSameValue(a: Json, b: Json)
    requires Valid(a) && Valid(b)
    ensures Canonical(a) == Canonical(b) <==> Meaning(a) == Meaning(b)
  {
    if Meaning(a) == Meaning(b) {
      SameMeaningSameText(a, b);
    } else {
      ParseUndoesCanonical(a);
      ParseUndoesCanonical(b);
    }
  }
}
