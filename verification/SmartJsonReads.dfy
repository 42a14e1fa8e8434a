/**
 What the client gets out of the printed text: the reader of `JsonReader` finds every
 attribute at its place, and under each of its names the value that was printed there.
 */
module SmartJsonReads {
  import opened Options
  import opened Utf
  import opened SmartJson
  import opened SmartJsonLaws
  import opened JsonReader
  import G = JsonGrammar

  // ----- one value --------------------------------------------------------------

  lemma DecimalReads(n: nat)
    ensures NumberIn(Decimal(n)) == Some(n)
  {
    hide Decimal, G.IsDigit, Natural, Digit;
    DecimalNatural(n);
    DigitIsNoSpace(Decimal(n)[0]);
  }

  lemma DigitIsNoSpace(c: bv8)
    requires G.IsDigit(c)
    ensures c !in {0x20, 0x09, 0x0A, 0x0D}
  {
  }

  lemma {:induction false} CodesSpell(s: seq<bv16>)
    ensures Spelled(Codes(s)) == s
  {
    hide Code, Codes, Spelled;
    if s == [] {
      NothingSpelled();
    } else {
      var rest := Codes(s[1..]);
      CodesSplit(s, []);
      assert Codes(s) + [] == Codes(s) && rest + [] == rest;
      CodeSpells(s[0], rest);
      CodesSpell(s[1..]);
    }
  }

  lemma NothingSpelled()
    ensures Codes([]) == [] && Spelled([]) == []
  {
  }

  lemma CodeSpells(u: bv16, rest: seq<bv8>)
    ensures Spelled(Code(u) + rest) == [u] + Spelled(rest)
  {
    hide Head8, Put8, Low8, Low16, HexDigit, Split2, Split3;
    UnitValue(u);
    var b := Code(u) + rest;
    if u == 0x22 || u == 0x5C {
      QuotedByte(u);
      EscapedSpells(u);
      assert b[2..] == rest;
    } else {
      FirstByte(u);
      Head8OfPut8(u as bv32, rest);
      assert b[|Code(u)|..] == rest;
    }
  }

  lemma EscapedSpells(u: bv16)
    requires u == 0x22 || u == 0x5C
    ensures Escaped(if u == 0x22 then QUOTE else BACKSLASH) == u
  {
  }

  // ----- one member -------------------------------------------------------------

  /** A text in its quotes. */
  function Quoted(s: seq<bv16>): seq<bv8> { [QUOTE] + (Codes(s) + [QUOTE]) }

  lemma QuotedReads(s: seq<bv16>)
    requires Printable(s)
    ensures StringIn(Quoted(s)) == Some(s)
  {
    hide Codes, Spelled, Printable, G.String;
    var v := Quoted(s);
    assert G.Space(v) == v && v[1..] == Codes(s) + [QUOTE] && v[1..|v| - 1] == Codes(s);
    CodesString(s, [QUOTE]);
    CodesSpell(s);
  }

  /** A member is found under its name with its value, and then what follows it. */
  lemma MemberFound(k: seq<bv8>, v: seq<bv8>, after: seq<bv8>)
    requires forall i | 0 <= i < |k| :: Raw(k[i])
    requires G.Value(v + after) == Some(after) && after != []
    ensures after[0] == G.COMMA ==> Members(Key(k) + (v + after)) == WithMore(Member(k, v), Members(after[1..]))
    ensures after[0] == 0x7D ==> Members(Key(k) + (v + after)) == Some([Member(k, v)])
  {
    hide G.Value, G.String, G.Space, Raw, WithMore, Key;
    var rest := v + after;
    var b := Key(k) + rest;
    NameFound(k, rest);
    assert ([G.COLON] + rest)[1..] == rest && Taken(rest, after) == v;
    NoSpace(after);
  }

  lemma NoSpace(b: seq<bv8>)
    requires b != []
    ensures b[0] == G.COMMA || b[0] == 0x7D ==> G.Space(b) == b
  {
  }

  lemma NumberFound(k: seq<bv8>, n: nat, after: seq<bv8>)
    requires forall i | 0 <= i < |k| :: Raw(k[i])
    requires after != [] && after[0] == G.COMMA
    ensures Members(Key(k) + (Decimal(n) + after)) == WithMore(Member(k, Decimal(n)), Members(after[1..]))
  {
    hide Members, G.Value, Decimal, Raw, Key;
    NumberValue(n, after);
    MemberFound(k, Decimal(n), after);
  }

  lemma TextFound(k: seq<bv8>, s: seq<bv16>, after: seq<bv8>)
    requires forall i | 0 <= i < |k| :: Raw(k[i])
    requires Printable(s) && after != []
    ensures var b := Key(k) + ([QUOTE] + (Codes(s) + ([QUOTE] + after)));
      && (after[0] == G.COMMA ==> Members(b) == WithMore(Member(k, Quoted(s)), Members(after[1..])))
      && (after[0] == 0x7D ==> Members(b) == Some([Member(k, Quoted(s))]))
  {
    hide Members, G.Value, G.String, Codes, Raw, Key, Printable;
    var ended := [QUOTE] + after;
    StringValue(Codes(s) + ended);
    CodesString(s, ended);
    assert ended[1..] == after;
    assert Quoted(s) + after == [QUOTE] + (Codes(s) + ended);
    MemberFound(k, Quoted(s), after);
  }

  // ----- one object -------------------------------------------------------------

  /** The members that stand for one attribute. */
  function MembersOf(a: Attribute): seq<Member> {
    [Member([0x69, 0x64], Decimal(a.id)),
     Member([0x63, 0x75, 0x72], Decimal(a.current)),
     Member([0x77, 0x6F, 0x72, 0x73, 0x74], Decimal(a.worst)),
     Member([0x72, 0x61, 0x77], Decimal(a.raw)),
     Member([0x6E, 0x61, 0x6D, 0x65], Quoted(Name(a))),
     Member([0x64, 0x65, 0x73, 0x63], Quoted(Description(a)))]
  }

  lemma NumbersFound(a: Attribute, rest: seq<bv8>)
    ensures var m := MembersOf(a);
      Members(Key(m[0].name) + (m[0].value + Object2(a, rest)))
      == WithMore(m[0], WithMore(m[1], WithMore(m[2], WithMore(m[3], Members(Object5(a, rest)[1..])))))
  {
    hide Decimal, Members, WithMore, Object5, Key, Raw, Quoted, Name, Description;
    KeysAre();
    KeyLetters();
    Drop1(CUR, Decimal(a.current) + Object3(a, rest));
    Drop1(WORST, Decimal(a.worst) + Object4(a, rest));
    Drop1(RAW, Decimal(a.raw) + Object5(a, rest));
    NumberFound([0x69, 0x64], a.id, Object2(a, rest));
    NumberFound([0x63, 0x75, 0x72], a.current, Object3(a, rest));
    NumberFound([0x77, 0x6F, 0x72, 0x73, 0x74], a.worst, Object4(a, rest));
    Object5Opens(a, rest);
    NumberFound([0x72, 0x61, 0x77], a.raw, Object5(a, rest));
  }

  lemma Object5Opens(a: Attribute, rest: seq<bv8>)
    ensures Object5(a, rest) != [] && Object5(a, rest)[0] == G.COMMA
  {
  }

  /** The name's member, and what follows the name. */
  lemma NameOpens(a: Attribute, rest: seq<bv8>)
    ensures var after := DESC[1..] + (Codes(Description(a)) + (END + rest));
      && Object5(a, rest) != []
      && Object5(a, rest)[1..] == Key([0x6E, 0x61, 0x6D, 0x65]) + ([QUOTE] + (Codes(Name(a)) + ([QUOTE] + after)))
  {
    hide Codes, Key;
    KeysAre();
    var described := Codes(Description(a)) + (END + rest);
    assert Object6(a, rest) == [QUOTE] + (DESC[1..] + described);
    Drop1(NAME, Codes(Name(a)) + Object6(a, rest));
  }

  /** The description's member, and the end of the object. */
  lemma DescriptionOpens(a: Attribute, rest: seq<bv8>)
    ensures var after := DESC[1..] + (Codes(Description(a)) + (END + rest));
      && after[0] == G.COMMA
      && after[1..] == Key([0x64, 0x65, 0x73, 0x63]) + ([QUOTE] + (Codes(Description(a)) + ([QUOTE] + ([0x7D] + rest))))
  {
    hide Codes, Key;
    KeysAre();
    assert END + rest == [QUOTE] + ([0x7D] + rest);
    Drop1(DESC[1..], Codes(Description(a)) + (END + rest));
    assert DESC[1..][1..] == DESC[2..];
  }

  lemma TextsFound(a: Attribute, rest: seq<bv8>)
    requires Clean(a)
    ensures Object5(a, rest) != []
    ensures var m := MembersOf(a); Members(Object5(a, rest)[1..]) == WithMore(m[4], Some([m[5]]))
  {
    hide Codes, Decimal, Key, Raw, Printable, Members, WithMore, Quoted, Object5, Name, Description;
    KeyLetters();
    NameOpens(a, rest);
    DescriptionOpens(a, rest);
    TextFound([0x6E, 0x61, 0x6D, 0x65], Name(a), DESC[1..] + (Codes(Description(a)) + (END + rest)));
    TextFound([0x64, 0x65, 0x73, 0x63], Description(a), [0x7D] + rest);
  }

  /** An object is read as its six members, in this order, and no others. */
  lemma ObjectFound(a: Attribute, rest: seq<bv8>)
    requires Clean(a)
    ensures ObjectMembers(Object(a, rest)) == Some(MembersOf(a))
  {
    hide Decimal, Object2, Object5, Members, Clean, Raw, Quoted, Name, Description;
    KeysAre();
    var m := MembersOf(a);
    var b := Object(a, rest);
    assert b[0] == 0x7B && b[1..] == Key(m[0].name) + (m[0].value + Object2(a, rest));
    assert G.Space(b) == b && b[1] == QUOTE && G.Space(b[1..]) == b[1..];
    NumbersFound(a, rest);
    TextsFound(a, rest);
    assert [m[0]] + ([m[1]] + ([m[2]] + ([m[3]] + ([m[4]] + [m[5]])))) == m;
  }

  // ----- the list ---------------------------------------------------------------

  lemma {:induction false} ElementFound(attributes: seq<Attribute>, k: nat)
    requires attributes != [] && AllClean(attributes) && k <= |attributes|
    ensures Elements(Items(attributes), k) == if k < |attributes| then Some(Items(attributes[k..])) else None
    decreases k
  {
    hide Object, Clean, G.Value;
    if k > 0 {
      var rest := if |attributes| == 1 then CLOSE else COMMA + Items(attributes[1..]);
      assert Clean(attributes[0]);
      ObjectValue(attributes[0], rest);
      assert G.Space(rest) == rest;
      if |attributes| > 1 {
        assert rest[1..] == Items(attributes[1..]);
        assert attributes[k..] == attributes[1..][k - 1..];
        ElementFound(attributes[1..], k - 1);
      }
    } else {
      ItemsOneValue(attributes);
      assert attributes[0..] == attributes;
    }
  }

  lemma ItemsOneValue(attributes: seq<Attribute>)
    requires attributes != [] && AllClean(attributes)
    ensures G.Value(Items(attributes)).Some?
  {
    hide Object, Clean, G.Value;
    assert Clean(attributes[0]);
    ObjectValue(attributes[0], if |attributes| == 1 then CLOSE else COMMA + Items(attributes[1..]));
  }

  /**
   In a legal text element `k` is the `k`-th attribute: its members are the six that stand for
   it, and there is no element behind the last attribute.
   */
  lemma AttributesAreFound(attributes: seq<Attribute>, k: nat)
    requires attributes != [] && AllClean(attributes)
    ensures k < |attributes| ==>
      && ArrayElement(Print(attributes), k).Some?
      && ObjectMembers(ArrayElement(Print(attributes), k).value) == Some(MembersOf(attributes[k]))
    ensures k == |attributes| ==> ArrayElement(Print(attributes), k) == None
  {
    hide Items, AllClean, Elements, ObjectMembers, MembersOf;
    var text := Print(attributes);
    assert text[1..] == Items(attributes) && G.Space(text) == text;
    if k <= |attributes| {
      ElementFound(attributes, k);
    }
    if k < |attributes| {
      ItemsFirst(attributes, k);
    }
  }

  lemma ItemsFirst(attributes: seq<Attribute>, k: nat)
    requires k < |attributes| && AllClean(attributes)
    ensures ObjectMembers(Items(attributes[k..])) == Some(MembersOf(attributes[k]))
  {
    hide Object, Clean, ObjectMembers, MembersOf;
    var rest := attributes[k..];
    assert rest[0] == attributes[k] && Clean(rest[0]);
    ObjectFound(rest[0], if |rest| == 1 then CLOSE else COMMA + Items(rest[1..]));
  }

  // ----- by name ----------------------------------------------------------------

  lemma WordIs(s: string, b: seq<bv8>)
    requires |s| == |b| && forall k | 0 <= k < |s| :: s[k] <= '~' && s[k] as int == b[k] as int
    ensures Word(s) == b
  {
    forall k | 0 <= k < |s|
      ensures Word(s)[k] == b[k]
    {
      ByteOfInt(b[k]);
    }
  }

  lemma ByteOfInt(c: bv8)
    ensures (c as int) as bv8 == c
  {
  }

  lemma Words()
    ensures Word("id") == [0x69, 0x64] && Word("cur") == [0x63, 0x75, 0x72]
    ensures Word("worst") == [0x77, 0x6F, 0x72, 0x73, 0x74] && Word("raw") == [0x72, 0x61, 0x77]
    ensures Word("name") == [0x6E, 0x61, 0x6D, 0x65] && Word("desc") == [0x64, 0x65, 0x73, 0x63]
  {
    hide Word;
    WordIs("id", [0x69, 0x64]);
    WordIs("cur", [0x63, 0x75, 0x72]);
    WordIs("worst", [0x77, 0x6F, 0x72, 0x73, 0x74]);
    WordIs("raw", [0x72, 0x61, 0x77]);
    WordIs("name", [0x6E, 0x61, 0x6D, 0x65]);
    WordIs("desc", [0x64, 0x65, 0x73, 0x63]);
  }

  lemma MembersByName(a: Attribute)
    ensures var m := MembersOf(a);
      && Find(m, Word("id")) == Some(Decimal(a.id))
      && Find(m, Word("cur")) == Some(Decimal(a.current))
      && Find(m, Word("worst")) == Some(Decimal(a.worst))
      && Find(m, Word("raw")) == Some(Decimal(a.raw))
      && Find(m, Word("name")) == Some(Quoted(Name(a)))
      && Find(m, Word("desc")) == Some(Quoted(Description(a)))
  {
    hide Decimal, Quoted, Name, Description, Word, Find;
    Words();
    var m := MembersOf(a);
    FindAt(m, 0);
    FindAt(m, 1);
    FindAt(m, 2);
    FindAt(m, 3);
    FindAt(m, 4);
    FindAt(m, 5);
  }

  lemma {:induction false} FindAt(members: seq<Member>, k: nat)
    requires k < |members| && forall i | k < i < |members| :: members[i].name != members[k].name
    ensures Find(members, members[k].name) == Some(members[k].value)
    decreases |members|
  {
    var last := |members| - 1;
    if k < last {
      assert members[last].name != members[k].name && members[..last][k] == members[k];
      FindAt(members[..last], k);
    }
  }

  /** Whoever reads element `k` of a text gets this attribute: four numbers, and two texts cut, unit by unit. */
  predicate Spells(text: seq<bv8>, k: nat, a: Attribute) {
    && NumberAt(text, k, Word("id")) == Some(a.id)
    && NumberAt(text, k, Word("cur")) == Some(a.current)
    && NumberAt(text, k, Word("worst")) == Some(a.worst)
    && NumberAt(text, k, Word("raw")) == Some(a.raw)
    && StringAt(text, k, Word("name")) == Some(Cut(a.name, 63))
    && StringAt(text, k, Word("desc")) == Some(Cut(a.description, 127))
  }

  /** The text of a list is read back element by element, each value under its own name. */
  lemma AttributesReadBack(attributes: seq<Attribute>, k: nat)
    requires AllClean(attributes) && k < |attributes|
    ensures Spells(Print(attributes), k, attributes[k])
  {
    hide Print, MembersOf, Find, Word, Decimal, Quoted, Cut, ArrayElement, ObjectMembers, NumberIn, StringIn, Printable;
    var a := attributes[k];
    AttributesAreFound(attributes, k);
    MembersByName(a);
    DecimalReads(a.id);
    DecimalReads(a.current);
    DecimalReads(a.worst);
    DecimalReads(a.raw);
    assert Clean(a);
    QuotedReads(Name(a));
    QuotedReads(Description(a));
  }
}
