/**
 When the text printed for a disk's attributes is what its reader takes it for: legal
 JSON by RFC 8259, and legal UTF-8 by RFC 3629. The printer escapes quotes and
 backslashes only and codes surrogates one by one, so neither always holds.
 */
module SmartJsonLaws {
  import opened Options
  import opened SmartJson
  import opened Utf
  import G = JsonGrammar

  /** No unit is a control character. */
  predicate Printable(s: seq<bv16>) { forall k | 0 <= k < |s| :: s[k] >= 0x20 }

  predicate Clean(a: Attribute) { Printable(Name(a)) && Printable(Description(a)) }

  // ----- numbers ----------------------------------------------------------------

  lemma {:induction false} DigitsSkip(d: seq<bv8>, rest: seq<bv8>)
    requires forall k | 0 <= k < |d| :: G.IsDigit(d[k])
    requires rest != [] && !G.IsDigit(rest[0])
    ensures G.Digits(d + rest) == rest
  {
    if d == [] {
      assert d + rest == rest;
    } else {
      assert (d + rest)[1..] == d[1..] + rest;
      DigitsSkip(d[1..], rest);
    }
  }

  lemma {:induction false} NoLeadingZero(n: nat)
    ensures n > 0 ==> Decimal(n)[0] != 0x30
    ensures n == 0 ==> Decimal(n) == [0x30]
  {
    if n >= 10 {
      NoLeadingZero(n / 10);
    } else {
      OneDigit(n);
    }
  }

  lemma OneDigit(n: nat)
    requires n < 10
    ensures Decimal(n) == [DIGITS[n]] && (DIGITS[n] == 0x30 <==> n == 0)
  {
  }

  /** A printed number is a JSON number. */
  lemma NumberValue(n: nat, rest: seq<bv8>)
    requires rest != [] && rest[0] == G.COMMA
    ensures G.Value(Decimal(n) + rest) == Some(rest)
  {
    hide Decimal, G.Digits;
    DecimalNatural(n);
    NoLeadingZero(n);
    var d := Decimal(n);
    var b := d + rest;
    assert b[0] == d[0] && G.IsDigit(d[0]);
    assert G.Space(b) == b;
    if n == 0 {
      assert b[1..] == rest;
    } else {
      DigitsSkip(d, rest);
    }
    assert G.Number(b) == Some(rest);
  }

  // ----- strings ----------------------------------------------------------------

  /** Bytes that stand for themselves inside quotes. */
  predicate Raw(c: bv8) { c >= 0x20 && c != QUOTE && c != BACKSLASH }

  lemma {:induction false} RawSkip(p: seq<bv8>, rest: seq<bv8>)
    requires forall k | 0 <= k < |p| :: Raw(p[k])
    ensures G.String(p + rest) == G.String(rest)
  {
    if p == [] {
      assert p + rest == rest;
    } else {
      assert (p + rest)[1..] == p[1..] + rest;
      RawSkip(p[1..], rest);
    }
  }

  lemma HighBytesAreRaw(u: bv16)
    requires u >= 0x20 && u != 0x22 && u != 0x5C
    ensures forall k | 0 <= k < |Code(u)| :: Raw(Code(u)[k])
  {
    hide Low8, Join2, Join3, LeadOf, IsTail, Raw, Split2, Split3;
    UnitValue(u);
    if u <= 0x7F {
      SmallRaw(u);
    } else if u <= 0x7FF {
      var b := Split2(u as bv32);
      JoinSplit2(u as bv32);
      HighIsRaw(b[0]);
      HighIsRaw(b[1]);
    } else {
      var b := Split3(u as bv32);
      JoinSplit3(u as bv32);
      Split3Ranges(u as bv32);
      HighIsRaw(b[0]);
      HighIsRaw(b[1]);
      HighIsRaw(b[2]);
    }
  }

  lemma HighIsRaw(c: bv8)
    requires c >= 0x80
    ensures Raw(c)
  {
  }

  lemma SmallRaw(u: bv16)
    requires 0x20 <= u <= 0x7F && u != 0x22 && u != 0x5C
    ensures u as bv32 <= 0x7F && Raw(Low8(u as bv32))
  {
  }

  lemma ControlByte(u: bv16)
    requires u < 0x20
    ensures u as bv32 <= 0x7F && Low8(u as bv32) < 0x20
  {
  }

  lemma QuotedByte(u: bv16)
    requires u == 0x22 || u == 0x5C
    ensures Low8(u as bv32) == (if u == 0x22 then QUOTE else BACKSLASH)
  {
  }

  /** One unit inside quotes is taken off, unless it is a control character. */
  lemma CodeSkip(u: bv16, rest: seq<bv8>)
    ensures G.String(Code(u) + rest) == if u >= 0x20 then G.String(rest) else None
  {
    hide Low8;
    if u < 0x20 {
      ControlByte(u);
    } else if u == 0x22 || u == 0x5C {
      QuotedByte(u);
      assert (Code(u) + rest)[2..] == rest;
    } else {
      HighBytesAreRaw(u);
      RawSkip(Code(u), rest);
    }
  }

  lemma {:induction false} CodesString(s: seq<bv16>, rest: seq<bv8>)
    requires rest != [] && rest[0] == QUOTE
    ensures G.String(Codes(s) + rest) == if Printable(s) then Some(rest[1..]) else None
  {
    hide Code, G.String;
    if s == [] {
      CodesNone(rest);
      ClosingQuote(rest);
    } else {
      CodesHead(s, rest);
      CodeSkip(s[0], Codes(s[1..]) + rest);
      CodesString(s[1..], rest);
      assert Printable(s) <==> s[0] >= 0x20 && Printable(s[1..]);
    }
  }

  lemma ClosingQuote(rest: seq<bv8>)
    requires rest != [] && rest[0] == QUOTE
    ensures G.String(rest) == Some(rest[1..])
  {
  }

  // ----- members ----------------------------------------------------------------

  /** A member's name in quotes, and the colon. */
  function Key(k: seq<bv8>): seq<bv8> { [QUOTE] + k + [QUOTE, G.COLON] }

  /** What the members go on with after a value. */
  function GoOn(afterValue: seq<bv8>): Option<seq<bv8>> {
    var u := G.Space(afterValue);
    if G.StartsWith(u, G.COMMA) then G.Members(u[1..])
    else if G.StartsWith(u, 0x7D) then Some(u[1..])
    else None
  }

  /** A key opens with its name, which ends before the colon. */
  lemma NameFound(k: seq<bv8>, rest: seq<bv8>)
    requires forall i | 0 <= i < |k| :: Raw(k[i])
    ensures var b := Key(k) + rest; var colon := [G.COLON] + rest;
      && G.Space(b) == b && b[0] == QUOTE && G.String(b[1..]) == Some(colon) && G.Space(colon) == colon
      && b[1..][..|b| - 1 - |colon| - 1] == k
  {
    hide G.String, Raw;
    var b := Key(k) + rest;
    var tail: seq<bv8> := [QUOTE, G.COLON] + rest;
    assert b[0] == QUOTE && b[1..] == k + tail;
    RawSkip(k, tail);
    ClosingQuote(tail);
    assert tail[1..] == [G.COLON] + rest;
  }

  lemma MemberStep(k: seq<bv8>, rest: seq<bv8>)
    requires forall i | 0 <= i < |k| :: Raw(k[i])
    ensures G.Members(Key(k) + rest) == match G.Value(rest) case None => None case Some(x) => GoOn(x)
  {
    hide G.Value, G.String, Raw, Key;
    NameFound(k, rest);
    assert ([G.COLON] + rest)[1..] == rest;
  }

  lemma NumberMember(k: seq<bv8>, n: nat, rest: seq<bv8>)
    requires forall i | 0 <= i < |k| :: Raw(k[i])
    requires rest != [] && rest[0] == G.COMMA
    ensures G.Members(Key(k) + (Decimal(n) + rest)) == G.Members(rest[1..])
  {
    hide Decimal, G.Value, G.Members;
    MemberStep(k, Decimal(n) + rest);
    NumberValue(n, rest);
    assert G.Space(rest) == rest;
  }

  lemma StringMember(k: seq<bv8>, s: seq<bv16>, rest: seq<bv8>)
    requires forall i | 0 <= i < |k| :: Raw(k[i])
    requires rest != [] && rest[0] == QUOTE
    ensures G.Members(Key(k) + ([QUOTE] + (Codes(s) + rest))) == if Printable(s) then GoOn(rest[1..]) else None
  {
    hide Codes, G.Value, G.Members, G.String, Printable;
    var quoted := [QUOTE] + (Codes(s) + rest);
    MemberStep(k, quoted);
    StringValue(Codes(s) + rest);
    CodesString(s, rest);
  }

  lemma StringValue(b: seq<bv8>)
    ensures G.Value([QUOTE] + b) == G.String(b)
  {
    hide G.String, G.Members, G.Elements;
    var q := [QUOTE] + b;
    assert G.Space(q) == q && q[1..] == b;
  }

  // ----- objects and the list ---------------------------------------------------

  lemma KeysAre()
    ensures ID == [0x7B] + Key([0x69, 0x64])
    ensures CUR[1..] == Key([0x63, 0x75, 0x72]) && WORST[1..] == Key([0x77, 0x6F, 0x72, 0x73, 0x74])
    ensures RAW[1..] == Key([0x72, 0x61, 0x77])
    ensures NAME[1..] == Key([0x6E, 0x61, 0x6D, 0x65]) + [QUOTE]
    ensures DESC[2..] == Key([0x64, 0x65, 0x73, 0x63]) + [QUOTE]
  {
  }

  lemma KeyLetters()
    ensures Raw(0x69) && Raw(0x64) && Raw(0x63) && Raw(0x75) && Raw(0x72) && Raw(0x77) && Raw(0x6F)
    ensures Raw(0x73) && Raw(0x74) && Raw(0x61) && Raw(0x6E) && Raw(0x6D) && Raw(0x65)
  {
  }

  lemma Drop1(p: seq<bv8>, x: seq<bv8>)
    requires p != []
    ensures (p + x)[1..] == p[1..] + x && (p + x)[0] == p[0]
  {
  }

  lemma NumbersSkip(a: Attribute, rest: seq<bv8>)
    ensures G.Members(Key([0x69, 0x64]) + (Decimal(a.id) + Object2(a, rest)))
      == G.Members(Key([0x6E, 0x61, 0x6D, 0x65]) + ([QUOTE] + (Codes(Name(a)) + Object6(a, rest))))
  {
    hide Decimal, Codes, G.Members, Object6, Key, Raw;
    KeysAre();
    KeyLetters();
    Drop1(CUR, Decimal(a.current) + Object3(a, rest));
    Drop1(WORST, Decimal(a.worst) + Object4(a, rest));
    Drop1(RAW, Decimal(a.raw) + Object5(a, rest));
    Drop1(NAME, Codes(Name(a)) + Object6(a, rest));
    NumberMember([0x69, 0x64], a.id, Object2(a, rest));
    NumberMember([0x63, 0x75, 0x72], a.current, Object3(a, rest));
    NumberMember([0x77, 0x6F, 0x72, 0x73, 0x74], a.worst, Object4(a, rest));
    NumberMember([0x72, 0x61, 0x77], a.raw, Object5(a, rest));
    var texts := Codes(Name(a)) + Object6(a, rest);
    assert Key([0x6E, 0x61, 0x6D, 0x65]) + [QUOTE] + texts == Key([0x6E, 0x61, 0x6D, 0x65]) + ([QUOTE] + texts);
  }

  lemma TextsSkip(a: Attribute, rest: seq<bv8>)
    ensures G.Members(Key([0x6E, 0x61, 0x6D, 0x65]) + ([QUOTE] + (Codes(Name(a)) + Object6(a, rest))))
      == if Clean(a) then Some(rest) else None
  {
    hide Codes, Key, Raw, Printable, G.Members;
    KeysAre();
    KeyLetters();
    var end := END + rest;
    var texts := Codes(Description(a)) + end;
    StringMember([0x6E, 0x61, 0x6D, 0x65], Name(a), Object6(a, rest));
    var after := Object6(a, rest)[1..];
    assert after == DESC[1..] + texts && after[1..] == DESC[2..] + texts;
    assert after[1..] == Key([0x64, 0x65, 0x73, 0x63]) + ([QUOTE] + texts);
    assert after[0] == G.COMMA && G.Space(after) == after;
    StringMember([0x64, 0x65, 0x73, 0x63], Description(a), end);
    assert end[1..][0] == 0x7D && end[1..][1..] == rest && G.Space(end[1..]) == end[1..];
  }

  /** An object is a JSON value exactly when its two texts hold no control characters. */
  lemma ObjectValue(a: Attribute, rest: seq<bv8>)
    ensures G.Value(Object(a, rest)) == if Clean(a) then Some(rest) else None
  {
    hide Decimal, Object2, G.Members, Clean, Raw, Codes, Object6;
    KeysAre();
    var members := Decimal(a.id) + Object2(a, rest);
    var b := Object(a, rest);
    assert b[0] == 0x7B && b[1..] == Key([0x69, 0x64]) + members;
    assert G.Space(b) == b && b[1] == QUOTE && G.Space(b[1..]) == b[1..];
    NumbersSkip(a, rest);
    TextsSkip(a, rest);
  }

  predicate AllClean(attributes: seq<Attribute>) { forall k | 0 <= k < |attributes| :: Clean(attributes[k]) }

  lemma {:induction false} ItemsElements(attributes: seq<Attribute>)
    requires attributes != []
    ensures G.Elements(Items(attributes)) == if AllClean(attributes) then Some([]) else None
  {
    hide Object, Clean, G.Value;
    var rest := if |attributes| == 1 then CLOSE else COMMA + Items(attributes[1..]);
    ObjectValue(attributes[0], rest);
    assert G.Space(rest) == rest;
    assert AllClean(attributes) <==> Clean(attributes[0]) && AllClean(attributes[1..]);
    if |attributes| > 1 {
      ItemsElements(attributes[1..]);
      assert rest[1..] == Items(attributes[1..]);
    } else {
      assert rest[1..] == [];
    }
  }

  /** The printed text is legal JSON if and only if no shown name or description holds a control character. */
  lemma PrintLegalIff(attributes: seq<Attribute>)
    requires attributes != []
    ensures G.Legal(Print(attributes)) <==> AllClean(attributes)
  {
    hide Items, AllClean, G.Elements;
    var text := Print(attributes);
    ItemsElements(attributes);
    ItemsOpen(attributes);
    assert text[1..] == Items(attributes) && G.Space(text) == text;
    assert G.Space(text[1..]) == text[1..];
  }

  lemma ItemsOpen(attributes: seq<Attribute>)
    requires attributes != []
    ensures Items(attributes) != [] && Items(attributes)[0] == 0x7B
  {
  }

  // ----- as UTF-8 ---------------------------------------------------------------

  /** No unit is a surrogate. */
  predicate NoSurrogate(s: seq<bv16>) { forall k | 0 <= k < |s| :: UnitIsScalar(s[k]) }

  predicate UnitIsScalar(u: bv16) { !IsHigh(u) && !IsLow(u) }

  predicate Scalar(a: Attribute) { NoSurrogate(Name(a)) && NoSurrogate(Description(a)) }

  predicate AllAscii(p: seq<bv8>) { forall k | 0 <= k < |p| :: p[k] <= 0x7F }

  lemma {:induction false} AsciiSkip(p: seq<bv8>, rest: seq<bv8>)
    requires AllAscii(p)
    ensures WellFormed(p + rest) <==> WellFormed(rest)
  {
    if p == [] {
      assert p + rest == rest;
    } else {
      assert (p + rest)[1..] == p[1..] + rest;
      AsciiSkip(p[1..], rest);
    }
  }

  /** One unit is one character of the grammar, unless it is a surrogate. */
  lemma CodeWellFormed(u: bv16, rest: seq<bv8>)
    ensures WellFormed(Code(u) + rest) <==> UnitIsScalar(u) && WellFormed(rest)
  {
    hide Low8, AbnfLen, LooseLen, Head8, Put8, IsScalar, UnitIsScalar;
    UnitValue(u);
    ScalarUnit(u);
    if u == 0x22 || u == 0x5C {
      QuotedByte(u);
      QuotedIsScalar(u);
      AsciiSkip(Code(u), rest);
    } else {
      var b := Put8(u as bv32) + rest;
      LooseLenOfPut8(u as bv32, rest);
      Head8OfPut8(u as bv32, rest);
      SurrogateHead8(b);
      assert b[|Put8(u as bv32)|..] == rest;
    }
  }

  lemma QuotedIsScalar(u: bv16)
    requires u == 0x22 || u == 0x5C
    ensures UnitIsScalar(u)
  {
  }

  lemma ScalarUnit(u: bv16)
    ensures IsScalar(u as bv32) <==> UnitIsScalar(u)
  {
  }

  lemma CodesSplit(s: seq<bv16>, rest: seq<bv8>)
    requires s != []
    ensures Codes(s) + rest == Code(s[0]) + (Codes(s[1..]) + rest)
  {
    hide Code;
  }

  lemma {:induction false} CodesWellFormed(s: seq<bv16>, rest: seq<bv8>)
    requires rest != []
    ensures WellFormed(Codes(s) + rest) <==> NoSurrogate(s) && WellFormed(rest)
  {
    hide Code, Codes, WellFormed, UnitIsScalar;
    if s == [] {
      CodesNone(rest);
    } else {
      CodesSplit(s, rest);
      CodeWellFormed(s[0], Codes(s[1..]) + rest);
      CodesWellFormed(s[1..], rest);
      assert NoSurrogate(s) <==> UnitIsScalar(s[0]) && NoSurrogate(s[1..]);
    }
  }

  lemma FrameIsAscii()
    ensures AllAscii(ID) && AllAscii(CUR) && AllAscii(WORST) && AllAscii(RAW)
    ensures AllAscii(NAME) && AllAscii(DESC) && AllAscii(END) && AllAscii(OPEN) && AllAscii(CLOSE) && AllAscii(COMMA)
  {
  }

  lemma DecimalAscii(n: nat)
    ensures AllAscii(Decimal(n))
  {
    hide Decimal;
    DecimalNatural(n);
  }

  lemma ObjectWellFormed(a: Attribute, rest: seq<bv8>)
    requires rest != []
    ensures WellFormed(Object(a, rest)) <==> Scalar(a) && WellFormed(rest)
  {
    hide Decimal, Codes, WellFormed, NoSurrogate, AllAscii;
    FrameIsAscii();
    AsciiSkip(ID, Decimal(a.id) + Object2(a, rest));
    DecimalAscii(a.id);
    AsciiSkip(Decimal(a.id), Object2(a, rest));
    AsciiSkip(CUR, Decimal(a.current) + Object3(a, rest));
    DecimalAscii(a.current);
    AsciiSkip(Decimal(a.current), Object3(a, rest));
    AsciiSkip(WORST, Decimal(a.worst) + Object4(a, rest));
    DecimalAscii(a.worst);
    AsciiSkip(Decimal(a.worst), Object4(a, rest));
    AsciiSkip(RAW, Decimal(a.raw) + Object5(a, rest));
    DecimalAscii(a.raw);
    AsciiSkip(Decimal(a.raw), Object5(a, rest));
    AsciiSkip(NAME, Codes(Name(a)) + Object6(a, rest));
    CodesWellFormed(Name(a), Object6(a, rest));
    AsciiSkip(DESC, Codes(Description(a)) + (END + rest));
    CodesWellFormed(Description(a), END + rest);
    AsciiSkip(END, rest);
  }

  predicate AllScalars(attributes: seq<Attribute>) { forall k | 0 <= k < |attributes| :: Scalar(attributes[k]) }

  lemma {:induction false} ItemsWellFormed(attributes: seq<Attribute>)
    requires attributes != []
    ensures WellFormed(Items(attributes)) <==> AllScalars(attributes)
  {
    hide Object, Scalar, WellFormed;
    FrameIsAscii();
    NothingIsWellFormed();
    assert AllScalars(attributes) <==> Scalar(attributes[0]) && AllScalars(attributes[1..]);
    if |attributes| == 1 {
      ObjectWellFormed(attributes[0], CLOSE);
      AsciiSkip(CLOSE, []);
      assert CLOSE + [] == CLOSE;
    } else {
      ItemsWellFormed(attributes[1..]);
      ObjectWellFormed(attributes[0], COMMA + Items(attributes[1..]));
      AsciiSkip(COMMA, Items(attributes[1..]));
    }
  }

  lemma NothingIsWellFormed()
    ensures WellFormed([])
  {
  }

  /** The printed text is legal UTF-8 if and only if no shown name or description holds a surrogate, paired or not. */
  lemma PrintUtf8Iff(attributes: seq<Attribute>)
    requires attributes != []
    ensures WellFormed(Print(attributes)) <==> AllScalars(attributes)
  {
    hide Items, WellFormed, AllScalars;
    FrameIsAscii();
    ItemsWellFormed(attributes);
    AsciiSkip(OPEN, Items(attributes));
  }
}
