/**
 The JSON text of a disk's SMART attributes as it is put into the shared block: what is
 printed, and why two disks never print the same text unless they show the same list.
 Text is bytes, attribute names and descriptions are 16-bit units.
 */
module SmartJson {
  import opened Utf
  import opened JsonReader
  import G = JsonGrammar

  datatype Attribute = Attribute(
    id: nat, current: nat, worst: nat, raw: nat, name: seq<bv16>, description: seq<bv16>)

  const QUOTE: bv8 := 0x22
  const BACKSLASH: bv8 := 0x5C
  const OPEN: seq<bv8> := [0x5B]
  const CLOSE: seq<bv8> := [0x5D]
  const COMMA: seq<bv8> := [0x2C]
  /** {"id": */
  const ID: seq<bv8> := [0x7B, 0x22, 0x69, 0x64, 0x22, 0x3A]
  /** ,"cur": */
  const CUR: seq<bv8> := [0x2C, 0x22, 0x63, 0x75, 0x72, 0x22, 0x3A]
  /** ,"worst": */
  const WORST: seq<bv8> := [0x2C, 0x22, 0x77, 0x6F, 0x72, 0x73, 0x74, 0x22, 0x3A]
  /** ,"raw": */
  const RAW: seq<bv8> := [0x2C, 0x22, 0x72, 0x61, 0x77, 0x22, 0x3A]
  /** ,"name":" */
  const NAME: seq<bv8> := [0x2C, 0x22, 0x6E, 0x61, 0x6D, 0x65, 0x22, 0x3A, 0x22]
  /** ","desc":" */
  const DESC: seq<bv8> := [0x22, 0x2C, 0x22, 0x64, 0x65, 0x73, 0x63, 0x22, 0x3A, 0x22]
  /** "} */
  const END: seq<bv8> := [0x22, 0x7D]

  // ----- what is printed --------------------------------------------------------

  const DIGITS: seq<bv8> := [0x30, 0x31, 0x32, 0x33, 0x34, 0x35, 0x36, 0x37, 0x38, 0x39]

  function Decimal(n: nat): (r: seq<bv8>)
    ensures r != []
  {
    if n < 10 then [DIGITS[n]] else Decimal(n / 10) + [DIGITS[n % 10]]
  }

  /** Up to the first NUL, and no more than `max` units. */
  function Cut(s: seq<bv16>, max: nat): (r: seq<bv16>)
    ensures r <= s && |r| <= max && 0 !in r
  {
    if s == [] || max == 0 || s[0] == 0 then [] else [s[0]] + Cut(s[1..], max - 1)
  }

  /** One unit inside quotes: quotes and backslashes escaped, surrogates not paired. */
  function Code(u: bv16): (r: seq<bv8>)
    ensures r != []
  {
    if u == 0x22 || u == 0x5C then [BACKSLASH, Low8(u as bv32)] else Put8(u as bv32)
  }

  function Codes(s: seq<bv16>): seq<bv8> {
    if s == [] then [] else Code(s[0]) + Codes(s[1..])
  }

  function Name(a: Attribute): seq<bv16> { Cut(a.name, 63) }

  function Description(a: Attribute): seq<bv16> { Cut(a.description, 127) }

  /** One attribute's object and whatever follows it. */
  function Object(a: Attribute, rest: seq<bv8>): seq<bv8> {
    ID + (Decimal(a.id) + Object2(a, rest))
  }

  function Object2(a: Attribute, rest: seq<bv8>): seq<bv8> {
    CUR + (Decimal(a.current) + Object3(a, rest))
  }

  function Object3(a: Attribute, rest: seq<bv8>): seq<bv8> {
    WORST + (Decimal(a.worst) + Object4(a, rest))
  }

  function Object4(a: Attribute, rest: seq<bv8>): seq<bv8> {
    RAW + (Decimal(a.raw) + Object5(a, rest))
  }

  function Object5(a: Attribute, rest: seq<bv8>): seq<bv8> {
    NAME + (Codes(Name(a)) + Object6(a, rest))
  }

  function Object6(a: Attribute, rest: seq<bv8>): seq<bv8> {
    DESC + (Codes(Description(a)) + (END + rest))
  }

  function Items(attributes: seq<Attribute>): seq<bv8>
    requires attributes != []
  {
    Object(attributes[0], if |attributes| == 1 then CLOSE else COMMA + Items(attributes[1..]))
  }

  function Print(attributes: seq<Attribute>): seq<bv8>
    requires attributes != []
  {
    OPEN + Items(attributes)
  }

  // ----- taking the text apart --------------------------------------------------

  lemma Strip(p: seq<bv8>, x: seq<bv8>, y: seq<bv8>)
    requires p + x == p + y
    ensures x == y
  {
    assert x == (p + x)[|p|..] && y == (p + y)[|p|..];
  }

  lemma DigitReads(d: nat)
    requires d < 10
    ensures G.IsDigit(DIGITS[d]) && Digit(DIGITS[d]) == d
  {
  }

  /** A printed number spells the number. */
  lemma {:induction false} DecimalNatural(n: nat)
    ensures AllDigits(Decimal(n)) && Natural(Decimal(n)) == n
  {
    hide G.IsDigit, Digit;
    var d := Decimal(n);
    DigitReads(n % 10);
    if n < 10 {
      assert d[..0] == [];
    } else {
      DecimalNatural(n / 10);
      assert d[..|d| - 1] == Decimal(n / 10);
    }
  }

  /** How many digits the text opens with. */
  function DigitRun(text: seq<bv8>): nat {
    if text == [] || !G.IsDigit(text[0]) then 0 else 1 + DigitRun(text[1..])
  }

  lemma {:induction false} DigitRunOf(digits: seq<bv8>, rest: seq<bv8>)
    requires AllDigits(digits)
    requires rest == [] || !G.IsDigit(rest[0])
    ensures DigitRun(digits + rest) == |digits|
  {
    hide G.IsDigit;
    if digits == [] {
      assert digits + rest == rest;
    } else {
      assert (digits + rest)[1..] == digits[1..] + rest;
      DigitRunOf(digits[1..], rest);
    }
  }

  /** A number ends where the digits end. */
  lemma DecimalPrefixFree(m: nat, n: nat, x: seq<bv8>, y: seq<bv8>)
    requires Decimal(m) + x == Decimal(n) + y
    requires x != [] && !G.IsDigit(x[0]) && y != [] && !G.IsDigit(y[0])
    ensures m == n && x == y
  {
    hide Decimal, G.IsDigit;
    var a, b := Decimal(m), Decimal(n);
    DecimalNatural(m);
    DecimalNatural(n);
    DigitRunOf(a, x);
    DigitRunOf(b, y);
    assert a == (a + x)[..|a|] && b == (b + y)[..|b|];
    Strip(a, x, y);
  }

  /** The unit a code stands for, and the code's length. */
  function Peel(text: seq<bv8>): Read
    requires text != []
  {
    if text[0] == BACKSLASH && |text| > 1 then Read(text[1] as bv32, 2) else Head8(text)
  }

  lemma PeelCode(u: bv16, rest: seq<bv8>)
    requires rest != []
    ensures Peel(Code(u) + rest) == Read(u as bv32, |Code(u)|)
    ensures Code(u)[0] != QUOTE
  {
    UnitValue(u);
    if u == 0x22 || u == 0x5C {
      EscapedByte(u);
    } else {
      hide Head8, Low8, Split2, Split3;
      Head8OfPut8(u as bv32, rest);
      FirstByte(u);
    }
  }

  lemma EscapedByte(u: bv16)
    requires u == 0x22 || u == 0x5C
    ensures Low8(u as bv32) as bv32 == u as bv32
  {
  }

  lemma FirstByte(u: bv16)
    requires u != 0x22 && u != 0x5C
    ensures Put8(u as bv32)[0] != QUOTE && Put8(u as bv32)[0] != BACKSLASH
  {
    if u <= 0x7F {
      SmallUnit(u);
    } else if u <= 0x7FF {
      JoinSplit2(u as bv32);
      assert Put8(u as bv32) == Split2(u as bv32);
    } else {
      Split3Ranges(u as bv32);
      assert Put8(u as bv32) == Split3(u as bv32);
    }
  }

  lemma SmallUnit(u: bv16)
    requires u <= 0x7F && u != 0x22 && u != 0x5C
    ensures Low8(u as bv32) != QUOTE && Low8(u as bv32) != BACKSLASH
  {
  }

  /** A quoted text ends at the first quote that no code covers. */
  lemma {:induction false} CodesPrefixFree(a: seq<bv16>, b: seq<bv16>, x: seq<bv8>, y: seq<bv8>)
    requires Codes(a) + x == Codes(b) + y
    requires x != [] && x[0] == QUOTE && y != [] && y[0] == QUOTE
    ensures a == b && x == y
  {
    hide Code, Peel, Codes;
    CodesNone(x);
    CodesNone(y);
    if a != [] {
      CodesHead(a, x);
    }
    if b != [] {
      CodesHead(b, y);
    }
    if a != [] && b != [] {
      WideningInjective(a[0], b[0]);
      Strip(Code(a[0]), Codes(a[1..]) + x, Codes(b[1..]) + y);
      CodesPrefixFree(a[1..], b[1..], x, y);
      assert a == [a[0]] + a[1..] && b == [b[0]] + b[1..];
    }
  }

  lemma CodesNone(x: seq<bv8>)
    ensures Codes([]) + x == x
  {
  }

  lemma CodesFirst(a: seq<bv16>)
    requires a != []
    ensures Codes(a) == Code(a[0]) + Codes(a[1..])
  {
    hide Code;
  }

  lemma CodesHead(a: seq<bv16>, x: seq<bv8>)
    requires a != [] && x != []
    ensures Codes(a) + x == Code(a[0]) + (Codes(a[1..]) + x)
    ensures Peel(Codes(a) + x) == Read(a[0] as bv32, |Code(a[0])|) && (Codes(a) + x)[0] != QUOTE
  {
    hide Code, Peel, Codes;
    CodesFirst(a);
    var rest := Codes(a[1..]) + x;
    PeelCode(a[0], rest);
    assert Codes(a) + x == Code(a[0]) + rest;
    assert (Codes(a) + x)[0] == Code(a[0])[0];
  }

  // ----- injectivity ------------------------------------------------------------

  /** What the text shows of an attribute. */
  datatype Shown = Shown(id: nat, current: nat, worst: nat, raw: nat, name: seq<bv16>, description: seq<bv16>)

  function Show(a: Attribute): Shown {
    Shown(a.id, a.current, a.worst, a.raw, Name(a), Description(a))
  }

  function ShowAll(attributes: seq<Attribute>): seq<Shown> {
    if attributes == [] then [] else [Show(attributes[0])] + ShowAll(attributes[1..])
  }

  lemma ObjectPrefixFree(a: Attribute, b: Attribute, x: seq<bv8>, y: seq<bv8>)
    requires Object(a, x) == Object(b, y)
    ensures Show(a) == Show(b) && x == y
  {
    hide Decimal, Codes, G.IsDigit;
    NotDigits();
    Strip(ID, Decimal(a.id) + Object2(a, x), Decimal(b.id) + Object2(b, y));
    DecimalPrefixFree(a.id, b.id, Object2(a, x), Object2(b, y));
    Strip(CUR, Decimal(a.current) + Object3(a, x), Decimal(b.current) + Object3(b, y));
    DecimalPrefixFree(a.current, b.current, Object3(a, x), Object3(b, y));
    Strip(WORST, Decimal(a.worst) + Object4(a, x), Decimal(b.worst) + Object4(b, y));
    DecimalPrefixFree(a.worst, b.worst, Object4(a, x), Object4(b, y));
    Strip(RAW, Decimal(a.raw) + Object5(a, x), Decimal(b.raw) + Object5(b, y));
    DecimalPrefixFree(a.raw, b.raw, Object5(a, x), Object5(b, y));
    Strip(NAME, Codes(Name(a)) + Object6(a, x), Codes(Name(b)) + Object6(b, y));
    CodesPrefixFree(Name(a), Name(b), Object6(a, x), Object6(b, y));
    Strip(DESC, Codes(Description(a)) + (END + x), Codes(Description(b)) + (END + y));
    CodesPrefixFree(Description(a), Description(b), END + x, END + y);
    Strip(END, x, y);
  }

  lemma NotDigits()
    ensures !G.IsDigit(CUR[0]) && !G.IsDigit(WORST[0]) && !G.IsDigit(RAW[0]) && !G.IsDigit(NAME[0])
  {
  }

  lemma {:induction false} ItemsInjective(a: seq<Attribute>, b: seq<Attribute>)
    requires a != [] && b != [] && Items(a) == Items(b)
    ensures ShowAll(a) == ShowAll(b)
  {
    hide Object, Show;
    var x := if |a| == 1 then CLOSE else COMMA + Items(a[1..]);
    var y := if |b| == 1 then CLOSE else COMMA + Items(b[1..]);
    ObjectPrefixFree(a[0], b[0], x, y);
    assert |a| == 1 <==> |b| == 1 by {
      assert x[0] == (if |a| == 1 then CLOSE[0] else COMMA[0]);
      assert y[0] == (if |b| == 1 then CLOSE[0] else COMMA[0]);
    }
    if |a| > 1 {
      Strip(COMMA, Items(a[1..]), Items(b[1..]));
      ItemsInjective(a[1..], b[1..]);
    } else {
      assert a[1..] == [] && b[1..] == [];
    }
  }

  /** Equal texts show equal lists, and the text depends on nothing else. */
  lemma PrintInjective(a: seq<Attribute>, b: seq<Attribute>)
    requires a != [] && b != []
    ensures Print(a) == Print(b) <==> ShowAll(a) == ShowAll(b)
  {
    hide Items, ShowAll;
    if Print(a) == Print(b) {
      Strip(OPEN, Items(a), Items(b));
      ItemsInjective(a, b);
    }
    if ShowAll(a) == ShowAll(b) {
      ItemsOfShown(a, b);
    }
  }

  lemma {:induction false} ItemsOfShown(a: seq<Attribute>, b: seq<Attribute>)
    requires a != [] && b != [] && ShowAll(a) == ShowAll(b)
    ensures Items(a) == Items(b)
    decreases |a|
  {
    hide Decimal, Codes, Cut;
    assert Show(a[0]) == ShowAll(a)[0] && Show(b[0]) == ShowAll(b)[0];
    assert ShowAll(a[1..]) == ShowAll(a)[1..] && ShowAll(b[1..]) == ShowAll(b)[1..];
    assert |a| == 1 ==> a[1..] == [];
    assert |b| == 1 ==> b[1..] == [];
    assert |a| > 1 <==> |b| > 1;
    if |a| > 1 {
      ItemsOfShown(a[1..], b[1..]);
    }
  }

  // ----- no NUL in the text -----------------------------------------------------

  predicate NoNul(text: seq<bv8>) { 0 !in text }

  lemma NoNulConcat(x: seq<bv8>, y: seq<bv8>)
    requires NoNul(x) && NoNul(y)
    ensures NoNul(x + y)
  {
  }

  lemma {:induction false} DecimalNoNul(n: nat)
    ensures NoNul(Decimal(n))
  {
    if n >= 10 {
      DecimalNoNul(n / 10);
    }
  }

  lemma CodeNoNul(u: bv16)
    requires u != 0
    ensures NoNul(Code(u))
  {
    hide Low8, Join2, Join3, LeadOf, IsTail;
    SmallUnitCode(u);
    if u == 0x22 || u == 0x5C || u < 0x80 {
      LowNonZero(u);
    } else if u < 0x800 {
      Split2NoNul(u as bv32);
    } else {
      Split3NoNul(u as bv32);
    }
  }

  lemma Split2NoNul(cp: bv32)
    requires 0x7F < cp <= 0x7FF
    ensures NoNul(Split2(cp))
  {
    hide Low8, Join2, LeadOf, IsTail;
    JoinSplit2(cp);
  }

  lemma Split3NoNul(cp: bv32)
    requires 0x7FF < cp <= 0xFFFF
    ensures NoNul(Split3(cp))
  {
    hide Low8, Join3, LeadOf, IsTail;
    JoinSplit3(cp);
    Split3Ranges(cp);
  }

  lemma LowNonZero(u: bv16)
    requires 0 < u <= 0x7F
    ensures u as bv32 <= 0x7F && Low8(u as bv32) != 0
  {
  }

  lemma {:induction false} CodesNoNul(s: seq<bv16>)
    requires 0 !in s
    ensures NoNul(Codes(s))
  {
    hide Code;
    if s != [] {
      CodeNoNul(s[0]);
      CodesNoNul(s[1..]);
      NoNulConcat(Code(s[0]), Codes(s[1..]));
    }
  }

  lemma ObjectNoNul(a: Attribute, rest: seq<bv8>)
    requires NoNul(rest)
    ensures NoNul(Object(a, rest))
  {
    hide Decimal, Codes;
    DecimalNoNul(a.id);
    DecimalNoNul(a.current);
    DecimalNoNul(a.worst);
    DecimalNoNul(a.raw);
    CodesNoNul(Name(a));
    CodesNoNul(Description(a));
    assert NoNul(Object6(a, rest));
    assert NoNul(Object5(a, rest));
    assert NoNul(Object4(a, rest));
    assert NoNul(Object3(a, rest));
    assert NoNul(Object2(a, rest));
  }

  /** The printed text holds no NUL byte, so a C string keeps all of it. */
  lemma {:induction false} PrintNoNul(attributes: seq<Attribute>)
    requires attributes != []
    ensures NoNul(Items(attributes)) && NoNul(Print(attributes))
  {
    hide Object;
    if |attributes| == 1 {
      ObjectNoNul(attributes[0], CLOSE);
    } else {
      PrintNoNul(attributes[1..]);
      NoNulConcat(COMMA, Items(attributes[1..]));
      ObjectNoNul(attributes[0], COMMA + Items(attributes[1..]));
    }
    NoNulConcat(OPEN, Items(attributes));
  }

  // ----- how long it is ---------------------------------------------------------

  /** Every attribute takes at least a byte and one for each unit of its texts. */
  lemma {:induction false} PrintLength(attributes: seq<Attribute>)
    requires attributes != []
    ensures |Print(attributes)| > |Items(attributes)| >= |attributes|
    ensures |Items(attributes)| >= Words(attributes)
  {
    hide Object;
    var a := attributes[0];
    if |attributes| == 1 {
      ObjectLength(a, CLOSE);
    } else {
      PrintLength(attributes[1..]);
      ObjectLength(a, COMMA + Items(attributes[1..]));
    }
  }

  /** How many units the texts of the attributes have. */
  function Words(attributes: seq<Attribute>): nat {
    if attributes == [] then 0
    else |Name(attributes[0])| + |Description(attributes[0])| + Words(attributes[1..])
  }

  lemma ObjectLength(a: Attribute, rest: seq<bv8>)
    ensures |Object(a, rest)| > |Name(a)| + |Description(a)| + |rest|
  {
    hide Decimal, Codes, Name, Description;
    CodesLength(Name(a));
    CodesLength(Description(a));
  }

  lemma {:induction false} CodesLength(s: seq<bv16>)
    ensures |Codes(s)| >= |s|
  {
    hide Code;
    if s != [] {
      CodesLength(s[1..]);
    }
  }

  /** `n` attributes whose texts are as long as they may be. */
  function Wordy(n: nat): (attributes: seq<Attribute>)
    ensures |attributes| == n
  {
    seq(n, _ => Attribute(1, 100, 100, 0, seq(63, _ => 0x41), seq(127, _ => 0x41)))
  }

  lemma {:induction false} WordyLength(n: nat)
    ensures Words(Wordy(n)) == 190 * n
    ensures n > 0 ==> |Print(Wordy(n))| > 190 * n
  {
    hide Print, Cut;
    if n > 0 {
      assert Wordy(n)[1..] == Wordy(n - 1);
      WordyLength(n - 1);
      CutWhole(Wordy(n)[0].name, 63);
      CutWhole(Wordy(n)[0].description, 127);
      PrintLength(Wordy(n));
    }
  }

  lemma {:induction false} CutWhole(s: seq<bv16>, max: nat)
    requires 0 !in s && |s| <= max
    ensures Cut(s, max) == s
  {
    if s != [] {
      CutWhole(s[1..], max - 1);
    }
  }

  // ----- the printing loops -----------------------------------------------------

  /** The conversion of one name: up to a NUL or `maxLen` units, one code after the other. */
  method ToUtf8(s: seq<bv16>, maxLen: nat) returns (out: seq<bv8>)
    ensures out == Codes(Cut(s, maxLen))
  {
    hide Code, Codes, Cut;
    out := [];
    var i := 0;
    assert s[0..] == s;
    while i < maxLen && i < |s| && s[i] != 0
      invariant i <= maxLen && i <= |s|
      invariant out + Codes(Cut(s[i..], maxLen - i)) == Codes(Cut(s, maxLen))
      decreases |s| - i
    {
      CutNext(s, i, maxLen - i);
      var code := Encode(s[i]);
      ghost var rest := Codes(Cut(s[i + 1..], maxLen - (i + 1)));
      assert out + (code + rest) == (out + code) + rest;
      out := out + code;
      i := i + 1;
    }
    CutDone(s[i..], maxLen - i);
  }

  lemma CutNext(s: seq<bv16>, i: nat, max: nat)
    requires i < |s| && s[i] != 0 && max > 0
    ensures Codes(Cut(s[i..], max)) == Code(s[i]) + Codes(Cut(s[i + 1..], max - 1))
  {
    hide Code;
    assert s[i..][1..] == s[i + 1..];
    assert Cut(s[i..], max) == [s[i]] + Cut(s[i + 1..], max - 1);
  }

  lemma CutDone(s: seq<bv16>, max: nat)
    requires max == 0 || s == [] || s[0] == 0
    ensures Codes(Cut(s, max)) == []
  {
  }

  method Encode(cp: bv16) returns (code: seq<bv8>)
    ensures code == Code(cp)
  {
    if cp == 0x22 || cp == 0x5C {
      code := [BACKSLASH] + [Low8(cp as bv32)];
    } else if cp < 0x80 {
      SmallUnitCode(cp);
      code := [Low8(cp as bv32)];
    } else if cp < 0x800 {
      SmallUnitCode(cp);
      code := Split2(cp as bv32);
    } else {
      SmallUnitCode(cp);
      code := Split3(cp as bv32);
    }
  }

  lemma SmallUnitCode(u: bv16)
    ensures u < 0x80 <==> u as bv32 <= 0x7F
    ensures u < 0x800 <==> u as bv32 <= 0x7FF
    ensures u as bv32 <= 0xFFFF
  {
  }

  method PrintAttributes(attributes: seq<Attribute>) returns (text: seq<bv8>)
    requires attributes != []
    ensures text == Print(attributes)
  {
    hide Object;
    text := OPEN;
    for k := 0 to |attributes|
      invariant text + Rest(attributes, k) == Print(attributes)
    {
      if k > 0 {
        text := Emit(text, COMMA, Items(attributes[k..]));
      }
      assert attributes[k..][1..] == attributes[k + 1..];
      text := PrintObject(text, attributes[k], Rest(attributes, k + 1));
    }
    text := text + CLOSE;
  }

  /** What is still to be printed before the `k`-th attribute. */
  function Rest(attributes: seq<Attribute>, k: nat): seq<bv8>
    requires attributes != [] && k <= |attributes|
  {
    if k == |attributes| then CLOSE
    else if k == 0 then Items(attributes)
    else COMMA + Items(attributes[k..])
  }

  method PrintObject(text: seq<bv8>, a: Attribute, ghost rest: seq<bv8>) returns (out: seq<bv8>)
    ensures out + rest == text + Object(a, rest)
  {
    hide Decimal, Codes;
    var name := ToUtf8(a.name, 63);
    var description := ToUtf8(a.description, 127);
    out := Emit(text, ID, Decimal(a.id) + Object2(a, rest));
    out := Emit(out, Decimal(a.id), Object2(a, rest));
    out := Emit(out, CUR, Decimal(a.current) + Object3(a, rest));
    out := Emit(out, Decimal(a.current), Object3(a, rest));
    out := Emit(out, WORST, Decimal(a.worst) + Object4(a, rest));
    out := Emit(out, Decimal(a.worst), Object4(a, rest));
    out := Emit(out, RAW, Decimal(a.raw) + Object5(a, rest));
    out := Emit(out, Decimal(a.raw), Object5(a, rest));
    out := Emit(out, NAME, Codes(Name(a)) + Object6(a, rest));
    out := Emit(out, name, Object6(a, rest));
    out := Emit(out, DESC, Codes(Description(a)) + (END + rest));
    out := Emit(out, description, END + rest);
    out := Emit(out, END, rest);
  }

  /** One `<<` onto the output stream. */
  method Emit(text: seq<bv8>, piece: seq<bv8>, ghost rest: seq<bv8>) returns (out: seq<bv8>)
    ensures out == text + piece && out + rest == text + (piece + rest)
  {
    out := text + piece;
  }
}
