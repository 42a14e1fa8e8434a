/**
 The pure side of the text codecs: what one step of each loop reads or writes, the
 texts those steps add up to, and the grammars of RFC 3629 and RFC 2781 they are
 measured against. A byte is a `bv8`, a UTF-16 unit a `bv16`, a code point or a
 32-bit `wchar_t` a `bv32`.
 */
module Utf {

  const REPLACEMENT: bv32 := 0xFFFD
  const QUESTION: bv32 := 0x3F

  // ----- one code point, bit by bit ---------------------------------------------

  /** The kind of sequence a byte opens, told by its leading bits. */
  datatype Lead = One | Two | Three | Four | Bad

  function LeadOf(c: bv8): Lead {
    if c & 0x80 == 0 then One
    else if c & 0xE0 == 0xC0 then Two
    else if c & 0xF0 == 0xE0 then Three
    else if c & 0xF8 == 0xF0 then Four
    else Bad
  }

  predicate IsTail(c: bv8) { c & 0xC0 == 0x80 }

  function Low8(x: bv32): bv8 { (x & 0xFF) as bv8 }

  function Low16(x: bv32): bv16 { (x & 0xFFFF) as bv16 }

  function Join2(a: bv8, b: bv8): bv32 {
    (((a & 0x1F) as bv32) << 6) | ((b & 0x3F) as bv32)
  }

  function Join3(a: bv8, b: bv8, c: bv8): bv32 {
    (((a & 0x0F) as bv32) << 12) | (((b & 0x3F) as bv32) << 6) | ((c & 0x3F) as bv32)
  }

  function Join4(a: bv8, b: bv8, c: bv8, d: bv8): bv32 {
    (((a & 0x07) as bv32) << 18) | (((b & 0x3F) as bv32) << 12) | (((c & 0x3F) as bv32) << 6) | ((d & 0x3F) as bv32)
  }

  function Split2(cp: bv32): (r: seq<bv8>)
    ensures |r| == 2
  {
    [Low8(0xC0 | (cp >> 6)), Low8(0x80 | (cp & 0x3F))]
  }

  function Split3(cp: bv32): (r: seq<bv8>)
    ensures |r| == 3
  {
    [Low8(0xE0 | (cp >> 12)), Low8(0x80 | ((cp >> 6) & 0x3F)), Low8(0x80 | (cp & 0x3F))]
  }

  function Split4(cp: bv32): (r: seq<bv8>)
    ensures |r| == 4
  {
    [Low8(0xF0 | (cp >> 18)), Low8(0x80 | ((cp >> 12) & 0x3F)), Low8(0x80 | ((cp >> 6) & 0x3F)), Low8(0x80 | (cp & 0x3F))]
  }

  predicate IsHigh(u: bv16) { 0xD800 <= u <= 0xDBFF }

  predicate IsLow(u: bv16) { 0xDC00 <= u <= 0xDFFF }

  function Combine(high: bv32, low: bv32): bv32 { 0x10000 + (high << 10) + low }

  function Pair(hi: bv16, lo: bv16): bv32 { Combine(hi as bv32 - 0xD800, lo as bv32 - 0xDC00) }

  function TopHalf(v: bv32): bv16 { Low16(0xD800 | (v >> 10)) }

  function BottomHalf(v: bv32): bv16 { Low16(0xDC00 | (v & 0x3FF)) }

  function HighOf(cp: bv32): bv16 { TopHalf(cp - 0x10000) }

  function LowOf(cp: bv32): bv16 { BottomHalf(cp - 0x10000) }

  /** A Unicode scalar value: a code point that is not a surrogate. */
  predicate IsScalar(cp: bv32) { cp <= 0xD7FF || 0xE000 <= cp <= 0x10FFFF }

  // ----- one step of each loop --------------------------------------------------

  /** A value and how many input items it was read from. */
  datatype Read = Read(value: bv32, len: nat)

  function Head8(b: seq<bv8>): (r: Read)
    requires b != []
    ensures 1 <= r.len <= 4 && r.len <= |b|
  {
    match LeadOf(b[0])
    case One => Read(b[0] as bv32, 1)
    case Two => if |b| < 2 then Read(REPLACEMENT, 1) else Read(Join2(b[0], b[1]), 2)
    case Three => if |b| < 3 then Read(REPLACEMENT, 1) else Read(Join3(b[0], b[1], b[2]), 3)
    case Four => if |b| < 4 then Read(REPLACEMENT, 1) else Read(Join4(b[0], b[1], b[2], b[3]), 4)
    case Bad => Read(REPLACEMENT, 1)
  }

  function Head16(s: seq<bv16>): (r: Read)
    requires s != []
    ensures 1 <= r.len <= 2 && r.len <= |s|
  {
    if IsHigh(s[0]) && 1 < |s| && IsLow(s[1]) then Read(Pair(s[0], s[1]), 2) else Read(s[0] as bv32, 1)
  }

  function Put8(cp: bv32): (r: seq<bv8>)
    ensures 1 <= |r| <= 4
  {
    if cp <= 0x7F then [Low8(cp)]
    else if cp <= 0x7FF then Split2(cp)
    else if cp <= 0xFFFF then Split3(cp)
    else if cp <= 0x10FFFF then Split4(cp)
    else [0xEF, 0xBF, 0xBD]
  }

  function Put16(cp: bv32): (r: seq<bv16>)
    ensures 1 <= |r| <= 2
  {
    if cp <= 0xFFFF then [Low16(cp)]
    else if cp <= 0x10FFFF then [HighOf(cp), LowOf(cp)]
    else [0xFFFD]
  }

  // ----- whole texts ------------------------------------------------------------

  /** The UTF-16 text that the UTF-8 reader makes of a byte string. */
  function Units(b: seq<bv8>): seq<bv16> {
    if b == [] then [] else Put16(Head8(b).value) + Units(b[Head8(b).len..])
  }

  /** The byte string that the UTF-16 reader makes of a text. */
  function Bytes(s: seq<bv16>): seq<bv8> {
    if s == [] then [] else Put8(Head16(s).value) + Bytes(s[Head16(s).len..])
  }

  /** The UTF-8 form of a sequence of code points. */
  function Utf8(cps: seq<bv32>): seq<bv8> {
    if cps == [] then [] else Put8(cps[0]) + Utf8(cps[1..])
  }

  /** The UTF-16 form of a sequence of code points. */
  function Utf16(cps: seq<bv32>): seq<bv16> {
    if cps == [] then [] else Put16(cps[0]) + Utf16(cps[1..])
  }

  predicate AllScalar(cps: seq<bv32>) { forall k | 0 <= k < |cps| :: IsScalar(cps[k]) }

  // ----- grammars ---------------------------------------------------------------

  predicate Tails(b: seq<bv8>, from: nat, to: nat)
    requires from <= to
  {
    to <= |b| && forall k | from <= k < to :: 0x80 <= b[k] <= 0xBF
  }

  /** The UTF-8 rules of section 4 of RFC 3629: the length of the character `b` opens with, or 0. */
  function AbnfLen(b: seq<bv8>): (n: nat)
    ensures n <= |b|
  {
    if b == [] then 0
    else if b[0] <= 0x7F then 1
    else if 0xC2 <= b[0] <= 0xDF && Tails(b, 1, 2) then 2
    else if b[0] == 0xE0 && Tails(b, 1, 3) && 0xA0 <= b[1] then 3
    else if 0xE1 <= b[0] <= 0xEC && Tails(b, 1, 3) then 3
    else if b[0] == 0xED && Tails(b, 1, 3) && b[1] <= 0x9F then 3
    else if 0xEE <= b[0] <= 0xEF && Tails(b, 1, 3) then 3
    else if b[0] == 0xF0 && Tails(b, 1, 4) && 0x90 <= b[1] then 4
    else if 0xF1 <= b[0] <= 0xF3 && Tails(b, 1, 4) then 4
    else if b[0] == 0xF4 && Tails(b, 1, 4) && b[1] <= 0x8F then 4
    else 0
  }

  /** Well-formed UTF-8 as RFC 3629 section 4 defines it: a run of characters. */
  predicate WellFormed(b: seq<bv8>) {
    b == [] || (AbnfLen(b) > 0 && WellFormed(b[AbnfLen(b)..]))
  }

  predicate OpensHighSurrogate(b: seq<bv8>) { Tails(b, 1, 3) && b[0] == 0xED && 0xA0 <= b[1] <= 0xAF }

  predicate OpensLowSurrogate(b: seq<bv8>) { Tails(b, 1, 3) && b[0] == 0xED && 0xB0 <= b[1] }

  /** As `AbnfLen`, with three-byte forms of surrogates let in. */
  function LooseLen(b: seq<bv8>): (n: nat)
    ensures n <= |b|
  {
    if OpensHighSurrogate(b) || OpensLowSurrogate(b) then 3 else AbnfLen(b)
  }

  /**
   UTF-8 that may also hold surrogates in three-byte form, provided no high one is
   followed at once by a low one (such a pair has a four-byte form of its own).
   */
  predicate Loose(b: seq<bv8>) {
    b == [] || (LooseLen(b) > 0
                && !(OpensHighSurrogate(b) && OpensLowSurrogate(b[3..]))
                && Loose(b[LooseLen(b)..]))
  }

  /** The length a lead byte announces. */
  function ShapeLen(c: bv8): nat {
    match LeadOf(c)
    case One => 1
    case Two => 2
    case Three => 3
    case Four => 4
    case Bad => 0
  }

  /** The payload bits of a lead byte and of the bytes it announces, whatever those are. */
  function Payload(b: seq<bv8>): bv32
    requires b != [] && 0 < ShapeLen(b[0]) <= |b|
  {
    if ShapeLen(b[0]) == 1 then b[0] as bv32
    else if ShapeLen(b[0]) == 2 then Join2(b[0], b[1])
    else if ShapeLen(b[0]) == 3 then Join3(b[0], b[1], b[2])
    else Join4(b[0], b[1], b[2], b[3])
  }

  /** One lead byte with as many continuation bytes as it announces. */
  predicate IsShape(c: seq<bv8>) {
    c != [] && |c| == ShapeLen(c[0]) && forall k | 1 <= k < |c| :: IsTail(c[k])
  }

  function Concat(chunks: seq<seq<bv8>>): seq<bv8> {
    if chunks == [] then [] else chunks[0] + Concat(chunks[1..])
  }

  predicate AllShapes(chunks: seq<seq<bv8>>) { forall k | 0 <= k < |chunks| :: IsShape(chunks[k]) }

  /** The byte strings that can be cut into lead/continuation shapes. */
  ghost predicate Shaped(b: seq<bv8>) {
    exists chunks :: AllShapes(chunks) && Concat(chunks) == b
  }

  // ----- bit facts --------------------------------------------------------------

  lemma JoinSplit1(cp: bv32)
    requires cp <= 0x7F
    ensures LeadOf(Low8(cp)) == One && Low8(cp) as bv32 == cp && Low8(cp) <= 0x7F
  {
  }

  lemma JoinSplit2(cp: bv32)
    requires 0x7F < cp <= 0x7FF
    ensures var b := Split2(cp);
      LeadOf(b[0]) == Two && Join2(b[0], b[1]) == cp && 0xC2 <= b[0] <= 0xDF && 0x80 <= b[1] <= 0xBF && IsTail(b[1])
  {
  }

  lemma JoinSplit3(cp: bv32)
    requires 0x7FF < cp <= 0xFFFF
    ensures var b := Split3(cp); LeadOf(b[0]) == Three && Join3(b[0], b[1], b[2]) == cp
    ensures var b := Split3(cp); IsTail(b[1]) && IsTail(b[2]) && 0x80 <= b[1] <= 0xBF && 0x80 <= b[2] <= 0xBF
  {
  }

  lemma JoinSplit4(cp: bv32)
    requires 0xFFFF < cp <= 0x10FFFF
    ensures var b := Split4(cp); LeadOf(b[0]) == Four && Join4(b[0], b[1], b[2], b[3]) == cp
    ensures var b := Split4(cp); IsTail(b[1]) && IsTail(b[2]) && IsTail(b[3])
    ensures var b := Split4(cp); 0x80 <= b[1] <= 0xBF && 0x80 <= b[2] <= 0xBF && 0x80 <= b[3] <= 0xBF
  {
  }

  lemma Join2Bound(a: bv8, b: bv8)
    ensures Join2(a, b) <= 0xFFFF
  {
  }

  lemma Join3Bound(a: bv8, b: bv8, c: bv8)
    ensures Join3(a, b, c) <= 0xFFFF
  {
  }

  /** Where a three-byte form lies in the grammar, by the range of its code point. */
  lemma Split3Ranges(cp: bv32)
    requires 0x7FF < cp <= 0xFFFF
    ensures var b := Split3(cp);
      && 0xE0 <= b[0] <= 0xEF
      && (b[0] == 0xE0 ==> 0xA0 <= b[1])
      && (b[0] == 0xED ==> (b[1] <= 0x9F <==> cp <= 0xD7FF))
      && (b[0] == 0xED && 0xA0 <= b[1] <= 0xAF <==> 0xD800 <= cp <= 0xDBFF)
      && (b[0] == 0xED && 0xB0 <= b[1] <==> 0xDC00 <= cp <= 0xDFFF)
  {
  }

  lemma Split4Ranges(cp: bv32)
    requires 0xFFFF < cp <= 0x10FFFF
    ensures var b := Split4(cp);
      0xF0 <= b[0] <= 0xF4 && (b[0] == 0xF0 ==> 0x90 <= b[1]) && (b[0] == 0xF4 ==> b[1] <= 0x8F)
  {
  }

  lemma SplitJoin2(a: bv8, b: bv8)
    requires 0xC2 <= a <= 0xDF && 0x80 <= b <= 0xBF
    ensures LeadOf(a) == Two && 0x7F < Join2(a, b) <= 0x7FF && Split2(Join2(a, b)) == [a, b]
  {
  }

  lemma SplitJoin3(a: bv8, b: bv8, c: bv8)
    requires 0xE0 <= a <= 0xEF && 0x80 <= b <= 0xBF && 0x80 <= c <= 0xBF && (a == 0xE0 ==> 0xA0 <= b)
    ensures LeadOf(a) == Three && 0x7FF < Join3(a, b, c) <= 0xFFFF && Split3(Join3(a, b, c)) == [a, b, c]
  {
  }

  lemma SplitJoin4(a: bv8, b: bv8, c: bv8, d: bv8)
    requires 0xF0 <= a <= 0xF4 && 0x80 <= b <= 0xBF && 0x80 <= c <= 0xBF && 0x80 <= d <= 0xBF
    requires (a == 0xF0 ==> 0x90 <= b) && (a == 0xF4 ==> b <= 0x8F)
    ensures LeadOf(a) == Four && 0xFFFF < Join4(a, b, c, d) <= 0x10FFFF && Split4(Join4(a, b, c, d)) == [a, b, c, d]
  {
  }

  lemma PairSplit(hi: bv16, lo: bv16)
    requires IsHigh(hi) && IsLow(lo)
    ensures 0xFFFF < Pair(hi, lo) <= 0x10FFFF && HighOf(Pair(hi, lo)) == hi && LowOf(Pair(hi, lo)) == lo
  {
  }

  lemma SplitPair(cp: bv32)
    requires 0xFFFF < cp <= 0x10FFFF
    ensures IsHigh(HighOf(cp)) && IsLow(LowOf(cp)) && Pair(HighOf(cp), LowOf(cp)) == cp
  {
    Offset(cp);
    HalvesOf(cp - 0x10000);
  }

  lemma HalvesOf(v: bv32)
    requires v <= 0xFFFFF
    ensures IsHigh(TopHalf(v)) && IsLow(BottomHalf(v)) && Pair(TopHalf(v), BottomHalf(v)) == 0x10000 + v
  {
    HighBits(v);
    LowBits(v);
    PairOfHalves(TopHalf(v), BottomHalf(v), v);
  }

  lemma Offset(cp: bv32)
    requires 0xFFFF < cp <= 0x10FFFF
    ensures cp - 0x10000 <= 0xFFFFF && 0x10000 + (cp - 0x10000) == cp
  {
  }

  lemma HighBits(v: bv32)
    requires v <= 0xFFFFF
    ensures TopHalf(v) as bv32 - 0xD800 == v >> 10 && IsHigh(TopHalf(v))
  {
  }

  lemma LowBits(v: bv32)
    ensures BottomHalf(v) as bv32 - 0xDC00 == v & 0x3FF && IsLow(BottomHalf(v))
  {
  }

  lemma CombineHalves(v: bv32)
    requires v <= 0xFFFFF
    ensures Combine(v >> 10, v & 0x3FF) == 0x10000 + v
  {
  }

  lemma PairOfHalves(hi: bv16, lo: bv16, v: bv32)
    requires v <= 0xFFFFF
    requires hi as bv32 - 0xD800 == v >> 10 && lo as bv32 - 0xDC00 == v & 0x3FF
    ensures Pair(hi, lo) == 0x10000 + v
  {
    CombineHalves(v);
  }

  lemma UnitValue(u: bv16)
    ensures u as bv32 <= 0xFFFF && Low16(u as bv32) == u
  {
  }

  lemma WideningInjective(a: bv16, b: bv16)
    requires a as bv32 == b as bv32
    ensures a == b
  {
  }

  lemma UnitOfSmall(cp: bv32)
    requires cp <= 0xFFFF
    ensures Low16(cp) as bv32 == cp
    ensures IsHigh(Low16(cp)) <==> 0xD800 <= cp <= 0xDBFF
    ensures IsLow(Low16(cp)) <==> 0xDC00 <= cp <= 0xDFFF
  {
  }

  // ----- one step against its inverse -------------------------------------------

  /** Reading back what was written for one code point, whatever follows. */
  lemma Head8OfPut8(cp: bv32, rest: seq<bv8>)
    requires cp <= 0x10FFFF
    ensures Head8(Put8(cp) + rest) == Read(cp, |Put8(cp)|)
  {
    hide LeadOf, Join2, Join3, Join4, Split2, Split3, Split4, Low8;
    if cp <= 0x7F {
      JoinSplit1(cp);
    } else if cp <= 0x7FF {
      JoinSplit2(cp);
      Head8Whole(Split2(cp), rest);
    } else if cp <= 0xFFFF {
      JoinSplit3(cp);
      Head8Whole(Split3(cp), rest);
    } else {
      JoinSplit4(cp);
      Head8Whole(Split4(cp), rest);
    }
  }

  /** A whole character is read from its own bytes alone. */
  lemma Head8Whole(b: seq<bv8>, rest: seq<bv8>)
    requires b != [] && |b| == ShapeLen(b[0])
    ensures Head8(b + rest) == Head8(b)
  {
    hide LeadOf, Join2, Join3, Join4;
  }

  /** Writing back what was read from a text, one step. */
  lemma Put16OfHead16(s: seq<bv16>)
    requires s != []
    ensures Head16(s).value <= 0x10FFFF && Put16(Head16(s).value) == s[..Head16(s).len]
  {
    UnitValue(s[0]);
    if IsHigh(s[0]) && 1 < |s| && IsLow(s[1]) {
      PairSplit(s[0], s[1]);
    }
  }

  /** Reading back one UTF-16 step needs a high surrogate not to meet a low one. */
  lemma Head16OfPut16(cp: bv32, rest: seq<bv16>)
    requires cp <= 0x10FFFF
    requires !(0xD800 <= cp <= 0xDBFF && rest != [] && IsLow(rest[0]))
    ensures Head16(Put16(cp) + rest) == Read(cp, |Put16(cp)|)
  {
    hide Head16, Low16, HighOf, LowOf, IsHigh, IsLow, Pair;
    if cp <= 0xFFFF {
      UnitOfSmall(cp);
      OneUnit(Low16(cp), rest);
    } else {
      SplitPair(cp);
      TwoUnits(HighOf(cp), LowOf(cp), rest);
    }
  }

  lemma OneUnit(u: bv16, rest: seq<bv16>)
    requires !(IsHigh(u) && rest != [] && IsLow(rest[0]))
    ensures Head16([u] + rest) == Read(u as bv32, 1)
  {
    assert rest != [] ==> ([u] + rest)[1] == rest[0];
  }

  lemma TwoUnits(hi: bv16, lo: bv16, rest: seq<bv16>)
    requires IsHigh(hi) && IsLow(lo)
    ensures Head16([hi, lo] + rest) == Read(Pair(hi, lo), 2)
  {
    hide Pair;
  }

  /** On the loose grammar one reading step is undone by one writing step. */
  lemma Put8OfHead8(b: seq<bv8>)
    requires LooseLen(b) > 0
    ensures Head8(b).len == LooseLen(b) && Head8(b).value <= 0x10FFFF
    ensures Put8(Head8(b).value) == b[..LooseLen(b)]
  {
    match LooseLen(b) {
      case 1 => Put8OfHead8One(b);
      case 2 => SplitJoin2(b[0], b[1]);
      case 3 => Put8OfHead8Three(b);
      case _ => Put8OfHead8Four(b);
    }
  }

  lemma Put8OfHead8One(b: seq<bv8>)
    requires LooseLen(b) == 1
    ensures Head8(b) == Read(b[0] as bv32, 1) && Put8(b[0] as bv32) == b[..1] && b[0] <= 0x7F
  {
    SmallByte(b[0]);
  }

  lemma SmallByte(c: bv8)
    requires c <= 0x7F
    ensures LeadOf(c) == One && c as bv32 <= 0x7F && Low8(c as bv32) == c
  {
  }

  lemma Put8OfHead8Three(b: seq<bv8>)
    requires LooseLen(b) == 3
    ensures Head8(b).len == 3 && Head8(b).value <= 0xFFFF && Put8(Head8(b).value) == b[..3]
  {
    SplitJoin3(b[0], b[1], b[2]);
  }

  lemma Put8OfHead8Four(b: seq<bv8>)
    requires LooseLen(b) == 4
    ensures Head8(b).len == 4 && 0xFFFF < Head8(b).value <= 0x10FFFF && Put8(Head8(b).value) == b[..4]
  {
    SplitJoin4(b[0], b[1], b[2], b[3]);
  }

  /** What is written for a code point is one character of the loose grammar. */
  lemma LooseLenOfPut8(cp: bv32, rest: seq<bv8>)
    requires cp <= 0x10FFFF
    ensures LooseLen(Put8(cp) + rest) == |Put8(cp)|
    ensures OpensHighSurrogate(Put8(cp) + rest) <==> 0xD800 <= cp <= 0xDBFF
    ensures OpensLowSurrogate(Put8(cp) + rest) <==> 0xDC00 <= cp <= 0xDFFF
  {
    if cp <= 0x7F {
      JoinSplit1(cp);
    } else if cp <= 0x7FF {
      LooseLenOfSplit2(cp, rest);
    } else if cp <= 0xFFFF {
      LooseLenOfSplit3(cp, rest);
    } else {
      LooseLenOfSplit4(cp, rest);
    }
  }

  lemma LooseLenOfSplit2(cp: bv32, rest: seq<bv8>)
    requires 0x7F < cp <= 0x7FF
    ensures LooseLen(Split2(cp) + rest) == 2
    ensures !OpensHighSurrogate(Split2(cp) + rest) && !OpensLowSurrogate(Split2(cp) + rest)
  {
    JoinSplit2(cp);
  }

  lemma LooseLenOfSplit3(cp: bv32, rest: seq<bv8>)
    requires 0x7FF < cp <= 0xFFFF
    ensures LooseLen(Split3(cp) + rest) == 3
    ensures OpensHighSurrogate(Split3(cp) + rest) <==> 0xD800 <= cp <= 0xDBFF
    ensures OpensLowSurrogate(Split3(cp) + rest) <==> 0xDC00 <= cp <= 0xDFFF
  {
    JoinSplit3(cp);
    Split3Ranges(cp);
  }

  lemma LooseLenOfSplit4(cp: bv32, rest: seq<bv8>)
    requires 0xFFFF < cp <= 0x10FFFF
    ensures LooseLen(Split4(cp) + rest) == 4
    ensures !OpensHighSurrogate(Split4(cp) + rest) && !OpensLowSurrogate(Split4(cp) + rest)
  {
    JoinSplit4(cp);
    Split4Ranges(cp);
  }

  /** Which loose characters are surrogates, told from the value read. */
  lemma SurrogateHead8(b: seq<bv8>)
    requires LooseLen(b) > 0
    ensures OpensHighSurrogate(b) <==> 0xD800 <= Head8(b).value <= 0xDBFF
    ensures OpensLowSurrogate(b) <==> 0xDC00 <= Head8(b).value <= 0xDFFF
    ensures AbnfLen(b) > 0 <==> IsScalar(Head8(b).value)
    ensures AbnfLen(b) > 0 ==> AbnfLen(b) == LooseLen(b)
  {
    var cp := Head8(b).value;
    Put8OfHead8(b);
    LooseLenOfPut8(cp, b[LooseLen(b)..]);
    assert b == Put8(cp) + b[LooseLen(b)..];
  }

  // ----- shapes -----------------------------------------------------------------

  lemma EmptyShaped()
    ensures Shaped([])
  {
    var none: seq<seq<bv8>> := [];
    assert Concat(none) == [];
  }

  predicate OpensShape(b: seq<bv8>)
    requires b != []
  {
    0 < ShapeLen(b[0]) <= |b| && forall k | 1 <= k < ShapeLen(b[0]) :: IsTail(b[k])
  }

  /** Shapes can be peeled off from the front: the first one is forced by the lead byte. */
  lemma ShapedByHead(b: seq<bv8>)
    requires b != []
    ensures Shaped(b) <==> OpensShape(b) && Shaped(b[ShapeLen(b[0])..])
  {
    hide ShapeLen, IsTail;
    if Shaped(b) {
      var chunks :| AllShapes(chunks) && Concat(chunks) == b;
      PeelShape(chunks);
    }
    if OpensShape(b) && Shaped(b[ShapeLen(b[0])..]) {
      var n := ShapeLen(b[0]);
      var chunks :| AllShapes(chunks) && Concat(chunks) == b[n..];
      PushShape(b[..n], chunks);
      assert b == b[..n] + b[n..];
    }
  }

  lemma PeelShape(chunks: seq<seq<bv8>>)
    requires AllShapes(chunks) && Concat(chunks) != []
    ensures var b := Concat(chunks); OpensShape(b) && Shaped(b[ShapeLen(b[0])..])
  {
    hide ShapeLen, IsTail;
    var c, rest := chunks[0], chunks[1..];
    assert IsShape(c) && AllShapes(rest);
    var b := Concat(chunks);
    assert b == c + Concat(rest);
    assert b[0] == c[0] && b[|c|..] == Concat(rest);
    assert forall k | 1 <= k < |c| :: b[k] == c[k];
  }

  lemma PushShape(c: seq<bv8>, chunks: seq<seq<bv8>>)
    requires IsShape(c) && AllShapes(chunks)
    ensures Shaped(c + Concat(chunks))
  {
    hide IsShape;
    var all := [c] + chunks;
    assert all[1..] == chunks;
    assert Concat(all) == c + Concat(chunks);
  }
}
