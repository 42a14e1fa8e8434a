/**
 What the UTF-8 reader and the UTF-16 reader promise together, over whole texts:
 which texts survive the trip there and back, how they compare with the Unicode
 encoding forms, and how long their results can be.
 */
module TextLaws {
  import opened Utf

  // ----- UTF-16 first -----------------------------------------------------------

  /** Every UTF-16 text comes back unchanged, lone surrogates included. */
  lemma {:induction false} UnitsOfBytes(s: seq<bv16>)
    ensures Units(Bytes(s)) == s
  {
    if s != [] {
      var h := Head16(s);
      var rest := Bytes(s[h.len..]);
      Put16OfHead16(s);
      Head8OfPut8(h.value, rest);
      assert (Put8(h.value) + rest)[|Put8(h.value)|..] == rest;
      UnitsOfBytes(s[h.len..]);
    }
  }

  /** Hence two different UTF-16 texts never share a UTF-8 form. */
  lemma BytesInjective(s: seq<bv16>, t: seq<bv16>)
    requires Bytes(s) == Bytes(t)
    ensures s == t
  {
    UnitsOfBytes(s);
    UnitsOfBytes(t);
  }

  // ----- bytes first ------------------------------------------------------------

  /** Cleaning a byte string twice is cleaning it once. */
  lemma CleaningIdempotent(b: seq<bv8>)
    ensures Bytes(Units(Bytes(Units(b)))) == Bytes(Units(b))
  {
    UnitsOfBytes(Units(b));
  }

  /** A byte string survives the trip through UTF-16 exactly when it is loose UTF-8. */
  lemma BytesOfUnitsIff(b: seq<bv8>)
    ensures Bytes(Units(b)) == b <==> Loose(b)
  {
    if Loose(b) {
      BytesOfUnits(b);
    }
    BytesAreLoose(Units(b));
  }

  lemma {:induction false} BytesOfUnits(b: seq<bv8>)
    requires Loose(b)
    ensures Bytes(Units(b)) == b
    decreases |b|
  {
    hide Head8, Put8, Put16, AbnfLen, OpensHighSurrogate, OpensLowSurrogate;
    if b != [] {
      var n := LooseLen(b);
      var cp := Head8(b).value;
      var rest := Units(b[n..]);
      Put8OfHead8(b);
      SurrogateHead8(b);
      FirstUnitLow(b[n..]);
      Head16OfPut16(cp, rest);
      assert (Put16(cp) + rest)[|Put16(cp)|..] == rest;
      BytesOfUnits(b[n..]);
    }
  }

  /** The first unit read from loose UTF-8 is a low surrogate only if the bytes open with one. */
  lemma FirstUnitLow(b: seq<bv8>)
    requires Loose(b)
    ensures Units(b) != [] && IsLow(Units(b)[0]) ==> OpensLowSurrogate(b)
  {
    if b != [] {
      var cp := Head8(b).value;
      Put8OfHead8(b);
      SurrogateHead8(b);
      assert Units(b)[0] == Put16(cp)[0];
      if cp <= 0xFFFF {
        UnitOfSmall(cp);
      } else {
        SplitPair(cp);
        assert IsHigh(Units(b)[0]);
      }
    }
  }

  lemma {:induction false} BytesAreLoose(s: seq<bv16>)
    ensures Loose(Bytes(s))
  {
    if s != [] {
      var h := Head16(s);
      var rest := Bytes(s[h.len..]);
      Put16OfHead16(s);
      LooseLenOfPut8(h.value, rest);
      assert (Put8(h.value) + rest)[|Put8(h.value)|..] == rest;
      BytesAreLoose(s[h.len..]);
      if OpensHighSurrogate(Put8(h.value) + rest) {
        LoneHigh(s);
        FirstBytesLow(s[1..]);
      }
    }
  }

  /** A high surrogate read as itself stands before something other than a low one. */
  lemma LoneHigh(s: seq<bv16>)
    requires s != [] && 0xD800 <= Head16(s).value <= 0xDBFF
    ensures Head16(s).len == 1 && |Put8(Head16(s).value)| == 3
    ensures |s| > 1 ==> !IsLow(s[1])
  {
    UnitValue(s[0]);
    if IsHigh(s[0]) && 1 < |s| && IsLow(s[1]) {
      PairSplit(s[0], s[1]);
    }
  }

  lemma FirstBytesLow(s: seq<bv16>)
    requires s != [] ==> !IsLow(s[0])
    ensures !OpensLowSurrogate(Bytes(s))
  {
    if s != [] {
      var h := Head16(s);
      Put16OfHead16(s);
      NotLow(s);
      LooseLenOfPut8(h.value, Bytes(s[h.len..]));
    }
  }

  lemma NotLow(s: seq<bv16>)
    requires s != [] && !IsLow(s[0])
    ensures !(0xDC00 <= Head16(s).value <= 0xDFFF)
  {
    if IsHigh(s[0]) && 1 < |s| && IsLow(s[1]) {
      PairSplit(s[0], s[1]);
    }
  }

  /** What the UTF-16 reader writes always passes the platform's validity test. */
  lemma BytesAreShaped(s: seq<bv16>)
    ensures Shaped(Bytes(s))
  {
    BytesAreLoose(s);
    LooseIsShaped(Bytes(s));
  }

  lemma {:induction false} LooseIsShaped(b: seq<bv8>)
    requires Loose(b)
    ensures Shaped(b)
    decreases |b|
  {
    hide LooseLen;
    if b == [] {
      EmptyShaped();
    } else {
      LooseIsShaped(b[LooseLen(b)..]);
      LooseOpensShape(b);
      ShapedByHead(b);
    }
  }

  lemma LooseOpensShape(b: seq<bv8>)
    requires LooseLen(b) > 0
    ensures LooseLen(b) == ShapeLen(b[0]) && OpensShape(b)
  {
    hide LeadOf, IsTail;
    LeadRanges(b[0]);
    forall k | 1 <= k < LooseLen(b)
      ensures IsTail(b[k])
    {
      TailRange(b[k]);
    }
  }

  lemma LeadRanges(c: bv8)
    ensures c <= 0x7F ==> LeadOf(c) == One
    ensures 0xC2 <= c <= 0xDF ==> LeadOf(c) == Two
    ensures 0xE0 <= c <= 0xEF ==> LeadOf(c) == Three
    ensures 0xF0 <= c <= 0xF4 ==> LeadOf(c) == Four
  {
  }

  lemma TailRange(c: bv8)
    ensures IsTail(c) <==> 0x80 <= c <= 0xBF
  {
  }

  /** That test is about shapes only: the overlong form of U+0000 passes it. */
  lemma OverlongPassesTheTest()
    ensures Shaped([0xC0, 0x80]) && !WellFormed([0xC0, 0x80])
    ensures Bytes(Units([0xC0, 0x80])) == [0]
  {
    var b: seq<bv8> := [0xC0, 0x80];
    EmptyShaped();
    assert b[2..] == [];
    ShapedByHead(b);
    assert Head8(b) == Read(0, 2);
    assert Units(b) == [0] by {
      assert Units(b[2..]) == [];
    }
    assert Head16([0]) == Read(0, 1);
  }

  // ----- against the Unicode encoding forms -------------------------------------

  /** On the UTF-8 form of scalar values both converters are the standard ones. */
  lemma {:induction false} ScalarTexts(cps: seq<bv32>)
    requires AllScalar(cps)
    ensures Units(Utf8(cps)) == Utf16(cps)
    ensures Bytes(Utf16(cps)) == Utf8(cps)
    ensures WellFormed(Utf8(cps))
  {
    if cps != [] {
      var cp, rest8, rest16 := cps[0], Utf8(cps[1..]), Utf16(cps[1..]);
      ScalarTexts(cps[1..]);
      Head8OfPut8(cp, rest8);
      assert (Put8(cp) + rest8)[|Put8(cp)|..] == rest8;
      Head16OfPut16(cp, rest16);
      assert (Put16(cp) + rest16)[|Put16(cp)|..] == rest16;
      LooseLenOfPut8(cp, rest8);
      SurrogateHead8(Put8(cp) + rest8);
    }
  }

  /** The scalar values a well-formed byte string spells. */
  function Scalars(b: seq<bv8>): (cps: seq<bv32>)
    requires WellFormed(b)
  {
    if b == [] then [] else [Head8(b).value] + Scalars(b[AbnfLen(b)..])
  }

  lemma {:induction false} Utf8OfScalars(b: seq<bv8>)
    requires WellFormed(b)
    ensures AllScalar(Scalars(b)) && Utf8(Scalars(b)) == b
  {
    if b != [] {
      var cp, rest := Head8(b).value, b[AbnfLen(b)..];
      Utf8OfScalars(rest);
      assert IsScalar(cp) && b == Put8(cp) + rest by {
        ScalarHead(b);
      }
      assert Scalars(b)[1..] == Scalars(rest);
    }
  }

  lemma ScalarHead(b: seq<bv8>)
    requires AbnfLen(b) > 0
    ensures IsScalar(Head8(b).value) && b == Put8(Head8(b).value) + b[AbnfLen(b)..]
  {
    Put8OfHead8(b);
    SurrogateHead8(b);
    assert b == b[..AbnfLen(b)] + b[AbnfLen(b)..];
  }

  /** The grammar of RFC 3629 section 4 holds exactly the UTF-8 forms of scalar values. */
  lemma WellFormedIff(b: seq<bv8>)
    ensures WellFormed(b) <==> exists cps :: AllScalar(cps) && Utf8(cps) == b
  {
    if WellFormed(b) {
      Utf8OfScalars(b);
    }
    forall cps | AllScalar(cps) && Utf8(cps) == b
      ensures WellFormed(b)
    {
      ScalarTexts(cps);
    }
  }

  /** On well-formed input the reader yields the UTF-16 of its scalar values, and the bytes come back. */
  lemma WellFormedRoundTrip(b: seq<bv8>)
    requires WellFormed(b)
    ensures Units(b) == Utf16(Scalars(b)) && Bytes(Units(b)) == b
  {
    Utf8OfScalars(b);
    ScalarTexts(Scalars(b));
  }

  /** Section 2.1 of RFC 2781, read as a relation between a scalar value and its units. */
  predicate SpellsInUtf16(cp: bv32, u: seq<bv16>) {
    if cp <= 0xFFFF then |u| == 1 && u[0] as bv32 == cp
    else |u| == 2 && IsHigh(u[0]) && IsLow(u[1]) && cp == Combine(u[0] as bv32 - 0xD800, u[1] as bv32 - 0xDC00)
  }

  lemma Put16Spells(cp: bv32)
    requires cp <= 0x10FFFF
    ensures SpellsInUtf16(cp, Put16(cp))
  {
    if cp <= 0xFFFF {
      UnitOfSmall(cp);
    } else {
      SplitPair(cp);
    }
  }

  lemma SpellingUnique(cp: bv32, u: seq<bv16>, v: seq<bv16>)
    requires SpellsInUtf16(cp, u) && SpellsInUtf16(cp, v)
    ensures u == v
  {
    if cp <= 0xFFFF {
      WideningInjective(u[0], v[0]);
    } else {
      PairSplit(u[0], u[1]);
      PairSplit(v[0], v[1]);
    }
  }

  // ----- shapes against the grammar ---------------------------------------------

  /** Each character read is a scalar value, in its shortest form. */
  predicate ScalarsInShortForm(b: seq<bv8>)
    decreases |b|
  {
    b == []
    || (var h := Head8(b); IsScalar(h.value) && |Put8(h.value)| == h.len && ScalarsInShortForm(b[h.len..]))
  }

  /**
   Of the byte strings the validity test accepts, exactly those are well-formed in which every
   character is a scalar value in its shortest form.
   */
  lemma {:induction false} WellFormedShapesIff(b: seq<bv8>)
    requires Shaped(b)
    ensures WellFormed(b) <==> ScalarsInShortForm(b)
    decreases |b|
  {
    hide Head8, Put8, AbnfLen, OpensShape, ShapeLen, IsScalar;
    if b != [] {
      ShapedByHead(b);
      OneShapeIff(b);
      WellFormedShapesIff(b[ShapeLen(b[0])..]);
    }
  }

  lemma WellFormedIsShaped(b: seq<bv8>)
    requires WellFormed(b)
    ensures Shaped(b)
  {
    WellFormedRoundTrip(b);
    BytesAreShaped(Units(b));
  }

  /** The same, for the first character. */
  lemma OneShapeIff(b: seq<bv8>)
    requires b != [] && OpensShape(b)
    ensures Head8(b).len == ShapeLen(b[0])
    ensures AbnfLen(b) > 0 <==> IsScalar(Head8(b).value) && |Put8(Head8(b).value)| == Head8(b).len
    ensures AbnfLen(b) > 0 ==> AbnfLen(b) == Head8(b).len
  {
    hide LeadOf, IsTail, Join2, Join3, Join4, AbnfLen, LooseLen, Split2, Split3, Split4;
    assert forall k | 1 <= k < ShapeLen(b[0]) :: IsTail(b[k]);
    if AbnfLen(b) > 0 {
      AbnfIsLoose(b);
      Put8OfHead8(b);
      SurrogateHead8(b);
    }
    if IsScalar(Head8(b).value) && |Put8(Head8(b).value)| == Head8(b).len {
      match LeadOf(b[0])
      case One => OneInGrammar(b);
      case Two => TwoInGrammar(b);
      case Three => ThreeInGrammar(b);
      case Four => FourInGrammar(b);
      case Bad =>
    }
  }

  lemma AbnfIsLoose(b: seq<bv8>)
    requires AbnfLen(b) > 0
    ensures LooseLen(b) > 0
  {
  }

  lemma OneInGrammar(b: seq<bv8>)
    requires b != [] && LeadOf(b[0]) == One
    ensures AbnfLen(b) > 0
  {
  }

  lemma TwoInGrammar(b: seq<bv8>)
    requires |b| >= 2 && LeadOf(b[0]) == Two && IsTail(b[1]) && Join2(b[0], b[1]) > 0x7F
    ensures AbnfLen(b) > 0
  {
    hide LeadOf, IsTail, Join2;
    TailRange(b[1]);
    LongJoin2(b[0], b[1]);
  }

  lemma LongJoin2(a: bv8, b: bv8)
    requires LeadOf(a) == Two && Join2(a, b) > 0x7F
    ensures 0xC2 <= a <= 0xDF
  {
  }

  lemma ThreeInGrammar(b: seq<bv8>)
    requires |b| >= 3 && LeadOf(b[0]) == Three && IsTail(b[1]) && IsTail(b[2])
    requires Join3(b[0], b[1], b[2]) > 0x7FF && IsScalar(Join3(b[0], b[1], b[2]))
    ensures AbnfLen(b) > 0
  {
    hide LeadOf, IsTail, Join3, IsScalar;
    TailRange(b[1]);
    TailRange(b[2]);
    LongJoin3(b[0], b[1], b[2]);
  }

  lemma LongJoin3(a: bv8, b: bv8, c: bv8)
    requires LeadOf(a) == Three && 0x80 <= b <= 0xBF && Join3(a, b, c) > 0x7FF && IsScalar(Join3(a, b, c))
    ensures 0xE0 <= a <= 0xEF && (a == 0xE0 ==> 0xA0 <= b) && (a == 0xED ==> b <= 0x9F)
  {
  }

  lemma FourInGrammar(b: seq<bv8>)
    requires |b| >= 4 && LeadOf(b[0]) == Four && IsTail(b[1]) && IsTail(b[2]) && IsTail(b[3])
    requires 0xFFFF < Join4(b[0], b[1], b[2], b[3]) <= 0x10FFFF
    ensures AbnfLen(b) > 0
  {
    hide LeadOf, IsTail, Join4;
    TailRange(b[1]);
    TailRange(b[2]);
    TailRange(b[3]);
    LongJoin4(b[0], b[1], b[2], b[3]);
  }

  lemma LongJoin4(a: bv8, b: bv8, c: bv8, d: bv8)
    requires LeadOf(a) == Four && 0x80 <= b <= 0xBF && 0xFFFF < Join4(a, b, c, d) <= 0x10FFFF
    ensures 0xF0 <= a <= 0xF4 && (a == 0xF0 ==> 0x90 <= b) && (a == 0xF4 ==> b <= 0x8F)
  {
  }

  // ----- every byte string, case by case -----------------------------------------

  /** A byte that opens nothing, or more than there is, becomes one U+FFFD; the byte after it is read next. */
  lemma UnitsOfBroken(b: seq<bv8>)
    requires b != [] && (ShapeLen(b[0]) == 0 || |b| < ShapeLen(b[0]))
    ensures Units(b) == [0xFFFD] + Units(b[1..])
  {
    hide LeadOf, Join2, Join3, Join4;
    assert Head8(b) == Read(0xFFFD, 1);
    assert Low16(0xFFFD) == 0xFFFD;
  }

  /** Any other byte is read together with those it announces; a value no plane has becomes one U+FFFD. */
  lemma UnitsOfWhole(b: seq<bv8>)
    requires b != [] && 0 < ShapeLen(b[0]) <= |b|
    ensures exists u ::
      && (if Payload(b) <= 0x10FFFF then SpellsInUtf16(Payload(b), u) else u == [0xFFFD])
      && Units(b) == u + Units(b[ShapeLen(b[0])..])
  {
    hide LeadOf, Join2, Join3, Join4, SpellsInUtf16, IsHigh, IsLow;
    assert Head8(b) == Read(Payload(b), ShapeLen(b[0]));
    if Payload(b) <= 0x10FFFF {
      Put16Spells(Payload(b));
    }
    assert Units(b) == Put16(Payload(b)) + Units(b[ShapeLen(b[0])..]);
  }

  /** The Latin-1 bytes of "caf\u00e9": the last byte announces three and is alone. */
  lemma CutTextGetsReplacement()
    ensures Units([0x63, 0x61, 0x66, 0xE9]) == [0x63, 0x61, 0x66, 0xFFFD]
  {
    var b: seq<bv8> := [0x63, 0x61, 0x66, 0xE9];
    UnitsOfBroken(b[3..]);
    assert Units(b[3..][1..]) == [];
    assert b[2..][1..] == b[3..] && b[1..][1..] == b[2..];
    assert Head8(b[2..]) == Read(0x66, 1) && Head8(b[1..]) == Read(0x61, 1) && Head8(b) == Read(0x63, 1);
  }

  // ----- lengths ----------------------------------------------------------------

  /** `n` bytes never need more than `n` units. */
  lemma {:induction false} UnitsBound(b: seq<bv8>)
    ensures |Units(b)| <= |b|
  {
    if b != [] {
      var h := Head8(b);
      UnitsBound(b[h.len..]);
      if h.len < 4 {
        assert h.value <= 0xFFFF by {
          SmallHead8(b);
        }
      }
    }
  }

  lemma SmallHead8(b: seq<bv8>)
    requires b != [] && Head8(b).len < 4
    ensures Head8(b).value <= 0xFFFF
  {
    hide LeadOf, Join2, Join3;
    if LeadOf(b[0]) == Two && |b| >= 2 {
      Join2Bound(b[0], b[1]);
    } else if LeadOf(b[0]) == Three && |b| >= 3 {
      Join3Bound(b[0], b[1], b[2]);
    }
  }

  /** `n` units never need more than `3 n` bytes. */
  lemma {:induction false} BytesBound(s: seq<bv16>)
    ensures |Bytes(s)| <= 3 * |s|
  {
    if s != [] {
      BytesBound(s[Head16(s).len..]);
      UnitValue(s[0]);
    }
  }
}
