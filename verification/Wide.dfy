/**
 The two pairs of converters between UTF-8 and 32-bit wide strings: the platform
 layer's (`Utf8ToWide`, `WideToUtf8`) and the shared utility's (`Utf8ToWstring`,
 `WstringToUtf8`). They differ at a cut four-byte sequence and beyond U+10FFFF, and
 neither reads a four-byte sequence back.
 */
module Wide {
  import opened Utf

  /** `wc <= k` on a signed 32-bit `wchar_t`, for a non-negative `k`. */
  predicate AtMost(wc: bv32, k: bv32) { wc <= k || 0x8000_0000 <= wc }

  /** The platform reader's step: a four-byte lead skips four bytes, even past the end. */
  function HeadWide(b: seq<bv8>): (r: Read)
    requires b != []
    ensures 1 <= r.len <= 4
  {
    match LeadOf(b[0])
    case One => Read(b[0] as bv32, 1)
    case Two => if |b| < 2 then Read(QUESTION, 1) else Read(Join2(b[0], b[1]), 2)
    case Three => if |b| < 3 then Read(QUESTION, 1) else Read(Join3(b[0], b[1], b[2]), 3)
    case Four => Read(REPLACEMENT, 4)
    case Bad => Read(QUESTION, 1)
  }

  /** The utility reader's step: as above, but a cut four-byte sequence costs one byte. */
  function HeadWstring(b: seq<bv8>): (r: Read)
    requires b != []
    ensures 1 <= r.len <= |b|
  {
    if LeadOf(b[0]) == Four && |b| < 4 then Read(QUESTION, 1) else HeadWide(b)
  }

  function Skip(b: seq<bv8>, n: nat): (r: seq<bv8>)
    ensures |r| == if n <= |b| then |b| - n else 0
  {
    if n <= |b| then b[n..] else []
  }

  function WideOf(b: seq<bv8>): seq<bv32>
    decreases |b|
  {
    if b == [] then [] else [HeadWide(b).value] + WideOf(Skip(b, HeadWide(b).len))
  }

  function WstringOf(b: seq<bv8>): seq<bv32> {
    if b == [] then [] else [HeadWstring(b).value] + WstringOf(b[HeadWstring(b).len..])
  }

  /** The platform writer's step; values past U+10FFFF still give four bytes. */
  function PutWide(wc: bv32): (r: seq<bv8>)
    ensures 1 <= |r| <= 4
  {
    if AtMost(wc, 0x7F) then [Low8(wc)]
    else if AtMost(wc, 0x7FF) then Split2(wc)
    else if AtMost(wc, 0xFFFF) then Split3(wc)
    else Split4(wc)
  }

  /** The utility writer's step; values past U+10FFFF are dropped. */
  function PutWstring(wc: bv32): (r: seq<bv8>)
  {
    if AtMost(wc, 0x10FFFF) then PutWide(wc) else []
  }

  function BytesOfWide(w: seq<bv32>): seq<bv8> {
    if w == [] then [] else PutWide(w[0]) + BytesOfWide(w[1..])
  }

  function BytesOfWstring(w: seq<bv32>): seq<bv8> {
    if w == [] then [] else PutWstring(w[0]) + BytesOfWstring(w[1..])
  }

  // ----- the two readers --------------------------------------------------------

  /** Reading meets a four-byte lead with fewer than three bytes after it. */
  predicate MeetsCutFour(b: seq<bv8>) {
    b != [] && ((LeadOf(b[0]) == Four && |b| < 4) || MeetsCutFour(b[HeadWstring(b).len..]))
  }

  lemma {:induction false} ReadersAgreeIff(b: seq<bv8>)
    ensures WideOf(b) == WstringOf(b) <==> !MeetsCutFour(b)
  {
    if b != [] {
      if LeadOf(b[0]) == Four && |b| < 4 {
        assert WideOf(b)[0] == REPLACEMENT && WstringOf(b)[0] == QUESTION;
      } else {
        var rest := b[HeadWide(b).len..];
        ReadersAgreeIff(rest);
        assert WideOf(b)[1..] == WideOf(rest) && WstringOf(b)[1..] == WstringOf(rest);
      }
    }
  }

  /** On a byte string made of whole shapes the two readers agree. */
  lemma ReadersAgreeOnShapes(b: seq<bv8>)
    requires Shaped(b)
    ensures WideOf(b) == WstringOf(b)
  {
    var chunks :| AllShapes(chunks) && Concat(chunks) == b;
    ShapesNeverCut(chunks);
    ReadersAgreeIff(b);
  }

  lemma {:induction false} ShapesNeverCut(chunks: seq<seq<bv8>>)
    requires AllShapes(chunks)
    ensures !MeetsCutFour(Concat(chunks))
  {
    if chunks != [] {
      ShapesNeverCut(chunks[1..]);
      var b := Concat(chunks);
      assert b[0] == chunks[0][0];
      assert HeadWstring(b).len == |chunks[0]|;
      assert b[|chunks[0]|..] == Concat(chunks[1..]);
    }
  }

  /** A byte that opens nothing, or two or three bytes that are not there, is one question mark to both. */
  lemma BothReadBroken(b: seq<bv8>)
    requires b != [] && ShapeLen(b[0]) != 4 && (ShapeLen(b[0]) == 0 || |b| < ShapeLen(b[0]))
    ensures WideOf(b) == [0x3F] + WideOf(b[1..]) && WstringOf(b) == [0x3F] + WstringOf(b[1..])
  {
    hide LeadOf, Join2, Join3;
    assert HeadWide(b) == HeadWstring(b) == Read(0x3F, 1);
  }

  /** Up to three bytes that are there are read for their payload by both. */
  lemma BothReadPayload(b: seq<bv8>)
    requires b != [] && 0 < ShapeLen(b[0]) <= |b| && ShapeLen(b[0]) != 4
    ensures WideOf(b) == [Payload(b)] + WideOf(b[ShapeLen(b[0])..])
    ensures WstringOf(b) == [Payload(b)] + WstringOf(b[ShapeLen(b[0])..])
  {
    hide LeadOf, Join2, Join3, Join4;
    assert HeadWide(b) == HeadWstring(b) == Read(Payload(b), ShapeLen(b[0]));
  }

  /** Four bytes are U+FFFD to both, whatever they spell; of a cut four the two make different things. */
  lemma BothReadFour(b: seq<bv8>)
    requires b != [] && ShapeLen(b[0]) == 4
    ensures |b| >= 4 ==> WideOf(b) == [0xFFFD] + WideOf(b[4..]) && WstringOf(b) == [0xFFFD] + WstringOf(b[4..])
    ensures |b| < 4 ==> WideOf(b) == [0xFFFD] && WstringOf(b) == [0x3F] + WstringOf(b[1..])
  {
    hide LeadOf;
    assert HeadWide(b) == Read(0xFFFD, 4);
    assert |b| < 4 ==> HeadWstring(b) == Read(0x3F, 1) && WideOf(Skip(b, 4)) == [];
  }

  // ----- the two writers --------------------------------------------------------

  lemma {:induction false} WritersAgreeIff(w: seq<bv32>)
    ensures BytesOfWide(w) == BytesOfWstring(w) <==> forall k | 0 <= k < |w| :: AtMost(w[k], 0x10FFFF)
    ensures |BytesOfWstring(w)| <= |BytesOfWide(w)| <= 4 * |w|
    ensures |BytesOfWstring(w)| == |BytesOfWide(w)| ==> forall k | 0 <= k < |w| :: AtMost(w[k], 0x10FFFF)
  {
    if w != [] {
      WritersAgreeIff(w[1..]);
      assert forall k | 0 <= k < |w[1..]| :: w[1..][k] == w[k + 1];
      if forall k | 0 <= k < |w| :: AtMost(w[k], 0x10FFFF) {
        assert forall k | 0 <= k < |w[1..]| :: AtMost(w[1..][k], 0x10FFFF);
      } else if AtMost(w[0], 0x10FFFF) {
        assert exists k | 0 <= k < |w[1..]| :: !AtMost(w[1..][k], 0x10FFFF) by {
          var k :| 0 <= k < |w| && !AtMost(w[k], 0x10FFFF);
          assert !AtMost(w[1..][k - 1], 0x10FFFF);
        }
      }
    }
  }

  /** On Unicode text both writers are the standard one. */
  lemma {:induction false} WritersAreStandard(w: seq<bv32>)
    requires forall k | 0 <= k < |w| :: w[k] <= 0x10FFFF
    ensures BytesOfWide(w) == BytesOfWstring(w) == Utf8(w)
  {
    hide Split2, Split3, Split4, Low8;
    if w != [] {
      WritersAreStandard(w[1..]);
    }
  }

  /** Beyond it the platform's writer spells the low 18 bits in three bytes behind whatever bits are left. */
  lemma PutWideBeyond(wc: bv32)
    requires 0x10FFFF < wc < 0x8000_0000
    ensures var b := PutWide(wc);
      && |b| == 4 && IsTail(b[1]) && IsTail(b[2]) && IsTail(b[3])
      && Join4(0xF0, b[1], b[2], b[3]) == wc & 0x3FFFF
      && b[0] as bv32 == 0xF0 | ((wc >> 18) & 0xFF)
    ensures var b := PutWide(wc); wc <= 0x1FFFFF ==> LeadOf(b[0]) == Four && Join4(b[0], b[1], b[2], b[3]) == wc
  {
    hide Split4, Join4, LeadOf, IsTail;
    SplitBeyond(wc);
    if wc <= 0x1FFFFF {
      SplitWide(wc);
    }
  }

  lemma SplitBeyond(wc: bv32)
    ensures var b := Split4(wc);
      && IsTail(b[1]) && IsTail(b[2]) && IsTail(b[3])
      && Join4(0xF0, b[1], b[2], b[3]) == wc & 0x3FFFF
      && b[0] as bv32 == 0xF0 | ((wc >> 18) & 0xFF)
  {
    hide Low8, IsTail, LeadOf, Join4;
    TailOf(wc >> 12);
    TailOf(wc >> 6);
    TailOf(wc);
    LeadBits(wc >> 18);
    var b := Split4(wc);
    JoinOfTails(wc, b[1], b[2], b[3]);
  }

  lemma JoinOfTails(wc: bv32, x: bv8, y: bv8, z: bv8)
    requires (x & 0x3F) as bv32 == (wc >> 12) & 0x3F
    requires (y & 0x3F) as bv32 == (wc >> 6) & 0x3F
    requires (z & 0x3F) as bv32 == wc & 0x3F
    ensures Join4(0xF0, x, y, z) == wc & 0x3FFFF
  {
    SixBits(wc);
    assert Join4(0xF0, x, y, z) == (((wc >> 12) & 0x3F) << 12) | (((wc >> 6) & 0x3F) << 6) | (wc & 0x3F) by {
      JoinNoLead(x, y, z);
    }
  }

  lemma JoinNoLead(x: bv8, y: bv8, z: bv8)
    ensures Join4(0xF0, x, y, z) == (((x & 0x3F) as bv32) << 12) | (((y & 0x3F) as bv32) << 6) | ((z & 0x3F) as bv32)
  {
  }

  lemma TailOf(x: bv32)
    ensures var c := Low8(0x80 | (x & 0x3F)); IsTail(c) && (c & 0x3F) as bv32 == x & 0x3F
  {
  }

  lemma SixBits(wc: bv32)
    ensures (((wc >> 12) & 0x3F) << 12) | (((wc >> 6) & 0x3F) << 6) | (wc & 0x3F) == wc & 0x3FFFF
  {
  }

  lemma LeadBits(x: bv32)
    ensures Low8(0xF0 | x) as bv32 == 0xF0 | (x & 0xFF)
  {
  }

  /** Below 2^21 the lead byte still has room for the rest. */
  lemma SplitWide(wc: bv32)
    requires 0x10FFFF < wc <= 0x1FFFFF
    ensures var b := Split4(wc); LeadOf(b[0]) == Four && Join4(b[0], b[1], b[2], b[3]) == wc
  {
  }

  /** A negative `wchar_t` is cut to its lowest byte by both. */
  lemma PutWideNegative(wc: bv32)
    requires 0x8000_0000 <= wc
    ensures |PutWide(wc)| == 1 && PutWide(wc)[0] as bv32 == wc & 0xFF
    ensures PutWstring(wc) == PutWide(wc)
  {
  }

  // ----- there and back ---------------------------------------------------------

  /** A wide string comes back through UTF-8 exactly when it stays in the basic plane. */
  lemma WideRoundTripIff(w: seq<bv32>)
    ensures WideOf(BytesOfWide(w)) == w <==> forall k | 0 <= k < |w| :: w[k] <= 0xFFFF
  {
    if forall k | 0 <= k < |w| :: w[k] <= 0xFFFF {
      BasicPlaneRoundTrip(w);
    }
    WideOfIsBasic(BytesOfWide(w));
  }

  /** Neither reader ever yields a value beyond the basic plane. */
  lemma {:induction false} WideOfIsBasic(b: seq<bv8>)
    ensures forall k | 0 <= k < |WideOf(b)| :: WideOf(b)[k] <= 0xFFFF
    decreases |b|
  {
    if b != [] {
      HeadWideIsBasic(b);
      WideOfIsBasic(Skip(b, HeadWide(b).len));
    }
  }

  lemma HeadWideIsBasic(b: seq<bv8>)
    requires b != []
    ensures HeadWide(b).value <= 0xFFFF
  {
    if LeadOf(b[0]) == Two && |b| >= 2 {
      Join2Bound(b[0], b[1]);
    } else if LeadOf(b[0]) == Three && |b| >= 3 {
      Join3Bound(b[0], b[1], b[2]);
    } else if LeadOf(b[0]) == One {
      ByteIsBasic(b[0]);
    }
  }

  lemma ByteIsBasic(a: bv8)
    ensures a as bv32 <= 0xFFFF
  {
  }

  lemma {:induction false} BasicPlaneRoundTrip(w: seq<bv32>)
    requires forall k | 0 <= k < |w| :: w[k] <= 0xFFFF
    ensures WideOf(BytesOfWide(w)) == w
    ensures BytesOfWide(w) == Utf8(w)
  {
    if w != [] {
      var rest := BytesOfWide(w[1..]);
      BasicPlaneRoundTrip(w[1..]);
      PutWideBasic(w[0], rest);
      assert (PutWide(w[0]) + rest)[|PutWide(w[0])|..] == rest;
    }
  }

  lemma PutWideBasic(wc: bv32, rest: seq<bv8>)
    requires wc <= 0xFFFF
    ensures PutWide(wc) == Put8(wc)
    ensures HeadWide(PutWide(wc) + rest) == Read(wc, |PutWide(wc)|)
  {
    hide LeadOf, Join2, Join3, Split2, Split3, Low8;
    if wc <= 0x7F {
      JoinSplit1(wc);
    } else if wc <= 0x7FF {
      JoinSplit2(wc);
      HeadWideTwo(Split2(wc), rest);
    } else {
      JoinSplit3(wc);
      HeadWideThree(Split3(wc), rest);
    }
  }

  lemma HeadWideTwo(b: seq<bv8>, rest: seq<bv8>)
    requires |b| == 2 && LeadOf(b[0]) == Two
    ensures HeadWide(b + rest) == Read(Join2(b[0], b[1]), 2)
  {
  }

  lemma HeadWideThree(b: seq<bv8>, rest: seq<bv8>)
    requires |b| == 3 && LeadOf(b[0]) == Three
    ensures HeadWide(b + rest) == Read(Join3(b[0], b[1], b[2]), 3)
  {
  }
}
