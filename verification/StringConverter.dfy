/**
 The platform layer's converters, loop by loop as macOS and Linux share them. Each
 loop is proved to compute the text defined in `Utf` or `Wide`. The decoding half of
 a loop body is a method of its own; the encoding half is the function that says
 what is pushed for one value.
 */
module StringConverter {
  import opened Utf
  import opened Wide

  method Utf8ToChar16(utf8: seq<bv8>) returns (result: seq<bv16>)
    ensures result == Units(utf8)
  {
    hide Head8, Put16, Payload, ShapeLen, Units;
    UnitsEnd();
    result := [];
    var i := 0;
    while i < |utf8|
      invariant 0 <= i <= |utf8|
      invariant result + Units(utf8[i..]) == Units(utf8)
      decreases |utf8| - i
    {
      var cp, next := DecodeUtf8At(utf8, i);
      UnitsNext(utf8, i, cp, next);
      assert result + (Put16(cp) + Units(utf8[next..])) == (result + Put16(cp)) + Units(utf8[next..]);
      result := result + Put16(cp);
      i := next;
    }
    assert utf8[i..] == [];
  }

  lemma UnitsNext(utf8: seq<bv8>, i: nat, cp: bv32, next: nat)
    requires i < next <= |utf8| && Head8(utf8[i..]) == Read(cp, next - i)
    ensures Units(utf8[i..]) == Put16(cp) + Units(utf8[next..])
  {
    hide Head8, Put16;
    assert utf8[i..][next - i..] == utf8[next..];
  }

  lemma UnitsEnd()
    ensures Units([]) == []
  {
  }

  method DecodeUtf8At(utf8: seq<bv8>, i: nat) returns (cp: bv32, next: nat)
    requires i < |utf8|
    ensures i < next <= |utf8| && Head8(utf8[i..]) == Read(cp, next - i)
    ensures ShapeLen(utf8[i]) == 0 || |utf8| - i < ShapeLen(utf8[i]) ==> cp == 0xFFFD && next == i + 1
    ensures 0 < ShapeLen(utf8[i]) <= |utf8| - i ==> cp == Payload(utf8[i..]) && next == i + ShapeLen(utf8[i])
  {
    var len, c := |utf8|, utf8[i];
    if c & 0x80 == 0 {
      cp, next := c as bv32, i + 1;
    } else if c & 0xE0 == 0xC0 {
      if i + 1 >= len {
        cp, next := 0xFFFD, i + 1;
      } else {
        cp := (((c & 0x1F) as bv32) << 6) | ((utf8[i + 1] & 0x3F) as bv32);
        next := i + 2;
      }
    } else if c & 0xF0 == 0xE0 {
      if i + 2 >= len {
        cp, next := 0xFFFD, i + 1;
      } else {
        cp := (((c & 0x0F) as bv32) << 12) | (((utf8[i + 1] & 0x3F) as bv32) << 6) | ((utf8[i + 2] & 0x3F) as bv32);
        next := i + 3;
      }
    } else if c & 0xF8 == 0xF0 {
      if i + 3 >= len {
        cp, next := 0xFFFD, i + 1;
      } else {
        cp := (((c & 0x07) as bv32) << 18) | (((utf8[i + 1] & 0x3F) as bv32) << 12)
           | (((utf8[i + 2] & 0x3F) as bv32) << 6) | ((utf8[i + 3] & 0x3F) as bv32);
        next := i + 4;
      }
    } else {
      cp, next := 0xFFFD, i + 1;
    }
  }

  method Char16ToUtf8(utf16: seq<bv16>) returns (result: seq<bv8>)
    ensures result == Bytes(utf16)
  {
    hide Head16, Put8;
    result := [];
    var i := 0;
    while i < |utf16|
      invariant 0 <= i <= |utf16|
      invariant result + Bytes(utf16[i..]) == Bytes(utf16)
      decreases |utf16| - i
    {
      var cp, next := DecodeUtf16At(utf16, i);
      assert utf16[i..][next - i..] == utf16[next..];
      result := result + Put8(cp);
      i := next;
    }
  }

  method DecodeUtf16At(utf16: seq<bv16>, i: nat) returns (cp: bv32, next: nat)
    requires i < |utf16|
    ensures i < next <= |utf16| && Head16(utf16[i..]) == Read(cp, next - i)
  {
    var unit := utf16[i];
    if IsHigh(unit) && i + 1 < |utf16| {
      var low := utf16[i + 1];
      if IsLow(low) {
        return Pair(unit, low), i + 2;
      }
    }
    return unit as bv32, i + 1;
  }

  /** The index may run past the end: a four-byte lead always skips four. */
  method Utf8ToWide(utf8: seq<bv8>) returns (result: seq<bv32>)
    ensures result == WideOf(utf8)
  {
    hide HeadWide, WideOf, Skip;
    result := [];
    var i := 0;
    WideEnds(utf8);
    while i < |utf8|
      invariant result + WideOf(Skip(utf8, i)) == WideOf(utf8)
      decreases |utf8| - i
    {
      var wc, next := DecodeWideAt(utf8, i);
      WideNext(utf8, i, wc, next);
      assert result + ([wc] + WideOf(Skip(utf8, next))) == (result + [wc]) + WideOf(Skip(utf8, next));
      result := result + [wc];
      i := next;
    }
  }

  lemma WideNext(utf8: seq<bv8>, i: nat, wc: bv32, next: nat)
    requires i < |utf8| && i < next && HeadWide(utf8[i..]) == Read(wc, next - i)
    ensures WideOf(Skip(utf8, i)) == [wc] + WideOf(Skip(utf8, next))
  {
    hide HeadWide;
    assert Skip(utf8[i..], next - i) == Skip(utf8, next);
  }

  lemma WideEnds(utf8: seq<bv8>)
    ensures Skip(utf8, 0) == utf8 && forall i: nat | i >= |utf8| :: WideOf(Skip(utf8, i)) == []
  {
  }

  method DecodeWideAt(utf8: seq<bv8>, i: nat) returns (wc: bv32, next: nat)
    requires i < |utf8|
    ensures i < next && HeadWide(utf8[i..]) == Read(wc, next - i)
  {
    var len, c := |utf8|, utf8[i];
    if c & 0x80 == 0 {
      wc, next := c as bv32, i + 1;
    } else if c & 0xE0 == 0xC0 {
      if i + 1 < len {
        wc := (((c & 0x1F) as bv32) << 6) | ((utf8[i + 1] & 0x3F) as bv32);
        next := i + 2;
      } else {
        wc, next := 0x3F, i + 1;
      }
    } else if c & 0xF0 == 0xE0 {
      if i + 2 < len {
        wc := (((c & 0x0F) as bv32) << 12) | (((utf8[i + 1] & 0x3F) as bv32) << 6) | ((utf8[i + 2] & 0x3F) as bv32);
        next := i + 3;
      } else {
        wc, next := 0x3F, i + 1;
      }
    } else if c & 0xF8 == 0xF0 {
      wc, next := 0xFFFD, i + 4;
    } else {
      wc, next := 0x3F, i + 1;
    }
  }

  method WideToUtf8(wide: seq<bv32>) returns (result: seq<bv8>)
    ensures result == BytesOfWide(wide)
  {
    hide PutWide;
    result := [];
    for i := 0 to |wide|
      invariant result + BytesOfWide(wide[i..]) == BytesOfWide(wide)
    {
      assert wide[i..][1..] == wide[i + 1..];
      result := result + PutWide(wide[i]);
    }
  }

  /** Accepts exactly the concatenations of whole lead/continuation shapes. */
  method IsValidUtf8(str: seq<bv8>) returns (valid: bool)
    ensures valid <==> Shaped(str)
  {
    var len, i := |str|, 0;
    EmptyShaped();
    while i < len
      invariant 0 <= i <= len
      invariant Shaped(str[i..]) <==> Shaped(str)
      decreases len - i
    {
      ghost var rest := str[i..];
      ShapedByHead(rest);
      var c := str[i];
      if c & 0x80 == 0 {
        assert rest[1..] == str[i + 1..];
        i := i + 1;
      } else if c & 0xE0 == 0xC0 {
        if i + 1 >= len || str[i + 1] & 0xC0 != 0x80 {
          return false;
        }
        assert rest[2..] == str[i + 2..];
        i := i + 2;
      } else if c & 0xF0 == 0xE0 {
        if i + 2 >= len || str[i + 1] & 0xC0 != 0x80 || str[i + 2] & 0xC0 != 0x80 {
          return false;
        }
        assert rest[3..] == str[i + 3..];
        i := i + 3;
      } else if c & 0xF8 == 0xF0 {
        if i + 3 >= len || str[i + 1] & 0xC0 != 0x80 || str[i + 2] & 0xC0 != 0x80 || str[i + 3] & 0xC0 != 0x80 {
          return false;
        }
        assert rest[4..] == str[i + 4..];
        i := i + 4;
      } else {
        return false;
      }
    }
    return true;
  }
}
