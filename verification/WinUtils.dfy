/** The shared utility's converters on macOS and Linux, loop by loop. */
module WinUtils {
  import opened Utf
  import opened Wide

  method WstringToUtf8(wstr: seq<bv32>) returns (result: seq<bv8>)
    ensures result == BytesOfWstring(wstr)
  {
    hide PutWstring;
    result := [];
    for i := 0 to |wstr|
      invariant result + BytesOfWstring(wstr[i..]) == BytesOfWstring(wstr)
    {
      assert wstr[i..][1..] == wstr[i + 1..];
      result := result + PutWstring(wstr[i]);
    }
  }

  method Utf8ToWstring(str: seq<bv8>) returns (result: seq<bv32>)
    ensures result == WstringOf(str)
  {
    hide HeadWstring;
    result := [];
    var i := 0;
    while i < |str|
      invariant 0 <= i <= |str|
      invariant result + WstringOf(str[i..]) == WstringOf(str)
      decreases |str| - i
    {
      var wc, next := DecodeWstringAt(str, i);
      assert str[i..][next - i..] == str[next..];
      result := result + [wc];
      i := next;
    }
  }

  method DecodeWstringAt(str: seq<bv8>, i: nat) returns (wc: bv32, next: nat)
    requires i < |str|
    ensures i < next <= |str| && HeadWstring(str[i..]) == Read(wc, next - i)
  {
    var len, c := |str|, str[i];
    if c & 0x80 == 0 {
      wc, next := c as bv32, i + 1;
    } else if c & 0xE0 == 0xC0 && i + 1 < len {
      wc := (((c & 0x1F) as bv32) << 6) | ((str[i + 1] & 0x3F) as bv32);
      next := i + 2;
    } else if c & 0xF0 == 0xE0 && i + 2 < len {
      wc := (((c & 0x0F) as bv32) << 12) | (((str[i + 1] & 0x3F) as bv32) << 6) | ((str[i + 2] & 0x3F) as bv32);
      next := i + 3;
    } else if c & 0xF8 == 0xF0 && i + 3 < len {
      wc, next := 0xFFFD, i + 4;
    } else {
      wc, next := 0x3F, i + 1;
    }
  }

  /** Accepts exactly what the platform layer's `IsValidUtf8` accepts. */
  method IsLikelyUtf8(s: seq<bv8>) returns (likely: bool)
    ensures likely <==> Shaped(s)
  {
    var i, len := 0, |s|;
    EmptyShaped();
    while i < len
      invariant 0 <= i <= len
      invariant Shaped(s[i..]) <==> Shaped(s)
      decreases len - i
    {
      ghost var rest := s[i..];
      ShapedByHead(rest);
      var c := s[i];
      if c < 0x80 {
        SmallIsOne(c);
        assert rest[1..] == s[i + 1..];
        i := i + 1;
        continue;
      }
      LargeIsNotOne(c);
      var seqLen := 0;
      if c & 0xE0 == 0xC0 {
        seqLen := 2;
      } else if c & 0xF0 == 0xE0 {
        seqLen := 3;
      } else if c & 0xF8 == 0xF0 {
        seqLen := 4;
      } else {
        return false;
      }
      if i + seqLen > len {
        return false;
      }
      for k := 1 to seqLen
        invariant forall j | 1 <= j < k :: IsTail(rest[j])
      {
        if s[i + k] & 0xC0 != 0x80 {
          assert !IsTail(rest[k]);
          return false;
        }
      }
      assert rest[seqLen..] == s[i + seqLen..];
      i := i + seqLen;
    }
    return true;
  }

  lemma SmallIsOne(c: bv8)
    requires c < 0x80
    ensures LeadOf(c) == One
  {
  }

  lemma LargeIsNotOne(c: bv8)
    requires c >= 0x80
    ensures c & 0x80 != 0
  {
  }
}
