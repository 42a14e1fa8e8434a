/**
 The decoder of the 512-byte sector that an ATA drive answers a SMART read with: a grid
 of 12-byte slots from offset 2 on, of which the first 32 in use become attributes.
 */
module SmartReader {
  import opened Bytes

  datatype Attribute = Attribute(id: Byte, flags: Byte, current: Byte, worst: Byte, raw: nat)

  const SECTOR := 512
  const SLOT := 12
  const MAX_ATTRIBUTES := 32
  /** Slots begin at 2, 14, and so on, below 500. */
  const SLOTS := 42

  // ----- the grid ---------------------------------------------------------------

  function SlotAt(raw: seq<Byte>, k: nat): Attribute
    requires |raw| == SECTOR && k < SLOTS
  {
    var at := 2 + SLOT * k;
    Attribute(raw[at], raw[at + 1], raw[at + 3], raw[at + 4], LittleEndian(raw[at + 5..at + 11]))
  }

  predicate InUse(a: Attribute) { a.id != 0 && a.id != 0xFF }

  /** The slots in use among the first `n`, in order. */
  function Used(raw: seq<Byte>, n: nat): seq<Attribute>
    requires |raw| == SECTOR && n <= SLOTS
  {
    if n == 0 then []
    else Used(raw, n - 1) + if InUse(SlotAt(raw, n - 1)) then [SlotAt(raw, n - 1)] else []
  }

  function First<T>(s: seq<T>, n: nat): seq<T> { if |s| <= n then s else s[..n] }

  lemma {:induction false} UsedGrows(raw: seq<Byte>, n: nat, m: nat)
    requires |raw| == SECTOR && n <= m <= SLOTS
    ensures Used(raw, n) <= Used(raw, m)
    decreases m
  {
    if n < m {
      UsedGrows(raw, n, m - 1);
    }
  }

  /** Raw values are six-byte numbers, and every attribute is a slot in use. */
  lemma {:induction false} UsedAreSlots(raw: seq<Byte>, n: nat, i: nat) returns (k: nat)
    requires |raw| == SECTOR && n <= SLOTS && i < |Used(raw, n)|
    ensures k < n && Used(raw, n)[i] == SlotAt(raw, k) && InUse(SlotAt(raw, k))
    ensures Used(raw, n)[i].raw < 0x1_0000_0000_0000
    decreases n
  {
    if i < |Used(raw, n - 1)| {
      k := UsedAreSlots(raw, n - 1, i);
    } else {
      k := n - 1;
      LittleEndianBound(raw[2 + SLOT * k + 5..2 + SLOT * k + 11]);
      PowValues();
    }
  }

  /** Every slot in use is there, behind exactly the slots in use before it. */
  lemma UsedHasAll(raw: seq<Byte>, n: nat, k: nat)
    requires |raw| == SECTOR && k < n <= SLOTS && InUse(SlotAt(raw, k))
    ensures |Used(raw, k)| < |Used(raw, n)| && Used(raw, n)[|Used(raw, k)|] == SlotAt(raw, k)
  {
    UsedGrows(raw, k + 1, n);
    assert Used(raw, k + 1) == Used(raw, k) + [SlotAt(raw, k)];
  }

  // ----- health -----------------------------------------------------------------

  predicate TellsWear(id: Byte) { id in {169, 177, 230, 231, 232, 233} }

  /** The best health one attribute allows. */
  function Cap(a: Attribute): (h: nat)
    ensures 1 <= h <= 100
  {
    if a.id == 5 && a.raw > 10 then 80
    else if a.id == 5 && a.raw > 0 then 95
    else if a.id == 197 && a.raw > 0 then 90
    else if a.id == 198 && a.raw > 0 then 85
    else if TellsWear(a.id) && 0 < a.current <= 100 then a.current
    else 100
  }

  function Min(x: nat, y: nat): nat { if y < x then y else x }

  function Health(attributes: seq<Attribute>): (h: nat)
    ensures 1 <= h <= 100
  {
    if attributes == [] then 100
    else Min(Health(attributes[..|attributes| - 1]), Cap(attributes[|attributes| - 1]))
  }

  /** `h` is the least of 100 and the attributes' caps. */
  ghost predicate IsLeastCap(h: nat, attributes: seq<Attribute>) {
    && h <= 100
    && (forall a | a in attributes :: h <= Cap(a))
    && (h == 100 || exists a :: a in attributes && Cap(a) == h)
  }

  lemma {:induction false} HealthIsLeastCap(attributes: seq<Attribute>, h: nat)
    ensures h == Health(attributes) <==> IsLeastCap(h, attributes)
    decreases |attributes|
  {
    LeastCapOfHealth(attributes);
    if IsLeastCap(h, attributes) {
      var g := Health(attributes);
      if g != 100 {
        var a :| a in attributes && Cap(a) == g;
      }
      if h != 100 {
        var b :| b in attributes && Cap(b) == h;
      }
    }
  }

  lemma {:induction false} LeastCapOfHealth(attributes: seq<Attribute>)
    ensures IsLeastCap(Health(attributes), attributes)
    decreases |attributes|
  {
    if attributes != [] {
      var front, last := attributes[..|attributes| - 1], attributes[|attributes| - 1];
      assert attributes == front + [last];
      LeastCapOfHealth(front);
      if Health(front) <= Cap(last) && Health(front) != 100 {
        var a :| a in front && Cap(a) == Health(front);
        assert a in attributes;
      }
    }
  }

  /** The order of the attributes does not matter. */
  lemma HealthIgnoresOrder(a: seq<Attribute>, b: seq<Attribute>)
    requires multiset(a) == multiset(b)
    ensures Health(a) == Health(b)
  {
    assert forall x :: x in a <==> x in multiset(a);
    assert forall x :: x in b <==> x in multiset(b);
    LeastCapOfHealth(a);
    HealthIsLeastCap(b, Health(a));
  }

  predicate SameButRaw(a: Attribute, b: Attribute) {
    a.id == b.id && a.flags == b.flags && a.current == b.current && a.worst == b.worst
  }

  /** Health never rises when raw counts rise. */
  lemma {:induction false} HealthFallsWithRaw(a: seq<Attribute>, b: seq<Attribute>)
    requires |a| == |b|
    requires forall i | 0 <= i < |a| :: SameButRaw(a[i], b[i]) && a[i].raw <= b[i].raw
    ensures Health(b) <= Health(a)
    decreases |a|
  {
    if a != [] {
      var n := |a| - 1;
      HealthFallsWithRaw(a[..n], b[..n]);
      assert SameButRaw(a[n], b[n]);
    }
  }

  // ----- the rules by their numbers -----------------------------------------------

  /** A rule of the health table asks that health be at most `h` because of this attribute. */
  predicate Asks(a: Attribute, h: nat) {
    || (a.id == 5 && a.raw > 0 && h == 95)
    || (a.id == 5 && a.raw > 10 && h == 80)
    || (a.id == 197 && a.raw > 0 && h == 90)
    || (a.id == 198 && a.raw > 0 && h == 85)
    || (a.id in {169, 177, 230, 231, 232, 233} && 1 <= a.current <= 100 && h == a.current)
  }

  /** `h` is the least that any rule asks for, or 100 if none asks for less. */
  ghost predicate IsLeastAsked(h: nat, attributes: seq<Attribute>) {
    && h <= 100
    && (forall a, g | a in attributes && Asks(a, g) :: h <= g)
    && (h == 100 || exists a :: a in attributes && Asks(a, h))
  }

  lemma CapIsAsked(a: Attribute)
    ensures Cap(a) == 100 || Asks(a, Cap(a))
    ensures forall g | Asks(a, g) :: Cap(a) <= g
  {
  }

  /** The least cap is the least that the rules ask for. */
  lemma LeastIsAsked(h: nat, attributes: seq<Attribute>)
    requires IsLeastCap(h, attributes)
    ensures IsLeastAsked(h, attributes)
  {
    hide Cap, Asks;
    forall a, g | a in attributes && Asks(a, g)
      ensures h <= g
    {
      CapIsAsked(a);
    }
    if h != 100 {
      var a :| a in attributes && Cap(a) == h;
      CapIsAsked(a);
    }
  }

  function SixBytes(a: int, b: int, c: int, d: int, e: int, f: int): int {
    a + 0x100 * b + 0x1_0000 * c + 0x100_0000 * d + 0x1_0000_0000 * e + 0x100_0000_0000 * f
  }

  /** The attribute is what these twelve bytes say: id, flags, current and worst at 0, 1, 3 and 4, raw in 5 to 10. */
  predicate Decodes(raw: seq<Byte>, k: nat, a: Attribute)
    requires |raw| == SECTOR && k < SLOTS
  {
    var at := 2 + 12 * k;
    && a.id == raw[at] && a.flags == raw[at + 1] && a.current == raw[at + 3] && a.worst == raw[at + 4]
    && a.raw == SixBytes(raw[at + 5], raw[at + 6], raw[at + 7], raw[at + 8], raw[at + 9], raw[at + 10])
  }

  lemma SlotDecodes(raw: seq<Byte>, k: nat)
    requires |raw| == SECTOR && k < SLOTS
    ensures Decodes(raw, k, SlotAt(raw, k))
  {
    hide LittleEndian;
    var at := 2 + 12 * k;
    LittleEndianSix(raw[at + 5..at + 11]);
  }

  lemma LittleEndianSix(b: seq<Byte>)
    requires |b| == 6
    ensures LittleEndian(b) == SixBytes(b[0], b[1], b[2], b[3], b[4], b[5])
  {
    assert b[1..][1..] == b[2..] && b[2..][1..] == b[3..] && b[3..][1..] == b[4..] && b[4..][1..] == b[5..];
    assert b[5..] == [b[5]] && b[5..][1..] == [];
    assert LittleEndian(b[5..]) == b[5];
    assert LittleEndian(b[4..]) == b[4] + 256 * LittleEndian(b[5..]);
    assert LittleEndian(b[3..]) == b[3] + 256 * LittleEndian(b[4..]);
    assert LittleEndian(b[2..]) == b[2] + 256 * LittleEndian(b[3..]);
    assert LittleEndian(b[1..]) == b[1] + 256 * LittleEndian(b[2..]);
  }

  /** Some slot of the sector says so. */
  predicate DecodedFrom(raw: seq<Byte>, a: Attribute)
    requires |raw| == SECTOR
  {
    exists k | 0 <= k < SLOTS :: Decodes(raw, k, a)
  }

  /** So the attributes are decoded from slots in use. */
  lemma UsedAreDecoded(raw: seq<Byte>, attributes: seq<Attribute>)
    requires |raw| == SECTOR && attributes <= Used(raw, SLOTS)
    ensures forall i | 0 <= i < |attributes| :: DecodedFrom(raw, attributes[i])
  {
    hide Decodes, SlotAt;
    forall i | 0 <= i < |attributes|
      ensures DecodedFrom(raw, attributes[i])
    {
      var k := UsedAreSlots(raw, SLOTS, i);
      SlotDecodes(raw, k);
    }
  }

  // ----- the loop ---------------------------------------------------------------

  /** Six bytes from `at` on, each shifted to its place; the places do not overlap, so the or is a sum. */
  method ReadRaw(raw: seq<Byte>, at: nat) returns (value: nat)
    requires at + 6 <= |raw|
    ensures value == LittleEndian(raw[at..at + 6])
  {
    value := 0;
    var place: nat := 1;
    for j := 0 to 6
      invariant value == LittleEndian(raw[at..at + j]) && place == Pow256(j)
    {
      LittleEndianPush(raw[at..at + j], raw[at + j]);
      assert raw[at..at + j] + [raw[at + j]] == raw[at..at + j + 1];
      value := value + raw[at + j] * place;
      place := 256 * place;
    }
  }

  /** The health rules of one attribute, in the order they are tried. */
  method LowerHealth(a: Attribute, health: nat) returns (lowered: nat)
    ensures lowered == Min(health, Cap(a))
    requires health <= 100
  {
    var id, value := a.id, a.raw;
    lowered := health;
    if id == 5 || id == 196 || id == 197 || id == 198 {
      if value > 0 {
        if id == 5 && value > 0 { lowered := Min(lowered, 95); }
        if id == 5 && value > 10 { lowered := Min(lowered, 80); }
        if id == 197 && value > 0 { lowered := Min(lowered, 90); }
        if id == 198 && value > 0 { lowered := Min(lowered, 85); }
      }
    }
    if id == 169 || id == 177 || id == 230 || id == 231 || id == 232 || id == 233 || id == 0xE7 {
      if a.current > 0 && a.current <= 100 {
        lowered := Min(lowered, a.current);
      }
    }
  }

  lemma NothingRead(raw: seq<Byte>)
    requires |raw| == SECTOR
    ensures Used(raw, 0) == [] && Health([]) == 100
  {
  }

  lemma NextSlot(raw: seq<Byte>, k: nat, a: Attribute)
    requires |raw| == SECTOR && k < SLOTS
    requires var at := 2 + SLOT * k;
      a == Attribute(raw[at], raw[at + 1], raw[at + 3], raw[at + 4], LittleEndian(raw[at + 5..at + 11]))
    ensures Used(raw, k + 1) == Used(raw, k) + (if InUse(a) then [a] else [])
  {
    hide LittleEndian;
  }

  lemma NextHealth(attributes: seq<Attribute>, a: Attribute)
    ensures Health(attributes + [a]) == Min(Health(attributes), Cap(a))
  {
    hide Cap;
    assert (attributes + [a])[..|attributes|] == attributes;
  }

    method ParseAttributes(raw: seq<Byte>, attributes: array<Attribute>) returns (count: nat, health: nat)
    requires |raw| == SECTOR && attributes.Length == MAX_ATTRIBUTES
    modifies attributes
    ensures count <= MAX_ATTRIBUTES
    ensures attributes[..count] == First(Used(raw, SLOTS), MAX_ATTRIBUTES)
    ensures attributes[count..] == old(attributes[..])[count..]
    ensures forall i | 0 <= i < count :: DecodedFrom(raw, attributes[i])
    ensures IsLeastCap(health, attributes[..count]) && IsLeastAsked(health, attributes[..count])
  {
    hide LittleEndian, Cap, IsLeastCap, Min, DecodedFrom, IsLeastAsked, Used, SlotAt, Health;
    count, health := 0, 100;
    var at := 2;
    ghost var k := 0;
    NothingRead(raw);
    while at < 512 - 12 && count < 32
      invariant at == 2 + SLOT * k && k <= SLOTS && count <= 32
      invariant attributes[..count] == Used(raw, k)
      invariant attributes[count..] == old(attributes[..])[count..]
      invariant health == Health(attributes[..count])
      decreases SLOTS - k
    {
      var id := raw[at];
      var value := ReadRaw(raw, at + 5);
      var a := Attribute(id, raw[at + 1], raw[at + 3], raw[at + 4], value);
      NextSlot(raw, k, a);
      if id != 0 && id != 0xFF {
        ghost var before, behind := attributes[..count], attributes[count..];
        attributes[count] := a;
        count := count + 1;
        assert attributes[..count] == before + [a];
        assert attributes[count..] == behind[1..] == old(attributes[..])[count - 1..][1..];
        NextHealth(before, a);
        health := LowerHealth(a, health);
      }
      at := at + 12;
      k := k + 1;
    }
    UsedGrows(raw, k, SLOTS);
    LeastCapOfHealth(attributes[..count]);
    LeastIsAsked(health, attributes[..count]);
    UsedAreDecoded(raw, attributes[..count]);
  }
}
