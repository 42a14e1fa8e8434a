/**
 Reading and writing the shared block through its schema: a store to one field is seen by
 every reader of that field and by no reader of another, and what the server puts in a
 field is what a client reads back, as far as the field's width lets it.
 */
module BlockAccess {
  import opened Bytes
  import opened IPCData
  import opened BlockSchema
  import opened Options
  import Handshake
  import SmartJson
  import opened Sequences

  // ----- fields of a block's contents -------------------------------------------

  predicate Fits(m: seq<Byte>, e: Entry) { e.offset + e.size <= |m| }

  function Held(m: seq<Byte>, e: Entry): (b: seq<Byte>)
    requires Fits(m, e)
    ensures |b| == e.size
  {
    m[e.offset..e.offset + e.size]
  }

  function Written(m: seq<Byte>, at: nat, b: seq<Byte>): (r: seq<Byte>)
    requires at + |b| <= |m|
    ensures |r| == |m|
  {
    m[..at] + b + m[at + |b|..]
  }

  lemma HeldOwn(m: seq<Byte>, e: Entry, b: seq<Byte>)
    requires Fits(m, e) && |b| == e.size
    ensures Held(Written(m, e.offset, b), e) == b
  {
  }

  lemma HeldOther(m: seq<Byte>, at: nat, b: seq<Byte>, f: Entry)
    requires at + |b| <= |m| && Fits(m, f)
    requires at + |b| <= f.offset || f.offset + f.size <= at
    ensures Held(Written(m, at, b), f) == Held(m, f)
  {
    var w := Written(m, at, b);
    assert forall i | f.offset <= i < f.offset + f.size :: w[i] == m[i];
  }

  /** Every field of the schema is inside the block, behind the sequence counter, and no two of them share a byte. */
  lemma FieldsApart(j: nat, k: nat)
    requires j < 184 && k < 184 && j != k
    ensures var e, f := Schema()[j], Schema()[k];
      && CPU_NAME <= e.offset && e.offset + e.size <= BLOCK_SIZE == 36187
      && (e.offset + e.size <= f.offset || f.offset + f.size <= e.offset)
  {
    hide Schema;
    SchemaPlaced();
  }

  /** The server's stores to fields of a schema, in the order it makes them. */
  datatype Store = Store(field: nat, bytes: seq<Byte>)

  predicate Proper(es: seq<Entry>, stores: seq<Store>) {
    forall i | 0 <= i < |stores| :: stores[i].field < |es| && |stores[i].bytes| == es[stores[i].field].size
  }

  function Play(es: seq<Entry>, m: seq<Byte>, stores: seq<Store>): (r: seq<Byte>)
    requires Placed(es, 0, |m|) && Proper(es, stores)
    ensures |r| == |m|
    decreases |stores|
  {
    if stores == [] then m
    else
      var last := stores[|stores| - 1];
      Written(Play(es, m, stores[..|stores| - 1]), es[last.field].offset, last.bytes)
  }

  function Latest(stores: seq<Store>, k: nat, initial: seq<Byte>): seq<Byte>
    decreases |stores|
  {
    if stores == [] then initial
    else if stores[|stores| - 1].field == k then stores[|stores| - 1].bytes
    else Latest(stores[..|stores| - 1], k, initial)
  }

  /** Whatever is stored in whatever order, each field holds what was last stored to it. */
  lemma {:induction false} LastStoreIsRead(es: seq<Entry>, m: seq<Byte>, stores: seq<Store>, k: nat)
    requires Placed(es, 0, |m|) && Proper(es, stores) && k < |es|
    ensures Held(Play(es, m, stores), es[k]) == Latest(stores, k, Held(m, es[k]))
    decreases |stores|
  {
    hide Held, Written;
    if stores != [] {
      var n := |stores| - 1;
      var last := stores[n];
      LastStoreIsRead(es, m, stores[..n], k);
      var before := Play(es, m, stores[..n]);
      if last.field == k {
        HeldOwn(before, es[k], last.bytes);
      } else {
        HeldOther(before, es[last.field].offset, last.bytes, es[k]);
      }
    }
  }

  // ----- values -----------------------------------------------------------------

  /** A number stored in `size` bytes and read through `width` of them. */
  lemma UnsignedReadBack(v: nat, size: nat, width: nat)
    ensures LittleEndian(LowBytes(v, size)[..Shorter(width, size)]) == v % Pow256(Shorter(width, size))
  {
    var k := Shorter(width, size);
    LowBytesPrefix(v, size, k);
    LittleEndianOfLowBytes(v, k);
  }

  function FromInt32(v: int): nat
    requires -0x8000_0000 <= v < 0x8000_0000
  {
    if v < 0 then v + 0x1_0000_0000 else v
  }

  function ToInt32(n: nat): int { if n < 0x8000_0000 then n else n - 0x1_0000_0000 }

  /** A signed number survives the trip, sign and all. */
  lemma Int32ReadBack(v: int)
    requires -0x8000_0000 <= v < 0x8000_0000
    ensures ToInt32(LittleEndian(LowBytes(FromInt32(v), 4)[..4])) == v
  {
    hide LowBytes, LittleEndian;
    PowValues();
    UnsignedReadBack(FromInt32(v), 4, 4);
  }

  /** A C string copied into a field of `size` bytes, its last byte set to zero. */
  function TextBytes(was: seq<Byte>, text: seq<Byte>): (b: seq<Byte>)
    requires was != []
    ensures |b| == |was|
  {
    Strncpy(was, text, |was| - 1)[|was| - 1 := 0]
  }

  lemma TextReadBack(was: seq<Byte>, text: seq<Byte>)
    requires was != [] && 0 !in text
    ensures CString(TextBytes(was, text)) == text[..Shorter(|text|, |was| - 1)]
  {
    var n := |was| - 1;
    var zeroed := was[n := 0];
    StrncpyReads(zeroed, text, n);
    assert TextBytes(was, text) == Strncpy(zeroed, text, n);
  }

  /** Without the final zero the text reads back cut exactly when it leaves room or the field's last byte is zero already. */
  lemma UnterminatedReadBack(was: seq<Byte>, text: seq<Byte>)
    requires was != [] && 0 !in text
    ensures CString(Strncpy(was, text, |was| - 1)) == text[..Shorter(|text|, |was| - 1)]
      <==> |text| < |was| - 1 || was[|was| - 1] == 0
  {
    var n := |was| - 1;
    if |text| < n || was[n] == 0 {
      StrncpyReads(was, text, n);
    } else {
      var b := Strncpy(was, text, n);
      assert b == text[..n] + [was[n]];
      CStringIs(b, n + 1);
    }
  }

  // ----- a client's readers -----------------------------------------------------

  lemma {:induction false} ZeroExtends(b: seq<Byte>, k: nat)
    ensures LittleEndian(b + Zeros(k)) == LittleEndian(b)
  {
    if b != [] {
      assert (b + Zeros(k))[1..] == b[1..] + Zeros(k);
      ZeroExtends(b[1..], k);
    } else if k > 0 {
      assert b + Zeros(k) == Zeros(k) && Zeros(k)[1..] == Zeros(k - 1) == [] + Zeros(k - 1);
      ZeroExtends([], k - 1);
    }
  }

  /** Unsigned arithmetic of 32 and of 64 bits. */
  function Sum32(a: nat, b: nat): nat { (a + b) % 0x1_0000_0000 }

  function Difference64(a: nat, b: nat): nat
    requires a < 0x1_0000_0000_0000_0000 && b < 0x1_0000_0000_0000_0000
  {
    if b <= a then a - b else 0x1_0000_0000_0000_0000 - (b - a)
  }

  /** What a reader does: it answers, or it touches memory that is not the block's. */
  datatype Answer<T> = Answered(value: Option<T>) | Astray

  /** A field that lies within a block of this size. */
  predicate Within(f: FieldDef, size: nat) { f.offset + f.size <= size }

  class FieldReader {
    var fields: map<seq<Byte>, FieldDef>
    var shm: array?<Byte>

    constructor (fields: map<seq<Byte>, FieldDef>, shm: array?<Byte>)
      ensures this.fields == fields && this.shm == shm
    {
      this.fields, this.shm := fields, shm;
    }

    /** Fields as they come off the wire, and a block whose size fits the machine. */
    predicate Valid()
      reads this
    {
      && (forall name | name in fields :: FieldFits(fields[name]))
      && (shm != null ==> shm.Length < 0x1_0000_0000_0000_0000)
    }

    /** Without a block its size is 0. */
    function ShmSize(): nat
      reads this
    {
      if shm == null then 0 else shm.Length
    }

    /**
     The text up to a NUL or the field's end; nothing without a block, a field, or a byte to read.
     It strays exactly for a field that starts past the end of the block.
     */
    method ReadString(name: seq<Byte>) returns (r: Answer<seq<Byte>>)
      requires Valid()
      ensures r == Astray <==>
        shm != null && name in fields && fields[name].size > 0 && fields[name].offset > shm.Length
      ensures r == Answered(None) <==>
        shm == null || name !in fields || fields[name].size == 0 || fields[name].offset == shm.Length
      ensures shm != null && name in fields && fields[name].size > 0 && fields[name].offset < shm.Length ==>
        var f := fields[name];
        r == Answered(Some(CString(shm[f.offset..f.offset + Shorter(f.size, shm.Length - f.offset)])))
    {
      if shm == null || name !in fields || fields[name].size == 0 { return Answered(None); }
      var f := fields[name];
      var rest := Difference64(ShmSize(), f.offset);
      var maxLen := if f.size < rest then f.size else rest;
      if maxLen == 0 { return Answered(None); }
      if f.offset > shm.Length { return Astray; }
      var text := Scan(f.offset, maxLen);
      r := Answered(Some(text));
    }

    /** The bytes from `at` on, up to a NUL or `maxLen` of them. */
    method Scan(at: nat, maxLen: nat) returns (text: seq<Byte>)
      requires shm != null && at + maxLen <= shm.Length
      ensures text == CString(shm[at..at + maxLen])
    {
      hide CString;
      ghost var window := shm[at..at + maxLen];
      var len := 0;
      while len < maxLen && shm[at + len] != 0
        invariant len <= maxLen && 0 !in window[..len]
      {
        assert window[..len + 1] == window[..len] + [window[len]];
        len := len + 1;
      }
      CStringIs(window, len);
      text := shm[at..at + len];
      assert text == window[..len];
    }

    /**
     A number of `width` bytes: the field's lowest bytes, zeros above them. It strays exactly when
     the 32-bit sum passes the bounds test though the bytes to copy do not fit the block.
     */
    method ReadNumeric(name: seq<Byte>, width: nat) returns (r: Answer<nat>)
      requires Valid()
      ensures r == Answered(None) <==> name !in fields || Sum32(fields[name].offset, fields[name].size) > ShmSize()
      ensures r == Astray <==>
        && name in fields && Sum32(fields[name].offset, fields[name].size) <= ShmSize()
        && Shorter(width, fields[name].size) > 0
        && fields[name].offset + Shorter(width, fields[name].size) > ShmSize()
      ensures r.Answered? && r.value.Some? && Shorter(width, fields[name].size) > 0 ==>
        var f := fields[name];
        && shm != null && f.offset + Shorter(width, f.size) <= shm.Length
        && r.value.value == LittleEndian(shm[f.offset..f.offset + Shorter(width, f.size)])
      ensures r.Answered? && r.value.Some? && Shorter(width, fields[name].size) == 0 ==> r.value.value == 0
    {
      if name !in fields { return Answered(None); }
      var f := fields[name];
      if Sum32(f.offset, f.size) > ShmSize() { return Answered(None); }
      var n := if width < f.size then width else f.size;
      // Copying nothing leaves the zero and touches nothing.
      if n == 0 { return Answered(Some(0)); }
      if f.offset + n > ShmSize() { return Astray; }
      var val := ZeroExtended(shm[f.offset..f.offset + n], width);
      r := Answered(Some(val));
    }

    /** A variable of `width` zero bytes with these copied over its lowest. */
    method ZeroExtended(field: seq<Byte>, width: nat) returns (v: nat)
      requires |field| <= width
      ensures v == LittleEndian(field)
    {
      var val := new Byte[width](_ => 0);
      assert val[|field|..] == Zeros(width - |field|);
      Copy(val, 0, field);
      assert val[..] == val[0..|field|] + val[|field|..] == field + Zeros(width - |field|);
      ZeroExtends(field, width - |field|);
      v := LittleEndian(val[..]);
    }

    method ReadInt32(name: seq<Byte>) returns (r: Answer<int>)
      requires Valid()
      ensures r == Answered(None) <==> name !in fields || Sum32(fields[name].offset, fields[name].size) > ShmSize()
      ensures r == Astray <==>
        && name in fields && Sum32(fields[name].offset, fields[name].size) <= ShmSize()
        && fields[name].size > 0 && fields[name].offset + Shorter(4, fields[name].size) > ShmSize()
      ensures r.Answered? && r.value.Some? && fields[name].size > 0 ==>
        var f := fields[name];
        && shm != null && f.offset + Shorter(4, f.size) <= shm.Length
        && r.value.value == ToInt32(LittleEndian(shm[f.offset..f.offset + Shorter(4, f.size)]))
    {
      var n := ReadNumeric(name, 4);
      match n {
        case Astray => r := Astray;
        case Answered(None) => r := Answered(None);
        case Answered(Some(v)) => r := Answered(Some(ToInt32(v)));
      }
    }

    method ReadBool(name: seq<Byte>) returns (r: Option<bool>)
      ensures r == None <==> shm == null || name !in fields || fields[name].offset >= shm.Length
      ensures r.Some? ==> r.value == (shm[fields[name].offset] != 0)
    {
      if shm == null || name !in fields { return None; }
      if fields[name].offset >= shm.Length { return None; }
      r := Some(shm[fields[name].offset] != 0);
    }
  }

  /** A field inside a block of less than 4 GiB passes every bounds test for what it is, and no reader strays. */
  lemma InsideNeverStrays(f: FieldDef, size: nat, width: nat)
    requires FieldFits(f) && size < 0x1_0000_0000 && Within(f, size)
    ensures Sum32(f.offset, f.size) == f.offset + f.size <= size
    ensures f.offset <= size && f.offset + Shorter(width, f.size) <= size
  {
  }

  /** For a number read whole, it strays if and only if the sum wraps to something the block's size admits. */
  lemma StraysByWrapping(f: FieldDef, size: nat, width: nat)
    requires FieldFits(f) && f.size > 0 && size < 0x1_0000_0000 && width >= f.size
    ensures (Sum32(f.offset, f.size) <= size && f.offset + Shorter(width, f.size) > size)
      <==> f.offset + f.size >= 0x1_0000_0000 && f.offset + f.size - 0x1_0000_0000 <= size
  {
  }

  // ----- the server's writes ----------------------------------------------------

  lemma WrittenTwice(m: seq<Byte>, at: nat, x: seq<Byte>, y: seq<Byte>)
    requires at + |x| + |y| <= |m|
    ensures Written(Written(m, at, x), at + |x|, y) == Written(m, at, x + y)
  {
  }

  /** A network adapter as the server knows it; the four texts are C strings. */
  datatype Adapter = Adapter(
    name: seq<Byte>, ip: seq<Byte>, mac: seq<Byte>, kind: seq<Byte>, speed: nat, downloadSpeed: nat, uploadSpeed: nat)

  function Connected(adapters: seq<Adapter>): (r: seq<Adapter>)
    ensures |r| <= |adapters|
  {
    if adapters == [] then []
    else
      var n := |adapters| - 1;
      Connected(adapters[..n]) + (if adapters[n].ip == [] then [] else [adapters[n]])
  }

  /** The adapters that get a slot: the first four that have an address. */
  function Shown(adapters: seq<Adapter>): (r: seq<Adapter>)
    ensures |r| <= 4
  {
    Connected(adapters)[..Shorter(4, |Connected(adapters)|)]
  }

  function HasAddress(): Adapter -> bool { (a: Adapter) => a.ip != [] }

  lemma {:induction false} ConnectedSelects(adapters: seq<Adapter>)
    ensures Selects(adapters, Connected(adapters), HasAddress())
    decreases |adapters|
  {
    if adapters == [] {
      SelectsNone(HasAddress());
    } else {
      var n := |adapters| - 1;
      ConnectedSelects(adapters[..n]);
      SelectsMore(adapters[..n], Connected(adapters[..n]), adapters[n], HasAddress());
      assert adapters == adapters[..n] + [adapters[n]];
    }
  }

  /** The adapters with an address, in their order, as far as four slots go. */
  lemma ShownAreConnected(adapters: seq<Adapter>)
    ensures exists all :: Selects(adapters, all, HasAddress()) && Shown(adapters) == all[..Shorter(4, |all|)]
  {
    ConnectedSelects(adapters);
  }

  function NetTexts(slot: seq<Byte>, a: Adapter): (b: seq<Byte>)
    requires |slot| == NET_SLOT_SIZE
    ensures |b| == NET_SPEED
  {
    Strncpy(slot[NET_NAME..NET_IP], a.name, 31) + Strncpy(slot[NET_IP..NET_MAC], a.ip, 15)
    + Strncpy(slot[NET_MAC..NET_TYPE], a.mac, 17) + Strncpy(slot[NET_TYPE..NET_SPEED], a.kind, 15)
  }

  /** A slot after an adapter has been written over it; the last byte of each text is left as it was. */
  function NetBytes(slot: seq<Byte>, a: Adapter): (b: seq<Byte>)
    requires |slot| == NET_SLOT_SIZE
    ensures |b| == NET_SLOT_SIZE
  {
    NetTexts(slot, a) + LowBytes(a.speed, 8) + LowBytes(a.downloadSpeed, 8) + LowBytes(a.uploadSpeed, 8)
  }

  function NetSlot(m: seq<Byte>, k: nat): (slot: seq<Byte>)
    requires |m| == BLOCK_SIZE && k < 4
    ensures |slot| == NET_SLOT_SIZE
  {
    m[ADAPTERS + k * NET_SLOT_SIZE..ADAPTERS + (k + 1) * NET_SLOT_SIZE]
  }

  function WithAdapter(m: seq<Byte>, k: nat, a: Adapter): (r: seq<Byte>)
    requires |m| == BLOCK_SIZE && k < 4
    ensures |r| == BLOCK_SIZE
  {
    Written(m, ADAPTERS + k * NET_SLOT_SIZE, NetBytes(NetSlot(m, k), a))
  }

  /** The block after slots and counter have been written for the adapters shown. */
  function WithAdapters(m: seq<Byte>, shown: seq<Adapter>): (r: seq<Byte>)
    requires |m| == BLOCK_SIZE && |shown| <= 4
    ensures |r| == BLOCK_SIZE
    decreases |shown|
  {
    if shown == [] then Written(m, ADAPTER_COUNT, [0])
    else
      var n := |shown| - 1;
      Written(WithAdapter(WithAdapters(m, shown[..n]), n, shown[n]), ADAPTER_COUNT, [n + 1])
  }

  /** Each adapter shown is in its own slot, the counter says how many there are, and nothing else changes. */
  lemma {:induction false} AdaptersAreTold(m: seq<Byte>, shown: seq<Adapter>)
    requires |m| == BLOCK_SIZE && |shown| <= 4
    ensures var r := WithAdapters(m, shown);
      && r[ADAPTER_COUNT] == |shown|
      && (forall k | 0 <= k < 4 :: NetSlot(r, k) == if k < |shown| then NetBytes(NetSlot(m, k), shown[k]) else NetSlot(m, k))
      && r[..ADAPTERS] == m[..ADAPTERS] && r[ADAPTER_COUNT + 1..] == m[ADAPTER_COUNT + 1..]
    decreases |shown|
  {
    hide NetBytes;
    if shown == [] {
      CounterApart(m, 0);
    } else {
      var n := |shown| - 1;
      AdaptersAreTold(m, shown[..n]);
      var before := WithAdapters(m, shown[..n]);
      OneSlot(before, n, NetBytes(NetSlot(before, n), shown[n]));
      CounterApart(WithAdapter(before, n, shown[n]), n + 1);
    }
  }

  lemma OneSlot(m: seq<Byte>, n: nat, b: seq<Byte>)
    requires |m| == BLOCK_SIZE && n < 4 && |b| == NET_SLOT_SIZE
    ensures var r := Written(m, ADAPTERS + n * NET_SLOT_SIZE, b);
      && (forall k | 0 <= k < 4 :: NetSlot(r, k) == if k == n then b else NetSlot(m, k))
      && r[..ADAPTERS] == m[..ADAPTERS] && r[ADAPTER_COUNT..] == m[ADAPTER_COUNT..]
  {
    var r := Written(m, ADAPTERS + n * NET_SLOT_SIZE, b);
    forall k | 0 <= k < 4
      ensures NetSlot(r, k) == if k == n then b else NetSlot(m, k)
    {
      if k != n {
        HeldOther(m, ADAPTERS + n * NET_SLOT_SIZE, b, Entry("", 0, ADAPTERS + k * NET_SLOT_SIZE, NET_SLOT_SIZE));
      }
    }
  }

  lemma CounterApart(m: seq<Byte>, count: Byte)
    requires |m| == BLOCK_SIZE
    ensures var r := Written(m, ADAPTER_COUNT, [count]);
      && r[ADAPTER_COUNT] == count && (forall k | 0 <= k < 4 :: NetSlot(r, k) == NetSlot(m, k))
      && r[..ADAPTERS] == m[..ADAPTERS] && r[ADAPTER_COUNT + 1..] == m[ADAPTER_COUNT + 1..]
  {
    var r := Written(m, ADAPTER_COUNT, [count]);
    assert r == m[..ADAPTER_COUNT] + [count] + m[ADAPTER_COUNT + 1..];
    assert r[..ADAPTER_COUNT] == m[..ADAPTER_COUNT];
    forall k | 0 <= k < 4
      ensures NetSlot(r, k) == NetSlot(m, k)
    {
      HeldOther(m, ADAPTER_COUNT, [count], Entry("", 0, ADAPTERS + k * NET_SLOT_SIZE, NET_SLOT_SIZE));
    }
    assert r[..ADAPTERS] == r[..ADAPTER_COUNT][..ADAPTERS];
    assert m[..ADAPTERS] == m[..ADAPTER_COUNT][..ADAPTERS];
  }

  /** The schema's field `j` of network slot `k`. */
  function NetField(k: nat, j: nat): (e: Entry)
    requires k < 4 && j < 7
    ensures e == InSlot(Adapters(), k, NetFields()[j])
  {
    NetFieldAt(k, j);
    Schema()[55 + 7 * k + j]
  }

  lemma NetFieldInside(k: nat, j: nat)
    requires k < 4 && j < 7
    ensures var e, f := NetField(k, j), NetFields()[j];
      e.size == f.size && f.offset + f.size <= NET_SLOT_SIZE && e.offset + e.size <= BLOCK_SIZE
  {
    hide Schema, NetFields;
    SlotFieldsPlaced();
  }

  /** What a client finds under that field's name. */
  function NetRead(m: seq<Byte>, k: nat, j: nat): seq<Byte>
    requires |m| == BLOCK_SIZE && k < 4 && j < 7
  {
    hide Schema, NetField, NetFields;
    NetFieldInside(k, j);
    Held(m, NetField(k, j))
  }

  /** Where in its slot a field is. */
  function PartOf(slot: seq<Byte>, j: nat): seq<Byte>
    requires |slot| == NET_SLOT_SIZE && j < 7
  {
    SlotFieldsPlaced();
    slot[NetFields()[j].offset..NetFields()[j].offset + NetFields()[j].size]
  }

  /** What a client finds under a name of slot `k` is that part of the slot. */
  lemma SlotIsPublished(m: seq<Byte>, k: nat, j: nat)
    requires |m| == BLOCK_SIZE && k < 4 && j < 7
    ensures NetRead(m, k, j) == PartOf(NetSlot(m, k), j)
  {
    hide Schema;
    NetFieldInside(k, j);
    var e := NetFields()[j];
    var at := ADAPTERS + k * NET_SLOT_SIZE;
    SlotFieldsPlaced();
    assert NetSlot(m, k) == m[at..at + NET_SLOT_SIZE];
    SliceOfSlice(m, at, at + NET_SLOT_SIZE, e.offset, e.offset + e.size);
  }

  /**
   What a client reads under the names of the four slots: the adapters shown, and in the slots
   beyond them, which no published counter marks, whatever was there before.
   */
  lemma AdaptersAreRead(m: seq<Byte>, shown: seq<Adapter>, k: nat, j: nat)
    requires |m| == BLOCK_SIZE && |shown| <= 4 && k < 4 && j < 7
    ensures NetRead(WithAdapters(m, shown), k, j)
      == if k < |shown| then PartOf(NetBytes(NetSlot(m, k), shown[k]), j) else NetRead(m, k, j)
  {
    hide NetBytes, WithAdapters, NetRead, NetSlot, PartOf;
    AdaptersAreTold(m, shown);
    SlotIsPublished(WithAdapters(m, shown), k, j);
    SlotIsPublished(m, k, j);
  }

  /** A client reads this adapter under the names of slot `k`: its texts cut to their room, its speeds modulo 2^64. */
  predicate ReadsAs(m: seq<Byte>, k: nat, a: Adapter)
    requires |m| == BLOCK_SIZE && k < 4
  {
    && CString(NetRead(m, k, 0)) == a.name[..Shorter(|a.name|, 31)]
    && CString(NetRead(m, k, 1)) == a.ip[..Shorter(|a.ip|, 15)]
    && CString(NetRead(m, k, 2)) == a.mac[..Shorter(|a.mac|, 17)]
    && CString(NetRead(m, k, 3)) == a.kind[..Shorter(|a.kind|, 15)]
    && LittleEndian(NetRead(m, k, 4)) == a.speed % 0x1_0000_0000_0000_0000
    && LittleEndian(NetRead(m, k, 5)) == a.downloadSpeed % 0x1_0000_0000_0000_0000
    && LittleEndian(NetRead(m, k, 6)) == a.uploadSpeed % 0x1_0000_0000_0000_0000
  }

  /** So every adapter shown is read, in a slot that was terminated. */
  lemma AdapterIsRead(m: seq<Byte>, shown: seq<Adapter>, k: nat)
    requires |m| == BLOCK_SIZE && |shown| <= 4 && k < |shown| && Terminated(NetSlot(m, k))
    requires var a := shown[k]; 0 !in a.name && 0 !in a.ip && 0 !in a.mac && 0 !in a.kind
    ensures ReadsAs(WithAdapters(m, shown), k, shown[k])
  {
    hide NetBytes, WithAdapters, NetRead, NetSlot, PartOf, CString, LittleEndian;
    forall j | 0 <= j < 7 {
      AdaptersAreRead(m, shown, k, j);
    }
    AdapterReadBack(NetSlot(m, k), shown[k]);
    PartsOf(NetBytes(NetSlot(m, k), shown[k]));
  }

  lemma PartsOf(b: seq<Byte>)
    requires |b| == NET_SLOT_SIZE
    ensures PartOf(b, 0) == b[NET_NAME..NET_IP] && PartOf(b, 1) == b[NET_IP..NET_MAC]
    ensures PartOf(b, 2) == b[NET_MAC..NET_TYPE] && PartOf(b, 3) == b[NET_TYPE..NET_SPEED]
    ensures PartOf(b, 4) == b[NET_SPEED..NET_DOWNLOAD_SPEED] && PartOf(b, 5) == b[NET_DOWNLOAD_SPEED..NET_UPLOAD_SPEED]
    ensures PartOf(b, 6) == b[NET_UPLOAD_SPEED..]
  {
  }

  lemma SliceOfSlice(m: seq<Byte>, a: nat, b: nat, i: nat, j: nat)
    requires a <= b <= |m| && i <= j <= b - a
    ensures m[a..b][i..j] == m[a + i..a + j]
  {
    var s, t := m[a..b][i..j], m[a + i..a + j];
    assert forall x | 0 <= x < |s| :: s[x] == t[x];
  }

  /** A slot whose texts each end in a zero byte. */
  predicate Terminated(slot: seq<Byte>)
    requires |slot| == NET_SLOT_SIZE
  {
    slot[NET_IP - 1] == 0 && slot[NET_MAC - 1] == 0 && slot[NET_TYPE - 1] == 0 && slot[NET_SPEED - 1] == 0
  }

  /**
   A slot that starts out terminated stays so though no terminator is ever stored, and then each
   text reads back cut to its room and each number modulo its width.
   */
  lemma AdapterReadBack(slot: seq<Byte>, a: Adapter)
    requires |slot| == NET_SLOT_SIZE && Terminated(slot)
    requires 0 !in a.name && 0 !in a.ip && 0 !in a.mac && 0 !in a.kind
    ensures var b := NetBytes(slot, a);
      && Terminated(b)
      && CString(b[NET_NAME..NET_IP]) == a.name[..Shorter(|a.name|, 31)]
      && CString(b[NET_IP..NET_MAC]) == a.ip[..Shorter(|a.ip|, 15)]
      && CString(b[NET_MAC..NET_TYPE]) == a.mac[..Shorter(|a.mac|, 17)]
      && CString(b[NET_TYPE..NET_SPEED]) == a.kind[..Shorter(|a.kind|, 15)]
      && LittleEndian(b[NET_SPEED..NET_DOWNLOAD_SPEED]) == a.speed % 0x1_0000_0000_0000_0000
      && LittleEndian(b[NET_DOWNLOAD_SPEED..NET_UPLOAD_SPEED]) == a.downloadSpeed % 0x1_0000_0000_0000_0000
      && LittleEndian(b[NET_UPLOAD_SPEED..]) == a.uploadSpeed % 0x1_0000_0000_0000_0000
  {
    hide CString, LittleEndian, LowBytes, Strncpy, Pow256;
    PowValues();
    NetParts(slot, a);
    StrncpyReads(slot[NET_NAME..NET_IP], a.name, 31);
    StrncpyReads(slot[NET_IP..NET_MAC], a.ip, 15);
    StrncpyReads(slot[NET_MAC..NET_TYPE], a.mac, 17);
    StrncpyReads(slot[NET_TYPE..NET_SPEED], a.kind, 15);
    LittleEndianOfLowBytes(a.speed, 8);
    LittleEndianOfLowBytes(a.downloadSpeed, 8);
    LittleEndianOfLowBytes(a.uploadSpeed, 8);
  }

  lemma NetParts(slot: seq<Byte>, a: Adapter)
    requires |slot| == NET_SLOT_SIZE
    ensures var b := NetBytes(slot, a);
      && b[NET_NAME..NET_IP] == Strncpy(slot[NET_NAME..NET_IP], a.name, 31)
      && b[NET_IP..NET_MAC] == Strncpy(slot[NET_IP..NET_MAC], a.ip, 15)
      && b[NET_MAC..NET_TYPE] == Strncpy(slot[NET_MAC..NET_TYPE], a.mac, 17)
      && b[NET_TYPE..NET_SPEED] == Strncpy(slot[NET_TYPE..NET_SPEED], a.kind, 15)
      && b[NET_SPEED..NET_DOWNLOAD_SPEED] == LowBytes(a.speed, 8)
      && b[NET_DOWNLOAD_SPEED..NET_UPLOAD_SPEED] == LowBytes(a.downloadSpeed, 8)
      && b[NET_UPLOAD_SPEED..] == LowBytes(a.uploadSpeed, 8)
      && (Terminated(slot) ==> Terminated(b))
  {
    hide LowBytes, Strncpy;
    var b := NetBytes(slot, a);
    assert b[NET_IP - 1] == Strncpy(slot[NET_NAME..NET_IP], a.name, 31)[31..][0];
    assert b[NET_MAC - 1] == Strncpy(slot[NET_IP..NET_MAC], a.ip, 15)[15..][0];
    assert b[NET_TYPE - 1] == Strncpy(slot[NET_MAC..NET_TYPE], a.mac, 17)[17..][0];
    assert b[NET_SPEED - 1] == Strncpy(slot[NET_TYPE..NET_SPEED], a.kind, 15)[15..][0];
  }

  /** The schema's field that shows the attributes of physical disk `i`, and the one that counts them. */
  function JsonField(i: nat): (e: Entry)
    requires i < 8
    ensures e == InSlot(PhysicalDisks(), i, Text("attrsJson", PHYS_ATTRS_JSON, 4096))
  {
    PhysFieldAt(i, 8);
    Schema()[103 + 9 * i + 8]
  }

  function CountField(i: nat): (e: Entry)
    requires i < 8
    ensures e == InSlot(PhysicalDisks(), i, Signed("attrCount", PHYS_ATTR_COUNT))
  {
    PhysFieldAt(i, 7);
    Schema()[103 + 9 * i + 7]
  }

  lemma DiskFieldsInside(i: nat)
    requires i < 8
    ensures PHYSICAL_DISKS <= CountField(i).offset && CountField(i).size == 4 && JsonField(i).size == 4096
    ensures CountField(i).offset + 4 == JsonField(i).offset && JsonField(i).offset + 4096 <= PHYS_DISK_COUNT
  {
    hide Schema;
  }

  function JsonText(attributes: seq<SmartJson.Attribute>): seq<Byte>
    requires attributes != []
  {
    Stored(SmartJson.Print(attributes))
  }

  /** The guard of the store: there are attributes and their text is short enough. */
  predicate Storable(attributes: seq<SmartJson.Attribute>) {
    attributes != [] && |JsonText(attributes)| < 4096
  }

  /** That is when it fits the field together with its terminator. */
  lemma StorableFits(i: nat, attributes: seq<SmartJson.Attribute>)
    requires i < 8
    ensures Storable(attributes) <==> attributes != [] && |JsonText(attributes)| + 1 <= JsonField(i).size
  {
    hide Schema, JsonText;
    DiskFieldsInside(i);
  }

  /** The block after a disk's attributes have been put in: left alone if there are none or their text is too long. */
  function WithAttributes(m: seq<Byte>, i: nat, attributes: seq<SmartJson.Attribute>): (r: seq<Byte>)
    requires |m| == BLOCK_SIZE && i < 8
    ensures |r| == BLOCK_SIZE
  {
    hide Schema, InSlot;
    DiskFieldsInside(i);
    if !Storable(attributes) then m
    else
      var shown := Written(m, JsonField(i).offset, TextBytes(Held(m, JsonField(i)), JsonText(attributes)));
      Written(shown, CountField(i).offset, LowBytes(|attributes|, 4))
  }

  /** What a client reads of a disk's attributes: the number, and the text. */
  function CountRead(m: seq<Byte>, i: nat): int
    requires |m| == BLOCK_SIZE && i < 8
  {
    DiskFieldsInside(i);
    ToInt32(LittleEndian(Held(m, CountField(i))))
  }

  function TextRead(m: seq<Byte>, i: nat): seq<Byte>
    requires |m| == BLOCK_SIZE && i < 8
  {
    DiskFieldsInside(i);
    CString(Held(m, JsonField(i)))
  }

  /** A client reads these attributes in slot `i`: their number and, if there are any, their text. */
  predicate Tells(m: seq<Byte>, i: nat, attributes: seq<SmartJson.Attribute>)
    requires |m| == BLOCK_SIZE && i < 8
  {
    CountRead(m, i) == |attributes| && (attributes != [] ==> TextRead(m, i) == JsonText(attributes))
  }

  /**
   After the write a client reads this disk's attributes exactly when there are some and their
   text is short enough, or the slot told them already.
   */
  lemma AttributesAreTold(m: seq<Byte>, i: nat, attributes: seq<SmartJson.Attribute>)
    requires |m| == BLOCK_SIZE && i < 8
    ensures Tells(WithAttributes(m, i, attributes), i, attributes) <==> Storable(attributes) || Tells(m, i, attributes)
  {
    hide JsonField, CountField, JsonText, Written, TextBytes, CString, LowBytes, LittleEndian, SmartJson.Print;
    if Storable(attributes) {
      AttributesAreStored(m, i, attributes);
      StoredCount(attributes);
    }
  }

  lemma AttributesAreStored(m: seq<Byte>, i: nat, attributes: seq<SmartJson.Attribute>)
    requires |m| == BLOCK_SIZE && i < 8 && Storable(attributes)
    ensures TextRead(WithAttributes(m, i, attributes), i) == JsonText(attributes)
    ensures CountRead(WithAttributes(m, i, attributes), i) == ToInt32(LittleEndian(LowBytes(|attributes|, 4)))
  {
    hide JsonField, CountField, JsonText, Held, Written, TextBytes, CString, LowBytes, LittleEndian;
    DiskFieldsInside(i);
    JsonNoNul(attributes);
    var text := TextBytes(Held(m, JsonField(i)), JsonText(attributes));
    TextReadBack(Held(m, JsonField(i)), JsonText(attributes));
    var shown := Written(m, JsonField(i).offset, text);
    HeldOwn(m, JsonField(i), text);
    HeldOther(shown, CountField(i).offset, LowBytes(|attributes|, 4), JsonField(i));
    HeldOwn(shown, CountField(i), LowBytes(|attributes|, 4));
    assert JsonText(attributes)[..|JsonText(attributes)|] == JsonText(attributes);
  }

  /** A text that is short enough is of a number of attributes that reads back. */
  lemma StoredCount(attributes: seq<SmartJson.Attribute>)
    requires Storable(attributes)
    ensures ToInt32(LittleEndian(LowBytes(|attributes|, 4))) == |attributes|
  {
    hide *;
    FewAttributes(attributes);
    SmallCount(|attributes|);
  }

  lemma FewAttributes(attributes: seq<SmartJson.Attribute>)
    requires Storable(attributes)
    ensures |attributes| < 4096
  {
    hide SmartJson.Print, SmartJson.Items, SmartJson.Words, Stored;
    SmartJson.PrintLength(attributes);
  }

  lemma SmallCount(n: nat)
    requires n < 4096
    ensures ToInt32(LittleEndian(LowBytes(n, 4))) == n
  {
    hide LowBytes, LittleEndian, Pow256;
    PowValues();
    LittleEndianOfLowBytes(n, 4);
  }

  /** A disk without attributes goes on telling those of the disk that had its slot before. */
  lemma NoAttributesTellTheOld(m: seq<Byte>, i: nat, before: seq<SmartJson.Attribute>)
    requires |m| == BLOCK_SIZE && i < 8 && Storable(before)
    ensures var r := WithAttributes(WithAttributes(m, i, before), i, []);
      Tells(r, i, before) && !Tells(r, i, [])
  {
    hide CountRead, TextRead, WithAttributes, JsonText;
    AttributesAreTold(m, i, before);
    NothingStored(WithAttributes(m, i, before), i, []);
  }

  /** So does one whose attributes print too long, here 32 with long names. */
  lemma LongAttributesTellTheOld(m: seq<Byte>, i: nat, before: seq<SmartJson.Attribute>)
    requires |m| == BLOCK_SIZE && i < 8 && Storable(before) && |before| < 32
    ensures !Storable(SmartJson.Wordy(32))
    ensures var r := WithAttributes(WithAttributes(m, i, before), i, SmartJson.Wordy(32));
      Tells(r, i, before) && !Tells(r, i, SmartJson.Wordy(32))
  {
    hide CountRead, TextRead, WithAttributes, SmartJson.Print, SmartJson.Wordy, SmartJson.Words;
    SmartJson.WordyLength(32);
    AttributesAreTold(m, i, before);
    NothingStored(WithAttributes(m, i, before), i, SmartJson.Wordy(32));
  }

  lemma NothingStored(m: seq<Byte>, i: nat, attributes: seq<SmartJson.Attribute>)
    requires |m| == BLOCK_SIZE && i < 8 && !Storable(attributes)
    ensures WithAttributes(m, i, attributes) == m
  {
  }

  lemma JsonNoNul(attributes: seq<SmartJson.Attribute>)
    requires attributes != []
    ensures 0 !in JsonText(attributes)
  {
    hide SmartJson.Print, SmartJson.Items, Stored;
    SmartJson.PrintNoNul(attributes);
    StoredNoNul(SmartJson.Print(attributes));
  }

  /** Two disks whose texts a client reads alike show the same attributes. */
  lemma SameTextSameAttributes(
    m: seq<Byte>, i: nat, a: seq<SmartJson.Attribute>, n: seq<Byte>, j: nat, b: seq<SmartJson.Attribute>)
    requires |m| == BLOCK_SIZE && i < 8 && Storable(a)
    requires |n| == BLOCK_SIZE && j < 8 && Storable(b)
    ensures TextRead(WithAttributes(m, i, a), i) == TextRead(WithAttributes(n, j, b), j)
      <==> SmartJson.ShowAll(a) == SmartJson.ShowAll(b)
  {
    hide WithAttributes, TextRead, SmartJson.Print, SmartJson.ShowAll, Stored;
    AttributesAreStored(m, i, a);
    AttributesAreStored(n, j, b);
    SmartJson.PrintInjective(a, b);
    if JsonText(a) == JsonText(b) {
      StoredInjective(SmartJson.Print(a), SmartJson.Print(b));
    }
  }

  class BlockWriter {
    const memory: array<Byte>

    constructor (memory: array<Byte>)
      ensures this.memory == memory
    {
      this.memory := memory;
    }

    method StoreNumber(at: nat, size: nat, v: nat)
      requires at + size <= memory.Length
      modifies memory
      ensures memory[..] == Written(old(memory[..]), at, LowBytes(v, size))
    {
      StoreBytes(at, LowBytes(v, size));
    }

    method StoreBytes(at: nat, b: seq<Byte>)
      requires at + |b| <= memory.Length
      modifies memory
      ensures memory[..] == Written(old(memory[..]), at, b)
    {
      Copy(memory, at, b);
      assert memory[..] == memory[..at] + memory[at..at + |b|] + memory[at + |b|..];
    }

    /** `strncpy` into the block. */
    method CopyString(at: nat, size: nat, text: seq<Byte>, n: nat)
      requires at + size <= memory.Length && n <= size
      modifies memory
      ensures memory[..] == Written(old(memory[..]), at, Strncpy(old(memory[at..at + size]), text, n))
    {
      StoreBytes(at, Strncpy(memory[at..at + size], text, n));
    }

    /** A text with its terminator set. */
    method StoreText(at: nat, size: nat, text: seq<Byte>)
      requires at + size <= memory.Length && size > 0
      modifies memory
      ensures memory[..] == Written(old(memory[..]), at, TextBytes(old(memory[at..at + size]), text))
    {
      hide Strncpy;
      ghost var m := memory[..];
      CopyString(at, size, text, size - 1);
      memory[at + size - 1] := 0;
      assert memory[..] == Written(m, at, Strncpy(m[at..at + size], text, size - 1))[at + size - 1 := 0];
    }

    /** The next text of a slot that is being filled from `at` on. */
    method NextText(ghost m: seq<Byte>, at: nat, ghost b: seq<Byte>, from: nat, size: nat, text: seq<Byte>)
      requires at + |b| == from && from + size <= |m| == memory.Length && size > 0 && memory[..] == Written(m, at, b)
      modifies memory
      ensures memory[..] == Written(m, at, b + Strncpy(m[from..from + size], text, size - 1))
    {
      hide Strncpy;
      HeldOther(m, at, b, Entry("", 0, from, size));
      assert memory[from..from + size] == memory[..][from..from + size] == m[from..from + size];
      CopyString(from, size, text, size - 1);
      WrittenTwice(m, at, b, Strncpy(m[from..from + size], text, size - 1));
    }

    method NextNumber(ghost m: seq<Byte>, at: nat, ghost b: seq<Byte>, from: nat, v: nat)
      requires at + |b| == from && from + 8 <= |m| == memory.Length && memory[..] == Written(m, at, b)
      modifies memory
      ensures memory[..] == Written(m, at, b + LowBytes(v, 8))
    {
      hide LowBytes;
      StoreNumber(from, 8, v);
      WrittenTwice(m, at, b, LowBytes(v, 8));
    }

    method StoreAdapter(k: nat, a: Adapter)
      requires memory.Length == BLOCK_SIZE && k < 4
      modifies memory
      ensures memory[..] == WithAdapter(old(memory[..]), k, a)
    {
      hide Strncpy, LowBytes, Written;
      var at := ADAPTERS + k * NET_SLOT_SIZE;
      ghost var m, slot := memory[..], NetSlot(memory[..], k);
      NoneWritten(m, at);
      ghost var name := Strncpy(slot[NET_NAME..NET_IP], a.name, 31);
      ghost var ip := Strncpy(slot[NET_IP..NET_MAC], a.ip, 15);
      ghost var mac := Strncpy(slot[NET_MAC..NET_TYPE], a.mac, 17);
      ghost var texts := NetTexts(slot, a);
      SlotParts(m, k);
      NextText(m, at, [], at + NET_NAME, 32, a.name);
      assert [] + name == name;
      NextText(m, at, name, at + NET_IP, 16, a.ip);
      NextText(m, at, name + ip, at + NET_MAC, 18, a.mac);
      NextText(m, at, name + ip + mac, at + NET_TYPE, 16, a.kind);
      NextNumber(m, at, texts, at + NET_SPEED, a.speed);
      NextNumber(m, at, texts + LowBytes(a.speed, 8), at + NET_DOWNLOAD_SPEED, a.downloadSpeed);
      NextNumber(m, at, texts + LowBytes(a.speed, 8) + LowBytes(a.downloadSpeed, 8), at + NET_UPLOAD_SPEED, a.uploadSpeed);
    }

    lemma NoneWritten(m: seq<Byte>, at: nat)
      requires at <= |m|
      ensures Written(m, at, []) == m
    {
    }

    lemma SlotParts(m: seq<Byte>, k: nat)
      requires |m| == BLOCK_SIZE && k < 4
      ensures var at, slot := ADAPTERS + k * NET_SLOT_SIZE, NetSlot(m, k);
        && slot[NET_NAME..NET_IP] == m[at + NET_NAME..at + NET_NAME + 32]
        && slot[NET_IP..NET_MAC] == m[at + NET_IP..at + NET_IP + 16]
        && slot[NET_MAC..NET_TYPE] == m[at + NET_MAC..at + NET_MAC + 18]
        && slot[NET_TYPE..NET_SPEED] == m[at + NET_TYPE..at + NET_TYPE + 16]
    {
      var at := ADAPTERS + k * NET_SLOT_SIZE;
      assert NetSlot(m, k) == m[at..at + NET_SLOT_SIZE];
      SliceOfSlice(m, at, at + NET_SLOT_SIZE, NET_NAME, NET_IP);
      SliceOfSlice(m, at, at + NET_SLOT_SIZE, NET_IP, NET_MAC);
      SliceOfSlice(m, at, at + NET_SLOT_SIZE, NET_MAC, NET_TYPE);
      SliceOfSlice(m, at, at + NET_SLOT_SIZE, NET_TYPE, NET_SPEED);
    }

    /** The adapter loop: those without an address are passed over, and four is the most that fit. */
    method WriteAdapters(adapters: seq<Adapter>)
      requires memory.Length == BLOCK_SIZE
      modifies memory
      ensures memory[..] == WithAdapters(old(memory[..]), Shown(adapters))
    {
      hide WithAdapter, Written, Connected;
      ghost var m := memory[..];
      StoreNumber(ADAPTER_COUNT, 1, 0);
      OneByte(0);
      NoneShown(m);
      assert adapters[..0] == [];
      var count := 0;
      var ai := 0;
      while ai < |adapters| && count < 4
        invariant ai <= |adapters| && count == |Connected(adapters[..ai])| <= 4
        invariant memory[..] == WithAdapters(m, Connected(adapters[..ai]))
      {
        ConnectedNext(adapters, ai);
        if adapters[ai].ip != [] {
          StoreAdapter(count, adapters[ai]);
          count := count + 1;
          OneByte(count);
          StoreNumber(ADAPTER_COUNT, 1, count);
          OneMoreShown(m, Connected(adapters[..ai]), adapters[ai]);
        } else {
          assert Connected(adapters[..ai + 1]) == Connected(adapters[..ai]);
        }
        ai := ai + 1;
      }
      ConnectedPrefix(adapters, ai);
      assert Shown(adapters) == Connected(adapters[..ai]);
    }

    lemma NoneShown(m: seq<Byte>)
      requires |m| == BLOCK_SIZE
      ensures Connected([]) == [] && WithAdapters(m, []) == Written(m, ADAPTER_COUNT, [0])
    {
    }

    lemma ConnectedNext(adapters: seq<Adapter>, ai: nat)
      requires ai < |adapters|
      ensures Connected(adapters[..ai + 1]) == Connected(adapters[..ai]) + (if adapters[ai].ip == [] then [] else [adapters[ai]])
    {
      assert adapters[..ai + 1][..ai] == adapters[..ai];
    }

    lemma OneMoreShown(m: seq<Byte>, shown: seq<Adapter>, a: Adapter)
      requires |m| == BLOCK_SIZE && |shown| < 4
      ensures WithAdapters(m, shown + [a])
        == Written(WithAdapter(WithAdapters(m, shown), |shown|, a), ADAPTER_COUNT, [|shown| + 1])
    {
      hide WithAdapter, Written;
      assert (shown + [a])[..|shown|] == shown;
    }

    lemma OneByte(n: nat)
      requires n < 256
      ensures LowBytes(n, 1) == [n]
    {
      assert LowBytes(n / 256, 0) == [];
    }

    lemma {:induction false} ConnectedPrefix(adapters: seq<Adapter>, ai: nat)
      requires ai <= |adapters|
      ensures Connected(adapters[..ai]) <= Connected(adapters)
      ensures ai == |adapters| ==> Connected(adapters[..ai]) == Connected(adapters)
      decreases |adapters|
    {
      if ai < |adapters| {
        var n := |adapters| - 1;
        ConnectedPrefix(adapters[..n], ai);
        assert adapters[..n][..ai] == adapters[..ai];
      } else {
        assert adapters[..ai] == adapters;
      }
    }

    /** What the writer does with a disk's attributes. */
    method StoreAttributes(i: nat, attributes: seq<SmartJson.Attribute>)
      requires memory.Length == BLOCK_SIZE && i < 8
      modifies memory
      ensures memory[..] == WithAttributes(old(memory[..]), i, attributes)
    {
      hide TextBytes, Written, LowBytes, Stored, SmartJson.Print, JsonField, CountField;
      DiskFieldsInside(i);
      if |attributes| > 0 {
        var text := SmartJson.PrintAttributes(attributes);
        var jstr := Stored(text);
        if |jstr| < 4096 {
          StoreText(JsonField(i).offset, 4096, jstr);
          StoreNumber(CountField(i).offset, 4, |attributes|);
        }
      }
    }
  }

  // ----- through the handshake --------------------------------------------------

  /** However the channels cut the bytes up, a client that has been through the handshake finds every field. */
  lemma EveryFieldIsFound(header: SchemaHeader, es: seq<Entry>, steps: seq<Handshake.Step>, k: nat)
    requires HeaderFits(header) && Carried(es) && k < |es|
    requires var schema := SchemaBytes(header, Defs(es));
      && Handshake.IsSchema(schema) && Handshake.Runs(schema, Handshake.Start(), steps)
      && Handshake.Exec(schema, Handshake.Start(), steps).client.Done?
    ensures var client := Handshake.Exec(SchemaBytes(header, Defs(es)), Handshake.Start(), steps).client;
      && client.header.totalSize == header.totalSize
      && Key(Def(es[k])) in client.fields && client.fields[Key(Def(es[k]))] == Def(es[k])
  {
    hide Handshake.IsSchema, Handshake.Runs, Handshake.Exec, Handshake.Learned, FieldMap, Key, Def, SchemaBytes, ReadHeader;
    var fields := Defs(es);
    Handshake.SchemaIsLearned(header, fields);
    Handshake.WhatAClientLearns(SchemaBytes(header, fields), steps);
    assert fields[..|fields|] == fields;
    FieldMapFaithful(fields);
    assert fields[k] == Def(es[k]);
  }

  /** Where the handshake told it to look for a name, a client finds what the server last stored under it. */
  lemma WhatIsStoredIsRead(
    header: SchemaHeader, es: seq<Entry>, steps: seq<Handshake.Step>, m: seq<Byte>, stores: seq<Store>, k: nat)
    requires HeaderFits(header) && Carried(es) && k < |es|
    requires Placed(es, 0, |m|) && Proper(es, stores)
    requires var schema := SchemaBytes(header, Defs(es));
      && Handshake.IsSchema(schema) && Handshake.Runs(schema, Handshake.Start(), steps)
      && Handshake.Exec(schema, Handshake.Start(), steps).client.Done?
    ensures var client := Handshake.Exec(SchemaBytes(header, Defs(es)), Handshake.Start(), steps).client;
      && Key(Def(es[k])) in client.fields
      && var f := client.fields[Key(Def(es[k]))];
         && f.offset + f.size <= |m|
         && Play(es, m, stores)[f.offset..f.offset + f.size] == Latest(stores, k, m[f.offset..f.offset + f.size])
  {
    hide Handshake.IsSchema, Handshake.Runs, Handshake.Exec, SchemaBytes, Play, Latest, Key;
    EveryFieldIsFound(header, es, steps, k);
    LastStoreIsRead(es, m, stores, k);
  }

  /** The server's own schema is one of these. */
  lemma TheBlockIsShared(m: seq<Byte>)
    requires |m| == BLOCK_SIZE
    ensures Carried(Schema()) && Placed(Schema(), 0, |m|)
    ensures forall k | 0 <= k < |Schema()| :: Key(Def(Schema()[k])) == Ascii(Schema()[k].name)
  {
    hide Schema, Key, Ascii, Def;
    SchemaIsCarried();
    SchemaPlaced();
    assert forall k | 0 <= k < |Schema()| :: Defs(Schema())[k] == Def(Schema()[k]);
  }
}
