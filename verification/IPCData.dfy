/**
 The wire format of the IPC schema: constants, the packed records, how a schema is
 serialised and how a reader takes it apart. The two limits and floats of a field are
 kept as their raw bytes.
 */
module IPCData {
  import opened Bytes

  const IPC_MAGIC := 0x54434D54
  const IPC_VERSION := 1
  const IPC_MAX_FIELDS := 300
  const IPC_FIELD_NAME_LEN := 32
  const IPC_FIELD_UNITS_LEN := 16
  const IPC_SCHEMA_HEADER_SIZE := 16
  const IPC_FIELD_DEF_SIZE := 80
  const PIPE_MSG_HEADER_SIZE := 4

  const HELLO: Byte := 1
  const HELLO_ACK: Byte := 2
  const ACK: Byte := 3
  const CLIENT_MCP: Byte := 2

  datatype SchemaHeader = SchemaHeader(
    magic: nat, version: nat, flags: nat, fieldCount: nat, totalSize: nat, stringBlockSize: nat)

  datatype FieldDef = FieldDef(
    id: nat, kind: nat, reserved: nat, size: nat, offset: nat, count: nat, strOffset: nat, flags: nat,
    minVal: seq<Byte>, maxVal: seq<Byte>, name: seq<Byte>, units: seq<Byte>)

  predicate HeaderFits(h: SchemaHeader) {
    && h.magic < 0x1_0000_0000 && h.version < 0x100 && h.flags < 0x100 && h.fieldCount < 0x1_0000
    && h.totalSize < 0x1_0000_0000 && h.stringBlockSize < 0x1_0000_0000
  }

  predicate FieldFits(f: FieldDef) {
    && f.id < 0x1_0000_0000 && f.kind < 0x100 && f.reserved < 0x100 && f.size < 0x1_0000
    && f.offset < 0x1_0000_0000 && f.count < 0x1_0000_0000 && f.strOffset < 0x1_0000_0000 && f.flags < 0x1_0000_0000
    && |f.minVal| == 4 && |f.maxVal| == 4 && |f.name| == IPC_FIELD_NAME_LEN && |f.units| == IPC_FIELD_UNITS_LEN
  }

  function HeaderBytes(h: SchemaHeader): (b: seq<Byte>)
    ensures |b| == IPC_SCHEMA_HEADER_SIZE
  {
    LowBytes(h.magic, 4) + LowBytes(h.version, 1) + LowBytes(h.flags, 1) + LowBytes(h.fieldCount, 2)
    + LowBytes(h.totalSize, 4) + LowBytes(h.stringBlockSize, 4)
  }

  function ReadHeader(b: seq<Byte>): SchemaHeader
    requires |b| == IPC_SCHEMA_HEADER_SIZE
  {
    SchemaHeader(LittleEndian(b[0..4]), LittleEndian(b[4..5]), LittleEndian(b[5..6]), LittleEndian(b[6..8]),
                 LittleEndian(b[8..12]), LittleEndian(b[12..16]))
  }

  function FieldBytes(f: FieldDef): (b: seq<Byte>)
    requires FieldFits(f)
    ensures |b| == IPC_FIELD_DEF_SIZE
  {
    LowBytes(f.id, 4) + LowBytes(f.kind, 1) + LowBytes(f.reserved, 1) + LowBytes(f.size, 2)
    + LowBytes(f.offset, 4) + LowBytes(f.count, 4) + LowBytes(f.strOffset, 4) + LowBytes(f.flags, 4)
    + f.minVal + f.maxVal + f.name + f.units
  }

  function ReadField(b: seq<Byte>): FieldDef
    requires |b| == IPC_FIELD_DEF_SIZE
  {
    FieldDef(LittleEndian(b[0..4]), LittleEndian(b[4..5]), LittleEndian(b[5..6]), LittleEndian(b[6..8]),
             LittleEndian(b[8..12]), LittleEndian(b[12..16]), LittleEndian(b[16..20]), LittleEndian(b[20..24]),
             b[24..28], b[28..32], b[32..64], b[64..80])
  }

  lemma NumberReadBack(n: nat, w: nat)
    requires n < Pow256(w)
    ensures LittleEndian(LowBytes(n, w)) == n
  {
    LittleEndianOfLowBytes(n, w);
  }

  lemma HeaderRoundTrip(h: SchemaHeader)
    requires HeaderFits(h)
    ensures ReadHeader(HeaderBytes(h)) == h
  {
    hide LowBytes, LittleEndian, Pow256;
    PowValues();
    HeaderSlices(h);
    NumberReadBack(h.magic, 4);
    NumberReadBack(h.version, 1);
    NumberReadBack(h.flags, 1);
    NumberReadBack(h.fieldCount, 2);
    NumberReadBack(h.totalSize, 4);
    NumberReadBack(h.stringBlockSize, 4);
  }

  lemma HeaderSlices(h: SchemaHeader)
    ensures var b := HeaderBytes(h);
      && b[0..4] == LowBytes(h.magic, 4) && b[4..5] == LowBytes(h.version, 1) && b[5..6] == LowBytes(h.flags, 1)
      && b[6..8] == LowBytes(h.fieldCount, 2) && b[8..12] == LowBytes(h.totalSize, 4)
      && b[12..16] == LowBytes(h.stringBlockSize, 4)
  {
    hide LowBytes;
  }

  lemma FieldRoundTrip(f: FieldDef)
    requires FieldFits(f)
    ensures ReadField(FieldBytes(f)) == f
  {
    hide LowBytes, LittleEndian, Pow256;
    PowValues();
    FieldSlices(f);
    NumberReadBack(f.id, 4);
    NumberReadBack(f.kind, 1);
    NumberReadBack(f.reserved, 1);
    NumberReadBack(f.size, 2);
    NumberReadBack(f.offset, 4);
    NumberReadBack(f.count, 4);
    NumberReadBack(f.strOffset, 4);
    NumberReadBack(f.flags, 4);
  }

  lemma FieldSlices(f: FieldDef)
    requires FieldFits(f)
    ensures var b := FieldBytes(f);
      && b[0..4] == LowBytes(f.id, 4) && b[4..5] == LowBytes(f.kind, 1) && b[5..6] == LowBytes(f.reserved, 1)
      && b[6..8] == LowBytes(f.size, 2) && b[8..12] == LowBytes(f.offset, 4) && b[12..16] == LowBytes(f.count, 4)
      && b[16..20] == LowBytes(f.strOffset, 4) && b[20..24] == LowBytes(f.flags, 4)
      && b[24..28] == f.minVal && b[28..32] == f.maxVal && b[32..64] == f.name && b[64..80] == f.units
  {
    hide LowBytes;
  }

  // ----- whole schemas ----------------------------------------------------------

  predicate AllFit(fields: seq<FieldDef>) { forall k | 0 <= k < |fields| :: FieldFits(fields[k]) }

  function Table(fields: seq<FieldDef>): (b: seq<Byte>)
    requires AllFit(fields)
    ensures |b| == IPC_FIELD_DEF_SIZE * |fields|
  {
    if fields == [] then [] else FieldBytes(fields[0]) + Table(fields[1..])
  }

  function SchemaBytes(h: SchemaHeader, fields: seq<FieldDef>): seq<Byte>
    requires AllFit(fields)
  {
    HeaderBytes(h.(fieldCount := |fields| % 0x1_0000)) + Table(fields)
  }

  lemma {:induction false} TableAt(fields: seq<FieldDef>, k: nat)
    requires AllFit(fields) && k < |fields|
    ensures Table(fields)[80 * k..80 * k + 80] == FieldBytes(fields[k])
  {
    hide FieldBytes;
    if k > 0 {
      TableAt(fields[1..], k - 1);
      assert Table(fields)[80 * k..80 * k + 80] == Table(fields[1..])[80 * (k - 1)..80 * (k - 1) + 80];
    }
  }

  lemma {:induction false} TablePrefix(fields: seq<FieldDef>, n: nat)
    requires AllFit(fields) && n <= |fields|
    ensures Table(fields)[..80 * n] == Table(fields[..n])
  {
    hide FieldBytes;
    if n > 0 {
      assert fields[..n][1..] == fields[1..][..n - 1];
      TablePrefix(fields[1..], n - 1);
      assert Table(fields)[..80 * n] == FieldBytes(fields[0]) + Table(fields[1..])[..80 * (n - 1)];
    }
  }

  function Key(f: FieldDef): seq<Byte> { CString(f.name) }

  /** The reader's map: a field is found under its name, the last one of that name wins. */
  function FieldMap(fields: seq<FieldDef>): map<seq<Byte>, FieldDef> {
    if fields == [] then map[]
    else
      var last := fields[|fields| - 1];
      FieldMap(fields[..|fields| - 1])[Key(last) := last]
  }

  predicate DistinctNames(fields: seq<FieldDef>) {
    forall i, j | 0 <= i < j < |fields| :: Key(fields[i]) != Key(fields[j])
  }

  /** Under each name the map holds the last field of that name. */
  lemma {:induction false} FieldMapLast(fields: seq<FieldDef>, i: nat)
    requires i < |fields| && forall j | i < j < |fields| :: Key(fields[j]) != Key(fields[i])
    ensures Key(fields[i]) in FieldMap(fields) && FieldMap(fields)[Key(fields[i])] == fields[i]
    decreases |fields|
  {
    hide Key;
    var n := |fields| - 1;
    if i < n {
      assert forall j | i < j < n :: fields[..n][j] == fields[j];
      FieldMapLast(fields[..n], i);
    }
  }

  /** With distinct names the map holds each field under its name. */
  lemma FieldMapFaithful(fields: seq<FieldDef>)
    requires DistinctNames(fields)
    ensures forall i | 0 <= i < |fields| :: Key(fields[i]) in FieldMap(fields) && FieldMap(fields)[Key(fields[i])] == fields[i]
  {
    hide Key, FieldMap;
    forall i | 0 <= i < |fields|
      ensures Key(fields[i]) in FieldMap(fields) && FieldMap(fields)[Key(fields[i])] == fields[i]
    {
      FieldMapLast(fields, i);
    }
  }

  /** The map answers to the names of the schema and to no others. */
  lemma {:induction false} FieldMapKeys(fields: seq<FieldDef>)
    ensures FieldMap(fields).Keys == set i | 0 <= i < |fields| :: Key(fields[i])
    decreases |fields|
  {
    hide Key;
    if fields != [] {
      var n := |fields| - 1;
      FieldMapKeys(fields[..n]);
      assert forall i | 0 <= i < n :: Key(fields[..n][i]) == Key(fields[i]);
    }
  }

  // ----- the code on both sides -------------------------------------------------

  /** The server's buffer: the header with the true count, then every record at its place. */
  method SerializeSchema(header: SchemaHeader, fields: seq<FieldDef>) returns (buf: array<Byte>)
    requires AllFit(fields)
    ensures fresh(buf) && buf[..] == SchemaBytes(header, fields)
  {
    hide HeaderBytes, FieldBytes, Table, CString;
    var h := header.(fieldCount := |fields| % 0x1_0000);
    buf := new Byte[IPC_SCHEMA_HEADER_SIZE + |fields| * IPC_FIELD_DEF_SIZE](_ => 0);
    Copy(buf, 0, HeaderBytes(h));
    TableNone();
    for i := 0 to |fields|
      invariant buf[..16 + 80 * i] == HeaderBytes(h) + Table(fields[..i])
    {
      ghost var before := buf[..16 + 80 * i];
      Copy(buf, 16 + 80 * i, FieldBytes(fields[i]));
      TablePush(fields, i);
      assert buf[..16 + 80 * i] == before;
      assert buf[..16 + 80 * (i + 1)] == before + FieldBytes(fields[i]);
    }
    assert fields[..|fields|] == fields;
    assert buf[..] == buf[..16 + 80 * |fields|];
  }

  lemma TableNone()
    ensures AllFit([]) && Table([]) == []
  {
  }

  lemma TablePush(fields: seq<FieldDef>, i: nat)
    requires AllFit(fields) && i < |fields|
    ensures Table(fields[..i + 1]) == Table(fields[..i]) + FieldBytes(fields[i])
  {
    hide FieldBytes;
    var upTo := fields[..i + 1];
    TableAt(upTo, i);
    TablePrefix(upTo, i);
    assert upTo[..i] == fields[..i];
    assert Table(upTo) == Table(upTo)[..80 * i] + Table(upTo)[80 * i..80 * i + 80];
  }

  /** `memcpy` to an offset of a buffer. */
  method Copy(buf: array<Byte>, at: nat, bytes: seq<Byte>)
    requires at + |bytes| <= buf.Length
    modifies buf
    ensures buf[..at] == old(buf[..at]) && buf[at..at + |bytes|] == bytes
    ensures buf[at + |bytes|..] == old(buf[at + |bytes|..])
  {
    for k := 0 to |bytes|
      invariant forall i | 0 <= i < buf.Length :: buf[i] == if at <= i < at + k then bytes[i - at] else old(buf[i])
    {
      buf[at + k] := bytes[k];
    }
  }

  /** The client's loop over the table it has read. */
  method BuildFields(table: seq<Byte>, fieldCount: nat) returns (fields: map<seq<Byte>, FieldDef>)
    requires |table| == IPC_FIELD_DEF_SIZE * fieldCount
    ensures fields == FieldMap(Records(table))
  {
    hide ReadField, Records, Key, FieldMap;
    fields := map[];
    NothingRead();
    for i := 0 to fieldCount
      invariant fields == FieldMap(Records(table[..80 * i]))
    {
      var f := ReadField(table[80 * i..80 * i + 80]);
      RecordsPush(table, i);
      FieldMapPush(Records(table[..80 * i]), f);
      fields := fields[Key(f) := f];
    }
    assert table[..80 * fieldCount] == table;
  }

  /** The records a table spells. */
  function Records(table: seq<Byte>): (r: seq<FieldDef>)
    requires |table| % IPC_FIELD_DEF_SIZE == 0
    ensures |r| == |table| / IPC_FIELD_DEF_SIZE
  {
    if table == [] then []
    else Records(table[..|table| - 80]) + [ReadField(table[|table| - 80..])]
  }

  lemma NothingRead()
    ensures Records([]) == [] && FieldMap([]) == map[]
  {
  }

  lemma FieldMapPush(fields: seq<FieldDef>, f: FieldDef)
    ensures FieldMap(fields + [f]) == FieldMap(fields)[Key(f) := f]
  {
    assert (fields + [f])[..|fields|] == fields;
  }

  lemma RecordsPush(table: seq<Byte>, i: nat)
    requires |table| % 80 == 0 && 80 * i + 80 <= |table|
    ensures Records(table[..80 * (i + 1)]) == Records(table[..80 * i]) + [ReadField(table[80 * i..80 * i + 80])]
  {
    var upTo := table[..80 * (i + 1)];
    assert upTo[..|upTo| - 80] == table[..80 * i];
    assert upTo[|upTo| - 80..] == table[80 * i..80 * i + 80];
  }

  lemma {:induction false} RecordsOfTable(fields: seq<FieldDef>)
    requires AllFit(fields)
    ensures Records(Table(fields)) == fields
    decreases |fields|
  {
    hide FieldBytes, ReadField, Table;
    if fields == [] {
      TableNone();
    } else {
      var n := |fields| - 1;
      RecordsOfTable(fields[..n]);
      TablePush(fields, n);
      FieldRoundTrip(fields[n]);
      assert fields[..n + 1] == fields;
      var t := Table(fields);
      assert t[..|t| - 80] == Table(fields[..n]) && t[|t| - 80..] == FieldBytes(fields[n]);
    }
  }
}
