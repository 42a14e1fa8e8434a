/**
 The handshake between a client and the server's thread for it, as steps over two byte
 channels. A read takes any positive number of the bytes that have arrived, up to the
 number asked for, waits while none are there, and meets end of file once the other
 side has closed; the schema may arrive in any pieces.
 */
module Handshake {
  import opened Bytes
  import opened IPCData

  // Everything a client ever sends: HELLO, its one byte of payload, and ACK.
  function HelloBytes(): (b: seq<Byte>) ensures |b| == 4 { [HELLO, 1, 1, 0] }
  function TypeByte(): (b: seq<Byte>) ensures |b| == 1 { [CLIENT_MCP] }
  function AckBytes(): (b: seq<Byte>) ensures |b| == 4 { [ACK, 1, 0, 0] }
  function Script(): (b: seq<Byte>) ensures |b| == 9 { HelloBytes() + TypeByte() + AckBytes() }

  // The server's answer; the schema follows it.
  function HelloAckBytes(): (b: seq<Byte>) ensures |b| == 4 && b[0] == HELLO_ACK { [HELLO_ACK, 1, 0, 0] }

  // A message as its declaration initialises it, before any byte is read into it.
  const FRESH_MESSAGE: seq<Byte> := [0, 1, 0, 0]

  datatype Client =
    | Hello
    | ClientType
    | AwaitAck
    | AwaitHeader
    | Reading(header: SchemaHeader, buffer: seq<Byte>)
    | Acknowledge(header: SchemaHeader, fields: map<seq<Byte>, FieldDef>)
    | Done(header: SchemaHeader, fields: map<seq<Byte>, FieldDef>)
    | Failed

  datatype Server =
    | AwaitHello
    | AwaitType
    | SendAck(kind: nat)
    | SendSchema(kind: nat, rest: seq<Byte>)
    | AwaitClientAck(kind: nat)
    | Serving(kind: nat)
    | Closed

  /**
   The two channels. `asked` and `sent` count the bytes client and server have written,
   `heard` and `got` those the other side has read.
   */
  datatype Wire = Wire(
    toServer: seq<Byte>, toClient: seq<Byte>, asked: nat, heard: nat, sent: nat, got: nat)

  /** `short` says that a read of a fixed size has fallen short. */
  datatype State = State(client: Client, server: Server, wire: Wire, short: bool)

  datatype Step = ClientStep(n: nat) | ServerStep(n: nat)

  function Start(): State {
    State(Hello, AwaitHello, Wire([], [], 0, 0, 0, 0), false)
  }

  /** How many records the client takes, whatever the header says. */
  function Wanted(h: SchemaHeader): nat {
    if h.fieldCount > IPC_MAX_FIELDS then IPC_MAX_FIELDS else h.fieldCount
  }

  function TableSize(h: SchemaHeader): nat { IPC_FIELD_DEF_SIZE * Wanted(h) }

  /** What a read of up to `size` bytes may return; zero is end of file. */
  predicate CanRead(channel: seq<Byte>, peerGone: bool, size: nat, n: nat) {
    if channel == [] then peerGone && n == 0 else 1 <= n <= size && n <= |channel|
  }

  predicate ClientCan(s: State, n: nat) {
    match s.client
    case Hello | ClientType | Acknowledge(_, _) => n == 0
    case AwaitAck => CanRead(s.wire.toClient, s.server.Closed?, PIPE_MSG_HEADER_SIZE, n)
    case AwaitHeader => CanRead(s.wire.toClient, s.server.Closed?, IPC_SCHEMA_HEADER_SIZE, n)
    case Reading(h, buffer) => |buffer| < TableSize(h) && CanRead(s.wire.toClient, s.server.Closed?, TableSize(h) - |buffer|, n)
    case Done(_, _) | Failed => false
  }

  predicate ServerCan(s: State, n: nat) {
    match s.server
    case AwaitHello | AwaitClientAck(_) => CanRead(s.wire.toServer, s.client.Failed?, PIPE_MSG_HEADER_SIZE, n)
    case AwaitType => CanRead(s.wire.toServer, s.client.Failed?, 1, n)
    case SendAck(_) => n == 0
    case SendSchema(_, rest) => 1 <= n <= |rest|
    case Serving(_) | Closed => false
  }

  predicate Can(s: State, step: Step) {
    match step
    case ClientStep(n) => ClientCan(s, n)
    case ServerStep(n) => ServerCan(s, n)
  }

  function FromClient(w: Wire, bytes: seq<Byte>): Wire {
    w.(toServer := w.toServer + bytes, asked := w.asked + |bytes|)
  }

  function FromServer(w: Wire, bytes: seq<Byte>): Wire {
    w.(toClient := w.toClient + bytes, sent := w.sent + |bytes|)
  }

  function ByClient(w: Wire, n: nat): Wire
    requires n <= |w.toClient|
  {
    w.(toClient := w.toClient[n..], got := w.got + n)
  }

  function ByServer(w: Wire, n: nat): Wire
    requires n <= |w.toServer|
  {
    w.(toServer := w.toServer[n..], heard := w.heard + n)
  }

  /** The client writes: refused once the server has closed. */
  function Tell(s: State, bytes: seq<Byte>, next: Client): State {
    if s.server.Closed? then s.(client := Failed)
    else s.(client := next, wire := FromClient(s.wire, bytes))
  }

  /** The client goes on once its table is as long as it wants it. */
  function Table(h: SchemaHeader, buffer: seq<Byte>): Client {
    if |buffer| == TableSize(h) then Acknowledge(h, FieldMap(Records(buffer))) else Reading(h, buffer)
  }

  function Headed(h: SchemaHeader): Client {
    if h.magic == IPC_MAGIC then Table(h, []) else Failed
  }

  function ClientAfter(s: State, n: nat): State
    requires ClientCan(s, n)
  {
    match s.client
    case Hello => Tell(s, HelloBytes(), ClientType)
    case ClientType => Tell(s, TypeByte(), AwaitAck)
    case AwaitAck =>
      var full := n == PIPE_MSG_HEADER_SIZE;
      var next := if full && s.wire.toClient[0] == HELLO_ACK then AwaitHeader else Failed;
      State(next, s.server, ByClient(s.wire, n), s.short || 0 < n < PIPE_MSG_HEADER_SIZE)
    case AwaitHeader =>
      var full := n == IPC_SCHEMA_HEADER_SIZE;
      var next := if full then Headed(ReadHeader(s.wire.toClient[..16])) else Failed;
      State(next, s.server, ByClient(s.wire, n), s.short || 0 < n < IPC_SCHEMA_HEADER_SIZE)
    case Reading(h, buffer) =>
      var next := if n == 0 then Failed else Table(h, buffer + s.wire.toClient[..n]);
      State(next, s.server, ByClient(s.wire, n), s.short)
    case Acknowledge(h, fields) => Tell(s, AckBytes(), Done(h, fields))
  }

  /** What a message holds after its first bytes have been read over it. */
  function Over(read: seq<Byte>): (m: seq<Byte>)
    requires |read| <= 4
    ensures |m| == 4
  {
    read + FRESH_MESSAGE[|read|..]
  }

  function Welcome(m: seq<Byte>): Server
    requires |m| == 4
  {
    if m[0] != HELLO then Closed
    else if LittleEndian(m[2..4]) >= 1 then AwaitType
    else SendAck(0)
  }

  function ServerAfter(s: State, n: nat, schema: seq<Byte>): State
    requires ServerCan(s, n)
  {
    match s.server
    case AwaitHello =>
      var next := if n == 0 then Closed else Welcome(Over(s.wire.toServer[..n]));
      State(s.client, next, ByServer(s.wire, n), s.short || 0 < n < PIPE_MSG_HEADER_SIZE)
    case AwaitType =>
      var kind := if n == 1 && s.wire.toServer[0] <= 2 then s.wire.toServer[0] else 0;
      State(s.client, SendAck(kind), ByServer(s.wire, n), s.short)
    case SendAck(kind) =>
      State(s.client, SendSchema(kind, schema), FromServer(s.wire, HelloAckBytes()), s.short)
    case SendSchema(kind, rest) =>
      var next := if n == |rest| then AwaitClientAck(kind) else SendSchema(kind, rest[n..]);
      State(s.client, next, FromServer(s.wire, rest[..n]), s.short)
    case AwaitClientAck(kind) =>
      var next := if n > 0 && s.wire.toServer[0] == ACK then Serving(kind) else Closed;
      State(s.client, next, ByServer(s.wire, n), s.short || 0 < n < PIPE_MSG_HEADER_SIZE)
  }

  function After(s: State, step: Step, schema: seq<Byte>): State
    requires Can(s, step)
  {
    match step
    case ClientStep(n) => ClientAfter(s, n)
    case ServerStep(n) => ServerAfter(s, n, schema)
  }

  // ----- runs -------------------------------------------------------------------

  /** The steps can be taken one after the other from `s`. */
  predicate Runs(schema: seq<Byte>, s: State, steps: seq<Step>)
    decreases |steps|
  {
    steps == [] || (Can(s, steps[0]) && Runs(schema, After(s, steps[0], schema), steps[1..]))
  }

  function Exec(schema: seq<Byte>, s: State, steps: seq<Step>): State
    requires Runs(schema, s, steps)
    decreases |steps|
  {
    if steps == [] then s else Exec(schema, After(s, steps[0], schema), steps[1..])
  }

  /** A schema as the server sends it: a header, then whole records. */
  predicate IsSchema(schema: seq<Byte>) {
    && |schema| >= IPC_SCHEMA_HEADER_SIZE
    && TableSize(ReadHeader(schema[..16])) <= |schema| - 16
  }

  function Stream(schema: seq<Byte>): (b: seq<Byte>) ensures |b| == 4 + |schema| { HelloAckBytes() + schema }

  /** Both channels are first in, first out: what is under way is what was sent and not yet read. */
  predicate Channels(schema: seq<Byte>, w: Wire) {
    && w.heard <= w.asked <= |Script()| && w.toServer == Script()[w.heard..w.asked]
    && w.got <= w.sent <= |Stream(schema)| && w.toClient == Stream(schema)[w.got..w.sent]
  }

  /** The map a client builds from a schema. */
  function Learned(schema: seq<Byte>): map<seq<Byte>, FieldDef>
    requires IsSchema(schema)
  {
    FieldMap(Records(schema[16..16 + TableSize(ReadHeader(schema[..16]))]))
  }

  predicate Understood(schema: seq<Byte>, s: State, h: SchemaHeader, fields: map<seq<Byte>, FieldDef>)
    requires IsSchema(schema)
  {
    && h == ReadHeader(schema[..16]) && h.magic == IPC_MAGIC
    && s.wire.got == 20 + TableSize(h) && fields == Learned(schema)
  }

  predicate ClientInv(schema: seq<Byte>, s: State)
    requires IsSchema(schema)
  {
    match s.client
    case Hello => s.wire.asked == 0 && s.wire.got == 0
    case ClientType => s.wire.asked == 4 && s.wire.got == 0
    case AwaitAck => s.wire.asked == 5 && s.wire.got == 0
    case AwaitHeader => s.wire.asked == 5 && s.wire.got == 4
    case Reading(h, buffer) =>
      && s.wire.asked == 5 && h == ReadHeader(schema[..16]) && h.magic == IPC_MAGIC
      && s.wire.got == 20 + |buffer| && |buffer| < TableSize(h) && buffer == schema[16..16 + |buffer|]
    case Acknowledge(h, fields) => s.wire.asked == 5 && Understood(schema, s, h, fields)
    case Done(h, fields) => s.wire.asked == 9 && Understood(schema, s, h, fields)
    case Failed => s.wire.asked <= 5
  }

  /** Past its greeting the server has heard five bytes just when it knows the client for what it is. */
  predicate Greeted(s: State, kind: nat) {
    1 <= s.wire.heard <= 5 && kind <= 2 && (s.wire.heard == 5 ==> kind == CLIENT_MCP)
  }

  predicate ServerInv(schema: seq<Byte>, s: State) {
    match s.server
    case AwaitHello => s.wire.heard == 0 && s.wire.sent == 0
    case AwaitType => 3 <= s.wire.heard <= 4 && s.wire.sent == 0
    case SendAck(kind) => Greeted(s, kind) && s.wire.sent == 0
    case SendSchema(kind, rest) =>
      Greeted(s, kind) && rest != [] && |rest| <= |schema| && s.wire.sent == 4 + |schema| - |rest|
      && rest == schema[|schema| - |rest|..]
    case AwaitClientAck(kind) => Greeted(s, kind) && s.wire.sent == |Stream(schema)|
    case Serving(kind) => kind == CLIENT_MCP && 6 <= s.wire.heard <= 9 && s.wire.sent == |Stream(schema)|
    case Closed => true
  }

  /** What a run without a short read looks like, and the trace a short read leaves for good. */
  predicate ShortInv(s: State) {
    && (!s.short ==>
          match s.server
          case AwaitHello => true
          case AwaitType => s.wire.heard == 4
          case SendAck(_) | SendSchema(_, _) | AwaitClientAck(_) => s.wire.heard == 5 || s.client.Failed?
          case Serving(_) => s.wire.heard == 9
          case Closed => s.client.Failed?)
    && (s.short ==>
          match s.server
          case AwaitHello => s.client.Failed?
          case AwaitType => s.wire.heard == 3 || s.client.Failed?
          case SendAck(_) | SendSchema(_, _) | AwaitClientAck(_) => s.wire.heard < 5 || s.client.Failed?
          case Serving(_) => s.wire.heard < 9
          case Closed => true)
  }

  /** The only ways a client fails: a wrong magic number, a short read, or a server that has closed. */
  predicate FailureInv(schema: seq<Byte>, s: State)
    requires IsSchema(schema)
  {
    s.client.Failed? && !s.short ==> ReadHeader(schema[..16]).magic != IPC_MAGIC
  }

  predicate Inv(schema: seq<Byte>, s: State)
    requires IsSchema(schema)
  {
    Channels(schema, s.wire) && ClientInv(schema, s) && ServerInv(schema, s) && ShortInv(s) && FailureInv(schema, s)
  }

  // ----- every step keeps the invariant -----------------------------------------

  lemma Drop(a: seq<Byte>, i: nat, j: nat, n: nat)
    requires i + n <= j <= |a|
    ensures a[i..j][n..] == a[i + n..j] && a[i..j][..n] == a[i..i + n]
  {
  }

  lemma Join(a: seq<Byte>, i: nat, j: nat, k: nat)
    requires i <= j <= k <= |a|
    ensures a[i..j] + a[j..k] == a[i..k]
  {
  }

  lemma StreamAt(schema: seq<Byte>, i: nat, j: nat)
    requires i <= j <= |schema|
    ensures Stream(schema)[4 + i..4 + j] == schema[i..j]
    ensures Stream(schema)[0..4] == HelloAckBytes()
  {
  }

  lemma ScriptParts()
    ensures Script()[0..4] == HelloBytes() && Script()[4..5] == TypeByte() && Script()[5..9] == AckBytes()
    ensures Script()[4] == CLIENT_MCP
    ensures forall i | 1 <= i < 9 :: Script()[i] == ACK <==> i == 5
  {
    assert Script() == [1, 1, 1, 0, 2, 3, 1, 0, 0];
  }

  lemma ClientWrites(schema: seq<Byte>, w: Wire, bytes: seq<Byte>)
    requires Channels(schema, w) && w.asked + |bytes| <= |Script()|
    requires Script()[w.asked..w.asked + |bytes|] == bytes
    ensures Channels(schema, FromClient(w, bytes))
  {
    hide Stream, Script;
    Join(Script(), w.heard, w.asked, w.asked + |bytes|);
  }

  lemma ServerWrites(schema: seq<Byte>, w: Wire, bytes: seq<Byte>)
    requires Channels(schema, w) && w.sent + |bytes| <= |Stream(schema)|
    requires Stream(schema)[w.sent..w.sent + |bytes|] == bytes
    ensures Channels(schema, FromServer(w, bytes))
  {
    hide Stream, Script;
    Join(Stream(schema), w.got, w.sent, w.sent + |bytes|);
  }

  lemma ClientReads(schema: seq<Byte>, w: Wire, n: nat)
    requires Channels(schema, w) && n <= |w.toClient|
    ensures Channels(schema, ByClient(w, n)) && w.got + n <= |Stream(schema)|
    ensures w.toClient[..n] == Stream(schema)[w.got..w.got + n]
  {
    hide Stream, Script;
    Drop(Stream(schema), w.got, w.sent, n);
  }

  lemma ServerReads(schema: seq<Byte>, w: Wire, n: nat)
    requires Channels(schema, w) && n <= |w.toServer|
    ensures Channels(schema, ByServer(w, n)) && w.heard + n <= w.asked <= 9
    ensures w.toServer[..n] == Script()[w.heard..w.heard + n]
    ensures n > 0 ==> w.toServer[0] == Script()[w.heard]
  {
    hide Stream, Script;
    Drop(Script(), w.heard, w.asked, n);
  }

  lemma Ahead(schema: seq<Byte>, w: Wire)
    requires Channels(schema, w)
    ensures |w.toServer| == w.asked - w.heard && |w.toClient| == w.sent - w.got
    ensures w.asked <= 9 && w.sent <= 4 + |schema|
  {
    hide Stream, Script;
  }

  lemma ClientKeeps(schema: seq<Byte>, s: State, n: nat)
    requires IsSchema(schema) && Inv(schema, s) && ClientCan(s, n)
    ensures Inv(schema, ClientAfter(s, n))
  {
    hide ReadHeader, FieldMap, Records, Stream, Script, Channels, HelloBytes, TypeByte, AckBytes, HelloAckBytes;
    ScriptParts();
    Ahead(schema, s.wire);
    match s.client
    case Hello => ClientWrites(schema, s.wire, HelloBytes());
    case ClientType => ClientWrites(schema, s.wire, TypeByte());
    case Acknowledge(h, fields) => ClientWrites(schema, s.wire, AckBytes());
    case AwaitAck => AckKeeps(schema, s, n);
    case AwaitHeader => HeaderKeeps(schema, s, n);
    case Reading(h, buffer) => TableKeeps(schema, s, n);
  }

  lemma AckKeeps(schema: seq<Byte>, s: State, n: nat)
    requires IsSchema(schema) && Inv(schema, s) && ClientCan(s, n) && s.client.AwaitAck?
    ensures Inv(schema, ClientAfter(s, n))
  {
    hide ReadHeader, FieldMap, Records, Stream, Script, Channels, HelloAckBytes;
    Ahead(schema, s.wire);
    ClientReads(schema, s.wire, n);
    StreamAt(schema, 0, 0);
    if n == 4 {
      assert s.wire.toClient[0] == s.wire.toClient[..4][0] == HelloAckBytes()[0];
    }
  }

  lemma HeaderKeeps(schema: seq<Byte>, s: State, n: nat)
    requires IsSchema(schema) && Inv(schema, s) && ClientCan(s, n) && s.client.AwaitHeader?
    ensures Inv(schema, ClientAfter(s, n))
  {
    hide ReadHeader, FieldMap, Records, Stream, Script, Channels;
    Ahead(schema, s.wire);
    ClientReads(schema, s.wire, n);
    StreamAt(schema, 0, n);
    assert schema[..n] == schema[0..n];
  }

  lemma TableKeeps(schema: seq<Byte>, s: State, n: nat)
    requires IsSchema(schema) && Inv(schema, s) && ClientCan(s, n) && s.client.Reading?
    ensures Inv(schema, ClientAfter(s, n))
  {
    hide ReadHeader, FieldMap, Records, Stream, Script, Channels;
    var sofar := |s.client.buffer|;
    Ahead(schema, s.wire);
    ClientReads(schema, s.wire, n);
    StreamAt(schema, 16 + sofar, 16 + sofar + n);
    Join(schema, 16, 16 + sofar, 16 + sofar + n);
  }

  lemma ServerKeeps(schema: seq<Byte>, s: State, n: nat)
    requires IsSchema(schema) && Inv(schema, s) && ServerCan(s, n)
    ensures Inv(schema, ServerAfter(s, n, schema))
  {
    hide ServerAfter, Inv;
    match s.server
    case AwaitHello => GreetingKeeps(schema, s, n);
    case AwaitType => TypeKeeps(schema, s, n);
    case AwaitClientAck(_) => ClientAckKeeps(schema, s, n);
    case SendAck(_) => SendAckKeeps(schema, s, n);
    case SendSchema(_, _) => SendSchemaKeeps(schema, s, n);
  }

  lemma GreetingKeeps(schema: seq<Byte>, s: State, n: nat)
    requires IsSchema(schema) && Inv(schema, s) && ServerCan(s, n) && s.server.AwaitHello?
    ensures Inv(schema, ServerAfter(s, n, schema))
  {
    hide ReadHeader, FieldMap, Records, Stream, Script, Channels, Welcome, Over;
    Ahead(schema, s.wire);
    ServerReads(schema, s.wire, n);
    if n > 0 {
      PayloadSize(n);
      assert Script()[0..n] == Script()[..n];
    }
  }

  lemma TypeKeeps(schema: seq<Byte>, s: State, n: nat)
    requires IsSchema(schema) && Inv(schema, s) && ServerCan(s, n) && s.server.AwaitType?
    ensures Inv(schema, ServerAfter(s, n, schema))
  {
    hide ReadHeader, FieldMap, Records, Stream, Script, Channels;
    Ahead(schema, s.wire);
    ServerReads(schema, s.wire, n);
    ScriptParts();
  }

  lemma SendAckKeeps(schema: seq<Byte>, s: State, n: nat)
    requires IsSchema(schema) && Inv(schema, s) && ServerCan(s, n) && s.server.SendAck?
    ensures Inv(schema, ServerAfter(s, n, schema))
  {
    hide ReadHeader, FieldMap, Records, Stream, Script, Channels, HelloAckBytes;
    StreamAt(schema, 0, 0);
    ServerWrites(schema, s.wire, HelloAckBytes());
    assert schema[0..] == schema;
  }

  lemma SendSchemaKeeps(schema: seq<Byte>, s: State, n: nat)
    requires IsSchema(schema) && Inv(schema, s) && ServerCan(s, n) && s.server.SendSchema?
    ensures Inv(schema, ServerAfter(s, n, schema))
  {
    hide ReadHeader, FieldMap, Records, Stream, Script, Channels;
    var rest := s.server.rest;
    var from := |schema| - |rest|;
    StreamAt(schema, from, from + n);
    assert rest[..n] == schema[from..from + n];
    ServerWrites(schema, s.wire, rest[..n]);
    assert rest[n..] == schema[from + n..];
  }

  lemma ClientAckKeeps(schema: seq<Byte>, s: State, n: nat)
    requires IsSchema(schema) && Inv(schema, s) && ServerCan(s, n) && s.server.AwaitClientAck?
    ensures Inv(schema, ServerAfter(s, n, schema))
  {
    hide ReadHeader, FieldMap, Records, Stream, Script, Channels;
    Ahead(schema, s.wire);
    ServerReads(schema, s.wire, n);
    ScriptParts();
  }

  /** How the server takes a greeting of which it reads the first `n` bytes. */
  lemma PayloadSize(n: nat)
    requires 1 <= n <= 4
    ensures Welcome(Over(Script()[..n])) == if n <= 2 then SendAck(0) else AwaitType
  {
    var m := Over(Script()[..n]);
    assert Script() == [1, 1, 1, 0, 2, 3, 1, 0, 0];
    assert m[0] == 1 && m[2] == (if n <= 2 then 0 else 1) && m[3] == 0;
    assert m[2..4] == [m[2], m[3]];
    TwoBytes(m[2], m[3]);
  }

  lemma TwoBytes(x: Byte, y: Byte)
    ensures LittleEndian([x, y]) == x + 256 * y
  {
    assert [x, y][1..] == [y];
    assert LittleEndian([y]) == y;
  }

  // ----- whole runs -------------------------------------------------------------

  lemma StepKeeps(schema: seq<Byte>, s: State, step: Step)
    requires IsSchema(schema) && Inv(schema, s) && Can(s, step)
    ensures Inv(schema, After(s, step, schema))
  {
    hide Inv, IsSchema, ClientAfter, ServerAfter;
    match step
    case ClientStep(n) => ClientKeeps(schema, s, n);
    case ServerStep(n) => ServerKeeps(schema, s, n);
  }

  lemma {:induction false} RunKeeps(schema: seq<Byte>, s: State, steps: seq<Step>)
    requires IsSchema(schema) && Inv(schema, s) && Runs(schema, s, steps)
    ensures Inv(schema, Exec(schema, s, steps))
    decreases |steps|
  {
    hide Inv, IsSchema, Can, After;
    if steps != [] {
      StepKeeps(schema, s, steps[0]);
      RunKeeps(schema, After(s, steps[0], schema), steps[1..]);
    }
  }

  lemma Reachable(schema: seq<Byte>, steps: seq<Step>)
    requires IsSchema(schema) && Runs(schema, Start(), steps)
    ensures Inv(schema, Exec(schema, Start(), steps))
  {
    StartInv(schema);
    RunKeeps(schema, Start(), steps);
  }

  lemma StartInv(schema: seq<Byte>)
    requires IsSchema(schema)
    ensures Inv(schema, Start())
  {
    hide ReadHeader, FieldMap, Records, Script, Stream;
    assert Script()[0..0] == [] && Stream(schema)[0..0] == [];
  }

  predicate Finished(s: State) {
    (s.client.Done? || s.client.Failed?) && (s.server.Serving? || s.server.Closed?)
  }

  /** Nothing more can happen. */
  ghost predicate AllOver(s: State) { forall step :: !Can(s, step) }

  /** Both sides are through and the server has read everything it was sent. */
  predicate Succeeded(s: State) { s.client.Done? && s.server.Serving? && s.wire.toServer == [] }

  /** However its bytes were cut up, a client that gets through has the server's header and its map. */
  lemma WhatAClientLearns(schema: seq<Byte>, steps: seq<Step>)
    requires IsSchema(schema) && Runs(schema, Start(), steps)
    ensures var s := Exec(schema, Start(), steps);
      s.client.Done? ==> s.client.header == ReadHeader(schema[..16]) && s.client.fields == Learned(schema)
  {
    hide ReadHeader, FieldMap, Records, Learned, Channels;
    Reachable(schema, steps);
  }

  /** A server that serves has a finished client on the other end and knows what kind it is. */
  lemma ServingMeansDone(schema: seq<Byte>, steps: seq<Step>)
    requires IsSchema(schema) && Runs(schema, Start(), steps)
    ensures var s := Exec(schema, Start(), steps);
      s.server.Serving? ==> s.client.Done? && s.server.kind == CLIENT_MCP
  {
    hide ReadHeader, FieldMap, Records, Learned, Script, Stream;
    Reachable(schema, steps);
  }

  /** The two sides never both wait: until both have finished some step can be taken. */
  lemma NoDeadlock(schema: seq<Byte>, steps: seq<Step>)
    requires IsSchema(schema) && Runs(schema, Start(), steps)
    ensures var s := Exec(schema, Start(), steps); !Finished(s) ==> exists step :: Can(s, step)
  {
    hide ReadHeader, FieldMap, Records, Runs, Exec;
    Reachable(schema, steps);
    var s := Exec(schema, Start(), steps);
    if !Finished(s) {
      SomeStep(schema, s);
    }
  }

  lemma SomeStep(schema: seq<Byte>, s: State)
    requires IsSchema(schema) && Inv(schema, s) && !Finished(s)
    ensures exists step :: Can(s, step)
  {
    hide ReadHeader, FieldMap, Records, Learned, Script, Stream, Channels;
    Ahead(schema, s.wire);
    var toClient := if s.wire.toClient == [] then 0 else 1;
    var toServer := if s.wire.toServer == [] then 0 else 1;
    if s.client.Hello? || s.client.ClientType? || s.client.Acknowledge? {
      assert Can(s, ClientStep(0));
    } else if s.server.SendAck? {
      assert Can(s, ServerStep(0));
    } else if s.server.SendSchema? {
      assert Can(s, ServerStep(1));
    } else if s.client.Done? || s.client.Failed? {
      assert Can(s, ServerStep(toServer));
    } else if s.server.AwaitHello? || s.server.AwaitType? {
      assert Can(s, ServerStep(1));
    } else {
      assert Can(s, ClientStep(toClient));
    }
  }

  /** What is left to do: bytes to send and to read, and turns to take. */
  function Work(schema: seq<Byte>, s: State): int {
    var clientTurns :=
      match s.client
      case Hello => 7 case ClientType => 6 case AwaitAck => 5 case AwaitHeader => 4
      case Reading(_, _) => 3 case Acknowledge(_, _) => 2 case Done(_, _) => 0 case Failed => 0;
    var serverTurns :=
      match s.server
      case AwaitHello => 5 case AwaitType => 4 case SendAck(_) => 3 case SendSchema(_, _) => 2
      case AwaitClientAck(_) => 1 case Serving(_) => 0 case Closed => 0;
    2 * (4 + |schema|) - s.wire.sent - s.wire.got + clientTurns + serverTurns
  }

  lemma StepWorks(schema: seq<Byte>, s: State, step: Step)
    requires IsSchema(schema) && Inv(schema, s) && Can(s, step)
    ensures Work(schema, After(s, step, schema)) < Work(schema, s)
  {
    hide Work, Inv, ClientAfter, ServerAfter;
    match step
    case ClientStep(n) => ClientWorks(schema, s, n);
    case ServerStep(n) => ServerWorks(schema, s, n);
  }

  lemma ClientWorks(schema: seq<Byte>, s: State, n: nat)
    requires ClientCan(s, n)
    ensures Work(schema, ClientAfter(s, n)) < Work(schema, s)
  {
    hide ReadHeader, FieldMap, Records, HelloBytes, TypeByte, AckBytes;
  }

  lemma ServerWorks(schema: seq<Byte>, s: State, n: nat)
    requires ServerCan(s, n)
    ensures Work(schema, ServerAfter(s, n, schema)) < Work(schema, s)
  {
    hide ReadHeader, HelloAckBytes, Over;
  }

  lemma InvBounds(schema: seq<Byte>, s: State)
    requires IsSchema(schema) && Inv(schema, s)
    ensures s.wire.got <= s.wire.sent <= 4 + |schema|
  {
    hide ReadHeader, FieldMap, Records, Learned, Script, Stream, ClientInv, ServerInv, ShortInv, FailureInv;
  }

  lemma {:induction false} RunWorks(schema: seq<Byte>, s: State, steps: seq<Step>)
    requires IsSchema(schema) && Inv(schema, s) && Runs(schema, s, steps)
    ensures |steps| <= Work(schema, s)
    decreases |steps|
  {
    hide Inv, IsSchema, Can, After, Work;
    if steps == [] {
      WorkIsLeft(schema, s);
    } else {
      StepWorks(schema, s, steps[0]);
      StepKeeps(schema, s, steps[0]);
      RunWorks(schema, After(s, steps[0], schema), steps[1..]);
    }
  }

  lemma WorkIsLeft(schema: seq<Byte>, s: State)
    requires IsSchema(schema) && Inv(schema, s)
    ensures 0 <= Work(schema, s)
  {
    hide Inv;
    InvBounds(schema, s);
  }

  /** Every handshake is over within a number of steps fixed by the size of the schema. */
  lemma HandshakeEnds(schema: seq<Byte>, steps: seq<Step>)
    requires IsSchema(schema) && Runs(schema, Start(), steps)
    ensures |steps| <= 2 * |schema| + 20
  {
    hide Inv, IsSchema;
    StartInv(schema);
    RunWorks(schema, Start(), steps);
  }

  /**
   Once nothing more can happen: the handshake has succeeded on both sides with no byte left for
   the server exactly when no read of a fixed size fell short and the magic number was right.
   */
  lemma SucceedsExactlyWithoutShortReads(schema: seq<Byte>, steps: seq<Step>)
    requires IsSchema(schema) && Runs(schema, Start(), steps)
    requires AllOver(Exec(schema, Start(), steps))
    ensures var s := Exec(schema, Start(), steps);
      && (Succeeded(s) <==> !s.short && ReadHeader(schema[..16]).magic == IPC_MAGIC)
      && (s.client.Done? ==> |s.wire.toClient| == s.wire.sent - 20 - TableSize(ReadHeader(schema[..16])))
      && (s.server.Serving? ==> s.wire.sent == 4 + |schema|)
  {
    hide ReadHeader, FieldMap, Records, Learned, Runs, Exec;
    NoDeadlock(schema, steps);
    Reachable(schema, steps);
    AtTheEnd(schema, Exec(schema, Start(), steps));
  }

  lemma AtTheEnd(schema: seq<Byte>, s: State)
    requires IsSchema(schema) && Inv(schema, s) && Finished(s)
    ensures Succeeded(s) <==> !s.short && ReadHeader(schema[..16]).magic == IPC_MAGIC
    ensures s.client.Done? ==> |s.wire.toClient| == s.wire.sent - 20 - TableSize(ReadHeader(schema[..16]))
    ensures s.server.Serving? ==> s.wire.sent == 4 + |schema|
  {
    hide ReadHeader, FieldMap, Records, Learned, Script, Stream, Channels;
    Ahead(schema, s.wire);
  }

  // ----- success is always in reach, and so is failure --------------------------

  predicate OnTrack(s: State) { !s.short && !s.client.Failed? }

  /** How many bytes of its table a client still wants. */
  function Missing(c: Client): nat
    requires c.Reading?
  {
    if |c.buffer| < TableSize(c.header) then TableSize(c.header) - |c.buffer| else 0
  }

  /** The step that moves all the bytes it may. */
  function Whole(s: State): Step {
    if s.client.Hello? || s.client.ClientType? || s.client.Acknowledge? then ClientStep(0)
    else if s.server.AwaitHello? then ServerStep(PIPE_MSG_HEADER_SIZE)
    else if s.server.AwaitType? then ServerStep(1)
    else if s.server.SendAck? then ServerStep(0)
    else if s.server.SendSchema? then ServerStep(|s.server.rest|)
    else if s.client.AwaitAck? then ClientStep(PIPE_MSG_HEADER_SIZE)
    else if s.client.AwaitHeader? then ClientStep(IPC_SCHEMA_HEADER_SIZE)
    else if s.client.Reading? then ClientStep(Missing(s.client))
    else ServerStep(PIPE_MSG_HEADER_SIZE)
  }

  lemma WholeIsEnabled(schema: seq<Byte>, s: State)
    requires IsSchema(schema) && Inv(schema, s) && OnTrack(s) && !Finished(s)
    ensures Can(s, Whole(s)) && !After(s, Whole(s), schema).short
  {
    hide ReadHeader, FieldMap, Records, Learned, Script, Stream, Channels, Over, Welcome;
    Ahead(schema, s.wire);
  }

  /** Until both sides have finished it can be taken, and nothing goes wrong by it. */
  lemma WholeStaysOnTrack(schema: seq<Byte>, s: State)
    requires IsSchema(schema) && Inv(schema, s) && OnTrack(s) && !Finished(s)
    requires ReadHeader(schema[..16]).magic == IPC_MAGIC
    ensures Can(s, Whole(s)) && Inv(schema, After(s, Whole(s), schema)) && OnTrack(After(s, Whole(s), schema))
  {
    hide IsSchema, Can, After, Whole, ReadHeader, Channels, ClientInv, ServerInv, ShortInv, Finished;
    WholeIsEnabled(schema, s);
    StepKeeps(schema, s, Whole(s));
  }

  /** From every reachable state in which nothing has gone wrong the handshake can still succeed. */
  lemma {:induction false} CanStillSucceed(schema: seq<Byte>, s: State) returns (more: seq<Step>)
    requires IsSchema(schema) && Inv(schema, s) && OnTrack(s)
    requires ReadHeader(schema[..16]).magic == IPC_MAGIC
    ensures Runs(schema, s, more) && Finished(Exec(schema, s, more)) && OnTrack(Exec(schema, s, more))
    ensures Inv(schema, Exec(schema, s, more))
    decreases Work(schema, s)
  {
    hide Inv, IsSchema, Can, After, Work, Whole, Finished, OnTrack, ReadHeader;
    if Finished(s) {
      more := [];
    } else {
      WholeStaysOnTrack(schema, s);
      StepWorks(schema, s, Whole(s));
      WorkIsLeft(schema, s);
      var rest := CanStillSucceed(schema, After(s, Whole(s), schema));
      more := [Whole(s)] + rest;
      assert more[1..] == rest;
    }
  }

  /** Every handshake can be run to its end, and a read that has fallen short is not undone by that. */
  lemma {:induction false} CanFinish(schema: seq<Byte>, s: State) returns (more: seq<Step>)
    requires IsSchema(schema) && Inv(schema, s)
    ensures Runs(schema, s, more) && Finished(Exec(schema, s, more)) && Inv(schema, Exec(schema, s, more))
    ensures s.short ==> Exec(schema, s, more).short
    decreases Work(schema, s)
  {
    hide Inv, IsSchema, Can, After, Work, Finished;
    if Finished(s) {
      more := [];
    } else {
      SomeStep(schema, s);
      var step :| Can(s, step);
      StepKeeps(schema, s, step);
      StepWorks(schema, s, step);
      WorkIsLeft(schema, s);
      ShortStays(schema, s, step);
      var rest := CanFinish(schema, After(s, step, schema));
      more := [step] + rest;
      assert more[1..] == rest;
    }
  }

  lemma ShortStays(schema: seq<Byte>, s: State, step: Step)
    requires Can(s, step)
    ensures s.short ==> After(s, step, schema).short
  {
    hide ReadHeader, FieldMap, Records, Over, Welcome, HelloBytes, TypeByte, AckBytes, HelloAckBytes;
  }

  lemma FinishedIsStuck(s: State)
    requires Finished(s)
    ensures AllOver(s)
  {
  }

  /** For every schema some run succeeds on both sides. */
  lemma SuccessHappens(schema: seq<Byte>)
    requires IsSchema(schema) && ReadHeader(schema[..16]).magic == IPC_MAGIC
    ensures exists steps ::
      (Runs(schema, Start(), steps) && AllOver(Exec(schema, Start(), steps))
       && !Exec(schema, Start(), steps).short && Succeeded(Exec(schema, Start(), steps)))
  {
    hide Inv, IsSchema, Can, Runs, Exec, ReadHeader;
    StartInv(schema);
    var steps := CanStillSucceed(schema, Start());
    var s := Exec(schema, Start(), steps);
    AtTheEnd(schema, s);
    FinishedIsStuck(s);
  }

  /** And for every schema some run fails, with nothing wrong but one read that took a byte too few. */
  lemma ShortReadsHappen(schema: seq<Byte>)
    requires IsSchema(schema)
    ensures exists steps ::
      (Runs(schema, Start(), steps) && AllOver(Exec(schema, Start(), steps))
       && Exec(schema, Start(), steps).short && !Succeeded(Exec(schema, Start(), steps)))
  {
    hide Inv, IsSchema, Can, After, Runs, Exec, ReadHeader;
    var s := CutGreeting(schema);
    var first := [ClientStep(0), ServerStep(3)];
    var more := CanFinish(schema, s);
    RunOn(schema, Start(), first, more);
    var t := Exec(schema, s, more);
    AtTheEnd(schema, t);
    FinishedIsStuck(t);
  }

  /** The client greets and the server's read returns three of the four bytes. */
  lemma CutGreeting(schema: seq<Byte>) returns (s: State)
    requires IsSchema(schema)
    ensures Runs(schema, Start(), [ClientStep(0), ServerStep(3)])
    ensures s == Exec(schema, Start(), [ClientStep(0), ServerStep(3)]) && s.short && Inv(schema, s)
  {
    hide Inv, IsSchema, ReadHeader, Welcome, Over, Runs, Exec;
    var s1 := After(Start(), ClientStep(0), schema);
    s := After(s1, ServerStep(3), schema);
    StartInv(schema);
    StepKeeps(schema, Start(), ClientStep(0));
    StepKeeps(schema, s1, ServerStep(3));
    TwoSteps(schema, Start(), ClientStep(0), ServerStep(3));
  }

  lemma TwoSteps(schema: seq<Byte>, s: State, a: Step, b: Step)
    requires Can(s, a) && Can(After(s, a, schema), b)
    ensures Runs(schema, s, [a, b]) && Exec(schema, s, [a, b]) == After(After(s, a, schema), b, schema)
  {
    hide Can, After;
    var steps := [a, b];
    var s1 := After(s, a, schema);
    assert steps[1..] == [b] && [b][1..] == [];
    assert Runs(schema, After(s1, b, schema), []) && Exec(schema, After(s1, b, schema), []) == After(s1, b, schema);
    assert Runs(schema, s1, [b]) && Exec(schema, s1, [b]) == After(s1, b, schema);
  }

  lemma {:induction false} RunOn(schema: seq<Byte>, s: State, steps: seq<Step>, more: seq<Step>)
    requires Runs(schema, s, steps) && Runs(schema, Exec(schema, s, steps), more)
    ensures Runs(schema, s, steps + more) && Exec(schema, s, steps + more) == Exec(schema, Exec(schema, s, steps), more)
    decreases |steps|
  {
    hide Can, After;
    if steps == [] {
      assert steps + more == more;
    } else {
      assert (steps + more)[1..] == steps[1..] + more;
      RunOn(schema, After(s, steps[0], schema), steps[1..], more);
    }
  }

  // ----- the schemas a server sends ---------------------------------------------

  /** How many of a schema's fields a client takes. */
  function Taken(fields: seq<FieldDef>): (n: nat)
    ensures n <= |fields| && n <= IPC_MAX_FIELDS
    ensures n == |fields| <==> |fields| <= IPC_MAX_FIELDS
  {
    if |fields| % 0x1_0000 > IPC_MAX_FIELDS then IPC_MAX_FIELDS else |fields| % 0x1_0000
  }

  /** A serialised schema is read back record by record, up to the client's limit. */
  lemma SchemaIsLearned(header: SchemaHeader, fields: seq<FieldDef>)
    requires HeaderFits(header) && AllFit(fields)
    ensures var schema := SchemaBytes(header, fields);
      && IsSchema(schema) && |schema| == 16 + 80 * |fields|
      && ReadHeader(schema[..16]) == header.(fieldCount := |fields| % 0x1_0000)
      && TableSize(ReadHeader(schema[..16])) == 80 * Taken(fields)
      && Learned(schema) == FieldMap(fields[..Taken(fields)])
  {
    hide ReadHeader, HeaderBytes, FieldMap, Records, IPCData.Table;
    var h := header.(fieldCount := |fields| % 0x1_0000);
    var schema := SchemaBytes(header, fields);
    HeaderRoundTrip(h);
    assert schema[..16] == HeaderBytes(h);
    var n := Taken(fields);
    assert schema[16..16 + 80 * n] == IPCData.Table(fields)[..80 * n];
    TablePrefix(fields, n);
    RecordsOfTable(fields[..n]);
  }

  /** For every schema there are runs the next two results speak of. */
  lemma CompleteRunsExist(header: SchemaHeader, fields: seq<FieldDef>)
    requires HeaderFits(header) && header.magic == IPC_MAGIC && AllFit(fields)
    ensures var schema := SchemaBytes(header, fields);
      && IsSchema(schema)
      && exists steps ::
           (Runs(schema, Start(), steps) && AllOver(Exec(schema, Start(), steps)) && !Exec(schema, Start(), steps).short)
  {
    hide ReadHeader, Learned, Runs, Exec, Can, SchemaBytes;
    SchemaIsLearned(header, fields);
    SuccessHappens(SchemaBytes(header, fields));
  }

  /**
   For a schema of at most 300 distinctly named fields a finished handshake has consumed every byte,
   and the client finds each field of the server's schema under its name and no other.
   */
  lemma SmallSchemaIsShared(header: SchemaHeader, fields: seq<FieldDef>, steps: seq<Step>)
    requires HeaderFits(header) && header.magic == IPC_MAGIC && AllFit(fields)
    requires |fields| <= IPC_MAX_FIELDS && DistinctNames(fields)
    requires IsSchema(SchemaBytes(header, fields)) && Runs(SchemaBytes(header, fields), Start(), steps)
    requires var s := Exec(SchemaBytes(header, fields), Start(), steps);
      !s.short && AllOver(s)
    ensures var s := Exec(SchemaBytes(header, fields), Start(), steps);
      && s.client.Done? && s.server == Serving(CLIENT_MCP) && s.wire.toServer == [] && s.wire.toClient == []
      && s.client.header == header.(fieldCount := |fields|)
      && (forall i | 0 <= i < |fields| :: Key(fields[i]) in s.client.fields && s.client.fields[Key(fields[i])] == fields[i])
      && s.client.fields.Keys == set i | 0 <= i < |fields| :: Key(fields[i])
  {
    hide ReadHeader, FieldMap, Records, Learned, Runs, Exec, Can, SchemaBytes, Key;
    var schema := SchemaBytes(header, fields);
    SchemaIsLearned(header, fields);
    SucceedsExactlyWithoutShortReads(schema, steps);
    WhatAClientLearns(schema, steps);
    ServingMeansDone(schema, steps);
    assert fields[..|fields|] == fields;
    FieldMapFaithful(fields);
    FieldMapKeys(fields);
  }

  /** A handshake that succeeds leaves schema bytes unread exactly when the schema has more than 300 fields. */
  lemma LargeSchemaIsLeftUnread(header: SchemaHeader, fields: seq<FieldDef>, steps: seq<Step>)
    requires HeaderFits(header) && header.magic == IPC_MAGIC && AllFit(fields)
    requires IsSchema(SchemaBytes(header, fields)) && Runs(SchemaBytes(header, fields), Start(), steps)
    requires var s := Exec(SchemaBytes(header, fields), Start(), steps);
      !s.short && AllOver(s)
    ensures var s := Exec(SchemaBytes(header, fields), Start(), steps);
      && s.client.Done? && s.client.fields == FieldMap(fields[..Taken(fields)])
      && |s.wire.toClient| == 80 * (|fields| - Taken(fields))
      && (s.wire.toClient == [] <==> |fields| <= IPC_MAX_FIELDS)
  {
    hide ReadHeader, FieldMap, Records, Learned, Runs, Exec, Can, SchemaBytes;
    var schema := SchemaBytes(header, fields);
    SchemaIsLearned(header, fields);
    SucceedsExactlyWithoutShortReads(schema, steps);
    WhatAClientLearns(schema, steps);
  }

  // ----- the client's code ------------------------------------------------------

  /** One end of a connection: the bytes still to arrive before end of file, and how many writes the peer will take. */
  class Pipe {
    var arriving: seq<Byte>
    var written: seq<Byte>
    var accepts: nat
    // The reads so far: how many bytes each asked for and how many it got.
    ghost var taken: seq<(nat, nat)>

    method Read(size: nat) returns (b: seq<Byte>)
      requires size > 0
      modifies this`arriving, this`taken
      ensures |b| <= size && old(arriving) == b + arriving
      ensures b == [] <==> old(arriving) == []
      ensures taken == old(taken) + [(size, |b|)]
    {
      if arriving == [] {
        taken := taken + [(size, 0)];
        return [];
      }
      var n: nat :| 1 <= n <= size && n <= |arriving|;
      taken := taken + [(size, n)];
      b, arriving := arriving[..n], arriving[n..];
    }

    method Write(b: seq<Byte>) returns (ok: bool)
      modifies this`written, this`accepts
      ensures ok == (old(accepts) > 0)
      ensures written == (if ok then old(written) + b else old(written))
      ensures accepts == (if ok then old(accepts) - 1 else 0)
    {
      ok := accepts > 0;
      if ok {
        accepts := accepts - 1;
        written := written + b;
      }
    }
  }

  predicate IsRest(whole: seq<Byte>, rest: seq<Byte>) {
    |rest| <= |whole| && rest == whole[|whole| - |rest|..]
  }

  lemma RestOfRest(done: seq<Byte>, read: seq<Byte>, rest: seq<Byte>)
    ensures IsRest(done + (read + rest), rest) && done + (read + rest) == (done + read) + rest
  {
    assert (done + (read + rest))[|done| + |read|..] == rest;
  }

  class IPCClient {
    const pipe: Pipe
    var schemaHeader: SchemaHeader
    var fields: map<seq<Byte>, FieldDef>

    constructor (pipe: Pipe)
      ensures this.pipe == pipe && fields == map[]
    {
      this.pipe := pipe;
      schemaHeader := SchemaHeader(IPC_MAGIC, IPC_VERSION, 0, 0, 0, 0);
      fields := map[];
    }

    /** The header of a stream that starts as the server's does. */
    static ghost function HeaderOf(stream: seq<Byte>): SchemaHeader
      requires |stream| >= 20
    {
      ReadHeader(stream[4..20])
    }

    /** The loop that reads the table in whatever pieces it comes. */
    method ReadTable(fieldBytes: nat) returns (table: seq<Byte>)
      modifies pipe`arriving, pipe`taken
      ensures old(pipe.taken) <= pipe.taken
      ensures |table| <= fieldBytes && old(pipe.arriving) == table + pipe.arriving
      ensures |table| < fieldBytes ==> pipe.arriving == []
    {
      table := [];
      while |table| < fieldBytes
        invariant |table| <= fieldBytes && old(pipe.arriving) == table + pipe.arriving && old(pipe.taken) <= pipe.taken
      {
        ghost var before := table;
        var b := pipe.Read(fieldBytes - |table|);
        if b == [] {
          return;
        }
        table := table + b;
        assert before + (b + pipe.arriving) == table + pipe.arriving;
      }
    }

    /** Everything a handshake needs is in the stream. */
    static ghost predicate Complete(stream: seq<Byte>) {
      && |stream| >= 20 && stream[0] == HELLO_ACK && HeaderOf(stream).magic == IPC_MAGIC
      && 20 + TableSize(HeaderOf(stream)) <= |stream|
    }

    /** The two reads of a fixed size, the first of this call, got all they asked for. */
    ghost predicate InFull(before: nat)
      reads pipe
    {
      && |pipe.taken| >= before + 2
      && pipe.taken[before] == (PIPE_MSG_HEADER_SIZE, PIPE_MSG_HEADER_SIZE)
      && pipe.taken[before + 1] == (IPC_SCHEMA_HEADER_SIZE, IPC_SCHEMA_HEADER_SIZE)
    }

    /**
     A handshake succeeds exactly if all it needs is in the stream, the peer takes its three writes
     and the two reads of a fixed size do not fall short.

     A handshake that succeeds has written the whole script, taken exactly the acknowledgement, the
     header and the table off the pipe, and kept what they say; one that fails before its last
     write has changed nothing it keeps.
     */
    method Handshake() returns (ok: bool)
      modifies this`schemaHeader, this`fields, pipe
      ensures IsRest(old(pipe.arriving), pipe.arriving)
      ensures ok <==> Complete(old(pipe.arriving)) && old(pipe.accepts) >= 3 && InFull(|old(pipe.taken)|)
      ensures ok ==>
        var stream := old(pipe.arriving);
        && schemaHeader == HeaderOf(stream)
        && fields == FieldMap(Records(stream[20..20 + TableSize(HeaderOf(stream))]))
        && pipe.arriving == stream[20 + TableSize(HeaderOf(stream))..]
        && pipe.written == old(pipe.written) + Script()
      ensures !ok && old(pipe.accepts) != 2 ==> schemaHeader == old(schemaHeader) && fields == old(fields)
    {
      hide ReadHeader, FieldMap, Records, HelloBytes, TypeByte, AckBytes;
      ghost var stream := pipe.arriving;
      var wrote := pipe.Write(HelloBytes());
      if !wrote { return false; }
      wrote := pipe.Write(TypeByte());
      if !wrote { return false; }

      var msg := pipe.Read(PIPE_MSG_HEADER_SIZE);
      RestOfRest([], msg, pipe.arriving);
      if |msg| != PIPE_MSG_HEADER_SIZE || msg[0] != HELLO_ACK { return false; }
      var head := pipe.Read(IPC_SCHEMA_HEADER_SIZE);
      RestOfRest(msg, head, pipe.arriving);
      if |head| != IPC_SCHEMA_HEADER_SIZE || ReadHeader(head).magic != IPC_MAGIC { return false; }
      var header := ReadHeader(head);
      assert stream == msg + head + pipe.arriving;
      assert head == stream[4..20] && pipe.arriving == stream[20..];

      var table := ReadTable(TableSize(header));
      RestOfRest(msg + head, table, pipe.arriving);
      assert stream[20..] == table + pipe.arriving;
      if |table| < TableSize(header) { return false; }
      assert table == stream[20..20 + |table|] && pipe.arriving == stream[20 + |table|..];
      schemaHeader := header;
      fields := BuildFields(table, Wanted(header));
      ok := pipe.Write(AckBytes());
    }
  }
}
