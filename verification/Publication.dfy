/**
 What a client reads under each name: from a value the server puts into the block, through
 the schema the client has been handed, to the bytes it finds under the published name.
 */
module Publication {
  import opened Bytes
  import opened IPCData
  import opened BlockSchema
  import opened BlockAccess
  import opened Options
  import Handshake
  import SmartJson
  import SmartJsonLaws
  import SmartJsonReads

  // ----- names ------------------------------------------------------------------

  function ServerSchema(header: SchemaHeader): seq<Byte> {
    hide Schema, Def, Key, Ascii;
    SchemaIsCarried();
    SchemaBytes(header, Defs(Schema()))
  }

  /** A run of the handshake over the server's schema at whose end the client is done. */
  predicate Finished(header: SchemaHeader, steps: seq<Handshake.Step>) {
    hide ServerSchema, Handshake.Start;
    && HeaderFits(header) && Handshake.IsSchema(ServerSchema(header))
    && Handshake.Runs(ServerSchema(header), Handshake.Start(), steps)
    && Handshake.Exec(ServerSchema(header), Handshake.Start(), steps).client.Done?
  }

  /** The map such a client goes by. */
  function Fields(header: SchemaHeader, steps: seq<Handshake.Step>): map<seq<Byte>, FieldDef>
    requires Finished(header, steps)
  {
    Handshake.Exec(ServerSchema(header), Handshake.Start(), steps).client.fields
  }

  /** A map that some client has after some finished handshake with the server. */
  ghost predicate Told(fields: map<seq<Byte>, FieldDef>) {
    exists header, steps :: Finished(header, steps) && Fields(header, steps) == fields
  }

  lemma ServerSchemaIsSchema(header: SchemaHeader)
    requires HeaderFits(header)
    ensures var schema := ServerSchema(header);
      Handshake.IsSchema(schema) && |schema| >= 16 && ReadHeader(schema[..16]).magic == header.magic
  {
    hide Schema, Def, Key, Ascii, AllFit, DistinctNames, SchemaBytes, ReadHeader, Handshake.IsSchema;
    SchemaIsCarried();
    Handshake.SchemaIsLearned(header, Defs(Schema()));
  }

  /** There are such clients: the server's own header leads to one. */
  lemma SomeClientIsTold()
    ensures exists fields :: Told(fields)
  {
    hide ServerSchema, ReadHeader, Handshake.IsSchema, Handshake.Runs, Handshake.Exec, Handshake.Start;
    var header := SchemaHeader(IPC_MAGIC, IPC_VERSION, 0, 0, BLOCK_SIZE, 0);
    ServerSchemaIsSchema(header);
    var schema := ServerSchema(header);
    Handshake.SuccessHappens(schema);
    var steps :| Handshake.Runs(schema, Handshake.Start(), steps)
      && Handshake.Succeeded(Handshake.Exec(schema, Handshake.Start(), steps));
    var s := Handshake.Exec(schema, Handshake.Start(), steps);
    assert Handshake.Succeeded(s);
    assert Finished(header, steps) && Told(Fields(header, steps));
  }

  /** Every entry has its definition under its name. */
  predicate Finds(fields: map<seq<Byte>, FieldDef>, es: seq<Entry>) {
    forall e | e in es :: Ascii(e.name) in fields && fields[Ascii(e.name)] == Def(e)
  }

  lemma ToldFinds(fields: map<seq<Byte>, FieldDef>)
    requires Told(fields)
    ensures Finds(fields, Schema())
  {
    hide Schema, Key, Ascii, Def, Handshake.IsSchema, Handshake.Runs, Handshake.Exec, SchemaBytes, Carried, HeaderFits;
    var header, steps :| Finished(header, steps) && Fields(header, steps) == fields;
    SchemaIsCarried();
    forall k | 0 <= k < |Schema()|
      ensures Ascii(Schema()[k].name) in fields && fields[Ascii(Schema()[k].name)] == Def(Schema()[k])
    {
      EveryFieldIsFound(header, Schema(), steps, k);
      assert Defs(Schema())[k] == Def(Schema()[k]);
    }
  }

  /** The bytes a client finds under a name. */
  function Under(fields: map<seq<Byte>, FieldDef>, m: seq<Byte>, name: string): Option<seq<Byte>> {
    if Ascii(name) in fields && Within(fields[Ascii(name)], |m|) then
      var f := fields[Ascii(name)];
      Some(m[f.offset..f.offset + f.size])
    else None
  }

  /** A client that goes by this map looks into a block laid out by these entries. */
  predicate Serves(fields: map<seq<Byte>, FieldDef>, es: seq<Entry>, m: seq<Byte>) {
    Finds(fields, es) && Placed(es, 0, |m|)
  }

  /** Under the name of an entry a client finds the bytes of its place in the block. */
  lemma EntryIsRead(fields: map<seq<Byte>, FieldDef>, es: seq<Entry>, m: seq<Byte>, e: Entry)
    requires Serves(fields, es, m) && e in es
    ensures Fits(m, e) && Under(fields, m, e.name) == Some(Held(m, e))
  {
    hide Ascii;
  }

  /** A store to the place of an entry is what a client reads under its name, and no other name reads differently. */
  lemma StoreIsRead(fields: map<seq<Byte>, FieldDef>, es: seq<Entry>, m: seq<Byte>, e: Entry, b: seq<Byte>)
    requires Serves(fields, es, m) && e in es && |b| == e.size
    ensures Fits(m, e) && Under(fields, Written(m, e.offset, b), e.name) == Some(b)
    ensures forall f | f in es && f != e :: Under(fields, Written(m, e.offset, b), f.name) == Under(fields, m, f.name)
  {
    hide Finds, Under, Held, Written;
    EntryIsRead(fields, es, m, e);
    HeldOwn(m, e, b);
    var w := Written(m, e.offset, b);
    EntryIsRead(fields, es, w, e);
    forall f | f in es && f != e
      ensures Under(fields, w, f.name) == Under(fields, m, f.name)
    {
      EntryIsRead(fields, es, m, f);
      EntryIsRead(fields, es, w, f);
      HeldOther(m, e.offset, b, f);
    }
  }

  /** A client that has been told looks into the server's block. */
  lemma ServerServes(fields: map<seq<Byte>, FieldDef>, m: seq<Byte>)
    requires |m| == BLOCK_SIZE && Told(fields)
    ensures Serves(fields, Schema(), m)
  {
    hide Schema, Told, Finds;
    ToldFinds(fields);
    SchemaPlaced();
  }

  // ----- network adapters and attributes ----------------------------------------

  /** A name within slot `i` of a run. */
  function SlotName(prefix: string, i: nat, what: string): string
    requires i < 10
  {
    prefix + [Digit(i)] + "/" + what
  }

  function TextUnder(fields: map<seq<Byte>, FieldDef>, m: seq<Byte>, name: string): Option<seq<Byte>> {
    var b := Under(fields, m, name);
    if b.Some? then Some(CString(b.value)) else None
  }

  function NumberUnder(fields: map<seq<Byte>, FieldDef>, m: seq<Byte>, name: string): Option<nat> {
    var b := Under(fields, m, name);
    if b.Some? then Some(LittleEndian(b.value)) else None
  }

  function SignedUnder(fields: map<seq<Byte>, FieldDef>, m: seq<Byte>, name: string): Option<int> {
    var b := Under(fields, m, name);
    if b.Some? then Some(ToInt32(LittleEndian(b.value))) else None
  }

  lemma NetFieldPublished(k: nat, j: nat)
    requires k < 4 && j < 7
    ensures NetField(k, j) in Schema() && NetField(k, j).name == SlotName("net/", k, NetFields()[j].name)
  {
    hide Schema, NetFields;
    NetFieldAt(k, j);
  }

  lemma NetNames()
    ensures
      && NetFields()[0].name == "name" && NetFields()[1].name == "ip" && NetFields()[2].name == "mac"
      && NetFields()[3].name == "type" && NetFields()[4].name == "speed"
      && NetFields()[5].name == "downloadSpeed" && NetFields()[6].name == "uploadSpeed"
  {
  }

  lemma NetReadUnder(fields: map<seq<Byte>, FieldDef>, m: seq<Byte>, k: nat, j: nat)
    requires Told(fields) && |m| == BLOCK_SIZE && k < 4 && j < 7
    ensures Under(fields, m, SlotName("net/", k, NetFields()[j].name)) == Some(NetRead(m, k, j))
  {
    hide Schema, NetFields, Told, Serves, Under, NetField, SlotName;
    ServerServes(fields, m);
    NetFieldPublished(k, j);
    EntryIsRead(fields, Schema(), m, NetField(k, j));
  }

  /** A client reads this adapter under the names of slot `k`: its texts cut to their room, its speeds modulo 2^64. */
  predicate ShowsAdapter(f: map<seq<Byte>, FieldDef>, m: seq<Byte>, k: nat, a: Adapter)
    requires k < 4
  {
    && TextUnder(f, m, SlotName("net/", k, "name")) == Some(a.name[..Shorter(|a.name|, 31)])
    && TextUnder(f, m, SlotName("net/", k, "ip")) == Some(a.ip[..Shorter(|a.ip|, 15)])
    && TextUnder(f, m, SlotName("net/", k, "mac")) == Some(a.mac[..Shorter(|a.mac|, 17)])
    && TextUnder(f, m, SlotName("net/", k, "type")) == Some(a.kind[..Shorter(|a.kind|, 15)])
    && NumberUnder(f, m, SlotName("net/", k, "speed")) == Some(a.speed % 0x1_0000_0000_0000_0000)
    && NumberUnder(f, m, SlotName("net/", k, "downloadSpeed")) == Some(a.downloadSpeed % 0x1_0000_0000_0000_0000)
    && NumberUnder(f, m, SlotName("net/", k, "uploadSpeed")) == Some(a.uploadSpeed % 0x1_0000_0000_0000_0000)
  }

  /** After any finished handshake every adapter shown is what a client reads under the names of its slot. */
  lemma AdapterIsReadByName(fields: map<seq<Byte>, FieldDef>, m: seq<Byte>, shown: seq<Adapter>, k: nat)
    requires |m| == BLOCK_SIZE && |shown| <= 4 && k < |shown| && Terminated(NetSlot(m, k))
    requires var a := shown[k]; 0 !in a.name && 0 !in a.ip && 0 !in a.mac && 0 !in a.kind
    requires Told(fields)
    ensures ShowsAdapter(fields, WithAdapters(m, shown), k, shown[k])
  {
    hide NetFields, Told, Under, NetRead, WithAdapters, NetSlot, Terminated, CString, LittleEndian, SlotName;
    AdapterIsRead(m, shown, k);
    NetNames();
    forall j | 0 <= j < 7 {
      NetReadUnder(fields, WithAdapters(m, shown), k, j);
    }
  }

  /** Under the two names of a physical disk's attributes a client finds their number and their text. */
  lemma DiskIsReadByName(fields: map<seq<Byte>, FieldDef>, m: seq<Byte>, i: nat)
    requires |m| == BLOCK_SIZE && i < 8 && Told(fields)
    ensures SignedUnder(fields, m, SlotName("phys/", i, "attrCount")) == Some(CountRead(m, i))
    ensures TextUnder(fields, m, SlotName("phys/", i, "attrsJson")) == Some(TextRead(m, i))
  {
    hide Schema, Told, Serves, Under, JsonField, CountField, LittleEndian, CString;
    ServerServes(fields, m);
    DiskFieldsPublished(i);
    EntryIsRead(fields, Schema(), m, CountField(i));
    EntryIsRead(fields, Schema(), m, JsonField(i));
  }

  lemma DiskFieldsPublished(i: nat)
    requires i < 8
    ensures CountField(i) in Schema() && CountField(i).name == SlotName("phys/", i, "attrCount")
    ensures JsonField(i) in Schema() && JsonField(i).name == SlotName("phys/", i, "attrsJson")
  {
    hide Schema, PhysFields;
    PhysFieldAt(i, 7);
    PhysFieldAt(i, 8);
  }

  // ----- the names of the slots ---------------------------------------------------

  /** Whatever is stored to these bytes of the block, every client that has been told reads it under this name. */
  ghost predicate Leads(name: string, at: nat, size: nat) {
    forall f, m, b | |m| == BLOCK_SIZE && |b| == size && Told(f) ::
      at + size <= |m| && Under(f, Written(m, at, b), name) == Some(b)
  }

  lemma EntryLeads(e: Entry)
    requires e in Schema()
    ensures Leads(e.name, e.offset, e.size)
  {
    hide Schema, Told, Serves, Under, Written;
    forall f, m, b: seq<Byte> | |m| == BLOCK_SIZE && |b| == e.size && Told(f)
      ensures e.offset + e.size <= |m| && Under(f, Written(m, e.offset, b), e.name) == Some(b)
    {
      ServerServes(f, m);
      StoreIsRead(f, Schema(), m, e, b);
    }
  }

  predicate Published(s: Slots, n: nat)
    requires n <= 10
  {
    forall x | x in Filled(s, n) :: x in Schema()
  }

  /** A field of a slot leads to its place in the slot. */
  lemma SlotLeads(s: Slots, n: nat, i: nat, e: Entry)
    requires i < n <= 10 && e in s.fields && Published(s, n)
    ensures Leads(SlotName(s.prefix, i, e.name), s.base + i * s.stride + e.offset, e.size)
  {
    hide Schema, Leads, Filled;
    var j :| 0 <= j < |s.fields| && s.fields[j] == e;
    FilledAt(s, n, i, j);
    assert Filled(s, n)[i * |s.fields| + j] in Filled(s, n);
    EntryLeads(InSlot(s, i, e));
  }

  lemma SlotsArePublished()
    ensures Published(Disks(), 4) && Published(Temperatures(), 10) && Published(PhysicalDisks(), 8)
  {
    hide Head, Tail, Filled, Disks, Temperatures, PhysicalDisks;
  }

  /** Each member of a disk's slot is read under its own name. */
  lemma DiskNamesLead(i: nat)
    requires i < 4
    ensures
      && Leads(SlotName("disk/", i, "label"), DISKS + i * DISK_SLOT_SIZE + DISK_LABEL, 32)
      && Leads(SlotName("disk/", i, "total"), DISKS + i * DISK_SLOT_SIZE + DISK_TOTAL_SIZE, 8)
      && Leads(SlotName("disk/", i, "used"), DISKS + i * DISK_SLOT_SIZE + DISK_USED_SPACE, 8)
      && Leads(SlotName("disk/", i, "free"), DISKS + i * DISK_SLOT_SIZE + DISK_FREE_SPACE, 8)
      && Leads(SlotName("disk/", i, "fs"), DISKS + i * DISK_SLOT_SIZE + DISK_FS, 16)
  {
    hide Schema, Leads, Filled, SlotName, Published;
    SlotsArePublished();
    SlotLeads(Disks(), 4, i, Text("label", DISK_LABEL, 32));
    SlotLeads(Disks(), 4, i, Eight("total", DISK_TOTAL_SIZE));
    SlotLeads(Disks(), 4, i, Eight("used", DISK_USED_SPACE));
    SlotLeads(Disks(), 4, i, Eight("free", DISK_FREE_SPACE));
    SlotLeads(Disks(), 4, i, Text("fs", DISK_FS, 16));
  }

  /** So is each member of a sensor's slot. */
  lemma SensorNamesLead(i: nat)
    requires i < 10
    ensures Leads(SlotName("sensor/", i, "name"), TEMPERATURES + i * TEMP_SLOT_SIZE + TEMP_NAME, 64)
    ensures Leads(SlotName("sensor/", i, "value"), TEMPERATURES + i * TEMP_SLOT_SIZE + TEMP_VALUE, 4)
  {
    hide Schema, Leads, Filled, SlotName, Published;
    SlotsArePublished();
    SlotLeads(Temperatures(), 10, i, Text("name", TEMP_NAME, 64));
    SlotLeads(Temperatures(), 10, i, Float("value", TEMP_VALUE));
  }

  lemma DiskIdentity()
    ensures Text("model", PHYS_MODEL, 64) in PhysFields() && Text("serial", PHYS_SERIAL, 64) in PhysFields()
    ensures Eight("capacity", PHYS_CAPACITY) in PhysFields() && Text("interface", PHYS_INTERFACE_TYPE, 16) in PhysFields()
  {
  }

  /** And each member of a physical disk's slot. */
  lemma PhysNamesLead(i: nat)
    requires i < 8
    ensures
      && Leads(SlotName("phys/", i, "model"), PHYSICAL_DISKS + i * PHYS_SLOT_SIZE + PHYS_MODEL, 64)
      && Leads(SlotName("phys/", i, "serial"), PHYSICAL_DISKS + i * PHYS_SLOT_SIZE + PHYS_SERIAL, 64)
      && Leads(SlotName("phys/", i, "capacity"), PHYSICAL_DISKS + i * PHYS_SLOT_SIZE + PHYS_CAPACITY, 8)
      && Leads(SlotName("phys/", i, "interface"), PHYSICAL_DISKS + i * PHYS_SLOT_SIZE + PHYS_INTERFACE_TYPE, 16)
  {
    hide Schema, Leads, Filled, SlotName, Published, PhysFields;
    SlotsArePublished();
    DiskIdentity();
    SlotLeads(PhysicalDisks(), 8, i, Text("model", PHYS_MODEL, 64));
    SlotLeads(PhysicalDisks(), 8, i, Text("serial", PHYS_SERIAL, 64));
    SlotLeads(PhysicalDisks(), 8, i, Eight("capacity", PHYS_CAPACITY));
    SlotLeads(PhysicalDisks(), 8, i, Text("interface", PHYS_INTERFACE_TYPE, 16));
  }

  /** With what SMART says of it. */
  lemma SmartNamesLead(i: nat)
    requires i < 8
    ensures
      && Leads(SlotName("phys/", i, "temperature"), PHYSICAL_DISKS + i * PHYS_SLOT_SIZE + PHYS_TEMPERATURE, 4)
      && Leads(SlotName("phys/", i, "health"), PHYSICAL_DISKS + i * PHYS_SLOT_SIZE + PHYS_HEALTH_PERCENT, 4)
      && Leads(SlotName("phys/", i, "smartSupported"), PHYSICAL_DISKS + i * PHYS_SLOT_SIZE + PHYS_SMART_SUPPORTED, 1)
      && Leads(SlotName("phys/", i, "attrCount"), PHYSICAL_DISKS + i * PHYS_SLOT_SIZE + PHYS_ATTR_COUNT, 4)
      && Leads(SlotName("phys/", i, "attrsJson"), PHYSICAL_DISKS + i * PHYS_SLOT_SIZE + PHYS_ATTRS_JSON, 4096)
  {
    hide Schema, Leads, Filled, SlotName, Published;
    SlotsArePublished();
    SlotLeads(PhysicalDisks(), 8, i, Float("temperature", PHYS_TEMPERATURE));
    SlotLeads(PhysicalDisks(), 8, i, Float("health", PHYS_HEALTH_PERCENT));
    SlotLeads(PhysicalDisks(), 8, i, Flag("smartSupported", PHYS_SMART_SUPPORTED));
    SlotLeads(PhysicalDisks(), 8, i, Signed("attrCount", PHYS_ATTR_COUNT));
    SlotLeads(PhysicalDisks(), 8, i, Text("attrsJson", PHYS_ATTRS_JSON, 4096));
  }

  // ----- attributes all the way ---------------------------------------------------

  /**
   All the way: attributes that are stored are counted, and their text, found under its name and
   read as JSON, spells each of them, when no shown text holds a control character.
   */
  lemma AttributesAreReadByName(
    fields: map<seq<Byte>, FieldDef>, m: seq<Byte>, i: nat, attributes: seq<SmartJson.Attribute>, k: nat)
    requires |m| == BLOCK_SIZE && i < 8 && Storable(attributes) && SmartJsonLaws.AllClean(attributes)
    requires k < |attributes| && Told(fields)
    ensures var r := WithAttributes(m, i, attributes);
      && SignedUnder(fields, r, SlotName("phys/", i, "attrCount")) == Some(|attributes|)
      && exists text ::
           && TextUnder(fields, r, SlotName("phys/", i, "attrsJson")) == Some(Stored(text))
           && SmartJsonReads.Spells(text, k, attributes[k])
  {
    hide Told, SlotName, WithAttributes, SmartJson.Print, SmartJsonReads.Spells, SmartJsonLaws.AllClean, Stored, Under;
    DiskIsReadByName(fields, WithAttributes(m, i, attributes), i);
    AttributesAreStored(m, i, attributes);
    StoredCount(attributes);
    SmartJsonReads.AttributesReadBack(attributes, k);
  }
}
