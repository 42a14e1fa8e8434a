/**
 The shared block and the schema that describes it: where the packed block keeps each of
 its members, which of them the schema publishes under what name, and that the published
 fields are inside the block, apart from each other and told apart by their names.
 */
module BlockSchema {
  import opened Bytes
  import opened IPCData

  // ----- the packed block: each member starts where the one before it ends -------

  const DISK_LABEL := 0
  const DISK_TOTAL_SIZE := DISK_LABEL + 32
  const DISK_USED_SPACE := DISK_TOTAL_SIZE + 8
  const DISK_FREE_SPACE := DISK_USED_SPACE + 8
  const DISK_FS := DISK_FREE_SPACE + 8
  const DISK_SLOT_SIZE := DISK_FS + 16

  const NET_NAME := 0
  const NET_IP := NET_NAME + 32
  const NET_MAC := NET_IP + 16
  const NET_TYPE := NET_MAC + 18
  const NET_SPEED := NET_TYPE + 16
  const NET_DOWNLOAD_SPEED := NET_SPEED + 8
  const NET_UPLOAD_SPEED := NET_DOWNLOAD_SPEED + 8
  const NET_SLOT_SIZE := NET_UPLOAD_SPEED + 8

  const TEMP_NAME := 0
  const TEMP_VALUE := TEMP_NAME + 64
  const TEMP_SLOT_SIZE := TEMP_VALUE + 4

  const PHYS_MODEL := 0
  const PHYS_SERIAL := PHYS_MODEL + 64
  const PHYS_CAPACITY := PHYS_SERIAL + 64
  const PHYS_INTERFACE_TYPE := PHYS_CAPACITY + 8
  const PHYS_TEMPERATURE := PHYS_INTERFACE_TYPE + 16
  const PHYS_HEALTH_PERCENT := PHYS_TEMPERATURE + 4
  const PHYS_SMART_SUPPORTED := PHYS_HEALTH_PERCENT + 4
  const PHYS_ATTR_COUNT := PHYS_SMART_SUPPORTED + 1
  const PHYS_ATTRS_JSON := PHYS_ATTR_COUNT + 4
  const PHYS_SLOT_SIZE := PHYS_ATTRS_JSON + 4096

  const WRITE_SEQUENCE := 0
  const CPU_NAME := WRITE_SEQUENCE + 4
  const PHYSICAL_CORES := CPU_NAME + 64
  const LOGICAL_CORES := PHYSICAL_CORES + 1
  const PERFORMANCE_CORES := LOGICAL_CORES + 1
  const EFFICIENCY_CORES := PERFORMANCE_CORES + 1
  const CPU_USAGE := EFFICIENCY_CORES + 1
  const P_CORE_FREQ := CPU_USAGE + 4
  const E_CORE_FREQ := P_CORE_FREQ + 4
  const CPU_TEMP := E_CORE_FREQ + 4
  const HYPER_THREADING := CPU_TEMP + 4
  const VIRTUALIZATION := HYPER_THREADING + 1
  const CPU_SAMPLE_INTERVAL_MS := VIRTUALIZATION + 1
  const TIMESTAMP := CPU_SAMPLE_INTERVAL_MS + 4
  const TOTAL_MEMORY := TIMESTAMP + 20
  const USED_MEMORY := TOTAL_MEMORY + 8
  const AVAILABLE_MEMORY := USED_MEMORY + 8
  const COMPRESSED_MEMORY := AVAILABLE_MEMORY + 8
  const SWAP_USED := COMPRESSED_MEMORY + 8
  const SWAP_TOTAL := SWAP_USED + 8
  const RAM_SPEED := SWAP_TOTAL + 8
  const RAM_TYPE := RAM_SPEED + 4
  const BATTERY_PERCENT := RAM_TYPE + 32
  const AC_ONLINE := BATTERY_PERCENT + 4
  const CPU_POWER := AC_ONLINE + 1
  const GPU_POWER := CPU_POWER + 4
  const ANE_POWER := GPU_POWER + 4
  const OS_VERSION := ANE_POWER + 4
  const HARDWARE_MODEL := OS_VERSION + 128
  const GPU_NAME := HARDWARE_MODEL + 128
  const GPU_BRAND := GPU_NAME + 48
  const GPU_MEMORY := GPU_BRAND + 32
  const GPU_MEMORY_PERCENT := GPU_MEMORY + 8
  const GPU_USAGE := GPU_MEMORY_PERCENT + 4
  const GPU_TEMP := GPU_USAGE + 4
  const GPU_FREQ := GPU_TEMP + 4
  const GPU_IS_VIRTUAL := GPU_FREQ + 4
  const DISKS := GPU_IS_VIRTUAL + 1
  const DISK_COUNT := DISKS + 4 * DISK_SLOT_SIZE
  const ADAPTERS := DISK_COUNT + 1
  const ADAPTER_COUNT := ADAPTERS + 4 * NET_SLOT_SIZE
  const TEMPERATURES := ADAPTER_COUNT + 1
  const TEMP_COUNT := TEMPERATURES + 10 * TEMP_SLOT_SIZE
  const PHYSICAL_DISKS := TEMP_COUNT + 1
  const PHYS_DISK_COUNT := PHYSICAL_DISKS + 8 * PHYS_SLOT_SIZE
  const WIFI_SSID := PHYS_DISK_COUNT + 1
  const WIFI_RSSI := WIFI_SSID + 32
  const WIFI_CHANNEL := WIFI_RSSI + 4
  const WIFI_SECURITY := WIFI_CHANNEL + 4
  const WIFI_POWER_ON := WIFI_SECURITY + 16
  const WIFI_IS_CONNECTED := WIFI_POWER_ON + 1
  const BLUETOOTH_POWER_ON := WIFI_IS_CONNECTED + 1
  const BLUETOOTH_DEVICE_COUNT := BLUETOOTH_POWER_ON + 1
  const BLUETOOTH_NAME := BLUETOOTH_DEVICE_COUNT + 4
  const BLOCK_SIZE := BLUETOOTH_NAME + 64

  // ----- the schema -------------------------------------------------------------

  const UINT8 := 1
  const UINT32 := 5
  const INT32 := 6
  const UINT64 := 7
  const FLOAT32 := 9
  const BOOL := 11
  const STRING := 12

  datatype Entry = Entry(name: string, kind: nat, offset: nat, size: nat)

  function Text(name: string, offset: nat, size: nat): Entry { Entry(name, STRING, offset, size) }
  function One(name: string, offset: nat): Entry { Entry(name, UINT8, offset, 1) }
  function Four(name: string, offset: nat): Entry { Entry(name, UINT32, offset, 4) }
  function Eight(name: string, offset: nat): Entry { Entry(name, UINT64, offset, 8) }
  function Signed(name: string, offset: nat): Entry { Entry(name, INT32, offset, 4) }
  function Float(name: string, offset: nat): Entry { Entry(name, FLOAT32, offset, 4) }
  function Flag(name: string, offset: nat): Entry { Entry(name, BOOL, offset, 1) }

  function Cpu(): (es: seq<Entry>)
    ensures |es| == 12
  {
    [Text("cpu/name", CPU_NAME, 64),
     One("cpu/cores/physical", PHYSICAL_CORES),
     One("cpu/cores/logical", LOGICAL_CORES),
     One("cpu/cores/performance", PERFORMANCE_CORES),
     One("cpu/cores/efficiency", EFFICIENCY_CORES),
     Float("cpu/usage", CPU_USAGE),
     Float("cpu/freq/pCore", P_CORE_FREQ),
     Float("cpu/freq/eCore", E_CORE_FREQ),
     Float("cpu/temperature", CPU_TEMP),
     Flag("cpu/hyperThreading", HYPER_THREADING),
     Flag("cpu/virtualization", VIRTUALIZATION),
     Float("cpu/sampleIntervalMs", CPU_SAMPLE_INTERVAL_MS)]
  }

  function Memory(): (es: seq<Entry>)
    ensures |es| == 8
  {
    [Eight("memory/total", TOTAL_MEMORY),
     Eight("memory/used", USED_MEMORY),
     Eight("memory/available", AVAILABLE_MEMORY),
     Eight("memory/compressed", COMPRESSED_MEMORY),
     Eight("memory/swapUsed", SWAP_USED),
     Eight("memory/swapTotal", SWAP_TOTAL),
     Four("memory/ramSpeed", RAM_SPEED),
     Text("memory/ramType", RAM_TYPE, 32)]
  }

  function Battery(): (es: seq<Entry>)
    ensures |es| == 2
  {
    [Signed("battery/percent", BATTERY_PERCENT),
     Flag("battery/acOnline", AC_ONLINE)]
  }

  function Power(): (es: seq<Entry>)
    ensures |es| == 3
  {
    [Float("power/cpu", CPU_POWER),
     Float("power/gpu", GPU_POWER),
     Float("power/ane", ANE_POWER)]
  }

  function Os(): (es: seq<Entry>)
    ensures |es| == 2
  {
    [Text("os/version", OS_VERSION, 128),
     Text("os/model", HARDWARE_MODEL, 128)]
  }

  function Gpu(): (es: seq<Entry>)
    ensures |es| == 8
  {
    [Text("gpu/0/name", GPU_NAME, 48),
     Text("gpu/0/brand", GPU_BRAND, 32),
     Eight("gpu/0/memory", GPU_MEMORY),
     Float("gpu/0/memoryPercent", GPU_MEMORY_PERCENT),
     Float("gpu/0/usage", GPU_USAGE),
     Float("gpu/0/temperature", GPU_TEMP),
     Float("gpu/freq", GPU_FREQ),
     Flag("gpu/0/isVirtual", GPU_IS_VIRTUAL)]
  }

  function DiskFields(): (es: seq<Entry>)
    ensures |es| == 5
  {
    [Text("label", DISK_LABEL, 32),
     Eight("total", DISK_TOTAL_SIZE),
     Eight("used", DISK_USED_SPACE),
     Eight("free", DISK_FREE_SPACE),
     Text("fs", DISK_FS, 16)]
  }

  function NetFields(): (es: seq<Entry>)
    ensures |es| == 7
  {
    [Text("name", NET_NAME, 32),
     Text("ip", NET_IP, 16),
     Text("mac", NET_MAC, 18),
     Text("type", NET_TYPE, 16),
     Eight("speed", NET_SPEED),
     Eight("downloadSpeed", NET_DOWNLOAD_SPEED),
     Eight("uploadSpeed", NET_UPLOAD_SPEED)]
  }

  function TempFields(): (es: seq<Entry>)
    ensures |es| == 2
  {
    [Text("name", TEMP_NAME, 64),
     Float("value", TEMP_VALUE)]
  }

  function PhysFields(): (es: seq<Entry>)
    ensures |es| == 9
  {
    [Text("model", PHYS_MODEL, 64),
     Text("serial", PHYS_SERIAL, 64),
     Eight("capacity", PHYS_CAPACITY),
     Text("interface", PHYS_INTERFACE_TYPE, 16),
     Float("temperature", PHYS_TEMPERATURE),
     Float("health", PHYS_HEALTH_PERCENT),
     Flag("smartSupported", PHYS_SMART_SUPPORTED),
     Signed("attrCount", PHYS_ATTR_COUNT),
     Text("attrsJson", PHYS_ATTRS_JSON, 4096)]
  }

  function Wifi(): (es: seq<Entry>)
    ensures |es| == 6
  {
    [Text("wifi/ssid", WIFI_SSID, 32),
     Signed("wifi/rssi", WIFI_RSSI),
     Signed("wifi/channel", WIFI_CHANNEL),
     Text("wifi/security", WIFI_SECURITY, 16),
     Flag("wifi/powerOn", WIFI_POWER_ON),
     Flag("wifi/isConnected", WIFI_IS_CONNECTED)]
  }

  function Bluetooth(): (es: seq<Entry>)
    ensures |es| == 3
  {
    [Flag("bluetooth/powerOn", BLUETOOTH_POWER_ON),
     Signed("bluetooth/deviceCount", BLUETOOTH_DEVICE_COUNT),
     Text("bluetooth/name", BLUETOOTH_NAME, 64)]
  }

  /** A run of like slots: `prefix` and the slot's number go before each name, offsets count from the slot. */
  datatype Slots = Slots(prefix: string, base: nat, stride: nat, fields: seq<Entry>)

  function Disks(): Slots { Slots("disk/", DISKS, DISK_SLOT_SIZE, DiskFields()) }
  function Adapters(): Slots { Slots("net/", ADAPTERS, NET_SLOT_SIZE, NetFields()) }
  function Temperatures(): Slots { Slots("sensor/", TEMPERATURES, TEMP_SLOT_SIZE, TempFields()) }
  function PhysicalDisks(): Slots { Slots("phys/", PHYSICAL_DISKS, PHYS_SLOT_SIZE, PhysFields()) }

  function Digit(i: nat): char
    requires i < 10
  {
    ('0' as int + i) as char
  }

  function InSlot(s: Slots, i: nat, e: Entry): Entry
    requires i < 10
  {
    Entry(s.prefix + [Digit(i)] + "/" + e.name, e.kind, s.base + i * s.stride + e.offset, e.size)
  }

  function Slot(s: Slots, i: nat): (es: seq<Entry>)
    requires i < 10
    ensures |es| == |s.fields|
  {
    seq(|s.fields|, k requires 0 <= k < |s.fields| => InSlot(s, i, s.fields[k]))
  }

  function Filled(s: Slots, n: nat): (es: seq<Entry>)
    requires n <= 10
    ensures |es| == n * |s.fields|
  {
    if n == 0 then [] else Filled(s, n - 1) + Slot(s, n - 1)
  }

  function Head(): seq<Entry> { Cpu() + Memory() + Battery() + Power() + Os() + Gpu() }

  function Middle(): seq<Entry> {
    Filled(Disks(), 4) + Filled(Adapters(), 4) + Filled(Temperatures(), 10) + Filled(PhysicalDisks(), 8)
  }

  function Tail(): seq<Entry> { Wifi() + Bluetooth() }

  function Schema(): (es: seq<Entry>)
    ensures |es| == 184
  {
    Head() + Middle() + Tail()
  }

  // ----- fields inside the block and apart ---------------------------------------

  /** In ascending order between two offsets, none overlapping the next. */
  predicate Placed(es: seq<Entry>, lo: nat, hi: nat) {
    && lo <= hi
    && (forall i | 0 <= i < |es| :: lo <= es[i].offset && es[i].size > 0 && es[i].offset + es[i].size <= hi && es[i].kind <= STRING)
    && (forall i, j | 0 <= i < j < |es| :: es[i].offset + es[i].size <= es[j].offset)
  }

  lemma PlacedConcat(a: seq<Entry>, b: seq<Entry>, lo: nat, mid: nat, low: nat, hi: nat)
    requires Placed(a, lo, mid) && Placed(b, low, hi) && mid <= low
    ensures Placed(a + b, lo, hi)
  {
  }

  lemma SlotPlaced(s: Slots, i: nat)
    requires i < 10 && Placed(s.fields, 0, s.stride)
    ensures Placed(Slot(s, i), s.base + i * s.stride, s.base + (i + 1) * s.stride)
  {
  }

  lemma {:induction false} FilledPlaced(s: Slots, n: nat)
    requires n <= 10 && Placed(s.fields, 0, s.stride)
    ensures Placed(Filled(s, n), s.base, s.base + n * s.stride)
  {
    if n > 0 {
      FilledPlaced(s, n - 1);
      SlotPlaced(s, n - 1);
      var m := s.base + (n - 1) * s.stride;
      PlacedConcat(Filled(s, n - 1), Slot(s, n - 1), s.base, m, m, m + s.stride);
    }
  }

  lemma CpuPlaced()
    ensures Placed(Cpu(), CPU_NAME, TIMESTAMP)
  {
  }

  lemma MemoryPlaced()
    ensures Placed(Memory(), TOTAL_MEMORY, BATTERY_PERCENT)
  {
  }

  lemma GpuPlaced()
    ensures Placed(Gpu(), GPU_NAME, DISKS)
  {
  }

  lemma SmallPlaced()
    ensures Placed(Battery(), BATTERY_PERCENT, CPU_POWER) && Placed(Power(), CPU_POWER, OS_VERSION)
    ensures Placed(Os(), OS_VERSION, GPU_NAME)
    ensures Placed(Wifi(), WIFI_SSID, BLUETOOTH_POWER_ON) && Placed(Bluetooth(), BLUETOOTH_POWER_ON, BLOCK_SIZE)
  {
  }

  lemma SlotFieldsPlaced()
    ensures Placed(DiskFields(), 0, DISK_SLOT_SIZE) && Placed(NetFields(), 0, NET_SLOT_SIZE)
    ensures Placed(TempFields(), 0, TEMP_SLOT_SIZE) && Placed(PhysFields(), 0, PHYS_SLOT_SIZE)
  {
  }

  /** The block's fields lie inside it in ascending order. */
  lemma SchemaPlaced()
    ensures Placed(Schema(), CPU_NAME, BLOCK_SIZE)
  {
    hide Placed, Cpu, Memory, Battery, Power, Os, Gpu, Wifi, Bluetooth, Filled;
    HeadPlaced();
    MiddlePlaced();
    SmallPlaced();
    PlacedConcat(Wifi(), Bluetooth(), WIFI_SSID, BLUETOOTH_POWER_ON, BLUETOOTH_POWER_ON, BLOCK_SIZE);
    PlacedConcat(Head(), Middle(), CPU_NAME, DISKS, DISKS, PHYS_DISK_COUNT);
    PlacedConcat(Head() + Middle(), Tail(), CPU_NAME, PHYS_DISK_COUNT, WIFI_SSID, BLOCK_SIZE);
  }

  lemma HeadPlaced()
    ensures Placed(Head(), CPU_NAME, DISKS)
  {
    hide Placed, Cpu, Memory, Battery, Power, Os, Gpu;
    CpuPlaced();
    MemoryPlaced();
    GpuPlaced();
    SmallPlaced();
    PlacedConcat(Cpu(), Memory(), CPU_NAME, TIMESTAMP, TOTAL_MEMORY, BATTERY_PERCENT);
    PlacedConcat(Cpu() + Memory(), Battery(), CPU_NAME, BATTERY_PERCENT, BATTERY_PERCENT, CPU_POWER);
    PlacedConcat(Cpu() + Memory() + Battery(), Power(), CPU_NAME, CPU_POWER, CPU_POWER, OS_VERSION);
    PlacedConcat(Cpu() + Memory() + Battery() + Power(), Os(), CPU_NAME, OS_VERSION, OS_VERSION, GPU_NAME);
    PlacedConcat(Cpu() + Memory() + Battery() + Power() + Os(), Gpu(), CPU_NAME, GPU_NAME, GPU_NAME, DISKS);
  }

  lemma MiddlePlaced()
    ensures Placed(Middle(), DISKS, PHYS_DISK_COUNT)
  {
    hide Placed, DiskFields, NetFields, TempFields, PhysFields, Filled;
    SlotFieldsPlaced();
    FilledPlaced(Disks(), 4);
    FilledPlaced(Adapters(), 4);
    FilledPlaced(Temperatures(), 10);
    FilledPlaced(PhysicalDisks(), 8);
    var a, b, c, d := Filled(Disks(), 4), Filled(Adapters(), 4), Filled(Temperatures(), 10), Filled(PhysicalDisks(), 8);
    PlacedConcat(a, b, DISKS, DISK_COUNT, ADAPTERS, ADAPTER_COUNT);
    PlacedConcat(a + b, c, DISKS, ADAPTER_COUNT, TEMPERATURES, TEMP_COUNT);
    PlacedConcat(a + b + c, d, DISKS, TEMP_COUNT, PHYSICAL_DISKS, PHYS_DISK_COUNT);
  }

  // ----- names ------------------------------------------------------------------

  predicate Plain(s: string) { forall k | 0 <= k < |s| :: 0 < s[k] as int < 128 }

  /** The first two letters of a name tell which family it belongs to. */
  function Family(n: string): nat
    requires |n| >= 2
  {
    match n[0]
    case 'c' => 0 case 'm' => 1
    case 'b' => if n[1] == 'a' then 2 else 11
    case 'p' => if n[1] == 'o' then 3 else 9
    case 'o' => 4 case 'g' => 5 case 'd' => 6 case 'n' => 7 case 's' => 8 case _ => 10
  }

  predicate Distinct(es: seq<Entry>) { forall i, j | 0 <= i < j < |es| :: es[i].name != es[j].name }

  predicate Named(es: seq<Entry>, lo: nat, hi: nat) {
    && (forall i | 0 <= i < |es| :: 2 <= |es[i].name| <= 31 && Plain(es[i].name) && lo <= Family(es[i].name) < hi)
    && Distinct(es)
  }

  lemma NamedConcat(a: seq<Entry>, b: seq<Entry>, lo: nat, mid: nat, hi: nat)
    requires lo <= mid <= hi && Named(a, lo, mid) && Named(b, mid, hi)
    ensures Named(a + b, lo, hi)
  {
    hide Plain, Family;
  }

  /** Like `Named`, for the names within a slot. */
  predicate NamedFields(es: seq<Entry>) {
    && (forall i | 0 <= i < |es| :: |es[i].name| <= 20 && Plain(es[i].name))
    && Distinct(es)
  }

  lemma CpuWifiDistinct()
    ensures Distinct(Cpu()) && Distinct(Wifi())
  {
  }

  lemma MemoryGpuDistinct()
    ensures Distinct(Memory()) && Distinct(Gpu())
  {
  }

  lemma CpuPlain1()
    ensures Plain("cpu/name") && Plain("cpu/cores/physical") && Plain("cpu/cores/logical")
    ensures Plain("cpu/cores/performance") && Plain("cpu/cores/efficiency") && Plain("cpu/usage")
  {
  }

  lemma CpuPlain2()
    ensures Plain("cpu/freq/pCore") && Plain("cpu/freq/eCore") && Plain("cpu/temperature")
    ensures Plain("cpu/hyperThreading") && Plain("cpu/virtualization") && Plain("cpu/sampleIntervalMs")
  {
  }

  lemma MemoryPlain()
    ensures Plain("memory/total") && Plain("memory/used") && Plain("memory/available")
    ensures Plain("memory/compressed")
    ensures Plain("memory/swapUsed") && Plain("memory/swapTotal") && Plain("memory/ramSpeed")
    ensures Plain("memory/ramType")
  {
  }

  lemma BatteryPlain()
    ensures Plain("battery/percent") && Plain("battery/acOnline")
  {
  }

  lemma PowerPlain()
    ensures Plain("power/cpu") && Plain("power/gpu") && Plain("power/ane")
  {
  }

  lemma OsPlain()
    ensures Plain("os/version") && Plain("os/model")
  {
  }

  lemma GpuPlain()
    ensures Plain("gpu/0/name") && Plain("gpu/0/brand") && Plain("gpu/0/memory")
    ensures Plain("gpu/0/memoryPercent")
    ensures Plain("gpu/0/usage") && Plain("gpu/0/temperature") && Plain("gpu/freq")
    ensures Plain("gpu/0/isVirtual")
  {
  }

  lemma DiskFieldsPlain()
    ensures Plain("label") && Plain("total") && Plain("used")
    ensures Plain("free") && Plain("fs")
  {
  }

  lemma NetFieldsPlain()
    ensures Plain("name") && Plain("ip") && Plain("mac")
    ensures Plain("type")
    ensures Plain("speed") && Plain("downloadSpeed") && Plain("uploadSpeed")
  {
  }

  lemma TempFieldsPlain()
    ensures Plain("name") && Plain("value")
  {
  }

  lemma PhysFieldsPlain()
    ensures Plain("model") && Plain("serial") && Plain("capacity")
    ensures Plain("interface") && Plain("temperature")
    ensures Plain("health") && Plain("smartSupported") && Plain("attrCount")
    ensures Plain("attrsJson")
  {
  }

  lemma WifiPlain()
    ensures Plain("wifi/ssid") && Plain("wifi/rssi") && Plain("wifi/channel")
    ensures Plain("wifi/security") && Plain("wifi/powerOn") && Plain("wifi/isConnected")
  {
  }

  lemma BluetoothNames()
    ensures Plain("bluetooth/powerOn") && Plain("bluetooth/deviceCount") && Plain("bluetooth/name")
    ensures Distinct(Bluetooth())
  {
  }

  lemma CpuMemoryNamed()
    ensures Named(Cpu(), 0, 1)
    ensures Named(Memory(), 1, 2)
    ensures Named(Battery(), 2, 3)
  {
    hide Plain;
    CpuPlain1();
    CpuPlain2();
    CpuWifiDistinct();
    MemoryPlain();
    MemoryGpuDistinct();
    BatteryPlain();
  }

  lemma GpuPowerNamed()
    ensures Named(Power(), 3, 4)
    ensures Named(Os(), 4, 5)
    ensures Named(Gpu(), 5, 6)
  {
    hide Plain;
    PowerPlain();
    OsPlain();
    GpuPlain();
    MemoryGpuDistinct();
  }

  lemma RadiosNamed()
    ensures Named(Wifi(), 10, 11)
    ensures Named(Bluetooth(), 11, 12)
  {
    hide Plain, Distinct;
    WifiPlain();
    CpuWifiDistinct();
    BluetoothNames();
  }

  lemma SlotFieldsNamed()
    ensures NamedFields(DiskFields())
    ensures NamedFields(NetFields())
    ensures NamedFields(TempFields())
    ensures NamedFields(PhysFields())
  {
    hide Plain;
    DiskFieldsPlain();
    NetFieldsPlain();
    TempFieldsPlain();
    PhysFieldsPlain();
  }

  /** What `snprintf` puts before the names of a slot keeps them apart from every other slot's. */
  predicate SlotNamed(s: Slots, es: seq<Entry>, lo: nat, hi: nat)
    requires lo <= hi <= 10 && 2 <= |s.prefix| <= 8
  {
    && Named(es, Family(s.prefix), Family(s.prefix) + 1)
    && forall i | 0 <= i < |es| ::
         |es[i].name| > |s.prefix| && '0' as int + lo <= es[i].name[|s.prefix|] as int < '0' as int + hi
  }

  lemma NameInSlot(s: Slots, i: nat, e: Entry)
    requires i < 10 && 2 <= |s.prefix| <= 8 && Plain(s.prefix) && Plain(e.name) && |e.name| <= 20
    ensures var n := InSlot(s, i, e).name;
      && 2 <= |n| <= 31 && Plain(n) && Family(n) == Family(s.prefix) && n[|s.prefix|] == Digit(i)
      && |n| > |s.prefix| + 1 && n[|s.prefix| + 2..] == e.name
  {
  }

  lemma OneSlotNamed(s: Slots, i: nat)
    requires i < 10 && 2 <= |s.prefix| <= 8 && Plain(s.prefix) && NamedFields(s.fields)
    ensures SlotNamed(s, Slot(s, i), i, i + 1)
  {
    hide Plain, Family, InSlot;
    var es := Slot(s, i);
    forall k | 0 <= k < |es|
      ensures var n := es[k].name;
        && 2 <= |n| <= 31 && Plain(n) && Family(n) == Family(s.prefix) && |n| > |s.prefix| + 1
        && n[|s.prefix|] == Digit(i) && n[|s.prefix| + 2..] == s.fields[k].name
    {
      NameInSlot(s, i, s.fields[k]);
    }
    forall j, k | 0 <= j < k < |es|
      ensures es[j].name != es[k].name
    {
      assert s.fields[j].name != s.fields[k].name;
    }
  }

  lemma {:induction false} FilledNamed(s: Slots, n: nat)
    requires n <= 10 && 2 <= |s.prefix| <= 8 && Plain(s.prefix) && NamedFields(s.fields)
    ensures SlotNamed(s, Filled(s, n), 0, n)
  {
    hide Plain, Family, Slot, NamedFields;
    if n > 0 {
      FilledNamed(s, n - 1);
      OneSlotNamed(s, n - 1);
      SlotNamedConcat(s, Filled(s, n - 1), Slot(s, n - 1), n - 1);
    }
  }

  lemma SlotNamedConcat(s: Slots, a: seq<Entry>, b: seq<Entry>, n: nat)
    requires n < 10 && 2 <= |s.prefix| <= 8 && SlotNamed(s, a, 0, n) && SlotNamed(s, b, n, n + 1)
    ensures SlotNamed(s, a + b, 0, n + 1)
  {
    hide Plain, Family;
  }

  lemma PrefixesPlain()
    ensures Plain("disk/") && Plain("net/") && Plain("sensor/") && Plain("phys/")
  {
  }

  lemma MiddleNamed()
    ensures Named(Middle(), 6, 10)
  {
    hide Plain, Named, NamedFields, DiskFields, NetFields, TempFields, PhysFields, Filled;
    PrefixesPlain();
    SlotFieldsNamed();
    FilledNamed(Disks(), 4);
    FilledNamed(Adapters(), 4);
    FilledNamed(Temperatures(), 10);
    FilledNamed(PhysicalDisks(), 8);
    var a, b, c, d := Filled(Disks(), 4), Filled(Adapters(), 4), Filled(Temperatures(), 10), Filled(PhysicalDisks(), 8);
    NamedConcat(a, b, 6, 7, 8);
    NamedConcat(a + b, c, 6, 8, 9);
    NamedConcat(a + b + c, d, 6, 9, 10);
  }

  lemma HeadNamed()
    ensures Named(Head(), 0, 6)
  {
    hide Plain, Named, Cpu, Memory, Battery, Power, Os, Gpu;
    CpuMemoryNamed();
    GpuPowerNamed();
    NamedConcat(Cpu(), Memory(), 0, 1, 2);
    NamedConcat(Cpu() + Memory(), Battery(), 0, 2, 3);
    NamedConcat(Cpu() + Memory() + Battery(), Power(), 0, 3, 4);
    NamedConcat(Cpu() + Memory() + Battery() + Power(), Os(), 0, 4, 5);
    NamedConcat(Cpu() + Memory() + Battery() + Power() + Os(), Gpu(), 0, 5, 6);
  }

  /** No two fields of the schema have the same name, and every name fits its buffer with its terminator. */
  lemma SchemaNamed()
    ensures Distinct(Schema())
    ensures forall k | 0 <= k < |Schema()| :: |Schema()[k].name| <= 31 && Plain(Schema()[k].name)
  {
    hide Plain, Named, Distinct, Head, Middle, Wifi, Bluetooth;
    HeadNamed();
    MiddleNamed();
    RadiosNamed();
    NamedConcat(Wifi(), Bluetooth(), 10, 11, 12);
    NamedConcat(Head(), Middle(), 0, 6, 10);
    NamedConcat(Head() + Middle(), Tail(), 0, 10, 12);
    NamedMeans(Schema(), 0, 12);
  }

  lemma NamedMeans(es: seq<Entry>, lo: nat, hi: nat)
    requires Named(es, lo, hi)
    ensures Distinct(es) && forall k | 0 <= k < |es| :: |es[k].name| <= 31 && Plain(es[k].name)
  {
  }

  /** Field `j` of slot `i` comes `i` slots and `j` fields into its run. */
  lemma {:induction false} FilledAt(s: Slots, n: nat, i: nat, j: nat)
    requires i < n <= 10 && j < |s.fields|
    ensures 0 <= i * |s.fields| + j < |Filled(s, n)|
    ensures Filled(s, n)[i * |s.fields| + j] == InSlot(s, i, s.fields[j])
  {
    hide InSlot;
    assert Filled(s, n) == Filled(s, n - 1) + Slot(s, n - 1);
    assert i * |s.fields| + j < (i + 1) * |s.fields|;
    if i == n - 1 {
      assert Filled(s, n)[i * |s.fields| + j] == Slot(s, i)[j];
    } else {
      FilledAt(s, n - 1, i, j);
    }
  }

  /** Where in the schema the fields of network slot `i` and of physical disk `i` are. */
  lemma NetFieldAt(i: nat, j: nat)
    requires i < 4 && j < 7
    ensures Schema()[55 + 7 * i + j] == InSlot(Adapters(), i, NetFields()[j])
  {
    hide InSlot, Filled, Cpu, Memory, Battery, Power, Os, Gpu, DiskFields, NetFields, TempFields, PhysFields;
    FilledAt(Adapters(), 4, i, j);
  }

  lemma PhysFieldAt(i: nat, j: nat)
    requires i < 8 && j < 9
    ensures Schema()[103 + 9 * i + j] == InSlot(PhysicalDisks(), i, PhysFields()[j])
  {
    hide InSlot, Filled, Cpu, Memory, Battery, Power, Os, Gpu, DiskFields, NetFields, TempFields, PhysFields;
    FilledAt(PhysicalDisks(), 8, i, j);
  }

  // ----- the definitions the server sends ---------------------------------------

  function Ascii(s: string): (b: seq<Byte>)
    ensures |b| == |s|
  {
    seq(|s|, k requires 0 <= k < |s| => s[k] as int % 256)
  }

  lemma AsciiInjective(s: string, t: string)
    requires Plain(s) && Plain(t) && Ascii(s) == Ascii(t)
    ensures s == t
  {
    forall k | 0 <= k < |s|
      ensures s[k] == t[k]
    {
      assert Ascii(s)[k] == s[k] as int && Ascii(t)[k] == t[k] as int;
    }
  }

  /** One `add`: a zeroed definition with the place, the type and the name filled in. */
  function Def(e: Entry): FieldDef {
    FieldDef(0, e.kind, 0, e.size, e.offset, 0, 0, 0, Zeros(4), Zeros(4),
             Strncpy(Zeros(IPC_FIELD_NAME_LEN), Ascii(e.name), IPC_FIELD_NAME_LEN - 1), Zeros(IPC_FIELD_UNITS_LEN))
  }

  function Defs(es: seq<Entry>): (fields: seq<FieldDef>)
    ensures |fields| == |es|
  {
    seq(|es|, k requires 0 <= k < |es| => Def(es[k]))
  }

  lemma KeyOfDef(e: Entry)
    requires |e.name| <= 31 && Plain(e.name)
    ensures Key(Def(e)) == Ascii(e.name)
  {
    assert 0 !in Ascii(e.name);
    StrncpyReads(Zeros(32), Ascii(e.name), 31);
  }

  /** A schema the handshake carries whole: it fits the wire, the client's limit and its map. */
  predicate Carried(es: seq<Entry>) {
    AllFit(Defs(es)) && |es| <= IPC_MAX_FIELDS && DistinctNames(Defs(es))
  }

  lemma SchemaIsCarried()
    ensures Carried(Schema())
    ensures forall k | 0 <= k < |Schema()| :: Key(Defs(Schema())[k]) == Ascii(Schema()[k].name)
  {
    hide Placed, Named, Plain, Schema, Ascii, Key, Strncpy, Zeros, Def;
    SchemaNamed();
    SchemaPlaced();
    forall k | 0 <= k < |Schema()|
      ensures FieldFits(Defs(Schema())[k]) && Key(Defs(Schema())[k]) == Ascii(Schema()[k].name)
    {
      KeyOfDef(Schema()[k]);
      DefFits(Schema(), k);
    }
    forall i, j | 0 <= i < j < |Schema()|
      ensures Key(Defs(Schema())[i]) != Key(Defs(Schema())[j])
    {
      if Ascii(Schema()[i].name) == Ascii(Schema()[j].name) {
        AsciiInjective(Schema()[i].name, Schema()[j].name);
      }
    }
  }

  lemma DefFits(es: seq<Entry>, k: nat)
    requires Placed(es, CPU_NAME, BLOCK_SIZE) && k < |es|
    ensures FieldFits(Def(es[k]))
  {
  }

  /** The schema the server builds, field by field and slot by slot. */
  method BuildIPCDataBlockSchema() returns (header: SchemaHeader, fields: seq<FieldDef>)
    ensures header == SchemaHeader(IPC_MAGIC, IPC_VERSION, 0, 0, BLOCK_SIZE, 0)
    ensures fields == Defs(Schema())
  {
    hide Def, Cpu, Memory, Battery, Power, Os, Gpu, Wifi, Bluetooth, Filled;
    header := SchemaHeader(IPC_MAGIC, IPC_VERSION, 0, 0, BLOCK_SIZE, 0);
    fields := AddAll([], Head());
    fields := AddSlots(fields, Disks(), 4);
    fields := AddSlots(fields, Adapters(), 4);
    fields := AddSlots(fields, Temperatures(), 10);
    fields := AddSlots(fields, PhysicalDisks(), 8);
    fields := AddAll(fields, Tail());
  }

  method AddAll(start: seq<FieldDef>, es: seq<Entry>) returns (fields: seq<FieldDef>)
    ensures fields == start + Defs(es)
  {
    hide Def;
    fields := start;
    for k := 0 to |es|
      invariant fields == start + Defs(es[..k])
    {
      fields := fields + [Def(es[k])];
      assert Defs(es[..k + 1]) == Defs(es[..k]) + [Def(es[k])];
    }
    assert es[..|es|] == es;
  }

  method AddSlots(start: seq<FieldDef>, s: Slots, n: nat) returns (fields: seq<FieldDef>)
    requires n <= 10
    ensures fields == start + Defs(Filled(s, n))
  {
    hide Def, Slot;
    fields := start;
    for i := 0 to n
      invariant fields == start + Defs(Filled(s, i))
    {
      fields := AddAll(fields, Slot(s, i));
      assert Defs(Filled(s, i + 1)) == Defs(Filled(s, i)) + Defs(Slot(s, i));
    }
  }
}
